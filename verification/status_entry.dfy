/** The per-file working-tree status projection (`GitStatusEntry`): the
    library's status flags are classified into an index label, a work-dir
    label, a combined label and the derived booleans, and the same
    classification decides which command buttons an entry offers. */
module StatusEntry {

  /** The status flags the library reports for one file. */
  datatype Flag =
    | NewInIndex | ModifiedInIndex | DeletedFromIndex | RenamedInIndex | TypeChangeInIndex
    | NewInWorkdir | ModifiedInWorkdir | DeletedFromWorkdir | RenamedInWorkdir | TypeChangeInWorkdir
    | Ignored | Conflicted

  /** One status entry: a path relative to the repository root and its flags. */
  datatype Entry = Entry(path: string, flags: set<Flag>)

  const Unmodified := "Unmodified"

  /** The five flags that describe a change recorded in the index. */
  const IndexFlags: set<Flag> :=
    {NewInIndex, ModifiedInIndex, DeletedFromIndex, RenamedInIndex, TypeChangeInIndex}

  /** The four work-dir flags that describe a change to a tracked file. */
  const WorkdirChangeFlags: set<Flag> :=
    {ModifiedInWorkdir, DeletedFromWorkdir, RenamedInWorkdir, TypeChangeInWorkdir}

  /** Facts about the label literals: two inequalities and the lengths,
      from which the pairwise distinctness of the seven labels follows. */
  lemma LabelsDistinct()
    ensures "Deleted" != "Renamed" && "TypeChange" != Unmodified
    ensures |"Added"| == 5 && |"Modified"| == 8 && |"Deleted"| == 7 && |"Renamed"| == 7
    ensures |"TypeChange"| == 10 && |"Untracked"| == 9 && |Unmodified| == 10
  {
  }

  /** The index label: the first set flag, in the order New, Modified,
      Deleted, Renamed, TypeChange, decides it. */
  function IndexStatus(f: set<Flag>): (r: string)
    ensures r in {"Added", "Modified", "Deleted", "Renamed", "TypeChange", Unmodified}
    ensures r == "Added" <==> NewInIndex in f
    ensures r == "Modified" <==> ModifiedInIndex in f && NewInIndex !in f
    ensures r == "Deleted" <==>
      DeletedFromIndex in f && NewInIndex !in f && ModifiedInIndex !in f
    ensures r == "Renamed" <==>
      RenamedInIndex in f && NewInIndex !in f && ModifiedInIndex !in f && DeletedFromIndex !in f
    ensures r == "TypeChange" <==>
      TypeChangeInIndex in f && NewInIndex !in f && ModifiedInIndex !in f && DeletedFromIndex !in f
      && RenamedInIndex !in f
    ensures r == Unmodified <==> forall x :: x in IndexFlags ==> x !in f
  {
    LabelsDistinct();
    if NewInIndex in f then "Added"
    else if ModifiedInIndex in f then "Modified"
    else if DeletedFromIndex in f then "Deleted"
    else if RenamedInIndex in f then "Renamed"
    else if TypeChangeInIndex in f then "TypeChange"
    else Unmodified
  }

  /** The work-dir label: the same cascade over the work-dir flags, with a
      new file reported as "Untracked" ahead of every other change. */
  function WorkDirStatus(f: set<Flag>): (r: string)
    ensures r in {"Untracked", "Modified", "Deleted", "Renamed", "TypeChange", Unmodified}
    ensures r == "Untracked" <==> NewInWorkdir in f
    ensures r == "Modified" <==> ModifiedInWorkdir in f && NewInWorkdir !in f
    ensures r == "Deleted" <==>
      DeletedFromWorkdir in f && NewInWorkdir !in f && ModifiedInWorkdir !in f
    ensures r == "Renamed" <==>
      RenamedInWorkdir in f && NewInWorkdir !in f && ModifiedInWorkdir !in f && DeletedFromWorkdir !in f
    ensures r == "TypeChange" <==>
      TypeChangeInWorkdir in f && NewInWorkdir !in f && ModifiedInWorkdir !in f
      && DeletedFromWorkdir !in f && RenamedInWorkdir !in f
    ensures r == Unmodified <==> NewInWorkdir !in f && forall x :: x in WorkdirChangeFlags ==> x !in f
  {
    LabelsDistinct();
    if NewInWorkdir in f then "Untracked"
    else if ModifiedInWorkdir in f then "Modified"
    else if DeletedFromWorkdir in f then "Deleted"
    else if RenamedInWorkdir in f then "Renamed"
    else if TypeChangeInWorkdir in f then "TypeChange"
    else Unmodified
  }

  /** Joins `parts` with `sep` between consecutive parts. */
  function Join(sep: string, parts: seq<string>): string
  {
    if |parts| == 0 then ""
    else if |parts| == 1 then parts[0]
    else parts[0] + sep + Join(sep, parts[1..])
  }

  lemma JoinTwo(sep: string, a: string, b: string)
    ensures Join(sep, [a, b]) == a + sep + b
  {
  }

  /** The combined label: "Index: X" and/or "WorkDir: Y" joined by ", ",
      or "Unmodified" when both dimensions are unmodified. */
  function Status(f: set<Flag>): (r: string)
    ensures r == Unmodified <==> IndexStatus(f) == Unmodified && WorkDirStatus(f) == Unmodified
    ensures IndexStatus(f) != Unmodified && WorkDirStatus(f) == Unmodified ==>
      r == "Index: " + IndexStatus(f)
    ensures IndexStatus(f) == Unmodified && WorkDirStatus(f) != Unmodified ==>
      r == "WorkDir: " + WorkDirStatus(f)
    ensures IndexStatus(f) != Unmodified && WorkDirStatus(f) != Unmodified ==>
      r == "Index: " + IndexStatus(f) + ", " + "WorkDir: " + WorkDirStatus(f)
  {
    var i := IndexStatus(f);
    var w := WorkDirStatus(f);
    var parts := (if i != Unmodified then ["Index: " + i] else [])
               + (if w != Unmodified then ["WorkDir: " + w] else []);
    JoinTwo(", ", "Index: " + i, "WorkDir: " + w);
    if |parts| > 0 then Join(", ", parts) else Unmodified
  }

  /** Whether the file has changes in the index. */
  function IsStaged(f: set<Flag>): (r: bool)
    ensures r <==> exists x :: x in IndexFlags && x in f
  {
    IndexStatus(f) != Unmodified
  }

  /** Whether a tracked file has work-dir changes; a new file does not. */
  function HasUnstagedChanges(f: set<Flag>): (r: bool)
    ensures r <==> NewInWorkdir !in f && exists x :: x in WorkdirChangeFlags && x in f
  {
    WorkDirStatus(f) != Unmodified && WorkDirStatus(f) != "Untracked"
  }

  /** Whether the file is new in the work dir, whatever its index state. */
  function IsUntracked(f: set<Flag>): (r: bool)
    ensures r <==> WorkDirStatus(f) == "Untracked"
  {
    NewInWorkdir in f
  }

  /** Flags outside the label cascades leave every label unchanged. */
  lemma LabelsIgnoreFlag(f: set<Flag>, x: Flag)
    requires x == Ignored || x == Conflicted
    ensures IndexStatus(f) == IndexStatus(f - {x})
    ensures WorkDirStatus(f) == WorkDirStatus(f - {x})
    ensures Status(f) == Status(f - {x})
  {
  }

  /** Whether the file is ignored. The Ignored flag never shows in the
      combined label, so this is the only place it is reported. */
  function IsIgnored(f: set<Flag>): (r: bool)
    ensures r <==> Ignored in f
    ensures Status(f) == Status(f - {Ignored})
  {
    LabelsIgnoreFlag(f, Ignored);
    Ignored in f
  }

  /** Whether the file is conflicted. The Conflicted flag never shows in
      the combined label either. */
  function IsConflicted(f: set<Flag>): (r: bool)
    ensures r <==> Conflicted in f
    ensures Status(f) == Status(f - {Conflicted})
  {
    LabelsIgnoreFlag(f, Conflicted);
    Conflicted in f
  }

  /** An untracked file never counts as having unstaged changes. */
  lemma UnstagedExcludesUntracked(f: set<Flag>)
    ensures !(HasUnstagedChanges(f) && IsUntracked(f))
  {
  }

  /** Staged and unstaged are not exclusive: a staged file may be edited again. */
  lemma StagedAndUnstagedCanCoexist()
    ensures var f := {ModifiedInIndex, ModifiedInWorkdir};
            IsStaged(f) && HasUnstagedChanges(f)
            && Status(f) == "Index: " + "Modified" + ", " + "WorkDir: " + "Modified"
  {
  }

  /** The display text of an entry: its path followed by the combined label. */
  function EntryText(e: Entry): (r: string)
    ensures |r| == |e.path| + |Status(e.flags)| + 3
    ensures r[..|e.path|] == e.path
    ensures r[|e.path|..|e.path| + 2] == " ("
    ensures r[|r| - |Status(e.flags)| - 1..] == Status(e.flags) + ")"
  {
    e.path + " (" + Status(e.flags) + ")"
  }
}
