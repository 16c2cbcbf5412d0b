/** The status listings of `GitContext` over one status enumeration of the
    library, written with the flag tests the context itself uses, and proved
    to agree with the per-entry classification of `GitStatusEntry`. */
module StatusFilters {
  import opened Sequences
  import opened StatusEntry

  /** Every entry that is not ignored, in enumeration order. */
  function StatusOf(xs: seq<Entry>): (r: seq<Entry>)
    ensures forall e :: e in r <==> e in xs && !IsIgnored(e.flags)
    ensures forall e :: multiset(r)[e] == if IsIgnored(e.flags) then 0 else multiset(xs)[e]
  {
    Where(xs, (e: Entry) => Ignored !in e.flags)
  }

  /** Entries with any of the five index flags set. */
  function StagedOf(xs: seq<Entry>): (r: seq<Entry>)
    ensures forall e :: e in r <==> e in xs && IsStaged(e.flags)
    ensures forall e :: multiset(r)[e] == if IsStaged(e.flags) then multiset(xs)[e] else 0
  {
    Where(xs, (e: Entry) =>
      NewInIndex in e.flags || ModifiedInIndex in e.flags || DeletedFromIndex in e.flags
      || RenamedInIndex in e.flags || TypeChangeInIndex in e.flags)
  }

  /** Entries changed in the work dir that are not new there. */
  function UnstagedOf(xs: seq<Entry>): (r: seq<Entry>)
    ensures forall e :: e in r <==> e in xs && HasUnstagedChanges(e.flags)
    ensures forall e :: multiset(r)[e] == if HasUnstagedChanges(e.flags) then multiset(xs)[e] else 0
  {
    Where(xs, (e: Entry) =>
      (ModifiedInWorkdir in e.flags || DeletedFromWorkdir in e.flags
       || RenamedInWorkdir in e.flags || TypeChangeInWorkdir in e.flags)
      && NewInWorkdir !in e.flags)
  }

  /** Entries new in the work dir. */
  function UntrackedOf(xs: seq<Entry>): (r: seq<Entry>)
    ensures forall e :: e in r <==> e in xs && IsUntracked(e.flags)
    ensures forall e :: e in r ==> WorkDirStatus(e.flags) == "Untracked"
    ensures forall e :: multiset(r)[e] == if IsUntracked(e.flags) then multiset(xs)[e] else 0
  {
    Where(xs, (e: Entry) => NewInWorkdir in e.flags)
  }

  /** Entries flagged as ignored. */
  function IgnoredOf(xs: seq<Entry>): (r: seq<Entry>)
    ensures forall e :: e in r <==> e in xs && IsIgnored(e.flags)
    ensures forall e :: multiset(r)[e] == if IsIgnored(e.flags) then multiset(xs)[e] else 0
  {
    Where(xs, (e: Entry) => Ignored in e.flags)
  }

  /** Entries flagged as conflicted. */
  function ConflictedOf(xs: seq<Entry>): (r: seq<Entry>)
    ensures forall e :: e in r <==> e in xs && IsConflicted(e.flags)
    ensures forall e :: multiset(r)[e] == if IsConflicted(e.flags) then multiset(xs)[e] else 0
  {
    Where(xs, (e: Entry) => Conflicted in e.flags)
  }

  /** The number of entries that are not ignored. */
  function ChangedCountOf(xs: seq<Entry>): (n: nat)
    ensures n <= |xs|
  {
    CountWhere(xs, (e: Entry) => Ignored !in e.flags)
  }

  /** The changed-file count is the length of the status listing. */
  lemma ChangedCountIsStatusLength(xs: seq<Entry>)
    ensures ChangedCountOf(xs) == |StatusOf(xs)|
  {
    CountIsLengthOfWhere(xs, (e: Entry) => Ignored !in e.flags);
  }

  /** The status listing and the ignored listing split the enumeration:
      together they hold every entry exactly as often as it occurs. */
  lemma StatusAndIgnoredPartition(xs: seq<Entry>)
    ensures multiset(StatusOf(xs)) + multiset(IgnoredOf(xs)) == multiset(xs)
  {
  }

  /** Listing a concatenation of enumerations lists each part in turn, so
      the status listing keeps the enumeration order. */
  lemma StatusKeepsOrder(xs: seq<Entry>, ys: seq<Entry>)
    ensures StatusOf(xs + ys) == StatusOf(xs) + StatusOf(ys)
  {
    WhereAppend(xs, ys, (e: Entry) => Ignored !in e.flags);
  }

  /** No entry is both in the unstaged and in the untracked listing. */
  lemma UnstagedUntrackedDisjoint(xs: seq<Entry>, e: Entry)
    ensures !(e in UnstagedOf(xs) && e in UntrackedOf(xs))
  {
  }
}
