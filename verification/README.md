# GitList working-tree status core, in Dafny

A model of the pure logic of the GitList LINQPad data-context driver, which
exposes a Git repository's commits, branches, tags, remotes, stashes and
working-tree status as queryable collections, with command buttons that
stage, unstage, commit, discard or diff a file.

What is modelled:

- **The status classifier** (`GitStatusEntry`). The library's per-file flags
  are a `set<Flag>`. From them come the index label, the work-dir label, the
  combined label and the booleans IsStaged, HasUnstagedChanges, IsUntracked,
  IsIgnored and IsConflicted (modules `StatusEntry`, `StatusTable`,
  `StatusLabel`).
- **Button guards**. The guards decide which command buttons a status entry
  or a stash offers (`EntryCommands`).
- **Display strings**. These are the short hash of a commit and the
  `stash@{n}` reference of a stash (`Commit`, `Stash`).
- **The query session** (`GitContext`). The source keeps the open repository,
  its path and the diff-tool path in static fields. The model passes this
  state in as a `Session` value and returns the new one. The module covers:
  - the `Initialize` rule, which reopens only when the path changes;
  - the default answers when no repository is open;
  - the Status, Staged, Unstaged, Untracked, Ignored and Conflicted listings;
  - the changed-file count;
  - the stash numbering.

  The listings are built in `StatusFilters` over one status enumeration,
  using LINQ-style selection from `Sequences`.
- **The connection settings** (`ConnectionProperties`). These are the
  repository path and the diff-tool path, stored as elements of the
  connection's driver data. The diff-tool path falls back to a default when
  nothing is stored.

Every library call is an input. A status enumeration is a `seq<Entry>`, and
the repository handle is an opaque `Handle` token. Opening a repository is a
parameter `open: string -> Result<Handle, OpenError>`, and the file-system
existence check is a parameter `fileExists: string -> bool`.

Each operation is tied to an independent statement of what it does:

- The two label cascades are proved equal to ordered (flag, label) decision
  tables read first-match-wins.
- The combined label is parsed back into its two labels (a round trip).
- The stash reference is parsed back into its index (a round trip).
- Each listing of the context is proved to select exactly the entries for
  which the matching `GitStatusEntry` boolean holds, with multiplicities.
  This holds even though the two files write the flag tests separately.
- The changed-file count is proved equal to the length of the status listing.

A behaviour of the code worth knowing, which the model keeps:

- `Initialize` disposes the old repository before it opens the new one.
- If opening the new path fails, the exception propagates, and the disposed
  handle stays in the static field with the old path.
- Initializing again with that old path then does not reopen it, because
  the path has not changed (`FailedSwitchStaysDisposed`). In the model every
  later query fails, on the assumption that the library refuses to read
  through a disposed repository.
- So a failed switch neither keeps nor replaces the repository.

## Model

| member | source | states |
|---|---|---|
| StatusEntry.IndexStatus | app/GitDataModel.cs:167-172 | the index label is one of six labels; each label holds exactly when its flag is set and no earlier flag in the order New, Modified, Deleted, Renamed, TypeChange is; "Unmodified" exactly when no index flag is set |
| StatusEntry.WorkDirStatus | app/GitDataModel.cs:177-182 | the same first-match characterisation for the work-dir flags, with NewInWorkdir giving "Untracked" ahead of every other change |
| StatusEntry.Status | app/GitDataModel.cs:187-195 | the combined label is "Unmodified" exactly when both labels are; otherwise "Index: X", "WorkDir: Y" or both joined by ", " in that order |
| StatusEntry.IsStaged | app/GitDataModel.cs:201 | staged holds exactly when one of the five index flags is set |
| StatusEntry.HasUnstagedChanges | app/GitDataModel.cs:206 | holds exactly when a Modified/Deleted/Renamed/TypeChange work-dir flag is set and NewInWorkdir is not |
| StatusEntry.UnstagedExcludesUntracked | app/GitDataModel.cs:206-211 | no flag set makes a file both untracked and carrying unstaged changes |
| StatusEntry.StagedAndUnstagedCanCoexist | app/GitDataModel.cs:187-206 | a file modified in both index and work dir is both staged and unstaged, labelled "Index: Modified, WorkDir: Modified" |
| StatusEntry.IsUntracked | app/GitDataModel.cs:211 | untracked holds exactly when the work-dir label is "Untracked", whatever the index label |
| StatusEntry.LabelsIgnoreFlag | app/GitDataModel.cs:167-195 | setting or clearing the Ignored or Conflicted flag changes neither the index label, the work-dir label nor the combined label |
| StatusEntry.IsIgnored | app/GitDataModel.cs:216 | ignored holds exactly when the Ignored flag is set, and that flag never shows in the combined label |
| StatusEntry.IsConflicted | app/GitDataModel.cs:221 | conflicted holds exactly when the Conflicted flag is set, and that flag never shows in the combined label |
| StatusEntry.EntryText | app/GitDataModel.cs:467 | an entry's text is its path, then " (", then its combined label, then ")" |
| StatusTable.FirstMatch | app/GitDataModel.cs:167-182 | a decision table gives the label of the first row whose flag is set, and the default when no row's flag is set |
| StatusTable.IndexStatusIsTable | app/GitDataModel.cs:167-172 | the index cascade equals the table New→Added, Modified, Deleted, Renamed, TypeChange read first-match-wins, on every flag set |
| StatusTable.WorkDirStatusIsTable | app/GitDataModel.cs:177-182 | the work-dir cascade equals the table New→Untracked, Modified, Deleted, Renamed, TypeChange read first-match-wins |
| StatusLabel.StatusRoundTrip | app/GitDataModel.cs:187-195 | parsing the combined label gives back the index label and the work-dir label |
| StatusLabel.StatusDeterminesLabels | app/GitDataModel.cs:187-195 | two flag sets with equal combined labels have equal index labels and equal work-dir labels |
| EntryCommands.OfferedCommands | app/GitDataModel.cs:230-371 | with no repository no button is offered; with one, exactly one of Stage/Unstage (Stage iff no index flag); Commit iff a repository is set; Discard iff unstaged changes, hence never for an untracked file; ViewDiff iff a repository is set and any index or work-dir flag is set |
| EntryCommands.OfferedStashCommands | app/GitDataModel.cs:609-659 | Apply, Pop and Drop are each offered exactly when a repository is set |
| Commit.ShortSha | app/GitDataModel.cs:89 | the short hash exists exactly when the hash has at least 7 characters (otherwise the substring call raises), has length 7 and is a prefix of the hash |
| Commit.ShortShaOfFullSha | app/GitDataModel.cs:89 | for a 40-character lowercase-hex hash the short hash exists, has length 7, is a prefix and is lowercase hex |
| Commit.CommitText | app/GitDataModel.cs:112 | a commit's text is its short hash, a space and its first message line; it raises exactly when the short hash does |
| Stash.Decimal | app/GitDataModel.cs:585 | the decimal text of an index is non-empty, all digits and has no leading zero |
| Stash.DecimalRoundTrip | app/GitDataModel.cs:585 | reading the decimal text of an index gives back the index |
| Stash.Reference | app/GitDataModel.cs:585 | the reference is "stash@{", the decimal index, then "}" |
| Stash.ReferenceRoundTrip | app/GitDataModel.cs:585 | parsing a stash reference gives back its index |
| Stash.ReferenceInjective | app/GitDataModel.cs:585 | distinct indices have distinct references |
| Stash.StashText | app/GitDataModel.cs:684 | a stash's text is its reference, ": " and its message |
| Stash.NumberFrom | app/GitContext.cs:97 | numbering from a start gives the k-th stash the index start + k and keeps its record |
| Stash.Number | app/GitContext.cs:97 | stashes are numbered 0..n-1 in enumeration order, index 0 first |
| Stash.NumberedReferencesDistinct | app/GitContext.cs:97 | no two stashes of one listing share a reference |
| Sequences.Where | app/GitContext.cs:132 | selection keeps exactly the satisfying elements, each as often as in the input |
| Sequences.WhereAppend | app/GitContext.cs:132 | selection distributes over concatenation, so relative order is preserved |
| Sequences.CountIsLengthOfWhere | app/GitContext.cs:238 | counting the satisfying elements equals the length of their selection |
| StatusFilters.StatusOf | app/GitContext.cs:132 | the status listing holds exactly the non-ignored entries, each as often as enumerated |
| StatusFilters.StagedOf | app/GitContext.cs:145-151 | an entry is listed as staged iff GitStatusEntry.IsStaged holds for it, with its multiplicity |
| StatusFilters.UnstagedOf | app/GitContext.cs:164-170 | an entry is listed as unstaged iff GitStatusEntry.HasUnstagedChanges holds for it, with its multiplicity |
| StatusFilters.UntrackedOf | app/GitContext.cs:183-185 | exactly the entries with NewInWorkdir, each as often as enumerated, all of which have work-dir label "Untracked" |
| StatusFilters.IgnoredOf | app/GitContext.cs:201-203 | exactly the entries with the Ignored flag, each as often as enumerated |
| StatusFilters.ConflictedOf | app/GitContext.cs:216-218 | exactly the entries with the Conflicted flag, each as often as enumerated |
| StatusFilters.ChangedCountOf | app/GitContext.cs:238 | the changed-file count never exceeds the number of entries |
| StatusFilters.ChangedCountIsStatusLength | app/GitContext.cs:238 | the changed-file count equals the length of the status listing |
| StatusFilters.StatusAndIgnoredPartition | app/GitContext.cs:132 | the status and ignored listings together hold every entry exactly as often as enumerated |
| StatusFilters.StatusKeepsOrder | app/GitContext.cs:132 | the status listing of a concatenation is the concatenation of the listings |
| StatusFilters.UnstagedUntrackedDisjoint | app/GitContext.cs:165-184 | no entry is in both the unstaged and the untracked listings |
| GitContext.Initialize | app/GitContext.cs:21-36 | same path: handle and path kept, diff-tool path replaced; new path that opens: new handle and path, diff-tool path replaced; new path that fails: error raised, the held handle disposed (nothing else held changes), path and diff-tool path unchanged |
| GitContext.Dispose | app/GitContext.cs:25 | an open handle becomes disposed; no repository, or one already disposed, is left as it is; the result is never open |
| GitContext.InitializePreservesValid | app/GitContext.cs:16-27 | a repository is held exactly when a path is recorded: true before any Initialize and kept by every Initialize, failing or not |
| GitContext.ReinitializeKeepsHandle | app/GitContext.cs:23-35 | initializing again with the path just opened keeps the same handle and only replaces the diff-tool path |
| GitContext.FailedSwitchKeepsButtons | app/GitContext.cs:23-31 | after a failed switch no repository is open, yet the status-entry and stash buttons stay gated on exactly when they were before |
| GitContext.FailedSwitchStaysDisposed | app/GitContext.cs:23-27 | after a failed switch, initializing with the previous path leaves the disposed handle in place |
| GitContext.Read | app/GitContext.cs:46-48 | a collection is empty without a repository, the library's answer with an open one, an exception on a disposed one |
| GitContext.Collection | app/GitContext.cs:42-87 | commits, branches, tags and remotes are empty without a repository and the library's enumeration otherwise |
| GitContext.Head | app/GitContext.cs:104-110 | HEAD is null without a repository |
| GitContext.Stashes | app/GitContext.cs:92-99 | no stashes without a repository; otherwise one per library stash, indexed 0..n-1 in order |
| GitContext.StatusListing | app/GitContext.cs:126-134 | empty without a repository; otherwise exactly the non-ignored entries; with a repository it is the `StatusOf` listing, so order and multiplicities carry over |
| GitContext.Staged | app/GitContext.cs:139-153 | empty without a repository; otherwise exactly the entries for which IsStaged holds; with a repository it is the `StagedOf` listing, so order and multiplicities carry over |
| GitContext.Unstaged | app/GitContext.cs:158-172 | empty without a repository; otherwise exactly the entries for which HasUnstagedChanges holds; with a repository it is the `UnstagedOf` listing, so order and multiplicities carry over |
| GitContext.Untracked | app/GitContext.cs:177-187 | empty without a repository; otherwise exactly the entries for which IsUntracked holds; with a repository it is the `UntrackedOf` listing, so order and multiplicities carry over |
| GitContext.IgnoredFiles | app/GitContext.cs:192-205 | empty without a repository; otherwise exactly the entries for which IsIgnored holds; with a repository it is the `IgnoredOf` listing, so order and multiplicities carry over |
| GitContext.Conflicted | app/GitContext.cs:210-220 | empty without a repository; otherwise exactly the entries for which IsConflicted holds; with a repository it is the `ConflictedOf` listing, so order and multiplicities carry over |
| GitContext.IsClean | app/GitContext.cs:225-228 | false without a repository, because the null-propagated comparison is false; otherwise the negation of the library's dirty verdict |
| GitContext.ChangedFilesCount | app/GitContext.cs:233-240 | 0 without a repository; otherwise at most the number of entries |
| GitContext.ChangedFilesCountIsStatusLength | app/GitContext.cs:233-240 | the count and the status listing succeed together, and the count is the listing's length |
| GitContext.FreshSessionDefaults | app/GitContext.cs:46-238 | before any Initialize: every listing empty, count 0, HEAD null, IsClean false, no repository for the buttons |
| ConnectionProperties.SetElementValue | app/ConnectionProperties.cs:29 | storing null removes the element, storing a value sets it, and no other element changes |
| ConnectionProperties.RepositoryPath | app/ConnectionProperties.cs:26 | the stored repository path, or "" when none is stored |
| ConnectionProperties.SetRepositoryPath | app/ConnectionProperties.cs:27-31 | one change notification naming RepositoryPath; the stored value then reads back ("" after null); every other element is unchanged |
| ConnectionProperties.BeyondComparePath | app/ConnectionProperties.cs:36-50 | a stored value is returned verbatim, including ""; with none stored, the default install path if that file exists, else "" |
| ConnectionProperties.SetBeyondComparePath | app/ConnectionProperties.cs:51-55 | one change notification naming BeyondComparePath; the value is stored (removed for null); every other element is unchanged |
| ConnectionProperties.BeyondComparePathRoundTrip | app/ConnectionProperties.cs:38-55 | a value set is read back whatever the file system holds; after clearing it, the default rule applies |
| ConnectionProperties.SettersIndependent | app/ConnectionProperties.cs:29-53 | setting either property leaves what the other one reads unchanged |

## Left out

- Every LibGit2Sharp call is left out because it is foreign native-library behaviour. This covers opening a repository, the commit-graph walk, RetrieveStatus, branch tracking, tag annotations, Stage/Unstage/Commit/CheckoutPaths, the stash Apply/Pop/Remove calls and blob reading. Their results are inputs to the model.
- The actions behind the command buttons are left out because they are UI and process side effects. This covers `Dump`, the `Util.ReadLine` prompts, `Util.Dif`, Process.Start of the diff tool, temp files and file reads. Only the guards that decide whether a button exists are modelled.
- The projections of branches, tags and remotes, the commit author/committer/date fields, tree entries and `Config` are left out because they are thin projections outside the modelled core: null and type tests (`GitBranch.Tip`, `GitTag.Target`) and display formatting (`GitBranch.ToString` with its " (HEAD)" suffix, `GitRemote.ToString`).
- The `GitRepository` class (app/GitDataModel.cs:14-77) is left out because it is an unused instance-based copy of the context's pass-through collections.
- app/StaticDriver.cs, app/ConnectionDialog.xaml.cs and the root-level GitDataModel.cs, GitContext.cs, ConnectionProperties.cs and StaticDriver.cs are not part of this model. They hold host plumbing, a WPF dialog and earlier copies of the modelled logic.
- The thread-safety of the static fields is left out. The session is an explicit value.
- The FileStatus values Unaltered, Nonexistent and Unreadable are left out because no modelled code tests them.
- GitContext.StatusListing: each listing property of the source queries the library afresh; the model gives every listing the same enumeration. The Ignored property uses explicit options that include ignored files; the default options used by the others include them as well.
- GitContext.Read: a query through a disposed repository fails in the model. That the library refuses such reads is an assumption about the library, not something its code here shows.
- GitContext.Read: the source's listings (app/GitContext.cs:47, 61, 73, 85, 97 and the status filters) return deferred LINQ enumerations; the model evaluates them when the property is read, not when they are enumerated.
- GitContext.IsClean: the dirty verdict is the library's, so the model does not relate it to the status entries.
- GitContext.Initialize: the path argument is a non-null string, because the only caller passes the connection's RepositoryPath, which never reads as null.
- Commit.ShortSha: Dafny strings are sequences of Unicode scalar values, while C# `Substring` counts UTF-16 code units. The two agree on commit hashes, which are ASCII hexadecimal.
- Stash.Reference: the index is a `nat`. The stash enumeration numbers from 0, so a negative index only arises from calling the constructor directly.
- ConnectionProperties.SetRepositoryPath: the notification is recorded whether or not a handler is subscribed; with none, the source's `?.Invoke` does nothing.
