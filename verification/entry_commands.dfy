/** Which command buttons a status entry and a stash offer. Each button
    property of the source returns null (no button) unless its guard holds;
    only the guards are modelled, not what the buttons do. `repositorySet`
    says whether the static repository reference the buttons act on is
    non-null. */
module EntryCommands {
  import opened StatusEntry

  datatype EntryCommand = Stage | Unstage | Commit | Discard | ViewDiff

  datatype StashCommand = Apply | Pop | Drop

  /** The guard of each status-entry button, as written in the source. */
  predicate Offers(repositorySet: bool, f: set<Flag>, c: EntryCommand)
  {
    match c
    case Stage => !(IsStaged(f) || !repositorySet)
    case Unstage => !(!IsStaged(f) || !repositorySet)
    case Commit => repositorySet
    case Discard => !(!HasUnstagedChanges(f) || !repositorySet)
    case ViewDiff =>
      repositorySet && !(!IsStaged(f) && !HasUnstagedChanges(f) && !IsUntracked(f))
  }

  /** The buttons an entry with flags `f` offers. */
  function OfferedCommands(repositorySet: bool, f: set<Flag>): (r: set<EntryCommand>)
    ensures !repositorySet ==> r == {}
    ensures repositorySet ==> (Stage in r <==> Unstage !in r)
    ensures Stage in r <==> repositorySet && forall x :: x in IndexFlags ==> x !in f
    ensures Commit in r <==> repositorySet
    ensures Discard in r <==>
      repositorySet && NewInWorkdir !in f && exists x :: x in WorkdirChangeFlags && x in f
    ensures Discard in r ==> !IsUntracked(f)
    ensures ViewDiff in r <==>
      repositorySet && exists x :: x in IndexFlags + WorkdirChangeFlags + {NewInWorkdir} && x in f
  {
    set c | c in {Stage, Unstage, Commit, Discard, ViewDiff} && Offers(repositorySet, f, c)
  }

  /** The buttons a stash offers: all three exactly when a repository is set. */
  function OfferedStashCommands(repositorySet: bool): (r: set<StashCommand>)
    ensures Apply in r <==> repositorySet
    ensures Pop in r <==> repositorySet
    ensures Drop in r <==> repositorySet
  {
    if !repositorySet then {} else {Apply, Pop, Drop}
  }
}
