/** The query session (`GitContext`): which repository is open, the
    diff-tool path handed to the status entries, and the collections read
    through the open repository. The source keeps this in static fields; the
    model passes it in and returns it. What the library reports for the open
    repository (its status enumeration, stashes, commits, ...) is a
    parameter of each query. */
module GitContext {
  import opened Wrappers
  import opened StatusEntry
  import opened StatusFilters
  import Stash

  /** An opaque token for an open library repository. */
  datatype Handle = Handle(id: nat)

  /** The repository reference the context (and the status entries and
      stashes, which are always given the same reference) holds. A handle
      that was disposed stays referenced until another repository opens. */
  datatype Slot = NoRepository | Open(handle: Handle) | Disposed(handle: Handle)

  datatype Session = Session(path: Option<string>, repo: Slot, diffTool: Option<string>)

  /** Opening a repository fails when the path is not a repository. */
  datatype OpenError = RepositoryNotFound(message: string)

  /** Reading through a disposed repository raises. */
  datatype QueryError = ObjectDisposed

  /** The state of `Initialize`: the new session and the exception it raised, if any. */
  datatype InitResult = InitResult(session: Session, raised: Option<OpenError>)

  /** The opaque library branch returned for HEAD. */
  datatype BranchRef = BranchRef(name: string)

  /** The state before any `Initialize`. */
  const Fresh := Session(None, NoRepository, None)

  /** Whether the status entries and stashes hold a repository reference,
      which is what gates their command buttons. */
  predicate RepositorySet(s: Session) {
    !s.repo.NoRepository?
  }

  /** Disposing the held repository: an open handle becomes disposed, any
      other reference is left as it is. */
  function Dispose(slot: Slot): (r: Slot)
    ensures slot.Open? ==> r == Disposed(slot.handle)
    ensures !slot.Open? ==> r == slot
    ensures !r.Open?
  {
    match slot
    case Open(h) => Disposed(h)
    case _ => slot
  }

  /** Point the session at `path`. The repository is reopened only when the
      path differs from the current one: the old handle is disposed first,
      and if opening then fails the exception propagates with the old
      handle disposed, the path unchanged and the diff-tool path not yet
      updated. Otherwise the diff-tool path is always replaced. */
  function Initialize(s: Session, path: string, diffTool: Option<string>,
                      open: string -> Result<Handle, OpenError>): (r: InitResult)
    ensures s.path == Some(path) ==>
      r.raised == None && r.session.path == s.path && r.session.repo == s.repo
      && r.session.diffTool == diffTool
    ensures s.path != Some(path) && open(path).Success? ==>
      r.raised == None && r.session.path == Some(path)
      && r.session.repo == Open(open(path).value) && r.session.diffTool == diffTool
    ensures s.path != Some(path) && open(path).Failure? ==>
      r.raised == Some(open(path).error) && r.session.path == s.path
      && r.session.diffTool == s.diffTool && r.session.repo == Dispose(s.repo)
    ensures r.raised == None ==> r.session.path == Some(path) && r.session.diffTool == diffTool
  {
    if s.path != Some(path) then
      var disposed := Dispose(s.repo);
      match open(path)
      case Failure(e) => InitResult(s.(repo := disposed), Some(e))
      case Success(h) => InitResult(Session(Some(path), Open(h), diffTool), None)
    else
      InitResult(s.(diffTool := diffTool), None)
  }

  /** A failed switch leaves no open repository, yet the buttons stay
      gated on exactly when they were before. */
  lemma FailedSwitchKeepsButtons(s: Session, path: string, diffTool: Option<string>,
                                 open: string -> Result<Handle, OpenError>)
    requires s.path != Some(path) && open(path).Failure?
    ensures var r := Initialize(s, path, diffTool, open);
            !r.session.repo.Open? && (RepositorySet(r.session) <==> RepositorySet(s))
  {
  }

  /** A repository is held exactly when a path is recorded. */
  predicate Valid(s: Session) {
    s.path.None? <==> s.repo.NoRepository?
  }

  /** `Initialize` keeps the session valid, whether or not opening fails. */
  lemma InitializePreservesValid(s: Session, path: string, diffTool: Option<string>,
                                 open: string -> Result<Handle, OpenError>)
    requires Valid(s)
    ensures Valid(Initialize(s, path, diffTool, open).session)
    ensures Valid(Fresh)
  {
  }

  /** Initializing again with the path just opened keeps the same handle,
      whatever the opener would now return, and only replaces the diff-tool path. */
  lemma ReinitializeKeepsHandle(s: Session, path: string, tool1: Option<string>, tool2: Option<string>,
                                open1: string -> Result<Handle, OpenError>,
                                open2: string -> Result<Handle, OpenError>)
    requires Initialize(s, path, tool1, open1).raised == None
    ensures var s1 := Initialize(s, path, tool1, open1).session;
            var r2 := Initialize(s1, path, tool2, open2);
            r2.raised == None && r2.session == s1.(diffTool := tool2)
  {
  }

  /** After a failed switch to another path, initializing with the old path
      again does not reopen it: the disposed handle stays in place. */
  lemma FailedSwitchStaysDisposed(s: Session, previous: string, other: string, tool: Option<string>,
                                  open: string -> Result<Handle, OpenError>)
    requires s.path == Some(previous) && s.repo.Open? && previous != other
    requires open(other).Failure?
    ensures var s1 := Initialize(s, other, tool, open).session;
            Initialize(s1, previous, tool, open).session.repo == Disposed(s.repo.handle)
  {
  }

  /** The common shape of every collection property: empty without a
      repository, the library's answer with one, an exception on a
      disposed one. */
  function Read<T>(slot: Slot, fromLibrary: T, empty: T): (r: Result<T, QueryError>)
    ensures slot.NoRepository? ==> r == Success(empty)
    ensures slot.Open? ==> r == Success(fromLibrary)
    ensures slot.Disposed? ==> r == Failure(ObjectDisposed)
  {
    match slot
    case NoRepository => Success(empty)
    case Open(_) => Success(fromLibrary)
    case Disposed(_) => Failure(ObjectDisposed)
  }

  /** Commits, branches, tags and remotes: the library's enumeration, unchanged. */
  function Collection<T>(s: Session, items: seq<T>): (r: Result<seq<T>, QueryError>)
    ensures s.repo.NoRepository? ==> r == Success([])
    ensures s.repo.Open? ==> r == Success(items)
    ensures s.repo.Disposed? ==> r.Failure?
  {
    Read(s.repo, items, [])
  }

  /** The current branch, or null without a repository. */
  function Head(s: Session, head: BranchRef): (r: Result<Option<BranchRef>, QueryError>)
    ensures s.repo.NoRepository? ==> r == Success(None)
    ensures s.repo.Open? ==> r == Success(Some(head))
    ensures s.repo.Disposed? ==> r.Failure?
  {
    Read(s.repo, Some(head), None)
  }

  /** The stash list, numbered newest first. */
  function Stashes(s: Session, records: seq<Stash.StashRecord>): (r: Result<seq<Stash.Stash>, QueryError>)
    ensures s.repo.NoRepository? ==> r == Success([])
    ensures s.repo.Open? ==>
      (r.Success? && |r.value| == |records|
       && forall k :: 0 <= k < |records| ==> r.value[k].index == k && r.value[k].record == records[k])
    ensures s.repo.Disposed? ==> r.Failure?
  {
    Read(s.repo, Stash.Number(records), [])
  }

  /** Every non-ignored status entry. */
  function StatusListing(s: Session, xs: seq<Entry>): (r: Result<seq<Entry>, QueryError>)
    ensures s.repo.NoRepository? ==> r == Success([])
    ensures s.repo.Open? ==> r.Success? && forall e :: e in r.value <==> e in xs && !IsIgnored(e.flags)
    ensures s.repo.Open? ==> r == Success(StatusOf(xs))
    ensures s.repo.Disposed? ==> r.Failure?
  {
    Read(s.repo, StatusOf(xs), [])
  }

  function Staged(s: Session, xs: seq<Entry>): (r: Result<seq<Entry>, QueryError>)
    ensures s.repo.NoRepository? ==> r == Success([])
    ensures s.repo.Open? ==> r.Success? && forall e :: e in r.value <==> e in xs && IsStaged(e.flags)
    ensures s.repo.Open? ==> r == Success(StagedOf(xs))
    ensures s.repo.Disposed? ==> r.Failure?
  {
    Read(s.repo, StagedOf(xs), [])
  }

  function Unstaged(s: Session, xs: seq<Entry>): (r: Result<seq<Entry>, QueryError>)
    ensures s.repo.NoRepository? ==> r == Success([])
    ensures s.repo.Open? ==>
      (r.Success? && forall e :: e in r.value <==> e in xs && HasUnstagedChanges(e.flags))
    ensures s.repo.Open? ==> r == Success(UnstagedOf(xs))
    ensures s.repo.Disposed? ==> r.Failure?
  {
    Read(s.repo, UnstagedOf(xs), [])
  }

  function Untracked(s: Session, xs: seq<Entry>): (r: Result<seq<Entry>, QueryError>)
    ensures s.repo.NoRepository? ==> r == Success([])
    ensures s.repo.Open? ==> r.Success? && forall e :: e in r.value <==> e in xs && IsUntracked(e.flags)
    ensures s.repo.Open? ==> r == Success(UntrackedOf(xs))
    ensures s.repo.Disposed? ==> r.Failure?
  {
    Read(s.repo, UntrackedOf(xs), [])
  }

  function IgnoredFiles(s: Session, xs: seq<Entry>): (r: Result<seq<Entry>, QueryError>)
    ensures s.repo.NoRepository? ==> r == Success([])
    ensures s.repo.Open? ==> r.Success? && forall e :: e in r.value <==> e in xs && IsIgnored(e.flags)
    ensures s.repo.Open? ==> r == Success(IgnoredOf(xs))
    ensures s.repo.Disposed? ==> r.Failure?
  {
    Read(s.repo, IgnoredOf(xs), [])
  }

  function Conflicted(s: Session, xs: seq<Entry>): (r: Result<seq<Entry>, QueryError>)
    ensures s.repo.NoRepository? ==> r == Success([])
    ensures s.repo.Open? ==> r.Success? && forall e :: e in r.value <==> e in xs && IsConflicted(e.flags)
    ensures s.repo.Open? ==> r == Success(ConflictedOf(xs))
    ensures s.repo.Disposed? ==> r.Failure?
  {
    Read(s.repo, ConflictedOf(xs), [])
  }

  /** `_repo?.RetrieveStatus().IsDirty == false`: without a repository the
      null-propagated comparison is false, so the tree reads as not clean.
      `dirty` is the library's verdict for the open repository. */
  function IsClean(s: Session, dirty: bool): (r: Result<bool, QueryError>)
    ensures s.repo.NoRepository? ==> r == Success(false)
    ensures s.repo.Open? ==> r == Success(!dirty)
    ensures s.repo.Disposed? ==> r.Failure?
  {
    match s.repo
    case NoRepository => Success(false)
    case Open(_) => Success(dirty == false)
    case Disposed(_) => Failure(ObjectDisposed)
  }

  /** The number of non-ignored status entries. */
  function ChangedFilesCount(s: Session, xs: seq<Entry>): (r: Result<nat, QueryError>)
    ensures s.repo.NoRepository? ==> r == Success(0)
    ensures s.repo.Open? ==> r.Success? && r.value <= |xs|
    ensures s.repo.Disposed? ==> r.Failure?
  {
    Read(s.repo, ChangedCountOf(xs), 0)
  }

  /** The changed-file count always agrees with the status listing. */
  lemma ChangedFilesCountIsStatusLength(s: Session, xs: seq<Entry>)
    ensures ChangedFilesCount(s, xs).Success? <==> StatusListing(s, xs).Success?
    ensures ChangedFilesCount(s, xs).Success? ==>
      ChangedFilesCount(s, xs).value == |StatusListing(s, xs).value|
  {
    ChangedCountIsStatusLength(xs);
  }

  /** Before any `Initialize` every query answers with its empty default. */
  lemma FreshSessionDefaults(xs: seq<Entry>, dirty: bool, head: BranchRef,
                             records: seq<Stash.StashRecord>)
    ensures StatusListing(Fresh, xs) == Staged(Fresh, xs) == Unstaged(Fresh, xs) == Success([])
    ensures Untracked(Fresh, xs) == IgnoredFiles(Fresh, xs) == Conflicted(Fresh, xs) == Success([])
    ensures Stashes(Fresh, records) == Success([])
    ensures ChangedFilesCount(Fresh, xs) == Success(0)
    ensures Head(Fresh, head) == Success(None)
    ensures IsClean(Fresh, dirty) == Success(false)
    ensures !RepositorySet(Fresh)
  {
  }
}
