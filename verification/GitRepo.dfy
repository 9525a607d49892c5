/**
 The contribution transaction: commit regression data rule by rule, push once,
 roll the branch back when a commit or the push fails. What the disk, the ref
 store and the network make of each operation is an input.
 */
module GitRepo {
  import opened Options
  import opened CommitGraph

  datatype Error = NoWorkingBranch | MissingRef | Unborn | NothingToCommit | Unresolvable
    | NoIndex | Io | HeadElsewhere | Rejected | Network
  datatype Result = Ok | Err(error: Error)

  datatype Head = OnBranch(name: Branch) | Detached(commit: Commit)

  /** The regular files on disk; `dirs` are the directories that exist. */
  datatype WorkTree = WorkTree(files: map<Path, Blob>, dirs: set<Path>)

  datatype Batch = Batch(rule: string, files: seq<Path>)

  // ----- What can go wrong -----

  /** Paths that cannot be read, and the writes of one commit that fail. */
  datatype CommitFaults = CommitFaults(unreadable: set<Path>, index: bool, reading: bool, writing: bool)

  /** How the transport behaves; `Quiet` reports no ref, `ReplyLost` updates the ref but its report never arrives. */
  datatype Wire = Working | Unreachable | Refusing | Quiet | ReplyLost

  /** Everything an upload depends on besides the repository: a commit per batch, the push, the ref write back. */
  datatype Faults = Faults(commits: nat -> CommitFaults, unshallow: bool, wire: Wire, reset: bool)

  const NO_COMMIT_FAULTS := CommitFaults({}, false, false, false)
  const NO_FAULTS := Faults((i: nat) => NO_COMMIT_FAULTS, false, Working, false)

  // ----- Staging -----

  predicate Contains(s: string, t: string) {
    t <= s || (s != "" && Contains(s[1..], t))
  }

  predicate ValidPath(p: Path) { '\0' !in p && !Contains(p, "..") }

  function ValidPaths(files: seq<Path>): seq<Path> {
    if files == [] then [] else (if ValidPath(files[0]) then [files[0]] else []) + ValidPaths(files[1..])
  }

  predicate Covers(work: WorkTree, p: Path, file: Path) {
    p == file || (p in work.dirs && p + "/" <= file)
  }

  predicate OnDisk(work: WorkTree, p: Path) { p in work.files || p in work.dirs }

  /** Staging fails when some path that exists cannot be read, or the index cannot be written. */
  predicate AddFails(work: WorkTree, paths: seq<Path>, f: CommitFaults) {
    f.index || exists p :: p in paths && OnDisk(work, p) && p in f.unreadable
  }

  /** A file staged over a parent tree keeps the mode the parent records for it. */
  function StagedBlob(parent: Tree, p: Path, blob: Blob): Blob {
    if p in parent then blob.(mode := parent[p].mode) else blob
  }

  /** What `git add` of these paths puts into the index; paths that do not exist are skipped. */
  function Staged(work: WorkTree, parent: Tree, paths: seq<Path>): Tree {
    map f | f in work.files && exists p :: p in paths && Covers(work, p, f)
      :: StagedBlob(parent, f, work.files[f])
  }

  lemma StagedSnoc(work: WorkTree, parent: Tree, paths: seq<Path>, i: nat)
    requires i < |paths|
    ensures Staged(work, parent, paths[..i + 1])
         == Staged(work, parent, paths[..i])
            + map f | f in work.files && Covers(work, paths[i], f) :: StagedBlob(parent, f, work.files[f])
  {
    assert paths[..i + 1] == paths[..i] + [paths[i]];
  }

  // ----- Committing -----

  /**
   The parent's entries as the new index holds them: an entry whose name is not
   UTF-8 is skipped, and a mode other than the three plain ones becomes regular.
   */
  function Carried(tree: Tree, utf8: Path -> bool): Tree {
    map p | p in tree && utf8(p) :: if tree[p].mode.OtherMode? then tree[p].(mode := Regular) else tree[p]
  }

  function Merged(tree: Tree, staged: Tree, utf8: Path -> bool): Tree { Carried(tree, utf8) + staged }

  function MessageFor(rule: string): string { "\U{1F9EA} test: add regression data for rule " + rule }

  /** The tip after one batch when nothing fails. */
  function CommitBatch(work: WorkTree, utf8: Path -> bool, tip: Commit, batch: Batch): Commit {
    var paths := ValidPaths(batch.files);
    if paths == [] then tip
    else Commit(Merged(tip.tree, Staged(work, tip.tree, paths), utf8), [tip], MessageFor(batch.rule))
  }

  /** HEAD and the local branches. */
  datatype Refs = Refs(head: Head, locals: map<Branch, Commit>)

  function Resolve(s: Refs): Option<Commit> {
    match s.head
    case OnBranch(b) => if b in s.locals then Some(s.locals[b]) else None
    case Detached(c) => Some(c)
  }

  /** Tracking refs; one that exists but cannot be resolved is `None`. */
  type Tracking = map<Branch, Option<Commit>>

  /** What a new working branch starts from: never HEAD while there is a tracking ref. */
  function Base(s: Refs, tracking: Tracking, name: Branch): Option<Commit> {
    if name in tracking then tracking[name] else Resolve(s)
  }

  function Created(s: Refs, name: Branch, base: Commit): Refs { Refs(OnBranch(name), s.locals[name := base]) }

  /** A new commit moves the branch HEAD is on, or HEAD itself when it is detached. */
  function MoveHead(s: Refs, commit: Commit): Refs {
    if s.head.OnBranch? then s.(locals := s.locals[s.head.name := commit]) else s.(head := Detached(commit))
  }

  /** What becomes of committing this index at HEAD. */
  function CommitOutcome(s: Refs, index: Option<Tree>, utf8: Path -> bool, f: CommitFaults): Result {
    if index.None? then Err(NoIndex)
    else if f.reading then Err(Io)
    else if Resolve(s).None? then Err(Unborn)
    else if Merged(Resolve(s).value.tree, index.value, utf8) == Resolve(s).value.tree then Err(NothingToCommit)
    else if f.writing then Err(Io)
    else Ok
  }

  function TreeAt(s: Refs): Tree { if Resolve(s).Some? then Resolve(s).value.tree else map[] }

  /** What becomes of one batch: without a valid path there is nothing to do. */
  function BatchOutcome(work: WorkTree, utf8: Path -> bool, s: Refs, batch: Batch, f: CommitFaults): Result {
    var paths := ValidPaths(batch.files);
    if paths == [] then Ok
    else if AddFails(work, paths, f) then Err(Io)
    else CommitOutcome(s, Some(Staged(work, TreeAt(s), paths)), utf8, f)
  }

  function StepBatch(work: WorkTree, utf8: Path -> bool, s: Refs, batch: Batch): Refs {
    if ValidPaths(batch.files) == [] || Resolve(s).None? then s
    else MoveHead(s, CommitBatch(work, utf8, Resolve(s).value, batch))
  }

  function StepBatches(work: WorkTree, utf8: Path -> bool, s: Refs, batches: seq<Batch>): Refs {
    if batches == [] then s
    else StepBatch(work, utf8, StepBatches(work, utf8, s, batches[..|batches| - 1]), batches[|batches| - 1])
  }

  function CommitBatches(work: WorkTree, utf8: Path -> bool, tip: Commit, batches: seq<Batch>): Commit {
    if batches == [] then tip
    else CommitBatch(work, utf8, CommitBatches(work, utf8, tip, batches[..|batches| - 1]), batches[|batches| - 1])
  }

  /** The other end of the push. */
  class Remote {
    var branches: map<Branch, Commit>

    constructor (branches: map<Branch, Commit>)
      ensures this.branches == branches
    {
      this.branches := branches;
    }
  }

  /** What became of a push: `Silent` is a report without any ref, `LostReply` an update whose report never arrived. */
  datatype PushFate = Unreached | Refused | Updated | Silent | LostReply

  /** What becomes of sending a branch: the remote takes only a fast-forward. */
  function WireFate(locals: map<Branch, Commit>, b: Branch, remote: map<Branch, Commit>, wire: Wire): PushFate {
    if b !in locals || wire == Unreachable then Unreached
    else if wire == Refusing || (b in remote && !Ancestor(remote[b], locals[b])) then Refused
    else if wire == Quiet then Silent
    else if wire == ReplyLost then LostReply
    else Updated
  }

  function PushFateOf(refs: Refs, wb: Branch, remote: map<Branch, Commit>, f: Faults): PushFate {
    if f.unshallow || refs.head != OnBranch(wb) then Unreached else WireFate(refs.locals, wb, remote, f.wire)
  }

  function RemoteAfter(refs: Refs, wb: Branch, remote: map<Branch, Commit>, fate: PushFate): map<Branch, Commit> {
    if fate in {Updated, LostReply} && wb in refs.locals then remote[wb := refs.locals[wb]] else remote
  }

  /** How an upload ended, for the statements about whole runs. */
  datatype Fate =
    | Offline
    | NoBranch
    | Aborted
    | CommitFailed(restored: bool)
    | NothingToPush
    | LocalOnly
    | Pushed(fate: PushFate)
    | PushFailed(fate: PushFate, restored: bool)

  class GitRepo {
    const offline: bool
    const contrib: bool
    const utf8: Path -> bool
    var workingBranch: Option<Branch>
    var head: Head
    var locals: map<Branch, Commit>
    var tracking: Tracking
    var index: Option<Tree>
    var work: WorkTree

    constructor (offline: bool, contrib: bool, utf8: Path -> bool, workingBranch: Option<Branch>, head: Head,
                 locals: map<Branch, Commit>, tracking: Tracking, work: WorkTree)
      ensures this.offline == offline && this.contrib == contrib && this.utf8 == utf8
      ensures this.workingBranch == workingBranch && this.head == head && this.locals == locals
      ensures this.tracking == tracking && index == None && this.work == work
    {
      this.offline, this.contrib, this.utf8, this.workingBranch := offline, contrib, utf8, workingBranch;
      this.head, this.locals, this.tracking, this.index, this.work := head, locals, tracking, None, work;
    }

    function ResolveHead(): Option<Commit>
      reads this
    {
      match head
      case OnBranch(b) => if b in locals then Some(locals[b]) else None
      case Detached(c) => Some(c)
    }

    function HeadTree(): Tree
      reads this
    {
      if ResolveHead().Some? then ResolveHead().value.tree else map[]
    }

    ghost function Here(): Refs
      reads this
    {
      Refs(head, locals)
    }

    /** Stage the paths into a fresh index. */
    method GitAdd(paths: seq<Path>, f: CommitFaults) returns (r: Result)
      modifies this`index
      ensures r == if AddFails(work, paths, f) then Err(Io) else Ok
      ensures index == if r.Ok? then Some(Staged(work, HeadTree(), paths)) else old(index)
    {
      var entries: Tree := map[];
      for i := 0 to |paths|
        invariant entries == Staged(work, HeadTree(), paths[..i]) && index == old(index)
        invariant forall p :: p in paths[..i] && OnDisk(work, p) ==> p !in f.unreadable
      {
        StagedSnoc(work, HeadTree(), paths, i);
        assert paths[..i + 1] == paths[..i] + [paths[i]];
        if !OnDisk(work, paths[i]) {
          assert forall g :: g in work.files ==> !Covers(work, paths[i], g);
          continue;
        }
        if paths[i] in f.unreadable {
          return Err(Io);
        }
        entries := entries
                   + map g | g in work.files && Covers(work, paths[i], g) :: StagedBlob(HeadTree(), g, work.files[g]);
      }
      assert paths[..|paths|] == paths;
      if f.index {
        return Err(Io);
      }
      index := Some(entries);
      r := Ok;
    }

    /** Commit the index over the whole parent tree; a commit that would change nothing is an error. */
    method GitCommit(message: string, f: CommitFaults) returns (r: Result)
      modifies this`head, this`locals
      ensures r == CommitOutcome(old(Here()), index, utf8, f)
      ensures r.Ok? ==>
        && old(ResolveHead()).Some? && index.Some?
        && var parent := old(ResolveHead()).value;
           var tree := Merged(parent.tree, index.value, utf8);
           tree != parent.tree && Here() == MoveHead(old(Here()), Commit(tree, [parent], message))
      ensures r.Err? ==> Here() == old(Here())
    {
      if index.None? {
        return Err(NoIndex);
      }
      if f.reading {
        return Err(Io);
      }
      if ResolveHead().None? {
        return Err(Unborn);
      }
      var parent := ResolveHead().value;
      var tree := Merged(parent.tree, index.value, utf8);
      if tree == parent.tree {
        return Err(NothingToCommit);
      }
      if f.writing {
        return Err(Io);
      }
      var commit := Commit(tree, [parent], message);
      if head.OnBranch? {
        locals := locals[head.name := commit];
      } else {
        head := Detached(commit);
      }
      r := Ok;
    }

    /** Stage and commit one rule's files; without a valid path nothing is committed. */
    method GitCommitFiles(batch: Batch, f: CommitFaults) returns (r: Result)
      modifies this`head, this`locals, this`index
      ensures r == if offline then Ok else BatchOutcome(work, utf8, old(Here()), batch, f)
      ensures Here() == if offline || r.Err? then old(Here()) else StepBatch(work, utf8, old(Here()), batch)
      ensures r.Ok? && !offline && ValidPaths(batch.files) != [] ==>
        Resolve(Here()).Some? && Resolve(old(Here())).Some?
          && Resolve(Here()).value.tree != Resolve(old(Here())).value.tree
    {
      if offline {
        return Ok;
      }
      var valid := ValidPaths(batch.files);
      if valid == [] {
        return Ok;
      }
      r := GitAdd(valid, f);
      if r.Ok? {
        r := GitCommit(MessageFor(batch.rule), f);
      }
    }

    /** Point the working branch back at `commit`. */
    method ResetWorkingBranch(commit: Commit, fails: bool) returns (r: Result)
      modifies this`locals
      ensures r == if workingBranch.None? then Err(NoWorkingBranch) else if fails then Err(Io) else Ok
      ensures locals == if r.Ok? then old(locals)[workingBranch.value := commit] else old(locals)
    {
      if workingBranch.None? {
        return Err(NoWorkingBranch);
      }
      if fails {
        return Err(Io);
      }
      locals := locals[workingBranch.value := commit];
      r := Ok;
    }

    /** Send the branch; only a fast-forward is taken. */
    method PushBranch(remote: Remote, branch: Branch, wire: Wire) returns (r: Result, fate: PushFate)
      modifies remote
      ensures fate == WireFate(locals, branch, old(remote.branches), wire)
      ensures remote.branches == RemoteAfter(Here(), branch, old(remote.branches), fate)
      ensures fate in {Updated, LostReply} ==>
        branch in locals && (branch in old(remote.branches) ==> Ancestor(old(remote.branches)[branch], locals[branch]))
      ensures r.Ok? <==> fate in {Updated, Silent}
    {
      if branch !in locals {
        return Err(MissingRef), Unreached;
      }
      var tip := locals[branch];
      if wire == Unreachable {
        return Err(Network), Unreached;
      }
      if wire == Refusing || (branch in remote.branches && !Ancestor(remote.branches[branch], tip)) {
        return Err(Rejected), Refused;
      }
      if wire == Quiet {
        return Ok, Silent;
      }
      remote.branches := remote.branches[branch := tip];
      if wire == ReplyLost {
        return Err(Network), LostReply;
      }
      return Ok, Updated;
    }

    /** Push the working branch, but only while HEAD is on it. */
    method Push(remote: Remote, f: Faults) returns (r: Result, fate: PushFate)
      modifies remote
      ensures offline || !contrib ==> r.Ok? && fate == Silent && remote.branches == old(remote.branches)
      ensures !offline && contrib && workingBranch.None? ==>
        r.Err? && fate == Unreached && remote.branches == old(remote.branches)
      ensures !offline && contrib && workingBranch.Some? ==>
        && fate == PushFateOf(Here(), workingBranch.value, old(remote.branches), f)
        && remote.branches == RemoteAfter(Here(), workingBranch.value, old(remote.branches), fate)
      ensures r.Ok? <==> fate in {Updated, Silent}
    {
      if offline || !contrib {
        return Ok, Silent;
      }
      if f.unshallow {
        return Err(Network), Unreached;
      }
      if workingBranch.None? {
        return Err(NoWorkingBranch), Unreached;
      }
      if head != OnBranch(workingBranch.value) {
        return Err(HeadElsewhere), Unreached;
      }
      r, fate := PushBranch(remote, workingBranch.value, f.wire);
    }

    /**
     Create the working branch from its tracking ref, or from HEAD when there is
     none, and switch to it. An existing local branch is replaced.
     */
    method CreateBranch(name: Branch, unreadable: bool, unwritable: bool, stuck: bool) returns (r: Result)
      modifies this`locals, this`head
      ensures r.Ok? <==> !unreadable && Base(old(Here()), tracking, name).Some? && !unwritable && !stuck
      ensures Here() == if unreadable || Base(old(Here()), tracking, name).None? || unwritable then old(Here())
                        else if stuck then Created(old(Here()), name, Base(old(Here()), tracking, name).value)
                                           .(head := old(head))
                        else Created(old(Here()), name, Base(old(Here()), tracking, name).value)
    {
      if unreadable {
        return Err(Io);
      }
      var base;
      if name in tracking {
        base := tracking[name];
        if base.None? {
          return Err(Unresolvable);
        }
      } else {
        base := ResolveHead();
        if base.None? {
          return Err(Unborn);
        }
      }
      if unwritable {
        return Err(Io);
      }
      locals := locals[name := base.value];
      if stuck {
        return Err(Io);
      }
      head := OnBranch(name);
      r := Ok;
    }

    /** Commit one more batch on top of those done since `start`. */
    method CommitNext(batch: Batch, f: CommitFaults, ghost start: Refs, ghost done: seq<Batch>) returns (r: Result)
      requires !offline && Here() == StepBatches(work, utf8, start, done) && Moved(start, Here())
      modifies this`head, this`locals, this`index
      ensures r == BatchOutcome(work, utf8, old(Here()), batch, f)
      ensures r.Ok? ==> Here() == StepBatches(work, utf8, start, done + [batch]) && Moved(start, Here())
      ensures r.Err? ==> Here() == old(Here())
    {
      hide *;
      ghost var before := Here();
      r := GitCommitFiles(batch, f);
      if r.Ok? {
        StepBatchesSnoc(work, utf8, start, done, batch);
        MovedStep(start, before, Here(), work, utf8, batch);
      }
    }

    /** Commit the batches in order until one fails or the caller asks to stop. */
    method CommitAll(batches: seq<Batch>, shouldAbort: nat -> bool, f: nat -> CommitFaults)
      returns (stop: Stop, done: nat)
      requires !offline
      modifies this`head, this`locals, this`index
      ensures done <= |batches|
      ensures Here() == StepBatches(work, utf8, old(Here()), Nonempty(batches[..done]))
      ensures Moved(old(Here()), Here())
      ensures StopsAt(work, utf8, old(Here()), batches, shouldAbort, f, stop, done)
    {
      hide AbortsAt, StepBatches, Nonempty, Moved, ValidPaths, BatchOutcome;
      ghost var start, kept: seq<Batch> := Here(), [];
      NothingDone(work, utf8, start);
      assert batches[..0] == [];
      var committed := 0;
      for i := 0 to |batches|
        invariant kept == Nonempty(batches[..i]) && committed == |kept|
        invariant Here() == StepBatches(work, utf8, start, kept) && Moved(start, Here())
        invariant GoesOn(work, utf8, start, batches, shouldAbort, f, i)
      {
        NonemptySnoc(batches, i);
        AbortMeaning(batches, shouldAbort, i);
        if batches[i].files == [] {
          NoFiles(work, utf8, Here(), batches[i], f(i));
          continue;
        }
        if committed > 0 && shouldAbort(committed) {
          return Asked, i;
        }
        var made := CommitNext(batches[i], f(i), start, kept);
        if made.Err? {
          return Failed(made.error), i;
        }
        kept := kept + [batches[i]];
        committed := committed + 1;
      }
      assert batches[..|batches|] == batches;
      return Finished(committed), |batches|;
    }

    /**
     Commit the batches one by one, then push once. An empty file list is
     skipped; a batch with no valid path counts as committed though nothing is.
     `shouldAbort` is asked before every commit but the first.
     */
    method UploadRuleBatches(remote: Remote, batches: seq<Batch>, shouldAbort: nat -> bool, f: Faults)
      returns (r: Result, fate: Fate, done: nat)
      modifies remote, this`head, this`locals, this`index
      ensures UploadStep(old(State(remote)), State(remote), work, utf8, batches, fate, done)
      ensures r.Err? <==> fate.NoBranch? || fate.CommitFailed? || fate.PushFailed?
      ensures Decided(old(State(remote)), Job(offline, contrib, work, utf8, batches, shouldAbort, f), fate, done)
    {
      hide UploadStep, Decided, StopsAt, FateOf, StepBatches, Nonempty, Moved, Settles;
      ghost var s := State(remote);
      ghost var job := Job(offline, contrib, work, utf8, batches, shouldAbort, f);
      if offline {
        NoStep(s, work, utf8, batches, Offline);
        NotStarted(s, job);
        return Ok, Offline, 0;
      }
      if !HasBranch() {
        NoStep(s, work, utf8, batches, NoBranch);
        NotStarted(s, job);
        return Err(MissingRef), NoBranch, 0;
      }
      var pre := locals[workingBranch.value];
      var stop;
      stop, done := CommitAll(batches, shouldAbort, f.commits);
      ghost var refs := Here();
      r, fate := FinishUpload(remote, pre, stop, f);
      Started(s, job, stop, fate, done);
      Step(s, State(remote), refs, work, utf8, batches, fate, done);
    }

    /** Roll back after a failed commit, stop where asked, or push what was committed. */
    method FinishUpload(remote: Remote, pre: Commit, stop: Stop, f: Faults) returns (r: Result, fate: Fate)
      requires !offline && workingBranch.Some?
      modifies remote, this`locals
      ensures Settles(workingBranch.value, pre, old(Here()), Here(), old(remote.branches), remote.branches, fate)
      ensures r.Err? <==> fate.CommitFailed? || fate.PushFailed?
      ensures stop.Failed? ==> r == Err(stop.error)
      ensures fate == FateOf(contrib, stop, PushFateOf(old(Here()), workingBranch.value, old(remote.branches), f),
                             f.reset)
    {
      hide Ancestor;
      if stop.Failed? {
        var reset := ResetWorkingBranch(pre, f.reset);
        r, fate := Err(stop.error), CommitFailed(reset.Ok?);
      } else if stop.Asked? {
        r, fate := Ok, Aborted;
      } else if stop.committed == 0 {
        r, fate := Ok, NothingToPush;
      } else if !contrib {
        r, fate := Ok, LocalOnly;
      } else {
        r, fate := PushOrRestore(remote, pre, f);
      }
    }

    /** Push; when that fails, put the working branch back to where it was before the batches. */
    method PushOrRestore(remote: Remote, pre: Commit, f: Faults) returns (r: Result, fate: Fate)
      requires !offline && contrib && workingBranch.Some?
      modifies remote, this`locals
      ensures fate == PushEnd(PushFateOf(old(Here()), workingBranch.value, old(remote.branches), f), f.reset)
      ensures r.Ok? <==> fate.Pushed?
      ensures locals == if Restored(fate) then old(locals)[workingBranch.value := pre] else old(locals)
      ensures remote.branches == RemoteAfter(old(Here()), workingBranch.value, old(remote.branches), fate.fate)
    {
      hide Ancestor;
      var pushed, how := Push(remote, f);
      if pushed.Err? {
        var reset := ResetWorkingBranch(pre, f.reset);
        r := if reset.Err? then reset else pushed;
        fate := PushFailed(how, reset.Ok?);
      } else {
        r, fate := Ok, Pushed(how);
      }
    }

    predicate HasBranch()
      reads this
    {
      workingBranch.Some? && workingBranch.value in locals
    }

    ghost function State(remote: Remote): GitState
      reads this, remote
    {
      GitState(workingBranch, Here(), tracking, remote.branches)
    }
  }

  datatype Stop = Finished(committed: nat) | Asked | Failed(error: Error)

  datatype GitState = GitState(workingBranch: Option<Branch>, refs: Refs, tracking: Tracking,
                               remote: map<Branch, Commit>)

  function Nonempty(batches: seq<Batch>): seq<Batch> {
    if batches == [] then []
    else
      var last := batches[|batches| - 1];
      Nonempty(batches[..|batches| - 1]) + (if last.files == [] then [] else [last])
  }

  lemma NothingDone(work: WorkTree, utf8: Path -> bool, s: Refs)
    ensures Nonempty([]) == [] && StepBatches(work, utf8, s, []) == s && Moved(s, s)
  {
  }

  lemma NonemptySnoc(batches: seq<Batch>, i: nat)
    requires i < |batches|
    ensures Nonempty(batches[..i + 1])
         == if batches[i].files == [] then Nonempty(batches[..i]) else Nonempty(batches[..i]) + [batches[i]]
  {
    assert batches[..i + 1][..i] == batches[..i];
  }

  lemma StepBatchesSnoc(work: WorkTree, utf8: Path -> bool, s: Refs, batches: seq<Batch>, batch: Batch)
    ensures StepBatches(work, utf8, s, batches + [batch])
         == StepBatch(work, utf8, StepBatches(work, utf8, s, batches), batch)
  {
    assert (batches + [batch])[..|batches|] == batches;
  }

  /**
   Before this batch the caller is asked, and asks to stop: something counts as committed and this
   list is not empty.
   */
  predicate AbortsAt(batches: seq<Batch>, shouldAbort: nat -> bool, i: nat)
    requires i < |batches|
  {
    batches[i].files != [] && Nonempty(batches[..i]) != [] && shouldAbort(|Nonempty(batches[..i])|)
  }

  lemma AbortMeaning(batches: seq<Batch>, shouldAbort: nat -> bool, i: nat)
    requires i < |batches|
    ensures AbortsAt(batches, shouldAbort, i)
            <==> batches[i].files != [] && |Nonempty(batches[..i])| > 0 && shouldAbort(|Nonempty(batches[..i])|)
  {
  }

  lemma NoFiles(work: WorkTree, utf8: Path -> bool, s: Refs, batch: Batch, f: CommitFaults)
    requires batch.files == []
    ensures BatchOutcome(work, utf8, s, batch, f).Ok?
  {
  }

  /** What becomes of the i-th batch once those before it are committed. */
  function OutcomeAt(work: WorkTree, utf8: Path -> bool, s: Refs, batches: seq<Batch>, f: nat -> CommitFaults, i: nat)
    : Result
    requires i < |batches|
  {
    BatchOutcome(work, utf8, StepBatches(work, utf8, s, Nonempty(batches[..i])), batches[i], f(i))
  }

  /** The first `n` batches neither fail nor are the caller asked to stop before them. */
  ghost predicate GoesOn(work: WorkTree, utf8: Path -> bool, s: Refs, batches: seq<Batch>, shouldAbort: nat -> bool,
                         f: nat -> CommitFaults, n: nat)
  {
    && n <= |batches|
    && forall i :: 0 <= i < n ==>
         !AbortsAt(batches, shouldAbort, i) && OutcomeAt(work, utf8, s, batches, f, i).Ok?
  }

  /** Why the commits stopped where they did. */
  ghost predicate StopsAt(work: WorkTree, utf8: Path -> bool, s: Refs, batches: seq<Batch>, shouldAbort: nat -> bool,
                          f: nat -> CommitFaults, stop: Stop, done: nat)
  {
    && GoesOn(work, utf8, s, batches, shouldAbort, f, done)
    && match stop
       case Finished(committed) => done == |batches| && committed == |Nonempty(batches)|
       case Asked => done < |batches| && AbortsAt(batches, shouldAbort, done)
       case Failed(e) =>
         && done < |batches| && !AbortsAt(batches, shouldAbort, done)
         && OutcomeAt(work, utf8, s, batches, f, done) == Err(e)
  }

  /** A push that ended this way, with the rollback that follows a failed one. */
  function PushEnd(how: PushFate, resetFails: bool): Fate {
    if how in {Updated, Silent} then Pushed(how) else PushFailed(how, !resetFails)
  }

  /** What becomes of an upload whose commits stopped this way. */
  function FateOf(contrib: bool, stop: Stop, how: PushFate, resetFails: bool): Fate {
    match stop
    case Failed(_) => CommitFailed(!resetFails)
    case Asked => Aborted
    case Finished(committed) =>
      if committed == 0 then NothingToPush else if !contrib then LocalOnly else PushEnd(how, resetFails)
  }

  /** The inputs of an upload. */
  datatype Job = Job(offline: bool, contrib: bool, work: WorkTree, utf8: Path -> bool, batches: seq<Batch>,
                     shouldAbort: nat -> bool, faults: Faults)

  /** The batch before which the commits stop, or their number. */
  ghost predicate Reaches(s: GitState, job: Job, n: nat) {
    GoesOn(job.work, job.utf8, s.refs, job.batches, job.shouldAbort, job.faults.commits, n)
  }

  /** Where the refs stand when every batch is committed. */
  function AllCommitted(s: GitState, job: Job): Refs {
    StepBatches(job.work, job.utf8, s.refs, Nonempty(job.batches))
  }

  /** Which way an upload ends, and where it stops: both follow from the state and the inputs. */
  ghost predicate Decided(s: GitState, job: Job, fate: Fate, done: nat) {
    if job.offline then fate == Offline && done == 0
    else if !HasWorkingBranch(s) then fate == NoBranch && done == 0
    else
      && Reaches(s, job, done)
      && if done < |job.batches| then
           if AbortsAt(job.batches, job.shouldAbort, done) then fate == Aborted
           else
             && OutcomeAt(job.work, job.utf8, s.refs, job.batches, job.faults.commits, done).Err?
             && fate == CommitFailed(!job.faults.reset)
         else
           fate == if Nonempty(job.batches) == [] then NothingToPush
                   else if !job.contrib then LocalOnly
                   else PushEnd(PushFateOf(AllCommitted(s, job), s.workingBranch.value, s.remote, job.faults),
                                job.faults.reset)
  }

  /** The working branch exists. */
  ghost predicate HasWorkingBranch(s: GitState) { s.workingBranch.Some? && s.workingBranch.value in s.refs.locals }

  lemma NotStarted(s: GitState, job: Job)
    requires job.offline || !HasWorkingBranch(s)
    ensures Decided(s, job, if job.offline then Offline else NoBranch, 0)
  {
  }

  lemma Started(s: GitState, job: Job, stop: Stop, fate: Fate, done: nat)
    requires !job.offline && HasWorkingBranch(s)
    requires StopsAt(job.work, job.utf8, s.refs, job.batches, job.shouldAbort, job.faults.commits, stop, done)
    requires var refs := StepBatches(job.work, job.utf8, s.refs, Nonempty(job.batches[..done]));
             fate == FateOf(job.contrib, stop, PushFateOf(refs, s.workingBranch.value, s.remote, job.faults),
                            job.faults.reset)
    ensures Decided(s, job, fate, done)
    ensures !fate.Offline? && !fate.NoBranch? && (fate.CommitFailed? || fate.Aborted? || done == |job.batches|)
  {
    hide AbortsAt, Nonempty, OutcomeAt, StepBatches, GoesOn, PushFateOf;
    assert job.batches[..|job.batches|] == job.batches;
    GoesOnWithin(s, job, done);
  }

  lemma GoesOnWithin(s: GitState, job: Job, n: nat)
    requires Reaches(s, job, n)
    ensures n <= |job.batches|
  {
  }

  /** HEAD's commit has moved forward over a straight line of non-empty commits; nothing else has moved. */
  ghost predicate Moved(s: Refs, s': Refs) {
    if Resolve(s).None? then s' == s
    else Resolve(s').Some? && Chain(Resolve(s).value, Resolve(s').value) && s' == MoveHead(s, Resolve(s').value)
  }

  lemma MovedStep(s: Refs, t: Refs, t': Refs, work: WorkTree, utf8: Path -> bool, batch: Batch)
    requires Moved(s, t) && t' == StepBatch(work, utf8, t, batch)
    requires ValidPaths(batch.files) != [] ==>
      Resolve(t').Some? && Resolve(t).Some? && Resolve(t').value.tree != Resolve(t).value.tree
    ensures Moved(s, t')
  {
    hide ValidPaths, CommitBatch;
    if ValidPaths(batch.files) != [] && Resolve(t).Some? {
      CommitOver(work, utf8, Resolve(t).value, batch);
    }
  }

  lemma CommitOver(work: WorkTree, utf8: Path -> bool, tip: Commit, batch: Batch)
    requires ValidPaths(batch.files) != []
    ensures CommitBatch(work, utf8, tip, batch).parents == [tip]
  {
  }

  /**
   What one upload may do: the first `done` batches are committed where HEAD is,
   then the working branch is kept, put back or pushed. Everything else, here and
   on the remote, stays as it was.
   */
  ghost predicate UploadStep(s: GitState, s': GitState, work: WorkTree, utf8: Path -> bool, batches: seq<Batch>,
                             fate: Fate, done: nat)
  {
    && s'.workingBranch == s.workingBranch && s'.tracking == s.tracking && done <= |batches|
    && if fate.Offline? || fate.NoBranch? then s' == s
       else
         && s.workingBranch.Some? && s.workingBranch.value in s.refs.locals
         && var wb := s.workingBranch.value;
            var refs := StepBatches(work, utf8, s.refs, Nonempty(batches[..done]));
            && Moved(s.refs, refs)
            && (fate.CommitFailed? || fate.Aborted? || done == |batches|)
            && Settles(wb, s.refs.locals[wb], refs, s'.refs, s.remote, s'.remote, fate)
  }

  /** How the refs and the remote end up once the commits are made, or one of them has failed. */
  ghost predicate Settles(wb: Branch, pre: Commit, refs: Refs, refs': Refs, remote: map<Branch, Commit>,
                          remote': map<Branch, Commit>, fate: Fate)
  {
    && refs' == (if Restored(fate) then refs.(locals := refs.locals[wb := pre]) else refs)
    && (if RemoteMoved(fate) then
          && wb in refs.locals && remote' == remote[wb := refs.locals[wb]]
          && (wb in remote ==> Ancestor(remote[wb], refs.locals[wb]))
        else remote' == remote)
    && ((fate.Pushed? || fate.PushFailed?) && fate.fate != Unreached ==> refs.head == OnBranch(wb))
    && (fate.Pushed? ==> fate.fate in {Updated, Silent})
    && (fate.PushFailed? ==> fate.fate in {Unreached, Refused, LostReply})
  }

  lemma NoStep(s: GitState, work: WorkTree, utf8: Path -> bool, batches: seq<Batch>, fate: Fate)
    requires fate.Offline? || fate.NoBranch?
    ensures UploadStep(s, s, work, utf8, batches, fate, 0)
  {
  }

  lemma Step(s: GitState, s': GitState, refs: Refs, work: WorkTree, utf8: Path -> bool, batches: seq<Batch>, fate: Fate,
             done: nat)
    requires s'.workingBranch == s.workingBranch && s'.tracking == s.tracking && done <= |batches|
    requires s.workingBranch.Some? && s.workingBranch.value in s.refs.locals && !fate.Offline? && !fate.NoBranch?
    requires refs == StepBatches(work, utf8, s.refs, Nonempty(batches[..done])) && Moved(s.refs, refs)
    requires fate.CommitFailed? || fate.Aborted? || done == |batches|
    requires var wb := s.workingBranch.value;
             Settles(wb, s.refs.locals[wb], refs, s'.refs, s.remote, s'.remote, fate)
    ensures UploadStep(s, s', work, utf8, batches, fate, done)
  {
    hide StepBatches, Nonempty, Moved, Settles;
  }

  predicate Restored(fate: Fate) { (fate.CommitFailed? || fate.PushFailed?) && fate.restored }

  predicate RemoteMoved(fate: Fate) { (fate.Pushed? || fate.PushFailed?) && fate.fate in {Updated, LostReply} }
}
