/**
 Fast-forward safety, rollback and tree preservation, over single uploads and
 over whole runs.
 */
module GitTheorems {
  import opened Options
  import opened CommitGraph
  import opened GitRepo

  /** HEAD is on the working branch and the branch exists. */
  ghost predicate OnBranchState(s: GitState) {
    && s.workingBranch.Some? && s.workingBranch.value in s.refs.locals
    && s.refs.head == OnBranch(s.workingBranch.value)
  }

  /** The remote tip is an ancestor of the local tip: a push would be a fast-forward. */
  ghost predicate FastForward(s: GitState)
    requires s.workingBranch.Some? && s.workingBranch.value in s.refs.locals
  {
    var wb := s.workingBranch.value;
    wb in s.remote ==> Ancestor(s.remote[wb], s.refs.locals[wb])
  }

  // ----- One upload -----

  /** What an upload does, with the way it ends decided by its inputs. */
  ghost predicate Upload(s: GitState, s': GitState, job: Job, fate: Fate, done: nat) {
    UploadStep(s, s', job.work, job.utf8, job.batches, fate, done) && Decided(s, job, fate, done)
  }

  /** The inputs leave nothing open: neither how an upload ends nor what it leaves behind. */
  lemma OneOutcome(s: GitState, a: GitState, b: GitState, job: Job, fate: Fate, fate': Fate, n: nat, n': nat)
    requires Upload(s, a, job, fate, n) && Upload(s, b, job, fate', n')
    ensures fate == fate' && n == n' && a == b
  {
    hide StepBatches, Nonempty, Moved, Ancestor, AbortsAt, OutcomeAt;
    if !job.offline && HasWorkingBranch(s) {
      if n < n' {
        GoesOnAt(s, job, n', n);
      } else if n' < n {
        GoesOnAt(s, job, n, n');
      }
    }
  }

  lemma GoesOnAt(s: GitState, job: Job, n: nat, i: nat)
    requires Reaches(s, job, n) && i < n
    ensures i < |job.batches| && !AbortsAt(job.batches, job.shouldAbort, i)
    ensures OutcomeAt(job.work, job.utf8, s.refs, job.batches, job.faults.commits, i).Ok?
  {
  }

  /** The batches commit where HEAD is, and only there; an unborn HEAD takes none. */
  lemma {:induction false} StepsAtHead(work: WorkTree, utf8: Path -> bool, s: Refs, batches: seq<Batch>)
    ensures StepBatches(work, utf8, s, batches)
         == if Resolve(s).None? then s else MoveHead(s, CommitBatches(work, utf8, Resolve(s).value, batches))
  {
    hide CommitBatch;
    if batches != [] {
      StepsAtHead(work, utf8, s, batches[..|batches| - 1]);
      if Resolve(s).Some? {
        NoPaths(work, utf8, CommitBatches(work, utf8, Resolve(s).value, batches[..|batches| - 1]),
          batches[|batches| - 1]);
      }
    } else if s.head.OnBranch? && Resolve(s).Some? {
      assert s.locals[s.head.name := s.locals[s.head.name]] == s.locals;
    }
  }

  lemma NoPaths(work: WorkTree, utf8: Path -> bool, tip: Commit, batch: Batch)
    ensures ValidPaths(batch.files) == [] ==> CommitBatch(work, utf8, tip, batch) == tip
  {
  }

  /** The tip after the batches an upload got to. */
  ghost function TipAfter(s: GitState, work: WorkTree, utf8: Path -> bool, batches: seq<Batch>, done: nat): Commit
    requires OnBranchState(s) && done <= |batches|
  {
    CommitBatches(work, utf8, s.refs.locals[s.workingBranch.value], Nonempty(batches[..done]))
  }

  lemma UploadOnBranch(s: GitState, s': GitState, work: WorkTree, utf8: Path -> bool, batches: seq<Batch>, fate: Fate,
                       done: nat)
    requires OnBranchState(s) && UploadStep(s, s', work, utf8, batches, fate, done)
    ensures OnBranchState(s') && s'.workingBranch == s.workingBranch && done <= |batches|
    ensures fate.Offline? || fate.NoBranch? ==> s' == s
    ensures !fate.Offline? && !fate.NoBranch? ==>
      var wb, tip := s.workingBranch.value, TipAfter(s, work, utf8, batches, done);
      && Chain(s.refs.locals[wb], tip)
      && s'.refs.locals == (if Restored(fate) then s.refs.locals else s.refs.locals[wb := tip])
      && s'.remote == (if RemoteMoved(fate) then s.remote[wb := tip] else s.remote)
  {
    hide CommitBatches, StepBatches, Nonempty, Chain, Ancestor;
    if !fate.Offline? && !fate.NoBranch? {
      var wb := s.workingBranch.value;
      StepsAtHead(work, utf8, s.refs, Nonempty(batches[..done]));
      assert s.refs.locals[wb := s.refs.locals[wb]] == s.refs.locals;
    }
  }

  /**
   After a failed upload the refs of this clone are where they were exactly when
   the batches committed nothing, or the rollback could be written and HEAD was on
   the working branch: what was committed elsewhere is never taken back.
   */
  lemma RollbackRestores(s: GitState, s': GitState, job: Job, fate: Fate, done: nat)
    requires Upload(s, s', job, fate, done) && (fate.CommitFailed? || fate.PushFailed?)
    ensures s.workingBranch.Some? && done <= |job.batches|
    ensures s'.refs == s.refs <==>
      || (!job.faults.reset && s.refs.head == OnBranch(s.workingBranch.value)) || Resolve(s.refs).None?
      || CommitBatches(job.work, job.utf8, Resolve(s.refs).value, Nonempty(job.batches[..done]))
         == Resolve(s.refs).value
  {
    hide CommitBatches, StepBatches, Nonempty, Moved, Ancestor, AbortsAt, OutcomeAt, GoesOn;
    var wb, batches := s.workingBranch.value, job.batches;
    var pre := s.refs.locals[wb];
    StepsAtHead(job.work, job.utf8, s.refs, Nonempty(batches[..done]));
    assert s.refs.locals[wb := pre] == s.refs.locals;
    if Resolve(s.refs).Some? {
      var tip := CommitBatches(job.work, job.utf8, Resolve(s.refs).value, Nonempty(batches[..done]));
      PutBack(s.refs, tip, wb);
      StaysMoved(s.refs, tip);
    }
  }

  lemma StaysMoved(s: Refs, tip: Commit)
    requires Resolve(s).Some?
    ensures MoveHead(s, tip) == s <==> tip == Resolve(s).value
  {
    if s.head.OnBranch? {
      assert s.locals[s.head.name := tip][s.head.name] == tip;
      assert s.locals[s.head.name := s.locals[s.head.name]] == s.locals;
    }
  }

  lemma PutBack(s: Refs, tip: Commit, wb: Branch)
    requires wb in s.locals && Resolve(s).Some?
    ensures var moved := MoveHead(s, tip);
            moved.(locals := moved.locals[wb := s.locals[wb]]) == s
            <==> s.head == OnBranch(wb) || tip == Resolve(s).value
  {
    assert s.locals[wb := s.locals[wb]] == s.locals;
    if s.head.OnBranch? {
      var b := s.head.name;
      var back := s.locals[b := tip][wb := s.locals[wb]];
      if b == wb {
        assert back == s.locals;
      } else {
        assert back[b] == tip;
        if tip == s.locals[b] {
          assert back == s.locals;
        }
      }
    }
  }

  /**
   With HEAD off the working branch the commits stay where HEAD is, nothing is pushed and the
   branch does not move.
   */
  lemma HeadElsewhereKeepsCommits(s: GitState, s': GitState, work: WorkTree, utf8: Path -> bool, batches: seq<Batch>,
                                  fate: Fate, done: nat)
    requires UploadStep(s, s', work, utf8, batches, fate, done) && !fate.Offline? && !fate.NoBranch?
    requires s.refs.head != OnBranch(s.workingBranch.value) && Resolve(s.refs).Some?
    ensures done <= |batches| && s'.remote == s.remote
    ensures s'.refs == MoveHead(s.refs, CommitBatches(work, utf8, Resolve(s.refs).value, Nonempty(batches[..done])))
    ensures s.workingBranch.value in s'.refs.locals
    ensures s'.refs.locals[s.workingBranch.value] == s.refs.locals[s.workingBranch.value]
  {
    hide CommitBatches, StepBatches, Nonempty, Moved, Ancestor;
    StepsAtHead(work, utf8, s.refs, Nonempty(batches[..done]));
    var wb := s.workingBranch.value;
    var moved := MoveHead(s.refs, CommitBatches(work, utf8, Resolve(s.refs).value, Nonempty(batches[..done])));
    assert moved.locals[wb := s.refs.locals[wb]] == moved.locals;
  }

  /**
   The case occurs with nothing wrong anywhere: HEAD detached, two batches of one
   file. The second has nothing left to commit, the upload fails and is rolled
   back, and the first commit stays.
   */
  lemma RollbackLeavesCommits(name: Branch)
    ensures exists s, s', job: Job, done ::
      && job.faults == NO_FAULTS && Upload(s, s', job, CommitFailed(true), done)
      && s'.refs != s.refs
  {
    hide *;
    NothingWrong();
    var base := Commit(map[], [], "base");
    var s := GitState(Some(name), Refs(Detached(base), map[name := base]), map[], map[]);
    var job := Job(false, true, OneFile(), p => true, [ONE_BATCH, ONE_BATCH], n => false, NO_FAULTS);
    AtBase(s, name, base);
    var tip := OneFileSucceeds(s, job);
    var s' := s.(refs := s.refs.(head := Detached(tip)));
    AgainIsNothing(s, job, tip);
    StoppedUpload(s, s', job, name, base, tip);
  }

  lemma StoppedUpload(s: GitState, s': GitState, job: Job, name: Branch, base: Commit, tip: Commit)
    requires s == GitState(Some(name), Refs(Detached(base), map[name := base]), map[], map[])
    requires s' == s.(refs := s.refs.(head := Detached(tip)))
    requires !job.offline && job.batches == [ONE_BATCH, ONE_BATCH] && !job.faults.reset && !job.shouldAbort(1)
    requires Nonempty([ONE_BATCH]) == [ONE_BATCH] && Reaches(s, job, 1)
    requires StepBatches(job.work, job.utf8, s.refs, [ONE_BATCH]) == MoveHead(s.refs, tip)
    requires Moved(s.refs, MoveHead(s.refs, tip))
    requires OutcomeAt(job.work, job.utf8, s.refs, job.batches, job.faults.commits, 1).Err?
    ensures Upload(s, s', job, CommitFailed(true), 1)
  {
    hide StepBatches, Nonempty, Moved, OutcomeAt, GoesOn, Ancestor, ONE_BATCH;
    assert job.batches[..1] == [ONE_BATCH];
    assert map[name := base][name := base] == map[name := base];
    Step(s, s', MoveHead(s.refs, tip), job.work, job.utf8, job.batches, CommitFailed(true), 1);
  }

  /** Committing the same file again would change nothing. */
  lemma AgainIsNothing(s: GitState, job: Job, tip: Commit)
    requires Resolve(s.refs).Some? && Resolve(s.refs).value.tree == map[] && job.utf8("a")
    requires job.batches == [ONE_BATCH, ONE_BATCH] && job.work == OneFile()
    requires tip == CommitBatch(OneFile(), job.utf8, Resolve(s.refs).value, ONE_BATCH)
    requires StepBatches(OneFile(), job.utf8, s.refs, [ONE_BATCH]) == MoveHead(s.refs, tip)
    requires Nonempty([ONE_BATCH]) == [ONE_BATCH]
    ensures OutcomeAt(job.work, job.utf8, s.refs, job.batches, job.faults.commits, 1).Err?
  {
    hide StepBatches, Nonempty, Ancestor, Staged, Carried, Merged, OneFile, ValidPaths, CommitBatch;
    OneFileCommit(job.utf8, Resolve(s.refs).value);
    assert job.batches[..1] == [ONE_BATCH];
    StagedAgain(job.utf8, Resolve(s.refs).value, tip);
    assert Resolve(MoveHead(s.refs, tip)) == Some(tip);
  }

  lemma StagedAgain(utf8: Path -> bool, base: Commit, tip: Commit)
    requires base.tree == map[] && utf8("a") && tip == CommitBatch(OneFile(), utf8, base, ONE_BATCH)
    ensures Merged(tip.tree, Staged(OneFile(), tip.tree, ["a"]), utf8) == tip.tree
  {
    OneFileCommit(utf8, base);
    hide CommitBatch, ValidPaths;
    assert "a" in ["a"];
  }

  /** The remote took the push, its reply was lost, and the rollback takes back a commit the remote now has. */
  ghost predicate TakesBackPushed(s: GitState, work: WorkTree, utf8: Path -> bool, batches: seq<Batch>, fate: Fate)
    requires HasWorkingBranch(s)
  {
    var pre := s.refs.locals[s.workingBranch.value];
    fate == PushFailed(LostReply, true) && CommitBatches(work, utf8, pre, Nonempty(batches)) != pre
  }

  /** Wherever HEAD is, an upload keeps the fast-forward relation in every other case and in that one breaks it. */
  lemma UploadKeepsFastForward(s: GitState, s': GitState, work: WorkTree, utf8: Path -> bool, batches: seq<Batch>,
                               fate: Fate, done: nat)
    requires HasWorkingBranch(s) && UploadStep(s, s', work, utf8, batches, fate, done) && FastForward(s)
    ensures HasWorkingBranch(s') && s'.workingBranch == s.workingBranch
    ensures FastForward(s') <==> !TakesBackPushed(s, work, utf8, batches, fate)
  {
    hide CommitBatches, Nonempty, UploadStep, Ancestor, Chain;
    if fate.Offline? || fate.NoBranch? {
      NoChange(s, s', work, utf8, batches, fate, done);
    } else if s.refs.head == OnBranch(s.workingBranch.value) {
      OnBranchFastForward(s, s', work, utf8, batches, fate, done);
    } else {
      ElsewhereUnmoved(s, s', work, utf8, batches, fate, done);
    }
  }

  lemma NoChange(s: GitState, s': GitState, work: WorkTree, utf8: Path -> bool, batches: seq<Batch>,
                 fate: Fate, done: nat)
    requires UploadStep(s, s', work, utf8, batches, fate, done) && (fate.Offline? || fate.NoBranch?)
    ensures s' == s
  {
  }

  lemma ElsewhereUnmoved(s: GitState, s': GitState, work: WorkTree, utf8: Path -> bool, batches: seq<Batch>, fate: Fate,
                         done: nat)
    requires HasWorkingBranch(s) && UploadStep(s, s', work, utf8, batches, fate, done)
             && !fate.Offline? && !fate.NoBranch?
    requires s.refs.head != OnBranch(s.workingBranch.value)
    ensures s'.workingBranch == s.workingBranch && s'.remote == s.remote && HasWorkingBranch(s')
    ensures s'.refs.locals[s.workingBranch.value] == s.refs.locals[s.workingBranch.value]
    ensures fate != PushFailed(LostReply, true)
  {
    hide CommitBatches, StepBatches, Nonempty, Moved, Ancestor;
    StepsAtHead(work, utf8, s.refs, Nonempty(batches[..done]));
  }

  lemma OnBranchFastForward(s: GitState, s': GitState, work: WorkTree, utf8: Path -> bool, batches: seq<Batch>,
                            fate: Fate, done: nat)
    requires OnBranchState(s) && UploadStep(s, s', work, utf8, batches, fate, done) && FastForward(s)
    requires !fate.Offline? && !fate.NoBranch?
    ensures HasWorkingBranch(s') && s'.workingBranch == s.workingBranch
    ensures FastForward(s') <==> !TakesBackPushed(s, work, utf8, batches, fate)
  {
    hide CommitBatches, Nonempty, UploadStep, Ancestor, Chain;
    UploadOnBranch(s, s', work, utf8, batches, fate, done);
    var wb, tip := s.workingBranch.value, TipAfter(s, work, utf8, batches, done);
    var pre := s.refs.locals[wb];
    ChainIsAncestry(pre, tip);
    Reflexive(tip);
    if wb in s.remote {
      AncestorTransitive(s.remote[wb], pre, tip);
    }
    if RemoteMoved(fate) && Restored(fate) {
      PushFates(s, s', work, utf8, batches, fate, done);
      assert batches[..|batches|] == batches;
      if Ancestor(tip, pre) {
        AncestorAntisymmetric(pre, tip);
      }
    }
  }

  /** The case occurs: one file, a push whose reply is lost, and a rollback that is written. */
  lemma LostReplyBreaksFastForward(name: Branch)
    ensures exists s, s', job, done ::
      && Upload(s, s', job, PushFailed(LostReply, true), done)
      && HasWorkingBranch(s) && HasWorkingBranch(s') && FastForward(s) && !FastForward(s')
  {
    hide *;
    NothingWrong();
    var base := Commit(map[], [], "base");
    var s := GitState(Some(name), Refs(OnBranch(name), map[name := base]), map[], map[]);
    var job := Job(false, true, OneFile(), p => true, [ONE_BATCH], n => false, NO_FAULTS.(wire := ReplyLost));
    AtBase(s, name, base);
    var tip := OneFileSucceeds(s, job);
    var s' := s.(remote := map[name := tip]);
    LostReplyUpload(s, s', job, name, base, tip);
    Siblings(s, s', name, base, tip);
  }

  lemma NothingWrong()
    ensures !NO_FAULTS.unshallow && !NO_FAULTS.reset
  {
  }

  lemma AtBase(s: GitState, name: Branch, base: Commit)
    requires s.workingBranch == Some(name) && s.refs.locals == map[name := base]
    requires s.refs.head == OnBranch(name) || s.refs.head == Detached(base)
    ensures Resolve(s.refs) == Some(base) && HasWorkingBranch(s)
  {
  }

  lemma Siblings(s: GitState, s': GitState, name: Branch, base: Commit, tip: Commit)
    requires s.workingBranch == Some(name) && s.refs.locals == map[name := base] && s.remote == map[]
    requires s' == s.(remote := map[name := tip]) && !Ancestor(tip, base)
    ensures HasWorkingBranch(s) && HasWorkingBranch(s') && FastForward(s) && !FastForward(s')
  {
  }

  lemma LostReplyUpload(s: GitState, s': GitState, job: Job, name: Branch, base: Commit, tip: Commit)
    requires s == GitState(Some(name), Refs(OnBranch(name), map[name := base]), map[], map[])
    requires s' == s.(remote := map[name := tip])
    requires !job.offline && job.contrib && job.batches == [ONE_BATCH]
    requires !job.faults.unshallow && job.faults.wire == ReplyLost && !job.faults.reset
    requires Nonempty([ONE_BATCH]) == [ONE_BATCH] && Reaches(s, job, 1)
    requires StepBatches(job.work, job.utf8, s.refs, [ONE_BATCH]) == MoveHead(s.refs, tip)
    requires Moved(s.refs, MoveHead(s.refs, tip))
    ensures Upload(s, s', job, PushFailed(LostReply, true), 1)
  {
    hide StepBatches, Nonempty, Moved, OutcomeAt, AbortsAt, GoesOn, Ancestor, ONE_BATCH;
    var moved := MoveHead(s.refs, tip);
    assert job.batches[..1] == job.batches;
    assert moved.locals == map[name := tip] && moved.locals[name := base] == s.refs.locals;
    Step(s, s', moved, job.work, job.utf8, job.batches, PushFailed(LostReply, true), 1);
  }

  lemma OneBatch(work: WorkTree, utf8: Path -> bool, s: Refs, batch: Batch)
    requires batch.files != []
    ensures [batch][..0] == [] && [batch][..1] == [batch] && Nonempty([batch]) == [batch]
    ensures StepBatches(work, utf8, s, [batch]) == StepBatch(work, utf8, s, batch)
  {
    assert [batch][..0] == [];
    assert StepBatches(work, utf8, s, []) == s;
  }

  /** A work tree of one regular file. */
  function OneFile(): WorkTree { WorkTree(map["a" := Blob(1, Regular)], {}) }

  lemma OneFileCommit(utf8: Path -> bool, base: Commit)
    ensures ValidPaths(["a"]) == ["a"]
    ensures CommitBatch(OneFile(), utf8, base, ONE_BATCH)
         == Commit(Carried(base.tree, utf8) + Staged(OneFile(), base.tree, ["a"]), [base], MessageFor("r"))
    ensures Staged(OneFile(), base.tree, ["a"]).Keys == {"a"}
  {
    assert "a"[1..] == "" && !Contains("a", "..");
    assert ValidPaths(["a"]) == ["a"] + ValidPaths([]);
    assert "a" in ["a"];
  }

  const ONE_BATCH := Batch("r", ["a"])

  /** With nothing wrong the one file over an empty tree is committed, and its commit is no ancestor of the base. */
  lemma OneFileSucceeds(s: GitState, job: Job) returns (tip: Commit)
    requires Resolve(s.refs).Some? && Resolve(s.refs).value.tree == map[]
    requires |job.batches| > 0 && job.batches[0] == ONE_BATCH && job.work == OneFile()
    requires job.faults.commits == NO_FAULTS.commits
    ensures tip == CommitBatch(OneFile(), job.utf8, Resolve(s.refs).value, ONE_BATCH)
    ensures Reaches(s, job, 1) && tip != Resolve(s.refs).value && !Ancestor(tip, Resolve(s.refs).value)
    ensures Nonempty([ONE_BATCH]) == [ONE_BATCH]
    ensures StepBatches(OneFile(), job.utf8, s.refs, [ONE_BATCH]) == MoveHead(s.refs, tip)
    ensures Moved(s.refs, MoveHead(s.refs, tip))
  {
    var base := Resolve(s.refs).value;
    tip := CommitBatch(OneFile(), job.utf8, base, ONE_BATCH);
    OneBatch(OneFile(), job.utf8, s.refs, ONE_BATCH);
    FirstOutcome(s, job);
    hide Ancestor, Staged, Carried, OneFile, OutcomeAt;
    OneFileCommit(job.utf8, base);
    assert "a" in tip.tree;
    assert Chain(base, tip);
    ChainIsAncestry(base, tip);
    if Ancestor(tip, base) {
      AncestorAntisymmetric(base, tip);
    }
  }

  lemma FirstOutcome(s: GitState, job: Job)
    requires Resolve(s.refs).Some? && Resolve(s.refs).value.tree == map[]
    requires |job.batches| > 0 && job.batches[0] == ONE_BATCH && job.work == OneFile()
    requires job.faults.commits == NO_FAULTS.commits
    ensures OutcomeAt(job.work, job.utf8, s.refs, job.batches, job.faults.commits, 0).Ok?
  {
    var base := Resolve(s.refs).value;
    OneFileCommit(job.utf8, base);
    assert job.batches[..0] == [];
    assert StepBatches(job.work, job.utf8, s.refs, []) == s.refs && Nonempty([]) == [];
    hide Carried, StepBatches, Nonempty;
    var staged := Staged(OneFile(), base.tree, ["a"]);
    assert "a" in Merged(base.tree, staged, job.utf8);
  }

  lemma Reflexive(c: Commit)
    ensures Ancestor(c, c)
  {
  }

  lemma PushFates(s: GitState, s': GitState, work: WorkTree, utf8: Path -> bool, batches: seq<Batch>,
                  fate: Fate, done: nat)
    requires UploadStep(s, s', work, utf8, batches, fate, done) && RemoteMoved(fate) && Restored(fate)
    ensures fate == PushFailed(LostReply, true) && done == |batches|
  {
    hide StepBatches, Nonempty, Moved, Ancestor;
  }

  /** With the relation in place the commits of any batch prefix are a fast-forward of the remote. */
  lemma NeverASibling(s: GitState, s': GitState, work: WorkTree, utf8: Path -> bool, batches: seq<Batch>, fate: Fate,
                      done: nat)
    requires OnBranchState(s) && UploadStep(s, s', work, utf8, batches, fate, done) && FastForward(s)
    requires !fate.Offline? && !fate.NoBranch? && s.workingBranch.value in s.remote
    ensures done <= |batches|
    ensures Ancestor(s.remote[s.workingBranch.value], TipAfter(s, work, utf8, batches, done))
  {
    hide CommitBatches, Nonempty, UploadStep, Ancestor, Chain;
    UploadOnBranch(s, s', work, utf8, batches, fate, done);
    var pre, tip := s.refs.locals[s.workingBranch.value], TipAfter(s, work, utf8, batches, done);
    ChainIsAncestry(pre, tip);
    AncestorTransitive(s.remote[s.workingBranch.value], pre, tip);
  }

  // ----- Whole runs -----

  datatype Move = Move(job: Job, fate: Fate, done: nat)

  /** A run: any sequence of uploads, each with any inputs, the files changing freely in between. */
  ghost predicate IsRun(states: seq<GitState>, moves: seq<Move>) {
    && |states| == |moves| + 1
    && forall i :: 0 <= i < |moves| ==> Upload(states[i], states[i + 1], moves[i].job, moves[i].fate, moves[i].done)
  }

  ghost predicate RepliesArrive(moves: seq<Move>) {
    forall i :: 0 <= i < |moves| ==> !(moves[i].fate.PushFailed? && moves[i].fate.fate == LostReply)
  }

  /** Through any run in which push replies arrive, the remote tip stays an ancestor of the local tip. */
  lemma {:induction false} RunKeepsFastForward(states: seq<GitState>, moves: seq<Move>, n: nat)
    requires IsRun(states, moves) && n <= |moves| && RepliesArrive(moves[..n])
    requires HasWorkingBranch(states[0]) && FastForward(states[0])
    ensures HasWorkingBranch(states[n]) && FastForward(states[n])
    ensures states[n].workingBranch == states[0].workingBranch
    ensures OnBranchState(states[0]) ==> OnBranchState(states[n])
  {
    if n > 0 {
      assert forall i :: 0 <= i < n - 1 ==> moves[..n - 1][i] == moves[..n][i];
      RunKeepsFastForward(states, moves, n - 1);
      var m := moves[n - 1];
      assert moves[..n][n - 1] == m;
      assert Upload(states[n - 1], states[n - 1 + 1], m.job, m.fate, m.done);
      hide UploadStep, Decided, FastForward;
      UploadKeepsFastForward(states[n - 1], states[n], m.job.work, m.job.utf8, m.job.batches, m.fate, m.done);
      if OnBranchState(states[n - 1]) {
        UploadOnBranch(states[n - 1], states[n], m.job.work, m.job.utf8, m.job.batches, m.fate, m.done);
      }
    }
  }

  /**
   On a branch that has the remote tip behind it, a push is never turned down as a
   sibling: it ends as the transport makes it end, and when nothing goes wrong the
   remote holds the new tip.
   */
  lemma PushIsTaken(s: GitState, s': GitState, job: Job, fate: Fate, done: nat)
    requires OnBranchState(s) && FastForward(s) && Upload(s, s', job, fate, done) && (fate.Pushed? || fate.PushFailed?)
    ensures OnBranchState(s') && s'.workingBranch == s.workingBranch
    ensures fate == PushEnd(OnWire(job.faults), job.faults.reset)
    ensures fate == Pushed(Updated) <==> !job.faults.unshallow && job.faults.wire == Working
    ensures fate == Pushed(Updated) ==>
      var wb := s.workingBranch.value;
      && s'.remote == s.remote[wb := s'.refs.locals[wb]]
      && s'.refs.locals[wb] == TipAfter(s, job.work, job.utf8, job.batches, |job.batches|)
  {
    var wb, batches := s.workingBranch.value, job.batches;
    DoneWithAll(s, job, fate, done);
    assert batches[..|batches|] == batches;
    hide CommitBatches, StepBatches, Nonempty, UploadStep, Decided, Ancestor, Chain, PushFateOf;
    UploadOnBranch(s, s', job.work, job.utf8, batches, fate, done);
    StepsAtHead(job.work, job.utf8, s.refs, Nonempty(batches));
    var pre, tip := s.refs.locals[wb], TipAfter(s, job.work, job.utf8, batches, done);
    ChainIsAncestry(pre, tip);
    if wb in s.remote {
      AncestorTransitive(s.remote[wb], pre, tip);
    }
    FateOnWire(AllCommitted(s, job), wb, s.remote, job.faults);
  }

  lemma FateOnWire(refs: Refs, wb: Branch, remote: map<Branch, Commit>, f: Faults)
    requires refs.head == OnBranch(wb) && wb in refs.locals && (wb in remote ==> Ancestor(remote[wb], refs.locals[wb]))
    ensures PushFateOf(refs, wb, remote, f) == OnWire(f)
  {
    hide Ancestor;
  }

  /** How the transport alone ends a push. */
  ghost function OnWire(f: Faults): PushFate {
    if f.unshallow || f.wire == Unreachable then Unreached
    else match f.wire
      case Refusing => Refused
      case Quiet => Silent
      case ReplyLost => LostReply
      case _ => Updated
  }

  lemma DoneWithAll(s: GitState, job: Job, fate: Fate, done: nat)
    requires Decided(s, job, fate, done) && (fate.Pushed? || fate.PushFailed?)
    ensures done == |job.batches| && !job.offline && HasWorkingBranch(s)
    ensures fate == PushEnd(PushFateOf(AllCommitted(s, job), s.workingBranch.value, s.remote, job.faults),
                            job.faults.reset)
  {
    hide StepBatches, Nonempty, Ancestor, AbortsAt, OutcomeAt, PushFateOf;
  }

  // ----- Creating the branch -----

  /** The tracking ref shows the remote branch as it is. */
  ghost predicate TrackingCurrent(s: GitState, name: Branch) {
    (name in s.tracking <==> name in s.remote) && (name in s.tracking ==> s.tracking[name] == Some(s.remote[name]))
  }

  /** A fresh working branch is a fast-forward exactly when its base has the remote tip behind it. */
  lemma CreateIsFastForward(s: GitState, name: Branch)
    requires s.workingBranch == Some(name) && Base(s.refs, s.tracking, name).Some?
    ensures var base := Base(s.refs, s.tracking, name).value;
            var s' := s.(refs := Created(s.refs, name, base));
            && OnBranchState(s')
            && (FastForward(s') <==> (name in s.remote ==> Ancestor(s.remote[name], base)))
            && (TrackingCurrent(s, name) ==> FastForward(s'))
  {
  }

  /**
   From a branch created over a current tracking ref, through any uploads whose
   replies arrive, every push is a fast-forward and is taken unless the transport
   fails.
   */
  lemma CreatedBranchIsNeverRejected(s: GitState, name: Branch, states: seq<GitState>, moves: seq<Move>, n: nat)
    requires s.workingBranch == Some(name) && Base(s.refs, s.tracking, name).Some? && TrackingCurrent(s, name)
    requires IsRun(states, moves) && n < |moves| && RepliesArrive(moves[..n])
    requires states[0] == s.(refs := Created(s.refs, name, Base(s.refs, s.tracking, name).value))
    requires moves[n].fate.Pushed? || moves[n].fate.PushFailed?
    ensures OnBranchState(states[n]) && FastForward(states[n])
    ensures moves[n].fate == PushEnd(OnWire(moves[n].job.faults), moves[n].job.faults.reset)
  {
    CreateIsFastForward(s, name);
    RunKeepsFastForward(states, moves, n);
    assert Upload(states[n], states[n + 1], moves[n].job, moves[n].fate, moves[n].done);
    PushIsTaken(states[n], states[n + 1], moves[n].job, moves[n].fate, moves[n].done);
  }

  /** Without the tracking ref the branch starts as a sibling of the remote tip. */
  lemma StaleTrackingIsASibling(name: Branch)
    ensures exists s: GitState ::
      && s.workingBranch == Some(name) && name in s.remote && name !in s.tracking && Resolve(s.refs).Some?
      && Ancestor(Resolve(s.refs).value, s.remote[name])
      && !FastForward(s.(refs := Created(s.refs, name, Resolve(s.refs).value)))
  {
    var main := Commit(map[], [], "main");
    var pushed := Commit(map["a" := Blob(0, Regular)], [main], "pushed");
    var s := GitState(Some(name), Refs(Detached(main), map[]), map[], map[name := pushed]);
    assert Ancestor(main, pushed.parents[0]);
    assert Ancestor(main, pushed);
    if Ancestor(pushed, main) {
      AncestorAntisymmetric(main, pushed);
    }
    assert Resolve(s.refs) == Some(main);
    assert !FastForward(s.(refs := Created(s.refs, name, main)));
  }

  // ----- When a push is attempted -----

  /**
   A push is attempted exactly when contribution is on, no batch fails or is
   stopped before, and some file list is not empty, whether it holds a valid path
   or not.
   */
  lemma PushAttempted(s: GitState, job: Job, fate: Fate, done: nat)
    requires Decided(s, job, fate, done) && !job.offline && HasWorkingBranch(s)
    ensures fate.Pushed? || fate.PushFailed? <==>
      job.contrib && Reaches(s, job, |job.batches|) && exists b :: b in job.batches && b.files != []
  {
    hide AbortsAt, OutcomeAt, PushFateOf, StepBatches;
    SomeList(job.batches);
    if Reaches(s, job, |job.batches|) && done < |job.batches| {
      GoesOnAt(s, job, |job.batches|, done);
    }
  }

  lemma {:induction false} SomeList(batches: seq<Batch>)
    ensures Nonempty(batches) != [] <==> exists b :: b in batches && b.files != []
  {
    if batches != [] {
      var n := |batches| - 1;
      SomeList(batches[..n]);
      assert batches == batches[..n] + [batches[n]];
    }
  }

  /** A list with no valid path is not skipped: nothing is committed for it, and the push is attempted all the same. */
  lemma InvalidListStillPushes(s: GitState, s': GitState, job: Job, rule: string, fate: Fate, done: nat)
    requires Upload(s, s', job, fate, done) && !job.offline && job.contrib && HasWorkingBranch(s)
    requires job.batches == [Batch(rule, [".."])]
    ensures fate.Pushed? || fate.PushFailed?
    ensures AllCommitted(s, job) == s.refs
  {
    var b := Batch(rule, [".."]);
    OneBatch(job.work, job.utf8, s.refs, b);
    NothingValid(rule);
    assert OutcomeAt(job.work, job.utf8, s.refs, job.batches, job.faults.commits, 0).Ok?;
    assert !AbortsAt([b], job.shouldAbort, 0);
  }

  lemma NothingValid(rule: string)
    ensures ValidPaths(Batch(rule, [".."]).files) == []
  {
    var p: Path := "..";
    assert Contains(p, "..");
    assert [p][1..] == [];
  }

  // ----- Trees -----

  ghost predicate StagedBy(work: WorkTree, batch: Batch, p: Path) {
    p in work.files && exists q :: q in ValidPaths(batch.files) && Covers(work, q, p)
  }

  ghost predicate StagedByAny(work: WorkTree, batches: seq<Batch>, p: Path) {
    exists i :: 0 <= i < |batches| && StagedBy(work, batches[i], p)
  }

  ghost predicate AnyValid(batches: seq<Batch>) {
    exists i :: 0 <= i < |batches| && ValidPaths(batches[i].files) != []
  }

  lemma StagedKeys(work: WorkTree, parent: Tree, batch: Batch, p: Path)
    ensures p in Staged(work, parent, ValidPaths(batch.files)) <==> StagedBy(work, batch, p)
    ensures StagedBy(work, batch, p)
            ==> Staged(work, parent, ValidPaths(batch.files))[p].oid == work.files[p].oid
  {
  }

  /**
   A path no batch stages: once anything has been committed it is kept exactly
   when its name is UTF-8, and unchanged exactly when its mode is a plain one.
   */
  lemma {:induction false} OtherPathsKept(work: WorkTree, utf8: Path -> bool, tip: Commit, batches: seq<Batch>, p: Path)
    requires !StagedByAny(work, batches, p)
    ensures var tree := CommitBatches(work, utf8, tip, batches).tree;
            if !AnyValid(batches) then tree == tip.tree
            else
              && (p in tree <==> p in tip.tree && utf8(p))
              && (p in tree ==> tree[p] == Carried(tip.tree, utf8)[p])
              && (p in tree ==> (tree[p] == tip.tree[p] <==> !tip.tree[p].mode.OtherMode?))
  {
    hide Staged, ValidPaths, StagedBy;
    if batches != [] {
      var n := |batches| - 1;
      var init, last := batches[..n], batches[n];
      assert forall i :: 0 <= i < n ==> init[i] == batches[i];
      assert !StagedByAny(work, init, p) && !StagedBy(work, last, p);
      OtherPathsKept(work, utf8, tip, init, p);
      StagedKeys(work, CommitBatches(work, utf8, tip, init).tree, last, p);
      assert AnyValid(batches) <==> AnyValid(init) || ValidPaths(last.files) != [];
    }
  }

  /**
   Both losses occur: a commit over a tree with a name that is not UTF-8 and with a gitlink drops
   one and rewrites the other.
   */
  lemma CommitLosesPaths()
    ensures exists utf8: Path -> bool, base, work, batch ::
      var tree := CommitBatch(work, utf8, base, batch).tree;
      && !StagedBy(work, batch, "n") && !StagedBy(work, batch, "m")
      && "n" in base.tree && "n" !in tree
      && "m" in base.tree && "m" in tree && tree["m"] != base.tree["m"]
  {
    var utf8 := (p: Path) => p != "n";
    var gitlink := Blob(2, OtherMode(57344));
    var base := Commit(map["n" := Blob(0, Regular), "m" := gitlink], [], "base");
    var work, batch := OneFile(), ONE_BATCH;
    OneFileCommit(utf8, base);
    var tree := CommitBatch(work, utf8, base, batch).tree;
    assert "n" != "a" && "m" != "a" && "m" != "n";
    assert tree["m"] == Carried(base.tree, utf8)["m"] == gitlink.(mode := Regular);
  }

  /** A path some batch stages ends up with the content it has on disk. */
  lemma {:induction false} StagedPathsCommitted(work: WorkTree, utf8: Path -> bool, tip: Commit,
                                                batches: seq<Batch>, p: Path)
    requires StagedByAny(work, batches, p) && utf8(p)
    ensures var tree := CommitBatches(work, utf8, tip, batches).tree;
            p in tree && tree[p].oid == work.files[p].oid
  {
    hide Staged, ValidPaths, StagedBy;
    var n := |batches| - 1;
    var init, last := batches[..n], batches[n];
    assert forall i :: 0 <= i < n ==> init[i] == batches[i];
    StagedKeys(work, CommitBatches(work, utf8, tip, init).tree, last, p);
    if StagedBy(work, last, p) {
      StagedNeedsPaths(work, last, p);
    } else {
      assert StagedByAny(work, init, p);
      StagedPathsCommitted(work, utf8, tip, init, p);
    }
  }

  lemma StagedNeedsPaths(work: WorkTree, batch: Batch, p: Path)
    requires StagedBy(work, batch, p)
    ensures ValidPaths(batch.files) != []
  {
  }
}
