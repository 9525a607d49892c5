/**
 Which files an upload commits and how, said about the file lists as they are
 given: which paths are let through, what each commit holds and what it is called.
 */
module GitMeaning {
  import opened Options
  import opened Filters
  import opened CommitGraph
  import opened GitRepo
  import opened GitTheorems

  // ----- Paths -----

  /** No NUL and no two dots in a row. */
  ghost predicate Allowed(p: Path) {
    && (forall i :: 0 <= i < |p| ==> p[i] != '\0')
    && (forall i :: 0 <= i < |p| - 1 ==> !(p[i] == '.' && p[i + 1] == '.'))
  }

  /** Containing a text means holding it from some place on. */
  lemma {:induction false} ContainsMeaning(s: string, t: string)
    ensures Contains(s, t) <==> exists i :: 0 <= i <= |s| && t <= s[i..]
  {
    assert s[0..] == s;
    if s == "" {
      assert forall i :: 0 <= i <= |s| ==> s[i..] == s;
    } else {
      ContainsMeaning(s[1..], t);
      if i :| 0 <= i <= |s[1..]| && t <= s[1..][i..] {
        assert s[i + 1..] == s[1..][i..];
      }
      if i :| 0 < i <= |s| && t <= s[i..] {
        assert s[i..] == s[1..][i - 1..];
      }
    }
  }

  lemma AllowedMeaning(p: Path)
    ensures ValidPath(p) <==> Allowed(p)
  {
    ContainsMeaning(p, "..");
    if i :| 0 <= i <= |p| && ".." <= p[i..] {
      assert p[i..][0] == p[i] && p[i..][1] == p[i + 1];
    }
    if i :| 0 <= i < |p| - 1 && p[i] == '.' && p[i + 1] == '.' {
      assert p[i..] == ".." + p[i + 2..];
    }
  }

  /** The paths that are let through: every allowed path of the list, in its order, and no other. */
  lemma {:induction false} ValidPathsAre(files: seq<Path>)
    ensures IsFilter(files, ValidPaths(files), (p: Path) => Allowed(p))
  {
    hide IsFilter, Allowed, ValidPath;
    var keep := (p: Path) => Allowed(p);
    if files == [] {
      NothingPicked(keep);
    } else {
      ValidPathsAre(files[1..]);
      AllowedMeaning(files[0]);
      PickFirst(files[0], files[1..], ValidPaths(files[1..]), keep);
      assert files == [files[0]] + files[1..];
    }
  }

  lemma ValidPathsMembers(files: seq<Path>)
    ensures forall p :: p in ValidPaths(files) <==> p in files && Allowed(p)
    ensures ValidPaths(files) == [] <==> forall p :: p in files ==> !Allowed(p)
  {
    hide ValidPaths, Allowed, IsFilter;
    ValidPathsAre(files);
    FilterMembers(files, ValidPaths(files), (p: Path) => Allowed(p));
    if ValidPaths(files) != [] {
      assert ValidPaths(files)[0] in ValidPaths(files);
    }
  }

  // ----- Files -----

  /** A file is named by a path that is let through, or lies under a directory that is. */
  ghost predicate Named(work: WorkTree, batch: Batch, p: Path) {
    p in work.files && exists q :: q in batch.files && Allowed(q) && Under(work, q, p)
  }

  ghost predicate Under(work: WorkTree, q: Path, p: Path) {
    p == q || (q in work.dirs && |p| > |q| && p[..|q|] == q && p[|q|] == '/')
  }

  lemma CoversMeaning(work: WorkTree, q: Path, p: Path)
    ensures Covers(work, q, p) <==> Under(work, q, p)
  {
    if |p| > |q| {
      assert p[..|q| + 1] == p[..|q|] + [p[|q|]];
      assert q + "/" <= p <==> p[..|q| + 1] == q + "/";
      assert (q + "/")[..|q|] == q && (q + "/")[|q|] == '/';
    }
  }

  lemma NamedIsStaged(work: WorkTree, batch: Batch, p: Path)
    ensures Named(work, batch, p) <==> StagedBy(work, batch, p)
  {
    hide ValidPaths, Allowed, Covers, Under;
    ValidPathsMembers(batch.files);
    forall q ensures Covers(work, q, p) <==> Under(work, q, p) {
      CoversMeaning(work, q, p);
    }
  }

  /** The mode a named file is to have: the one the tree has for it, or the one on disk when it is new. */
  ghost function ModeFor(work: WorkTree, tree: Tree, p: Path): Mode
    requires p in work.files
  {
    if p in tree then tree[p].mode else work.files[p].mode
  }

  /** What the commits so far have made of a file that is on disk. */
  ghost predicate Holds(work: WorkTree, tree: Tree, before: Tree, p: Path)
    requires p in work.files
  {
    && p in tree && tree[p].oid == work.files[p].oid
    && (tree[p].mode == ModeFor(work, before, p) || (ModeFor(work, before, p).OtherMode? && tree[p].mode == Regular))
  }

  /** One commit: a named file is as it is on disk, any other one as the parent has it. */
  lemma CommitOf(work: WorkTree, utf8: Path -> bool, tip: Commit, batch: Batch, p: Path)
    requires p in work.files && utf8(p)
    ensures var tree := CommitBatch(work, utf8, tip, batch).tree;
            if Named(work, batch, p) then
              p in tree && tree[p] == work.files[p].(mode := ModeFor(work, tip.tree, p))
            else if p in tip.tree then
              p in tree && tree[p].oid == tip.tree[p].oid
              && (tree[p].mode == tip.tree[p].mode || (tip.tree[p].mode.OtherMode? && tree[p].mode == Regular))
            else p !in tree
  {
    hide ValidPaths, Named, Covers;
    NamedIsStaged(work, batch, p);
    if StagedBy(work, batch, p) {
      StagedNeedsPaths(work, batch, p);
    }
  }

  /**
   A file that some list names is committed with the content it has on disk. It
   keeps the plain mode the branch has for it, or gets the one on disk when it is
   new to the branch.
   */
  lemma {:induction false} NamedFilesAreCommitted(work: WorkTree, utf8: Path -> bool, tip: Commit, batches: seq<Batch>,
                                                  p: Path)
    requires p in work.files && utf8(p) && exists b :: b in batches && Named(work, b, p)
    ensures Holds(work, CommitBatches(work, utf8, tip, batches).tree, tip.tree, p)
  {
    hide Named, CommitBatch;
    var n := |batches| - 1;
    var init, last := batches[..n], batches[n];
    assert batches == init + [last];
    var before := CommitBatches(work, utf8, tip, init);
    CommitOf(work, utf8, before, last, p);
    if exists b :: b in init && Named(work, b, p) {
      NamedFilesAreCommitted(work, utf8, tip, init, p);
    } else {
      assert Named(work, last, p);
      Unnamed(work, utf8, tip, init, p);
    }
  }

  lemma {:induction false} Unnamed(work: WorkTree, utf8: Path -> bool, tip: Commit, batches: seq<Batch>, p: Path)
    requires p in work.files && utf8(p) && forall b :: b in batches ==> !Named(work, b, p)
    ensures var tree := CommitBatches(work, utf8, tip, batches).tree;
            && (p in tree <==> p in tip.tree)
            && (p in tree ==> tree[p].mode == tip.tree[p].mode
                              || (tip.tree[p].mode.OtherMode? && tree[p].mode == Regular))
  {
    hide Named, CommitBatch;
    if batches != [] {
      var n := |batches| - 1;
      assert batches[n] in batches;
      assert forall b :: b in batches[..n] ==> b in batches;
      Unnamed(work, utf8, tip, batches[..n], p);
      CommitOf(work, utf8, CommitBatches(work, utf8, tip, batches[..n]), batches[n], p);
    }
  }

  /** A file no list names is not touched: it is kept exactly when its name is UTF-8, once anything is committed. */
  lemma UnnamedFilesStay(work: WorkTree, utf8: Path -> bool, tip: Commit, batches: seq<Batch>, p: Path)
    requires forall b :: b in batches ==> !Named(work, b, p)
    ensures var tree := CommitBatches(work, utf8, tip, batches).tree;
            if forall b, q :: b in batches && q in b.files ==> !Allowed(q) then tree == tip.tree
            else
              && (p in tree <==> p in tip.tree && utf8(p))
              && (p in tree ==> (tree[p] == tip.tree[p] <==> !tip.tree[p].mode.OtherMode?))
  {
    hide Named, ValidPaths, CommitBatches, Allowed, StagedBy;
    forall i | 0 <= i < |batches| ensures !StagedBy(work, batches[i], p) {
      NamedIsStaged(work, batches[i], p);
    }
    OtherPathsKept(work, utf8, tip, batches, p);
    assert AnyValid(batches) <==> !(forall b, q :: b in batches && q in b.files ==> !Allowed(q)) by {
      forall b: Batch ensures ValidPaths(b.files) == [] <==> forall q :: q in b.files ==> !Allowed(q) {
        ValidPathsMembers(b.files);
      }
    }
  }

  /** With nothing wrong, a batch that names a file the branch does not have is committed. */
  lemma NewFileIsCommitted(work: WorkTree, utf8: Path -> bool, s: Refs, batch: Batch, p: Path)
    requires Resolve(s).Some? && Named(work, batch, p) && p !in Resolve(s).value.tree
    ensures BatchOutcome(work, utf8, s, batch, NO_COMMIT_FAULTS) == Ok
  {
    hide Named, ValidPaths, Covers;
    NamedIsStaged(work, batch, p);
    StagedNeedsPaths(work, batch, p);
    var tree := Resolve(s).value.tree;
    StagedKeys(work, tree, batch, p);
    hide Staged, StagedBy;
    assert p in Merged(tree, Staged(work, tree, ValidPaths(batch.files)), utf8);
  }

  // ----- Commits -----

  /** `tip` stands over `base` with one commit for each of these messages, the last one on top. */
  ghost predicate History(base: Commit, tip: Commit, messages: seq<string>) {
    if messages == [] then tip == base
    else
      var n := |messages| - 1;
      |tip.parents| == 1 && tip.message == messages[n] && History(base, tip.parents[0], messages[..n])
  }

  ghost function Messages(batches: seq<Batch>): seq<string> {
    seq(|batches|, i requires 0 <= i < |batches| =>
      "\U{1F9EA} test: add regression data for rule " + batches[i].rule)
  }

  /** The batches an upload gets to are those with a file list, in their order. */
  lemma {:induction false} NonemptyAre(batches: seq<Batch>)
    ensures IsFilter(batches, Nonempty(batches), (b: Batch) => b.files != [])
  {
    hide IsFilter;
    var keep := (b: Batch) => b.files != [];
    if batches == [] {
      NothingPicked(keep);
    } else {
      var n := |batches| - 1;
      NonemptyAre(batches[..n]);
      PickLast(batches[..n], Nonempty(batches[..n]), batches[n], keep);
      assert batches == batches[..n] + [batches[n]];
      assert Nonempty(batches[..n]) + [] == Nonempty(batches[..n]);
    }
  }

  ghost predicate Filled(b: Batch) { exists p :: p in b.files && Allowed(p) }

  /** The batches that are committed. */
  ghost function Made(batches: seq<Batch>): seq<Batch> {
    if batches == [] then []
    else
      var last := batches[|batches| - 1];
      if ValidPaths(last.files) == [] then Made(batches[..|batches| - 1]) else Made(batches[..|batches| - 1]) + [last]
  }

  lemma {:induction false} MadeAreFilled(batches: seq<Batch>)
    ensures IsFilter(batches, Made(batches), (b: Batch) => Filled(b))
  {
    hide IsFilter, ValidPaths, Filled;
    var keep := (b: Batch) => Filled(b);
    if batches == [] {
      NothingPicked(keep);
    } else {
      var n := |batches| - 1;
      MadeAreFilled(batches[..n]);
      FilledMeaning(batches[n]);
      PickLast(batches[..n], Made(batches[..n]), batches[n], keep);
      assert batches == batches[..n] + [batches[n]];
    }
  }

  lemma FilledMeaning(b: Batch)
    ensures ValidPaths(b.files) != [] <==> Filled(b)
  {
    hide ValidPaths, Allowed;
    ValidPathsMembers(b.files);
  }

  lemma {:induction false} MadeIsHistory(work: WorkTree, utf8: Path -> bool, base: Commit, batches: seq<Batch>)
    ensures History(base, CommitBatches(work, utf8, base, batches), Messages(Made(batches)))
  {
    hide History, CommitBatch, ValidPaths, Messages;
    if batches == [] {
      NoHistory(base);
    } else {
      var n := |batches| - 1;
      MadeIsHistory(work, utf8, base, batches[..n]);
      KeepsCommit(work, utf8, CommitBatches(work, utf8, base, batches[..n]), batches[n]);
      if ValidPaths(batches[n].files) != [] {
        HistoryMore(base, CommitBatches(work, utf8, base, batches[..n]), CommitBatches(work, utf8, base, batches),
                    Made(batches[..n]), batches[n]);
      }
    }
  }

  lemma NoHistory(base: Commit)
    ensures History(base, base, Messages([]))
  {
  }

  /** One commit for each batch that has an allowed path, in their order, each called after its rule. */
  lemma OneCommitPerRule(work: WorkTree, utf8: Path -> bool, base: Commit, batches: seq<Batch>)
    returns (made: seq<Batch>)
    ensures IsFilter(batches, made, (b: Batch) => Filled(b))
    ensures History(base, CommitBatches(work, utf8, base, batches), Messages(made))
  {
    hide *;
    made := Made(batches);
    MadeAreFilled(batches);
    MadeIsHistory(work, utf8, base, batches);
  }

  lemma KeepsCommit(work: WorkTree, utf8: Path -> bool, tip: Commit, b: Batch)
    ensures var next := CommitBatch(work, utf8, tip, b);
            if ValidPaths(b.files) == [] then next == tip
            else next.parents == [tip] && next.message == MessageFor(b.rule)
  {
    hide ValidPaths, Staged, Merged, MessageFor;
  }

  lemma HistoryMore(base: Commit, tip: Commit, next: Commit, made: seq<Batch>, last: Batch)
    requires History(base, tip, Messages(made)) && next.parents == [tip] && next.message == MessageFor(last.rule)
    ensures History(base, next, Messages(made + [last]))
  {
    var more := Messages(made + [last]);
    assert more[..|made|] == Messages(made);
  }

  // ----- Aborts -----

  /** An upload is broken off only after an earlier batch with files, before one with files, and when asked to. */
  lemma AbortedAfterACommit(s: GitState, job: Job, done: nat)
    requires Decided(s, job, Aborted, done)
    ensures done < |job.batches| && job.batches[done].files != []
    ensures exists i :: 0 <= i < done && job.batches[i].files != []
    ensures job.shouldAbort(|Nonempty(job.batches[..done])|)
  {
    hide *;
    AbortedHere(s, job, done);
    AbortMeaning(job.batches, job.shouldAbort, done);
    SomeList(job.batches[..done]);
    Placed(job.batches, done);
  }

  lemma AbortedHere(s: GitState, job: Job, done: nat)
    requires Decided(s, job, Aborted, done)
    ensures done < |job.batches| && AbortsAt(job.batches, job.shouldAbort, done)
  {
    hide OutcomeAt, StepBatches, PushFateOf, AbortsAt, Nonempty;
  }

  lemma Placed(batches: seq<Batch>, n: nat)
    requires n <= |batches| && exists b :: b in batches[..n] && b.files != []
    ensures exists i :: 0 <= i < n && batches[i].files != []
  {
    var b :| b in batches[..n] && b.files != [];
    var i: nat :| i < n && batches[..n][i] == b;
    assert batches[i] == b;
  }
}
