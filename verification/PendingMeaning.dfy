/**
 Which rules the pending scan skips, said about the names and the contents of the
 files on the branches.
 */
module PendingMeaning {
  import opened Options
  import opened PendingScan

  /** The file is named after the rule, with or without an extension. */
  ghost predicate NamedFor(uuid: Name -> Option<Id>, name: Name, id: Id) {
    || ('.' !in name && uuid(name) == Some(id))
    || exists s, t: Name :: name == s + "." + t && '.' !in t && uuid(s) == Some(id)
  }

  /** An extension is what follows the last dot; only that is cut off. */
  lemma {:induction false} StemOf(s: Name, t: Name)
    requires '.' !in t
    ensures Stem(s + "." + t) == s
    decreases |t|
  {
    var name := s + "." + t;
    if t == "" {
      assert name[|name| - 1] == '.' && name[..|name| - 1] == s;
    } else {
      var n := |t| - 1;
      assert name[|name| - 1] == t[n] && t[n] in t;
      assert name[|s|] == '.';
      assert name[..|name| - 1] == s + "." + t[..n];
      StemOf(s, t[..n]);
    }
  }

  lemma {:induction false} LastDot(name: Name) returns (s: Name, t: Name)
    requires '.' in name
    ensures name == s + "." + t && '.' !in t
    decreases |name|
  {
    var n := |name| - 1;
    if name[n] == '.' {
      s, t := name[..n], "";
    } else {
      assert name == name[..n] + [name[n]];
      s, t := LastDot(name[..n]);
      assert name == s + "." + (t + [name[n]]);
      t := t + [name[n]];
    }
  }

  lemma StemMeaning(uuid: Name -> Option<Id>, name: Name, id: Id)
    ensures uuid(Stem(name)) == Some(id) <==> NamedFor(uuid, name, id)
  {
    if '.' in name {
      var s, t := LastDot(name);
      StemOf(s, t);
    }
    if s, t: Name :| name == s + "." + t && '.' !in t && uuid(s) == Some(id) {
      StemOf(s, t);
      assert name[|s|] == '.';
    }
  }

  /** An EVTX file is sound when it can be read, is no larger than 64 MiB and decodes to at least one event. */
  ghost predicate Sound(name: Name, blob: Blob) {
    |name| >= 5 && name[|name| - 5..] == ['.', 'e', 'v', 't', 'x'] ==>
      exists size, n :: blob == Data(size, Some(n)) && size <= 64 * 1024 * 1024 && n >= 1
  }

  lemma SoundMeaning(name: Name, blob: Blob)
    ensures IsGood(name, blob) <==> Sound(name, blob)
  {
    if IsGood(name, blob) && IsEvtx(name) {
      assert blob == Data(blob.size, Some(blob.events.value));
    }
  }

  /** The branch holds a file of the rule, sound or not as asked, under a `regression_data` tree, at most 32 deep. */
  ghost predicate HasFile(uuid: Name -> Option<Id>, tip: Tip, sound: bool, id: Id) {
    tip.Some? && tip.value.Tree? && exists d, k: nat, e ::
      && d in tip.value.entries && d.name == "regression_data" && d.kind.Subtree?
      && k <= 32 && EntryAt(d.kind.node, k, e) && e.kind.File?
      && NamedFor(uuid, e.name, id) && Sound(e.name, e.kind.blob) == sound
  }

  lemma HasFileMeaning(uuid: Name -> Option<Id>, tip: Tip, sound: bool, id: Id)
    ensures OnTip(uuid, tip, sound, id) <==> HasFile(uuid, tip, sound, id)
  {
    hide NamedFor, Sound, IsGood, Stem;
    forall e: Entry | e.kind.File? ensures Marks(uuid, e, sound, id)
                                    <==> NamedFor(uuid, e.name, id) && Sound(e.name, e.kind.blob) == sound {
      StemMeaning(uuid, e.name, id);
      SoundMeaning(e.name, e.kind.blob);
    }
    hide EntryAt;
    if OnTip(uuid, tip, sound, id) {
      var d :| d in tip.value.entries && IsData(d) && Reached(uuid, d.kind.node, 0, sound, id);
      var k: nat, e :| k <= MAX_DEPTH && EntryAt(d.kind.node, k, e) && Marks(uuid, e, sound, id);
    }
    if HasFile(uuid, tip, sound, id) {
      var d, k: nat, e :| d in tip.value.entries && d.name == "regression_data" && d.kind.Subtree?
        && k <= 32 && EntryAt(d.kind.node, k, e) && e.kind.File?
        && NamedFor(uuid, e.name, id) && Sound(e.name, e.kind.blob) == sound;
      assert 0 + k <= MAX_DEPTH && Marks(uuid, e, sound, id);
      assert Reached(uuid, d.kind.node, 0, sound, id);
    }
  }

  /** A rule is skipped exactly when some branch holds a sound file of it and no branch an unsound one. */
  lemma SkippedExactly(uuid: Name -> Option<Id>, tips: seq<Tip>, id: Id)
    ensures id in FoundOn(uuid, tips, true) - FoundOn(uuid, tips, false)
            <==> ((exists t :: t in tips && HasFile(uuid, t, true, id))
                  && !(exists t :: t in tips && HasFile(uuid, t, false, id)))
  {
    hide HasFile, OnTip, FoundOn;
    SkipSet(uuid, tips, id);
    forall t, sound ensures OnTip(uuid, t, sound, id) <==> HasFile(uuid, t, sound, id) {
      HasFileMeaning(uuid, t, sound, id);
    }
  }

  /** So an EVTX file without events, or one that does not decode, keeps its rule out of the skip set. */
  lemma BrokenIsNotSkipped(uuid: Name -> Option<Id>, tips: seq<Tip>, id: Id, tip: Tip, d: Entry, k: nat, e: Entry,
                           s: Name)
    requires tip in tips && tip.Some? && tip.value.Tree?
    requires d in tip.value.entries && d.name == "regression_data" && d.kind.Subtree?
    requires k <= 32 && EntryAt(d.kind.node, k, e) && e.name == s + ".evtx" && uuid(s) == Some(id)
    requires e.kind.File? && (e.kind.blob.ReadError? || e.kind.blob.events.None? || e.kind.blob.events.value == 0)
    ensures id !in FoundOn(uuid, tips, true) - FoundOn(uuid, tips, false)
  {
    EvtxName(uuid, s, id);
    NotSound(s, e.kind.blob);
    hide NamedFor, Sound, FoundOn, EntryAt;
    assert HasFile(uuid, tip, false, id);
    SkippedExactly(uuid, tips, id);
  }

  lemma EvtxName(uuid: Name -> Option<Id>, s: Name, id: Id)
    requires uuid(s) == Some(id)
    ensures NamedFor(uuid, s + ".evtx", id)
  {
    var t: Name := "evtx";
    assert s + ".evtx" == s + "." + t && '.' !in t;
  }

  lemma NotSound(s: Name, blob: Blob)
    requires blob.ReadError? || blob.events.None? || blob.events.value == 0
    ensures !Sound(s + ".evtx", blob)
  {
    var name := s + ".evtx";
    assert |name| == |s| + 5 && name[|name| - 5..] == ['.', 'e', 'v', 't', 'x'];
  }
}
