/**
 The compiled-rule cache: building a detection engine from whatever an earlier
 run left in the cache file agrees with compiling the rules afresh.
 */
module HirCache {
  import opened Options
  import opened Bytes
  import opened Fingerprint

  // A compiled rule.
  type Hir = nat

  /** The rule engine and the hash, which this code only calls. */
  datatype Backend = Backend(
    hash: Hash,
    tag: seq<byte>,
    header: seq<byte>,
    compile: Rule -> Option<Hir>,
    encode: seq<Hir> -> seq<byte>,
    decode: seq<byte> -> Option<seq<Hir>>,
    // Rules already added when a blob turns out to be undecodable.
    partial: seq<byte> -> seq<Hir>)
  {
    ghost predicate Sane() {
      && NoCollision(hash)
      && (forall hirs :: decode(encode(hirs)) == Some(hirs))
      && (forall hirs, n: nat :: n < |encode(hirs)| ==> decode(encode(hirs)[..n]) == None)
    }

    function KeyOf(rules: seq<Rule>): seq<byte> { Key(hash, tag, header, rules) }
  }

  // ----- The file -----

  /** How a save ends: nothing was written, the write stopped part way, or it completed. */
  datatype Saving = Kept | Torn(n: nat) | Written

  function CacheRead(file: Option<seq<byte>>, key: seq<byte>): Option<seq<byte>> {
    if file.None? then None
    else
      var i := FirstNewline(file.value);
      if i == |file.value| || file.value[..i] != key then None else Some(file.value[i + 1..])
  }

  function CacheWritten(file: Option<seq<byte>>, key: seq<byte>, blob: seq<byte>, how: Saving): Option<seq<byte>> {
    var data := key + [NEWLINE] + blob;
    match how
    case Kept => file
    case Torn(n) => if n < |data| then Some(data[..n]) else Some(data)
    case Written => Some(data)
  }

  class CacheFile {
    var bytes: Option<seq<byte>>

    method Read(key: seq<byte>) returns (blob: Option<seq<byte>>)
      ensures blob == CacheRead(bytes, key)
    {
      if bytes.None? {
        return None;
      }
      var newline := FirstNewline(bytes.value);
      if newline == |bytes.value| {
        return None;
      }
      if bytes.value[..newline] != key {
        return None;
      }
      return Some(bytes.value[newline + 1..]);
    }

    method Write(key: seq<byte>, blob: seq<byte>, how: Saving)
      modifies this
      ensures bytes == CacheWritten(old(bytes), key, blob, how)
    {
      var data := key;
      data := data + [NEWLINE];
      data := data + blob;
      match how
      case Kept =>
      case Torn(n) => bytes := if n < |data| then Some(data[..n]) else Some(data);
      case Written => bytes := Some(data);
    }
  }

  lemma FirstNewlineAfter(key: seq<byte>, rest: seq<byte>)
    requires NEWLINE !in key
    ensures FirstNewline(key + [NEWLINE] + rest) == |key|
  {
    var b := key + [NEWLINE] + rest;
    NoneBefore(b);
    assert b[|key|] == NEWLINE && forall i :: 0 <= i < |key| ==> b[i] == key[i];
  }

  /** A blob is read back, newlines and all, under its own key and no other. */
  lemma ReadBack(file: Option<seq<byte>>, key: seq<byte>, key': seq<byte>, blob: seq<byte>)
    requires NEWLINE !in key
    ensures CacheRead(CacheWritten(file, key, blob, Written), key') == if key == key' then Some(blob) else None
  {
    FirstNewlineAfter(key, blob);
    var b := key + [NEWLINE] + blob;
    assert b[..|key|] == key && b[|key| + 1..] == blob;
  }

  /** After a torn write a reader finds nothing, or under the same key a proper prefix of the blob. */
  lemma ReadTorn(file: Option<seq<byte>>, key: seq<byte>, key': seq<byte>, blob: seq<byte>, n: nat)
    requires NEWLINE !in key && n < |key| + 1 + |blob|
    ensures var r := CacheRead(CacheWritten(file, key, blob, Torn(n)), key');
            r.Some? ==> key == key' && n > |key| && r.value == blob[..n - |key| - 1]
  {
    var b := key + [NEWLINE] + blob;
    if n <= |key| {
      assert b[..n] == key[..n];
      assert NEWLINE !in b[..n];
    } else {
      assert b[..n] == key + [NEWLINE] + blob[..n - |key| - 1];
      ReadBack(file, key, key', blob[..n - |key| - 1]);
    }
  }

  // ----- Compiling -----

  function Compiled(b: Backend, rules: seq<Rule>): seq<Hir> {
    if rules == [] then []
    else
      Compiled(b, rules[..|rules| - 1])
      + match b.compile(rules[|rules| - 1]) case Some(hir) => [hir] case None => []
  }

  function Failures(b: Backend, rules: seq<Rule>): nat {
    if rules == [] then 0
    else Failures(b, rules[..|rules| - 1]) + if b.compile(rules[|rules| - 1]).None? then 1 else 0
  }

  datatype Outcome = Ready(hirs: seq<Hir>) | AddRules(count: nat, total: nat)

  /** Strict compilation: every rule compiles, or none is used. */
  function Cold(b: Backend, rules: seq<Rule>): Outcome {
    if Failures(b, rules) == 0 then Ready(Compiled(b, rules)) else AddRules(Failures(b, rules), |rules|)
  }

  /** The same refusal, or the same compiled rules in some order. */
  ghost predicate Agree(x: Outcome, y: Outcome) {
    match (x, y)
    case (Ready(a), Ready(b)) => multiset(a) == multiset(b)
    case _ => x == y
  }

  /** What one rule contributes. */
  function Part(b: Backend, rule: Rule): multiset<Hir> {
    match b.compile(rule) case Some(hir) => multiset{hir} case None => multiset{}
  }

  lemma CompiledSnoc(b: Backend, rules: seq<Rule>)
    requires rules != []
    ensures multiset(Compiled(b, rules))
         == multiset(Compiled(b, rules[..|rules| - 1])) + Part(b, rules[|rules| - 1])
  {
  }

  lemma {:induction false} CompiledLast(b: Backend, rules: seq<Rule>, k: nat)
    requires k < |rules|
    ensures multiset(Compiled(b, rules)) == multiset(Compiled(b, Without(rules, k))) + Part(b, rules[k])
    decreases |rules|
  {
    hide Compiled, Part;
    var n := |rules| - 1;
    CompiledSnoc(b, rules);
    if k == n {
      assert Without(rules, k) == rules[..n];
    } else {
      assert Without(rules, k)[..n - 1] == Without(rules[..n], k) && Without(rules, k)[n - 1] == rules[n];
      CompiledLast(b, rules[..n], k);
      CompiledSnoc(b, Without(rules, k));
    }
  }

  lemma {:induction false} FailuresLast(b: Backend, rules: seq<Rule>, k: nat)
    requires k < |rules|
    ensures Failures(b, rules) == Failures(b, Without(rules, k)) + (if b.compile(rules[k]).None? then 1 else 0)
    decreases |rules|
  {
    var n := |rules| - 1;
    if k == n {
      assert Without(rules, k) == rules[..n];
    } else {
      assert Without(rules, k)[..n - 1] == Without(rules[..n], k) && Without(rules, k)[n - 1] == rules[n];
      FailuresLast(b, rules[..n], k);
    }
  }

  lemma {:induction false} BagIsOrderFree(b: Backend, x: seq<Rule>, y: seq<Rule>)
    requires multiset(x) == multiset(y)
    ensures multiset(Compiled(b, x)) == multiset(Compiled(b, y)) && Failures(b, x) == Failures(b, y)
    decreases |x|
  {
    hide Without, Compiled, Failures, Part;
    SameSize(x, y);
    if x == [] {
      assert y == [];
    } else {
      var n := |x| - 1;
      var k := Find(x[n], x, y);
      Matched(x, n, y, k);
      ShorterWithout(x, n);
      BagIsOrderFree(b, Without(x, n), Without(y, k));
      CompiledLast(b, x, n);
      CompiledLast(b, y, k);
      FailuresLast(b, x, n);
      FailuresLast(b, y, k);
    }
  }

  /** What compiles, and how much fails, does not depend on the order of the rules. */
  lemma CompiledIsOrderFree(b: Backend, x: seq<Rule>, y: seq<Rule>)
    requires multiset(x) == multiset(y)
    ensures Agree(Cold(b, x), Cold(b, y))
  {
    hide Compiled, Failures;
    SameSize(x, y);
    BagIsOrderFree(b, x, y);
  }

  lemma {:induction false} FailuresMeaning(b: Backend, rules: seq<Rule>)
    ensures Failures(b, rules) == 0 <==> forall r :: r in rules ==> b.compile(r).Some?
  {
    if rules != [] {
      var n := |rules| - 1;
      FailuresMeaning(b, rules[..n]);
      assert rules == rules[..n] + [rules[n]];
    }
  }

  /** Any part of a rule set that compiles compiles. */
  lemma FewerStillCompile(b: Backend, rules: seq<Rule>, fewer: seq<Rule>)
    requires Failures(b, rules) == 0 && multiset(fewer) <= multiset(rules)
    ensures Failures(b, fewer) == 0
  {
    hide Failures;
    FailuresMeaning(b, rules);
    FailuresMeaning(b, fewer);
    forall r | r in fewer ensures b.compile(r).Some? {
      assert r in multiset(fewer) && r in multiset(rules);
    }
  }

  // ----- Trust in the file -----

  /** Whatever decodes from the file under a rule set's key is that rule set, compiled. */
  ghost predicate Trusted(b: Backend, file: Option<seq<byte>>) {
    forall rules :: TrustedFor(b, file, rules)
  }

  ghost predicate TrustedFor(b: Backend, file: Option<seq<byte>>, rules: seq<Rule>) {
    var blob := CacheRead(file, b.KeyOf(rules));
    blob.Some? && b.decode(blob.value).Some? ==> Agree(Ready(b.decode(blob.value).value), Cold(b, rules))
  }

  /** An absent file, one with no complete first line, and one under a key no rule set has are trusted. */
  lemma StrangersAreTrusted(b: Backend, file: Option<seq<byte>>)
    requires file.None? || NEWLINE !in file.value
          || forall rules: seq<Rule> :: !(b.KeyOf(rules) <= file.value)
    ensures Trusted(b, file)
  {
    hide Key;
    if file.Some? && NEWLINE in file.value {
      forall rules ensures TrustedFor(b, file, rules) {
        assert !(b.KeyOf(rules) <= file.value);
      }
    }
  }

  /** So is a blob that does not decode, under any key. */
  lemma UndecodableIsTrusted(b: Backend, key: seq<byte>, blob: seq<byte>)
    requires NEWLINE !in key && b.decode(blob).None?
    ensures Trusted(b, Some(key + [NEWLINE] + blob))
  {
    hide Key;
    forall rules ensures TrustedFor(b, Some(key + [NEWLINE] + blob), rules) {
      ReadBack(None, key, b.KeyOf(rules), blob);
    }
  }

  /** Saving a compiled rule set leaves a trusted file exactly when all of it compiled. */
  lemma SavedIsTrusted(b: Backend, file: Option<seq<byte>>, rules: seq<Rule>)
    requires b.Sane()
    ensures Trusted(b, CacheWritten(file, b.KeyOf(rules), b.encode(Compiled(b, rules)), Written))
            <==> Failures(b, rules) == 0
  {
    hide Key, CacheRead, CacheWritten, Compiled, Failures, NoCollision;
    var key, blob := b.KeyOf(rules), b.encode(Compiled(b, rules));
    var file' := CacheWritten(file, key, blob, Written);
    KeyIsOneLine(b.hash, b.tag, b.header, rules);
    if Failures(b, rules) == 0 {
      forall other ensures TrustedFor(b, file', other) {
        ReadBack(file, key, b.KeyOf(other), blob);
        KeyIsTheRuleSet(b.hash, b.tag, b.header, rules, other);
        if multiset(rules) == multiset(other) {
          CompiledIsOrderFree(b, rules, other);
        }
      }
    } else {
      ReadBack(file, key, key, blob);
      assert !TrustedFor(b, file', rules);
    }
  }

  /** A write that stopped part way leaves nothing that decodes. */
  lemma TornIsTrusted(b: Backend, file: Option<seq<byte>>, rules: seq<Rule>, hirs: seq<Hir>, n: nat)
    requires b.Sane() && n < |b.KeyOf(rules)| + 1 + |b.encode(hirs)|
    ensures Trusted(b, CacheWritten(file, b.KeyOf(rules), b.encode(hirs), Torn(n)))
  {
    hide Key, CacheRead, CacheWritten, NoCollision;
    var key := b.KeyOf(rules);
    KeyIsOneLine(b.hash, b.tag, b.header, rules);
    forall other ensures TrustedFor(b, CacheWritten(file, key, b.encode(hirs), Torn(n)), other) {
      ReadTorn(file, key, b.KeyOf(other), b.encode(hirs), n);
    }
  }

  // ----- Construction and reload, as functions -----

  function Save(b: Backend, file: Option<seq<byte>>, rules: seq<Rule>, hirs: seq<Hir>, how: Saving): Option<seq<byte>> {
    CacheWritten(file, b.KeyOf(rules), b.encode(hirs), how)
  }

  /** Saving the compiled rules keeps trust if they all compiled, however the write ends. */
  lemma SaveKeepsTrust(b: Backend, file: Option<seq<byte>>, rules: seq<Rule>, how: Saving)
    requires b.Sane() && Trusted(b, file) && Failures(b, rules) == 0
    ensures Trusted(b, Save(b, file, rules, Compiled(b, rules), how))
  {
    hide Key, CacheRead, Compiled, Failures, NoCollision, Trusted;
    var hirs := Compiled(b, rules);
    if how.Torn? && how.n < |b.KeyOf(rules)| + 1 + |b.encode(hirs)| {
      TornIsTrusted(b, file, rules, hirs, how.n);
    } else {
      SavedIsTrusted(b, file, rules);
    }
  }

  /** The blob a warm start uses, if there is one. */
  function Warm(b: Backend, file: Option<seq<byte>>, rules: seq<Rule>): Option<seq<Hir>> {
    match CacheRead(file, b.KeyOf(rules))
    case None => None
    case Some(blob) => b.decode(blob)
  }

  function Construct(b: Backend, file: Option<seq<byte>>, rules: seq<Rule>): Outcome {
    match Warm(b, file, rules)
    case Some(hirs) => Ready(hirs)
    case None => Cold(b, rules)
  }

  function FileAfterConstruct(b: Backend, file: Option<seq<byte>>, rules: seq<Rule>, how: Saving): Option<seq<byte>> {
    if Warm(b, file, rules).Some? || Failures(b, rules) != 0 then file
    else Save(b, file, rules, Compiled(b, rules), how)
  }

  /** From a trusted file construction agrees with a cold compile and leaves a trusted file. */
  lemma ConstructIsTransparent(b: Backend, file: Option<seq<byte>>, rules: seq<Rule>, how: Saving)
    requires b.Sane() && Trusted(b, file)
    ensures Agree(Construct(b, file, rules), Cold(b, rules))
    ensures Trusted(b, FileAfterConstruct(b, file, rules, how))
  {
    hide Key, CacheRead, Save, Compiled, Failures, NoCollision;
    assert TrustedFor(b, file, rules);
    if Warm(b, file, rules).None? && Failures(b, rules) == 0 {
      SaveKeepsTrust(b, file, rules, how);
    }
  }

  /** Reloading saves whatever compiled: trust survives exactly when all of it did. */
  lemma ReloadKeepsTrust(b: Backend, file: Option<seq<byte>>, rules: seq<Rule>)
    requires b.Sane()
    ensures Trusted(b, Save(b, file, rules, Compiled(b, rules), Written)) <==> Failures(b, rules) == 0
  {
    hide Trusted, CacheWritten, Compiled, Failures, NoCollision;
    SavedIsTrusted(b, file, rules);
  }

  /** Otherwise the next start accepts, without the failing rules, a rule set that a cold compile refuses. */
  lemma LenientReloadIsVisible(b: Backend, file: Option<seq<byte>>, rules: seq<Rule>)
    requires b.Sane() && Failures(b, rules) != 0
    ensures var file' := Save(b, file, rules, Compiled(b, rules), Written);
            && Construct(b, file', rules) == Ready(Compiled(b, rules))
            && Cold(b, rules) == AddRules(Failures(b, rules), |rules|)
  {
    hide Key, CacheRead, CacheWritten, Compiled, Failures, NoCollision;
    KeyIsOneLine(b.hash, b.tag, b.header, rules);
    ReadBack(file, b.KeyOf(rules), b.KeyOf(rules), b.encode(Compiled(b, rules)));
  }

  function OneLess(hirs: seq<Hir>): seq<Hir>
    requires hirs != []
  {
    if hirs[0] == 0 then hirs[1..] else hirs[0 := hirs[0] - 1]
  }

  function OneMore(tag: byte, hirs: seq<Hir>): Option<seq<Hir>> {
    if tag == 2 then Some([0] + hirs) else if tag != 1 || hirs == [] then None else Some(hirs[0 := hirs[0] + 1])
  }

  /** An encoding no encoded list is a proper prefix of: each number in unary, a 2 after it, a 0 at the end. */
  function Unary(hirs: seq<Hir>): seq<byte>
    decreases |hirs|, if hirs == [] then 0 else hirs[0]
  {
    if hirs == [] then [0] else [if hirs[0] == 0 then 2 else 1] + Unary(OneLess(hirs))
  }

  function FromUnary(b: seq<byte>): Option<seq<Hir>> {
    if b == [] then None
    else if b == [0] then Some([])
    else match FromUnary(b[1..])
      case None => None
      case Some(r) => OneMore(b[0], r)
  }

  lemma {:induction false} UnaryBack(hirs: seq<Hir>, n: nat)
    requires n <= |Unary(hirs)|
    ensures FromUnary(Unary(hirs)[..n]) == if n == |Unary(hirs)| then Some(hirs) else None
    decreases |hirs|, if hirs == [] then 0 else hirs[0]
  {
    if n == 0 {
      NothingEncoded(hirs);
    } else if hirs == [] {
      assert [0][..1] == [0];
    } else {
      var u, rest, tag := Unary(hirs), OneLess(hirs), if hirs[0] == 0 then 2 else 1;
      assert u == [tag] + Unary(rest) && u[..n] == [tag] + Unary(rest)[..n - 1];
      UnaryBack(rest, n - 1);
      hide Unary, OneLess, OneMore;
      FromTagged(tag, Unary(rest)[..n - 1]);
      MoreThanLess(hirs);
    }
  }

  lemma NothingEncoded(hirs: seq<Hir>)
    ensures Unary(hirs) != [] && FromUnary([]) == None
  {
  }

  lemma FromTagged(tag: byte, b: seq<byte>)
    requires tag != 0
    ensures FromUnary([tag] + b) == match FromUnary(b) case None => None case Some(r) => OneMore(tag, r)
  {
    var t := [tag] + b;
    assert t[0] == tag && t[1..] == b;
  }

  lemma MoreThanLess(hirs: seq<Hir>)
    requires hirs != []
    ensures OneMore(if hirs[0] == 0 then 2 else 1, OneLess(hirs)) == Some(hirs)
  {
    if hirs[0] == 0 {
      assert [0] + hirs[1..] == hirs;
    } else {
      var less := hirs[0 := hirs[0] - 1];
      assert less[0 := less[0] + 1] == hirs;
    }
  }

  /** The case occurs: a sound rule engine, and a set of one rule that it does not compile. */
  lemma LenientReloadOccurs()
    ensures exists b: Backend, rules ::
      && b.Sane() && Failures(b, rules) != 0
      && Construct(b, Save(b, None, rules, Compiled(b, rules), Written), rules).Ready?
      && Cold(b, rules).AddRules?
  {
    hide *;
    var b, none: Rule := UnaryBackend(), [];
    UnaryIsSane();
    OneFailure(none);
    LenientReloadIsVisible(b, None, [none]);
  }

  /** Rules are their own hashes; the empty rule does not compile. */
  function UnaryBackend(): Backend {
    Backend(x => x, [], [], r => if r == [] then None else Some(0), Unary, FromUnary, x => [])
  }

  lemma OneFailure(none: Rule)
    requires none == []
    ensures Failures(UnaryBackend(), [none]) != 0
  {
    assert UnaryBackend().compile(none).None?;
  }

  lemma UnaryIsSane()
    ensures UnaryBackend().Sane()
  {
    hide Unary, FromUnary;
    var b := UnaryBackend();
    forall hirs, n: nat | n <= |b.encode(hirs)|
      ensures b.decode(b.encode(hirs)[..n]) == if n == |b.encode(hirs)| then Some(hirs) else None
    {
      UnaryBack(hirs, n);
    }
    forall hirs ensures b.decode(b.encode(hirs)) == Some(hirs) {
      UnaryBack(hirs, |b.encode(hirs)|);
      assert b.encode(hirs)[..|b.encode(hirs)|] == b.encode(hirs);
    }
  }

  // ----- Construction and reload, as the program runs them -----

  class Engine {
    var hirs: seq<Hir>
    // Whether rules are kept in a form that can be saved.
    var retain: bool

    constructor ()
      ensures hirs == [] && !retain
    {
      hirs, retain := [], false;
    }

    method AddRules(b: Backend, rules: seq<Rule>) returns (errors: seq<nat>)
      modifies this`hirs
      ensures hirs == old(hirs) + Compiled(b, rules) && |errors| == Failures(b, rules)
    {
      errors := [];
      for i := 0 to |rules|
        invariant hirs == old(hirs) + Compiled(b, rules[..i]) && |errors| == Failures(b, rules[..i])
      {
        assert rules[..i + 1][..i] == rules[..i];
        match b.compile(rules[i])
        case Some(hir) => hirs := hirs + [hir];
        case None => errors := errors + [i];
      }
      assert rules[..|rules|] == rules;
    }

    /** A blob that fails to decode may already have added some rules. */
    method LoadHir(b: Backend, blob: seq<byte>) returns (ok: bool)
      modifies this`hirs
      ensures ok == b.decode(blob).Some?
      ensures hirs == old(hirs) + if ok then b.decode(blob).value else b.partial(blob)
    {
      match b.decode(blob)
      case Some(loaded) => ok, hirs := true, hirs + loaded;
      case None => ok, hirs := false, hirs + b.partial(blob);
    }

    method SaveHir(b: Backend) returns (blob: Option<seq<byte>>)
      ensures blob == if retain then Some(b.encode(hirs)) else None
    {
      blob := if retain then Some(b.encode(hirs)) else None;
    }
  }

  class DetectionEngine {
    const backend: Backend
    const cache: CacheFile?
    var engine: Engine

    constructor (backend: Backend, cache: CacheFile?, engine: Engine)
      ensures this.backend == backend && this.cache == cache && this.engine == engine
    {
      this.backend, this.cache, this.engine := backend, cache, engine;
    }

    /** Load the cached rules into a throwaway engine, or compile them and save the result. */
    static method NewWithHirCache(b: Backend, rules: seq<Rule>, cache: CacheFile?, how: Saving)
      returns (outcome: Outcome, made: DetectionEngine?)
      modifies if cache == null then {} else {cache}
      ensures outcome == if cache == null then Cold(b, rules) else Construct(b, old(cache.bytes), rules)
      ensures cache != null ==> cache.bytes == FileAfterConstruct(b, old(cache.bytes), rules, how)
      ensures made != null <==> outcome.Ready?
      ensures made != null ==>
        && fresh(made) && fresh(made.engine) && made.cache == cache && made.backend == b
        && made.engine.hirs == outcome.hirs
    {
      hide Compiled, Failures, CacheRead, CacheWritten, Key;
      var engine := new Engine();
      var loaded := false;
      if cache != null {
        var blob := cache.Read(b.KeyOf(rules));
        if blob.Some? {
          var cached := new Engine();
          var ok := cached.LoadHir(b, blob.value);
          if ok {
            engine := cached;
            loaded := true;
          }
        }
      }
      if !loaded {
        if cache != null {
          engine.retain := true;
        }
        var errors := engine.AddRules(b, rules);
        if errors != [] {
          return AddRules(|errors|, |rules|), null;
        }
        if cache != null {
          var hir := engine.SaveHir(b);
          if hir.Some? {
            cache.Write(b.KeyOf(rules), hir.value, how);
          }
        }
      }
      made := new DetectionEngine(b, cache, engine);
      outcome := Ready(engine.hirs);
    }

    /** Compile the rules into a new engine, leaving out those that fail, and save the result. */
    method ReloadRules(rules: seq<Rule>, how: Saving)
      modifies this, if cache == null then {} else {cache}
      ensures fresh(engine) && engine.hirs == Compiled(backend, rules)
      ensures cache != null ==> cache.bytes == Save(backend, old(cache.bytes), rules, Compiled(backend, rules), how)
    {
      hide Compiled, Failures, CacheWritten, Key;
      var next := new Engine();
      if cache != null {
        next.retain := true;
      }
      var errors := next.AddRules(backend, rules);
      engine := next;
      if cache != null {
        var hir := engine.SaveHir(backend);
        if hir.Some? {
          cache.Write(backend.KeyOf(rules), hir.value, how);
        }
      }
    }
  }

  // ----- Whole runs -----

  /** A process starts with some rules, or drops rules from those it has. */
  datatype Act = Start(rules: seq<Rule>, how: Saving) | Reload(rules: seq<Rule>, how: Saving)

  datatype World = World(file: Option<seq<byte>>, loaded: Option<seq<Rule>>, hirs: seq<Hir>)

  function Step(b: Backend, w: World, act: Act): World {
    match act
    case Start(rules, how) =>
      var file := FileAfterConstruct(b, w.file, rules, how);
      (match Construct(b, w.file, rules)
       case Ready(hirs) => World(file, Some(rules), hirs)
       case AddRules(_, _) => World(file, None, []))
    case Reload(rules, how) =>
      World(Save(b, w.file, rules, Compiled(b, rules), how), Some(rules), Compiled(b, rules))
  }

  function After(b: Backend, file: Option<seq<byte>>, acts: seq<Act>): World {
    if acts == [] then World(file, None, [])
    else Step(b, After(b, file, acts[..|acts| - 1]), acts[|acts| - 1])
  }

  /** Reloads happen in a running engine and only drop rules. */
  ghost predicate OnlyDrops(b: Backend, file: Option<seq<byte>>, acts: seq<Act>) {
    forall i :: 0 <= i < |acts| && acts[i].Reload? ==>
      var loaded := After(b, file, acts[..i]).loaded;
      loaded.Some? && multiset(acts[i].rules) <= multiset(loaded.value)
  }

  ghost predicate Faithful(b: Backend, w: World) {
    && Trusted(b, w.file)
    && (w.loaded.Some?
        ==> Failures(b, w.loaded.value) == 0 && multiset(w.hirs) == multiset(Compiled(b, w.loaded.value)))
  }

  lemma StepIsFaithful(b: Backend, w: World, act: Act)
    requires b.Sane() && Faithful(b, w)
    requires act.Reload? ==> w.loaded.Some? && multiset(act.rules) <= multiset(w.loaded.value)
    ensures Faithful(b, Step(b, w, act))
  {
    hide Compiled, Failures, CacheRead, Save, Construct, FileAfterConstruct, Key, NoCollision, Trusted;
    match act
    case Start(rules, how) =>
      ConstructIsTransparent(b, w.file, rules, how);
    case Reload(rules, how) =>
      FewerStillCompile(b, w.loaded.value, rules);
      SaveKeepsTrust(b, w.file, rules, how);
  }

  /** Over any number of starts and reloads that only drop rules, the engine and the file stay faithful. */
  lemma {:induction false} RunsAreFaithful(b: Backend, file: Option<seq<byte>>, acts: seq<Act>)
    requires b.Sane() && Trusted(b, file) && OnlyDrops(b, file, acts)
    ensures Faithful(b, After(b, file, acts))
  {
    hide Step, Faithful;
    if acts == [] {
      FirstIsFaithful(b, file);
    } else {
      var n := |acts| - 1;
      OnlyDropsBefore(b, file, acts);
      RunsAreFaithful(b, file, acts[..n]);
      StepIsFaithful(b, After(b, file, acts[..n]), acts[n]);
    }
  }

  lemma FirstIsFaithful(b: Backend, file: Option<seq<byte>>)
    requires Trusted(b, file)
    ensures Faithful(b, World(file, None, []))
  {
  }

  lemma OnlyDropsBefore(b: Backend, file: Option<seq<byte>>, acts: seq<Act>)
    requires acts != [] && OnlyDrops(b, file, acts)
    ensures OnlyDrops(b, file, acts[..|acts| - 1])
  {
    hide After;
    var init := acts[..|acts| - 1];
    forall i | 0 <= i < |init| && init[i].Reload?
      ensures After(b, file, init[..i]).loaded.Some?
      ensures multiset(init[i].rules) <= multiset(After(b, file, init[..i]).loaded.value)
    {
      assert init[..i] == acts[..i] && init[i] == acts[i];
    }
  }

  /** So every start of every such run ends as if there were no cache. */
  lemma EveryStartIsTransparent(b: Backend, file: Option<seq<byte>>, acts: seq<Act>, rules: seq<Rule>, how: Saving)
    requires b.Sane() && Trusted(b, file) && OnlyDrops(b, file, acts)
    ensures Agree(Construct(b, After(b, file, acts).file, rules), Cold(b, rules))
  {
    RunsAreFaithful(b, file, acts);
    ConstructIsTransparent(b, After(b, file, acts).file, rules, how);
  }
}
