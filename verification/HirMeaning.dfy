/**
 What a start leaves for the next one, and what compiling a rule set gives, said
 about the rules themselves.
 */
module HirMeaning {
  import opened Options
  import opened Bytes
  import opened Filters
  import opened Fingerprint
  import opened HirCache

  /** A start that had to compile, and whose save completed, leaves its rules to every start with the same rule set. */
  lemma ColdStartFillsCache(b: Backend, file: Option<seq<byte>>, rules: seq<Rule>, again: seq<Rule>)
    requires b.Sane() && Warm(b, file, rules).None? && Failures(b, rules) == 0 && multiset(again) == multiset(rules)
    ensures var file' := FileAfterConstruct(b, file, rules, Written);
            && CacheRead(file', b.KeyOf(again)) == Some(b.encode(Compiled(b, rules)))
            && Construct(b, file', again) == Ready(Compiled(b, rules))
  {
    hide Key, CacheRead, CacheWritten, Compiled, Failures, NoCollision;
    KeyIsTheRuleSet(b.hash, b.tag, b.header, rules, again);
    KeyIsOneLine(b.hash, b.tag, b.header, rules);
    ReadBack(file, b.KeyOf(rules), b.KeyOf(again), b.encode(Compiled(b, rules)));
  }

  /** A start that failed, or that found what it needed, leaves the file alone. */
  lemma OtherStartsKeepFile(b: Backend, file: Option<seq<byte>>, rules: seq<Rule>, how: Saving)
    requires !Construct(b, file, rules).Ready? || Warm(b, file, rules).Some?
    ensures FileAfterConstruct(b, file, rules, how) == file
  {
    hide CacheRead, CacheWritten, Compiled, Failures, Key;
  }

  ghost function Images(b: Backend, rules: seq<Rule>): seq<Option<Hir>> {
    seq(|rules|, i requires 0 <= i < |rules| => b.compile(rules[i]))
  }

  ghost function Present(hirs: seq<Hir>): seq<Option<Hir>> {
    seq(|hirs|, i requires 0 <= i < |hirs| => Some(hirs[i]))
  }

  /** What compiles is compiled in the order of the rules, and the others are counted as failures. */
  lemma {:induction false} CompiledMeaning(b: Backend, rules: seq<Rule>)
    ensures IsFilter(Images(b, rules), Present(Compiled(b, rules)), (h: Option<Hir>) => h.Some?)
    ensures |Compiled(b, rules)| + Failures(b, rules) == |rules|
  {
    hide *;
    var keep := (h: Option<Hir>) => h.Some?;
    if rules == [] {
      NothingPicked(keep);
      NothingCompiled(b);
    } else {
      var n := |rules| - 1;
      CompiledMeaning(b, rules[..n]);
      PickLast(Images(b, rules[..n]), Present(Compiled(b, rules[..n])), b.compile(rules[n]), keep);
      OneMoreCompiled(b, rules);
    }
  }

  lemma NothingCompiled(b: Backend)
    ensures Images(b, []) == [] && Present(Compiled(b, [])) == [] && Compiled(b, []) == [] && Failures(b, []) == 0
  {
  }

  lemma OneMoreCompiled(b: Backend, rules: seq<Rule>)
    requires rules != []
    ensures var n := |rules| - 1;
            var image := b.compile(rules[n]);
            && Images(b, rules) == Images(b, rules[..n]) + [image]
            && Present(Compiled(b, rules))
               == (if image.Some? then Present(Compiled(b, rules[..n])) + [image] else Present(Compiled(b, rules[..n])))
            && |Compiled(b, rules)| + Failures(b, rules) == |Compiled(b, rules[..n])| + Failures(b, rules[..n]) + 1
  {
  }
}
