/**
 Go's `range` over the decoded map (logdeb.go:162) visits its keys in an
 unspecified order. Steps for different keys commute, so the loop over
 sections with distinct keys gives the same result in every order.
 */
module Ordering {

  import opened Common
  import opened Levels
  import opened Rules
  import opened Config
  import opened Registry
  import opened LogDeb
  import opened TopLevel

  /** Two accepted sections with different keys have the same effect in either order. */
  lemma StepsCommute(l: Logger, reg: Registry, a: Section, b: Section)
    requires SectionOk(reg, a) && SectionOk(reg, b) && a.name != b.name
    ensures Step(Step(l, reg, a), reg, b) == Step(Step(l, reg, b), reg, a)
  {
    if a.name == MainName {
      MainThenWriter(l, reg, a, b);
    } else if b.name == MainName {
      MainThenWriter(l, reg, b, a);
    } else {
      WriterThenWriter(l, reg, a, b);
    }
  }

  lemma WriterThenWriter(l: Logger, reg: Registry, a: Section, b: Section)
    requires SectionOk(reg, a) && SectionOk(reg, b) && a.name != b.name
    requires a.name != MainName && b.name != MainName
    ensures Step(Step(l, reg, a), reg, b) == Step(Step(l, reg, b), reg, a)
  {
    var wa := GetWriteRules(a.asTree.entries).value;
    var wb := GetWriteRules(b.asTree.entries).value;
    var la := InstallWriter(l, a.name, wa);
    var lb := InstallWriter(l, b.name, wb);
    assert Step(l, reg, a) == la && Step(l, reg, b) == lb;
    assert Step(la, reg, b) == InstallWriter(la, b.name, wb);
    assert Step(lb, reg, a) == InstallWriter(lb, a.name, wa);
    InstallWriterShape(l, a.name, wa);
    InstallWriterShape(l, b.name, wb);
    InstallWriterShape(la, b.name, wb);
    InstallWriterShape(lb, a.name, wa);
    assert l.writers[a.name := wa][b.name := wb] == l.writers[b.name := wb][a.name := wa];
  }

  lemma MainThenWriter(l: Logger, reg: Registry, m: Section, w: Section)
    requires SectionOk(reg, m) && SectionOk(reg, w) && m.name == MainName && w.name != MainName
    ensures Step(Step(l, reg, m), reg, w) == Step(Step(l, reg, w), reg, m)
  {
    var wr := GetWriteRules(w.asTree.entries).value;
    var lw := InstallWriter(l, w.name, wr);
    var lm := ApplyMain(l, m.asLogger);
    assert Step(l, reg, w) == lw;
    assert Step(lm, reg, w) == InstallWriter(lm, w.name, wr);
    ApplyMainShape(l, m.asLogger);
    ApplyMainShape(lw, m.asLogger);
    InstallWriterShape(l, w.name, wr);
    InstallWriterShape(lm, w.name, wr);
  }

  function Max(a: int, b: int): int {
    if a < b then b else a
  }

  /** The global rule a "main" section leaves: its fields over the old ones, an explicit 0 made the default. */
  function MainRule(g: BaseRule, m: MainConfig): BaseRule {
    BaseRule(Effective(m.severity.Or(g.severity), SEVERROR), Effective(m.debugLevel.Or(g.debugLevel), DLB))
  }

  /** `ApplyMain` sets the global rule and the flag, and raises each cache to the new threshold. */
  lemma ApplyMainShape(l: Logger, m: MainConfig)
    ensures var g := MainRule(l.global, m);
      ApplyMain(l, m) == l.(global := g, useFncRules := m.useFncRules.Or(l.useFncRules),
                            maxSeverity := Max(l.maxSeverity, g.severity), maxDebLev := Max(l.maxDebLev, g.debugLevel))
  {
  }

  /** `InstallWriter` binds the writer and raises each cache to its threshold. */
  lemma InstallWriterShape(l: Logger, name: string, wr: WriteRules)
    ensures InstallWriter(l, name, wr) == l.(writers := l.writers[name := wr],
      maxSeverity := Max(l.maxSeverity, wr.base.severity), maxDebLev := Max(l.maxDebLev, wr.base.debugLevel))
  {
  }

  /** The loop accepts a list iff it accepts each of its members, whatever their order. */
  lemma ConfigureOkMembers(l: Logger, reg: Registry, sections: seq<Section>)
    ensures Configure(l, reg, sections).Ok? <==> forall t | t in sections :: SectionOk(reg, t)
  {
  }

  /** An accepted first section is one step, whatever the rest does. */
  lemma ConfigureCons(l: Logger, reg: Registry, x: Section, rest: seq<Section>)
    requires SectionOk(reg, x)
    ensures Configure(l, reg, [x] + rest) == Configure(Step(l, reg, x), reg, rest)
  {
    assert ([x] + rest)[1..] == rest;
  }

  /**
   Moving an accepted section to the front, past accepted sections with
   other keys, leaves the loop's result, panics included.
   */
  lemma {:induction false} MoveToFront(l: Logger, reg: Registry, p: seq<Section>, x: Section, q: seq<Section>)
    requires forall i | 0 <= i < |p| :: p[i].name != x.name && SectionOk(reg, p[i])
    requires SectionOk(reg, x)
    ensures Configure(l, reg, [x] + (p + q)) == Configure(l, reg, p + [x] + q)
    decreases |p|
  {
    if p == [] {
      assert [x] + (p + q) == p + [x] + q;
    } else {
      var y := p[0];
      var p' := p[1..];
      assert forall i | 0 <= i < |p'| :: p'[i] == p[i + 1];
      var ly := Step(l, reg, y);
      calc {
        Configure(l, reg, p + [x] + q);
        { assert p + [x] + q == [y] + (p' + [x] + q); }
        Configure(l, reg, [y] + (p' + [x] + q));
        { ConfigureCons(l, reg, y, p' + [x] + q); }
        Configure(ly, reg, p' + [x] + q);
        { MoveToFront(ly, reg, p', x, q); }
        Configure(ly, reg, [x] + (p' + q));
        { ConfigureCons(l, reg, y, [x] + (p' + q)); }
        Configure(l, reg, [y] + ([x] + (p' + q)));
        { SwapFront(l, reg, y, x, p' + q); }
        Configure(l, reg, [x] + ([y] + (p' + q)));
        { assert [y] + (p' + q) == p + q; }
        Configure(l, reg, [x] + (p + q));
      }
    }
  }

  /** Two accepted sections with different keys at the front of the list may be swapped. */
  lemma SwapFront(l: Logger, reg: Registry, y: Section, x: Section, rest: seq<Section>)
    requires SectionOk(reg, y) && SectionOk(reg, x) && y.name != x.name
    ensures Configure(l, reg, [y] + ([x] + rest)) == Configure(l, reg, [x] + ([y] + rest))
  {
    ConfigureCons(l, reg, y, [x] + rest);
    ConfigureCons(Step(l, reg, y), reg, x, rest);
    ConfigureCons(l, reg, x, [y] + rest);
    ConfigureCons(Step(l, reg, x), reg, y, rest);
    StepsCommute(l, reg, y, x);
  }

  /** Dropping one section keeps the keys distinct. */
  lemma DistinctRemove(p: seq<Section>, x: Section, q: seq<Section>)
    requires DistinctNames(p + [x] + q)
    ensures DistinctNames(p + q)
    ensures forall i | 0 <= i < |p| :: p[i].name != x.name
  {
    var whole := p + [x] + q;
    var rest := p + q;
    assert forall i | 0 <= i < |p| :: whole[i] == p[i];
    assert whole[|p|] == x;
    forall a, b | 0 <= a < b < |rest| ensures rest[a].name != rest[b].name {
      var a' := if a < |p| then a else a + 1;
      var b' := if b < |p| then b else b + 1;
      assert rest[a] == whole[a'] && rest[b] == whole[b'];
    }
  }

  /**
   The loop over sections with distinct keys does not depend on their
   order: any rearrangement succeeds iff the original does, with the same
   logger.
   */
  lemma {:induction false} ConfigureOrderFree(l: Logger, reg: Registry, s1: seq<Section>, s2: seq<Section>)
    requires DistinctNames(s2) && multiset(s1) == multiset(s2)
    ensures Configure(l, reg, s1).Ok? <==> Configure(l, reg, s2).Ok?
    ensures Configure(l, reg, s1).Ok? ==> Configure(l, reg, s1) == Configure(l, reg, s2)
    decreases |s1|
  {
    ConfigureOkPermutation(l, reg, s1, s2);
    if s1 != [] && Configure(l, reg, s1).Ok? {
      var x := s1[0];
      var p, q := PermutationSplit(s1, s2);
      ConfigureOkMembers(l, reg, s1);
      MoveToFront(l, reg, p, x, q);
      ConfigureCons(l, reg, x, s1[1..]);
      ConfigureCons(l, reg, x, p + q);
      ConfigureOrderFree(Step(l, reg, x), reg, s1[1..], p + q);
    }
  }

  /** Rearranged lists are accepted alike. */
  lemma ConfigureOkPermutation(l: Logger, reg: Registry, s1: seq<Section>, s2: seq<Section>)
    requires multiset(s1) == multiset(s2)
    ensures Configure(l, reg, s1).Ok? <==> Configure(l, reg, s2).Ok?
  {
    ConfigureOkMembers(l, reg, s1);
    ConfigureOkMembers(l, reg, s2);
    assert forall t :: t in s1 <==> t in multiset(s1);
    assert forall t :: t in s2 <==> t in multiset(s2);
  }

  /**
   The first section of `s1` sits somewhere in its rearrangement `s2`; the
   sections before it there have other keys, and removing it from both
   leaves rearrangements with distinct keys.
   */
  lemma PermutationSplit(s1: seq<Section>, s2: seq<Section>) returns (p: seq<Section>, q: seq<Section>)
    requires s1 != [] && DistinctNames(s2) && multiset(s1) == multiset(s2)
    ensures s2 == p + [s1[0]] + q
    ensures multiset(s1[1..]) == multiset(p + q) && DistinctNames(p + q)
    ensures forall i | 0 <= i < |p| :: p[i].name != s1[0].name && p[i] in s1
  {
    var x := s1[0];
    assert x in multiset(s2);
    var k :| 0 <= k < |s2| && s2[k] == x;
    p, q := s2[..k], s2[k + 1..];
    assert s2 == p + [x] + q;
    DistinctRemove(p, x, q);
    RemoveFromBoth(s1, p, x, q);
    forall i | 0 <= i < |p| ensures p[i] in s1 {
      assert p[i] == s2[i];
      assert p[i] in multiset(s1);
    }
  }

  /** Removing the same element from two rearrangements leaves rearrangements. */
  lemma RemoveFromBoth<T>(s: seq<T>, p: seq<T>, x: T, q: seq<T>)
    requires s != [] && s[0] == x && multiset(s) == multiset(p + [x] + q)
    ensures multiset(s[1..]) == multiset(p + q)
  {
    assert s == [x] + s[1..];
    assert multiset(s) == multiset{x} + multiset(s[1..]);
    assert multiset(p + [x] + q) == multiset(p) + multiset{x} + multiset(q);
    assert multiset(p + q) == multiset(p) + multiset(q);
    assert multiset(s[1..]) == multiset(s) - multiset{x};
    assert multiset(p + q) == multiset(p + [x] + q) - multiset{x};
  }

  /** Lists with the same members name the same writers. */
  lemma WriterNamesMembers(s1: seq<Section>, s2: seq<Section>)
    requires forall t :: t in s1 <==> t in s2
    ensures WriterNames(s1) == WriterNames(s2)
  {
    forall n | n in WriterNames(s1) ensures n in WriterNames(s2) {
      var i :| 0 <= i < |s1| && s1[i].name != MainName && s1[i].name == n;
      assert s1[i] in s2;
      var j :| 0 <= j < |s2| && s2[j] == s1[i];
    }
    forall n | n in WriterNames(s2) ensures n in WriterNames(s1) {
      var j :| 0 <= j < |s2| && s2[j].name != MainName && s2[j].name == n;
      assert s2[j] in s1;
      var i :| 0 <= i < |s1| && s1[i] == s2[j];
    }
  }
}
