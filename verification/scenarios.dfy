/**
 Concrete configurations in the shape of the repository's console tests
 (console_test.go:111-196): function-rule lookup, end-to-end filtering,
 repeated and null top-level keys, and the input on which `Debl` drops a
 message its writer would have written.
 */
module Scenarios {

  import opened Common
  import opened Levels
  import opened Rules
  import opened Config
  import opened Registry
  import opened LogDeb
  import opened TopLevel
  import opened Ordering
  import opened Construction
  import opened Delivery

  const NoMain := MainConfig(Nothing, Nothing, Nothing)
  const Console := map["console" := Backend("console")]
  const Buffer := 100

  /** Rules {"A.B": x}: "A.B" and "A.B.C" find x, "Z" finds nothing. */
  lemma FncLookupExample(x: BaseRule)
    ensures FncLookup(map["A.B" := x], "A.B") == Just(x)
    ensures FncLookup(map["A.B" := x], "A.B.C") == Just(x)
    ensures FncLookup(map["A.B" := x], "Z") == Nothing
  {
    assert "A.B.C"[..3] == "A.B";
    assert "A.B"[..3] == "A.B";
  }

  /** {"console":{"Severity":2}} */
  const ErrorOnly := [Section("console", NoMain, Obj([Entry("Severity", Num(SEVERROR))]))]

  /** The console section of that configuration reads as Error without function rules. */
  lemma ErrorOnlyConsole()
    ensures GetWriteRules(ErrorOnly[0].asTree.entries) == Ok(WriteRules(BaseRule(SEVERROR, UNSET), map[]))
  {
    var entries := ErrorOnly[0].asTree.entries;
    assert IsKey("Severity", SeverityKey);
    assert LastKeyed(entries, 0, SeverityKey);
    assert Absent(entries, DebugLevelKey);
    assert !IsKey("Severity", FncRulesKey) by {
      assert "Severity"[0] == 'S' && FncRulesKey[0] == 'f';
      assert LowerChar('S') != 'f';
    }
    assert Absent(entries, FncRulesKey);
    GetWriteRulesSpec(entries);
  }

  /** With a console writer at Error, a Warn message never reaches it. */
  lemma WarnBelowErrorNotWritten(fnc: FncName, text: string)
    ensures NewLogDeb(Buffer, Console, ErrorOnly).Ok?
    ensures var l := NewLogDeb(Buffer, Console, ErrorOnly).value;
      Received(Warn(l, fnc, text), "console") == []
  {
    ErrorOnlyBuilds();
    var l := NewLogDeb(Buffer, Console, ErrorOnly).value;
    assert !MustWrite(l, "console", LogMsg(fnc, text, SEVWARN, UNSET));
  }

  /** That configuration builds a logger whose console is at Error without function rules. */
  lemma ErrorOnlyBuilds()
    ensures NewLogDeb(Buffer, Console, ErrorOnly).Ok?
    ensures var l := NewLogDeb(Buffer, Console, ErrorOnly).value;
      !l.useFncRules && l.writers["console"] == WriteRules(BaseRule(SEVERROR, UNSET), map[])
  {
    ErrorOnlyConsole();
    assert SectionOk(Console, ErrorOnly[0]);
    assert "console" in WriterNames(ErrorOnly);
    assert LastNamed(ErrorOnly, 0, "console");
    NewLogDebWriters(Buffer, Console, ErrorOnly);
    assert MainName !in SectionNames(ErrorOnly);
    NewLogDebNoMain(Buffer, Console, ErrorOnly);
  }

  /** A negative channel buffer panics before the configuration is read. */
  lemma NegativeBufferPanics()
    ensures NewLogDeb(-1, Console, ErrorOnly) == Panic(BadBufferSize)
  {
  }

  /** {"main":null,"console":{"Severity":2}}: decoding null into the logger leaves nothing to read. */
  lemma NullMainPanics()
    ensures NewLogDeb(Buffer, Console, [Section("main", NoMain, Null)] + ErrorOnly).Panic?
  {
    var sections := [Section("main", NoMain, Null)] + ErrorOnly;
    assert LastNamed(sections, 0, MainName);
  }

  /** {"console":{"Severity":5},"console":{"Severity":2}}: only the second copy is read. */
  const Overridden := [Section("console", NoMain, Obj([Entry("Severity", Num(SEVDEBUG))]))] + ErrorOnly

  /** The overridden copy leaves no trace: neither in the writer's rules nor in the severity cache. */
  lemma OverriddenCopyIgnored()
    ensures NewLogDeb(Buffer, Console, Overridden).Ok?
    ensures var l := NewLogDeb(Buffer, Console, Overridden).value;
      l.writers["console"].base.severity == SEVERROR && l.maxSeverity == SEVERROR
  {
    ErrorOnlyConsole();
    assert LastNamed(Overridden, 1, "console");
    assert !LastNamed(Overridden, 0, "console");
    assert SectionOk(Console, Overridden[1]);
    assert "console" in WriterNames(Overridden);
    NewLogDebWriters(Buffer, Console, Overridden);
    assert SectionWithin(Overridden[1], SEVERROR, DLB);
    NewLogDebCachesTight(Buffer, Console, Overridden, SEVERROR, DLB);
  }

  /** {"console":true,"console":{"Severity":2}}: a malformed copy that is overridden does not panic. */
  lemma EarlierMalformedCopyIgnored()
    ensures NewLogDeb(Buffer, Console, [Section("console", NoMain, Other)] + ErrorOnly).Ok?
  {
    var sections := [Section("console", NoMain, Other)] + ErrorOnly;
    ErrorOnlyConsole();
    assert sections[1] == ErrorOnly[0];
    assert !LastNamed(sections, 0, "console");
    assert SectionOk(Console, sections[1]);
    assert "console" in WriterNames(sections);
  }

  /**
   {"main":{"Severity":4},"main":{"DebugLevel":3},"console":{"Severity":2}}:
   the first "main" is overridden, so the severity stays at Error.
   */
  const TwoMains := [
    Section("main", MainConfig(Just(SEVINFO), Nothing, Nothing), Obj([])),
    Section("main", MainConfig(Nothing, Just(DLV), Nothing), Obj([]))
  ] + ErrorOnly

  /** That configuration builds a logger. */
  lemma TwoMainsOk()
    ensures NewLogDeb(Buffer, Console, TwoMains).Ok?
  {
    ErrorOnlyConsole();
    assert LastSectionsOk(Console, TwoMains) by {
      assert TwoMains[1].name == MainName;
      assert SectionOk(Console, TwoMains[1]) && SectionOk(Console, TwoMains[2]);
    }
    assert TwoMains[2].name == "console";
    assert "console" in WriterNames(TwoMains);
  }

  /** Its global rule: Error from the default, debug level 3 from the second "main". */
  lemma TwoMainsLastWins()
    ensures NewLogDeb(Buffer, Console, TwoMains).Ok?
    ensures NewLogDeb(Buffer, Console, TwoMains).value.global == BaseRule(SEVERROR, DLV)
  {
    TwoMainsOk();
    assert LastNamed(TwoMains, 1, MainName);
    NewLogDebGlobal(Buffer, Console, TwoMains, 1);
  }

  /** The rule configured for "Foo.bar": Debug severity, debug level 2. */
  const FooBarTree := Obj([Entry("Severity", Num(SEVDEBUG)), Entry("DebugLevel", Num(DLE))])

  /**
   {"main":{"UseFncRules":true},
    "console":{"Severity":2,"FncRules":{"Foo.bar":{"Severity":5,"DebugLevel":2}}}}
   */
  const WithFncRules := [
    Section("main", MainConfig(Nothing, Nothing, Just(true)), Obj([Entry("UseFncRules", Other)])),
    Section("console", NoMain,
      Obj([Entry("Severity", Num(SEVERROR)), Entry("FncRules", Obj([Entry("Foo.bar", FooBarTree)]))]))
  ]

  /** The "Foo.bar" tree reads as Debug at debug level 2. */
  lemma FooBarRule()
    ensures RuleTreeOk(FooBarTree) && RuleOf(FooBarTree) == BaseRule(SEVDEBUG, DLE)
  {
    var foo := FooBarTree.entries;
    assert IsKey("Severity", SeverityKey);
    assert IsKey("DebugLevel", DebugLevelKey);
    assert LastKeyed(foo, 0, SeverityKey);
    assert LastKeyed(foo, 1, DebugLevelKey);
    ExtractOk(ZeroRule, foo);
    ExtractSettles(ZeroRule, foo);
  }

  /** The "FncRules" object of the console section holds that one rule. */
  lemma FooBarSection()
    ensures FncSectionOk(WithFncRules[1].asTree.entries[1].value)
    ensures SectionRules(WithFncRules[1].asTree.entries[1].value) == map["Foo.bar" := BaseRule(SEVDEBUG, DLE)]
  {
    var fnc := WithFncRules[1].asTree.entries[1].value.entries;
    FooBarRule();
    assert LastOf(fnc, 0);
    AddFncRulesContents(map[], fnc);
    assert KeysOf(fnc) == {"Foo.bar"};
  }

  /** The console section of that configuration reads as Error with one function rule. */
  lemma WithFncRulesConsole()
    ensures GetWriteRules(WithFncRules[1].asTree.entries)
      == Ok(WriteRules(BaseRule(SEVERROR, UNSET), map["Foo.bar" := BaseRule(SEVDEBUG, DLE)]))
  {
    var console := WithFncRules[1].asTree.entries;
    assert IsKey("Severity", SeverityKey);
    assert IsKey("FncRules", FncRulesKey);
    assert !IsKey("FncRules", SeverityKey) by {
      assert "FncRules"[0] == 'F' && SeverityKey[0] == 's';
      assert LowerChar('F') != 's';
    }
    assert LastKeyed(console, 0, SeverityKey);
    assert LastKeyed(console, 1, FncRulesKey);
    assert Absent(console, DebugLevelKey);
    FooBarSection();
    GetWriteRulesSpec(console);
  }

  /** That configuration builds a logger. */
  lemma WithFncRulesOk()
    ensures NewLogDeb(Buffer, Console, WithFncRules).Ok?
  {
    WithFncRulesConsole();
    assert SectionOk(Console, WithFncRules[0]) && SectionOk(Console, WithFncRules[1]);
    assert "console" in WriterNames(WithFncRules);
  }

  /** The global rule, the flag and the console's rules of that logger. */
  lemma WithFncRulesSettings()
    ensures NewLogDeb(Buffer, Console, WithFncRules).Ok?
    ensures var l := NewLogDeb(Buffer, Console, WithFncRules).value;
      && l.useFncRules
      && l.global == BaseRule(SEVERROR, DLB)
      && l.writers["console"] == WriteRules(BaseRule(SEVERROR, UNSET), map["Foo.bar" := BaseRule(SEVDEBUG, DLE)])
  {
    WithFncRulesOk();
    WithFncRulesConsole();
    NewLogDebRules(Buffer, Console, WithFncRules);
    assert LastNamed(WithFncRules, 0, MainName);
    assert LastNamed(WithFncRules, 1, "console");
  }

  /** Its debug-level cache stays at the base level: function rules are not folded in. */
  lemma WithFncRulesCache()
    ensures NewLogDeb(Buffer, Console, WithFncRules).Ok?
    ensures NewLogDeb(Buffer, Console, WithFncRules).value.maxDebLev == DLB
  {
    WithFncRulesOk();
    WithFncRulesConsole();
    assert SectionWithin(WithFncRules[0], SEVERROR, DLB);
    assert SectionWithin(WithFncRules[1], SEVERROR, DLB);
    NewLogDebCachesTight(Buffer, Console, WithFncRules, SEVERROR, DLB);
  }

  /** The logger that configuration builds. */
  lemma WithFncRulesBuilds()
    ensures NewLogDeb(Buffer, Console, WithFncRules).Ok?
    ensures var l := NewLogDeb(Buffer, Console, WithFncRules).value;
      && l.useFncRules
      && l.global == BaseRule(SEVERROR, DLB)
      && l.maxDebLev == DLB
      && l.writers["console"] == WriteRules(BaseRule(SEVERROR, UNSET), map["Foo.bar" := BaseRule(SEVDEBUG, DLE)])
  {
    WithFncRulesSettings();
    WithFncRulesCache();
  }

  /** "Foo.bar.baz" at debug level 2 is for the console (via "Foo.bar"); "Qux" is not. */
  lemma FncRulesDecide(text: string)
    ensures NewLogDeb(Buffer, Console, WithFncRules).Ok?
    ensures var l := NewLogDeb(Buffer, Console, WithFncRules).value;
      && MustWrite(l, "console", LogMsg("Foo.bar.baz", text, SEVDEBUG, DLE))
      && !MustWrite(l, "console", LogMsg("Qux", text, SEVDEBUG, DLE))
  {
    WithFncRulesBuilds();
    var l := NewLogDeb(Buffer, Console, WithFncRules).value;
    var rules := l.writers["console"].fncRules;
    FncLookupExampleFooBar(rules);
  }

  lemma FncLookupExampleFooBar(rules: map<FncName, BaseRule>)
    requires rules == map["Foo.bar" := BaseRule(SEVDEBUG, DLE)]
    ensures MatchLength(rules, "Foo.bar.baz") == 7
    ensures MatchLength(rules, "Qux") == 0
  {
    assert "Foo.bar.baz"[..7] == "Foo.bar";
  }

  /**
   As written, `Debl` drops that Debug message before the channel, because
   the function rule's debug level 2 never reaches the debug-level cache
   (1); the console, which would write it, receives nothing.
   */
  lemma DeblDropsAcceptedMessage(text: string)
    ensures NewLogDeb(Buffer, Console, WithFncRules).Ok?
    ensures var l := NewLogDeb(Buffer, Console, WithFncRules).value;
      && MustWrite(l, "console", LogMsg("Foo.bar.baz", text, SEVDEBUG, DLE))
      && Received(Debl(l, "Foo.bar.baz", text, DLE), "console") == []
  {
    FncRulesDecide(text);
    WithFncRulesBuilds();
  }

  /** With `DeblFixed` the console receives that message. */
  lemma DeblFixedDeliversAcceptedMessage(text: string)
    ensures NewLogDeb(Buffer, Console, WithFncRules).Ok?
    ensures var l := NewLogDeb(Buffer, Console, WithFncRules).value;
      Received(DeblFixed(l, "Foo.bar.baz", text, DLE), "console") == [LogMsg("Foo.bar.baz", text, SEVDEBUG, DLE)]
  {
    FncRulesDecide(text);
    WithFncRulesBuilds();
    var l := NewLogDeb(Buffer, Console, WithFncRules).value;
    EmitFixedInvisible(l, DeblCall("Foo.bar.baz", text, DLE), "console");
  }
}
