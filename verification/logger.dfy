/**
 The logger state (logdeb.go, `SLogger`): its rules, its fast-path caches
 and its channel, and the loop of `NewLogDeb` over the top-level sections
 of the configuration (logdeb.go:162-190), one step per section.
 */
module LogDeb {

  import opened Common
  import opened Levels
  import opened Rules
  import opened Config
  import opened Registry

  /** The rule and cache state of an `SLogger`, with its channel. */
  datatype Logger = Logger(
    global: BaseRule,                    // the embedded sBaseRule
    maxSeverity: Int8,                   // largest severity threshold set anywhere
    maxDebLev: Int8,                     // largest debug level set anywhere
    useFncRules: bool,
    writers: map<string, WriteRules>,    // the writeRules of each SLogWriter
    channel: seq<LogMsg>)                // everything ever sent on msgChan

  /** `new(SLogger)`: every field at its zero value. */
  const Blank := Logger(ZeroRule, 0, 0, false, map[], [])

  // ---------------------------------------------------------------------
  // Fast-path caches
  // ---------------------------------------------------------------------

  /** `setMaxSeverity`: raise the severity cache to `sev`, never lower it. */
  function SetMaxSeverity(l: Logger, sev: Int8): (l': Logger)
    ensures l'.maxSeverity >= l.maxSeverity && l'.maxSeverity >= sev
    ensures l'.maxSeverity == l.maxSeverity || l'.maxSeverity == sev
    ensures l' == l.(maxSeverity := l'.maxSeverity)
  {
    if sev > l.maxSeverity then l.(maxSeverity := sev) else l
  }

  /** `setMaxDebugLevel`: raise the debug-level cache to `debLev`, never lower it. */
  function SetMaxDebugLevel(l: Logger, debLev: Int8): (l': Logger)
    ensures l'.maxDebLev >= l.maxDebLev && l'.maxDebLev >= debLev
    ensures l'.maxDebLev == l.maxDebLev || l'.maxDebLev == debLev
    ensures l' == l.(maxDebLev := l'.maxDebLev)
  {
    if debLev > l.maxDebLev then l.(maxDebLev := debLev) else l
  }

  /** `SetSeverity`: set the global severity and fold it into the cache. */
  function SetSeverity(l: Logger, sev: Int8): (l': Logger)
    ensures l'.global.severity == sev
    ensures l'.maxSeverity >= l.maxSeverity && l'.maxSeverity >= sev
    ensures l'.maxSeverity == l.maxSeverity || l'.maxSeverity == sev
    ensures l' == l.(global := l.global.(severity := sev), maxSeverity := l'.maxSeverity)
  {
    SetMaxSeverity(l.(global := l.global.(severity := sev)), sev)
  }

  /** `SetDebugLevel`: set the global debug level and fold it into the cache. */
  function SetDebugLevel(l: Logger, debLev: Int8): (l': Logger)
    ensures l'.global.debugLevel == debLev
    ensures l'.maxDebLev >= l.maxDebLev && l'.maxDebLev >= debLev
    ensures l'.maxDebLev == l.maxDebLev || l'.maxDebLev == debLev
    ensures l' == l.(global := l.global.(debugLevel := debLev), maxDebLev := l'.maxDebLev)
  {
    SetMaxDebugLevel(l.(global := l.global.(debugLevel := debLev)), debLev)
  }

  /**
   The caches bound every threshold that was set: the global rule's and
   every writer's own severity and debug level.
   */
  predicate CachesCover(l: Logger) {
    && l.maxSeverity >= l.global.severity
    && l.maxDebLev >= l.global.debugLevel
    && forall w | w in l.writers ::
         l.maxSeverity >= l.writers[w].base.severity && l.maxDebLev >= l.writers[w].base.debugLevel
  }

  // ---------------------------------------------------------------------
  // Construction
  // ---------------------------------------------------------------------

  /** The fields of the "main" section as JSON decodes them into the logger. */
  datatype MainConfig = MainConfig(severity: Maybe<Int8>, debugLevel: Maybe<Int8>, useFncRules: Maybe<bool>)

  /**
   One top-level entry of the configuration: its key and its raw value,
   both as decoded into the logger struct (used when the key is "main")
   and as a generic tree (used for a writer, and to tell a JSON null).
   */
  datatype Section = Section(name: string, asLogger: MainConfig, asTree: Value)

  const MainName := "main"

  /** The writer names a configuration asks for. */
  function WriterNames(sections: seq<Section>): set<string> {
    set i | 0 <= i < |sections| && sections[i].name != MainName :: sections[i].name
  }

  /**
   A section the construction loop accepts without panicking: a "main"
   section that is not null (decoding null sets the logger pointer to nil,
   which the next statement dereferences), or a registered writer whose
   configuration is an object with well-typed rules.
   */
  predicate SectionOk(reg: Registry, s: Section) {
    if s.name == MainName then !s.asTree.Null?
    else s.name in reg && reg[s.name].Backend? && s.asTree.Obj? && GetWriteRules(s.asTree.entries).Ok?
  }

  /**
   The "main" branch of `NewLogDeb`: decode the global rule and the flag,
   then replace an explicit 0 by the default (Error, base level) or fold
   the value into the cache.
   */
  function ApplyMain(l: Logger, m: MainConfig): (l': Logger)
    ensures m.severity == Just(UNSET) ==> l'.global.severity == SEVERROR
    ensures m.severity.Just? && m.severity.value != UNSET ==> l'.global.severity == m.severity.value
    ensures m.severity.Nothing? && l.global.severity != UNSET ==> l'.global.severity == l.global.severity
    ensures m.debugLevel == Just(UNSET) ==> l'.global.debugLevel == DLB
    ensures m.debugLevel.Just? && m.debugLevel.value != UNSET ==> l'.global.debugLevel == m.debugLevel.value
    ensures m.debugLevel.Nothing? && l.global.debugLevel != UNSET ==> l'.global.debugLevel == l.global.debugLevel
    ensures l'.useFncRules == m.useFncRules.Or(l.useFncRules)
    ensures l'.writers == l.writers && l'.channel == l.channel
    ensures l'.maxSeverity >= l.maxSeverity && l'.maxDebLev >= l.maxDebLev
    ensures l'.maxSeverity >= l'.global.severity && l'.maxDebLev >= l'.global.debugLevel
    ensures l'.maxSeverity == l.maxSeverity || l'.maxSeverity == l'.global.severity
    ensures l'.maxDebLev == l.maxDebLev || l'.maxDebLev == l'.global.debugLevel
  {
    var decoded := l.(
      global := BaseRule(m.severity.Or(l.global.severity), m.debugLevel.Or(l.global.debugLevel)),
      useFncRules := m.useFncRules.Or(l.useFncRules));
    var l1 :=
      if decoded.global.severity == UNSET then SetSeverity(decoded, SEVERROR)
      else SetMaxSeverity(decoded, decoded.global.severity);
    if l1.global.debugLevel == UNSET then SetDebugLevel(l1, DLB)
    else SetMaxDebugLevel(l1, l1.global.debugLevel)
  }

  /**
   The writer branch of `NewLogDeb`: an unregistered name panics, calling a
   nil factory panics, the configuration must be an object, its write rules
   are read and folded into the caches. The writer's own `Init` is not part
   of this model.
   */
  function AddWriter(l: Logger, reg: Registry, name: string, tree: Value): (res: Outcome<Logger>)
    ensures name !in reg ==> res == Panic(UnknownWriter(name))
    ensures name in reg && reg[name].Nil? ==> res == Panic(NilCall(name))
    ensures res.Ok? <==> name in reg && reg[name].Backend? && tree.Obj? && GetWriteRules(tree.entries).Ok?
    ensures res.Ok? ==> res.value.writers.Keys == l.writers.Keys + {name}
    ensures res.Ok? ==> res.value.writers[name] == GetWriteRules(tree.entries).value
    ensures res.Ok? ==> forall w | w in l.writers && w != name :: res.value.writers[w] == l.writers[w]
    ensures res.Ok? ==> res.value.global == l.global && res.value.useFncRules == l.useFncRules
    ensures res.Ok? ==> res.value.channel == l.channel
    ensures res.Ok? ==> res.value.maxSeverity >= l.maxSeverity && res.value.maxDebLev >= l.maxDebLev
    ensures res.Ok? ==> res.value.maxSeverity == l.maxSeverity || res.value.maxSeverity == res.value.writers[name].base.severity
    ensures res.Ok? ==> res.value.maxDebLev == l.maxDebLev || res.value.maxDebLev == res.value.writers[name].base.debugLevel
    ensures res.Ok? ==> res.value.maxSeverity >= res.value.writers[name].base.severity
                        && res.value.maxDebLev >= res.value.writers[name].base.debugLevel
    ensures res.Ok? && CachesCover(l) ==> CachesCover(res.value)
  {
    if name !in reg then Panic(UnknownWriter(name))
    else if reg[name].Nil? then Panic(NilCall(name))
    else if !tree.Obj? then Panic(NotAnObject(name))
    else
      var rules := GetWriteRules(tree.entries);
      if rules.Panic? then Panic(rules.reason) else Ok(InstallWriter(l, name, rules.value))
  }

  /** Binds a writer's rules and folds its thresholds into the caches. */
  function InstallWriter(l: Logger, name: string, wr: WriteRules): (l': Logger)
    ensures l'.writers == l.writers[name := wr]
    ensures l'.global == l.global && l'.useFncRules == l.useFncRules && l'.channel == l.channel
    ensures l'.maxSeverity >= l.maxSeverity && l'.maxDebLev >= l.maxDebLev
    ensures l'.maxSeverity >= wr.base.severity && l'.maxDebLev >= wr.base.debugLevel
    ensures l'.maxSeverity == l.maxSeverity || l'.maxSeverity == wr.base.severity
    ensures l'.maxDebLev == l.maxDebLev || l'.maxDebLev == wr.base.debugLevel
    ensures CachesCover(l) ==> CachesCover(l')
  {
    var l1 := l.(writers := l.writers[name := wr]);
    SetMaxDebugLevel(SetMaxSeverity(l1, wr.base.severity), wr.base.debugLevel)
  }

  /** `sections[i]` is the last section called `name`. */
  predicate LastNamed(sections: seq<Section>, i: int, name: string)
    requires 0 <= i < |sections|
  {
    sections[i].name == name && forall j | i < j < |sections| :: sections[j].name != name
  }

  /** The fields a "main" section sets explicitly hold in `l` (an explicit 0 becomes the default). */
  predicate MainSettles(m: MainConfig, l: Logger) {
    && (m.useFncRules.Just? ==> l.useFncRules == m.useFncRules.value)
    && (m.severity.Just? ==> l.global.severity == Effective(m.severity.value, SEVERROR))
    && (m.debugLevel.Just? ==> l.global.debugLevel == Effective(m.debugLevel.value, DLB))
  }

  /** A "main" field as it takes effect: an explicit 0 becomes the default. */
  function Effective(v: Int8, default: Int8): Int8 {
    if v == UNSET then default else v
  }

  /** No "main" section sets the given field. */
  predicate MainLeavesSeverity(sections: seq<Section>) {
    forall i | 0 <= i < |sections| && sections[i].name == MainName :: sections[i].asLogger.severity.Nothing?
  }
  predicate MainLeavesDebugLevel(sections: seq<Section>) {
    forall i | 0 <= i < |sections| && sections[i].name == MainName :: sections[i].asLogger.debugLevel.Nothing?
  }
  predicate MainLeavesFlag(sections: seq<Section>) {
    forall i | 0 <= i < |sections| && sections[i].name == MainName :: sections[i].asLogger.useFncRules.Nothing?
  }

  /** How the first section and the rest make up the whole. */
  lemma SplitSections(sections: seq<Section>)
    requires sections != []
    ensures forall i | 0 < i < |sections| :: sections[i] == sections[1..][i - 1]
    ensures WriterNames(sections)
      == (if sections[0].name == MainName then {} else {sections[0].name}) + WriterNames(sections[1..])
  {
    var rest := sections[1..];
    forall w | w in WriterNames(sections)
      ensures w in (if sections[0].name == MainName then {} else {sections[0].name}) + WriterNames(rest)
    {
      var i :| 0 <= i < |sections| && sections[i].name != MainName && sections[i].name == w;
      if i > 0 { assert rest[i - 1].name == w; }
    }
  }

  /** The loop of `NewLogDeb` over the configuration's sections, in range order. */
  function Configure(l: Logger, reg: Registry, sections: seq<Section>): (res: Outcome<Logger>)
    ensures res.Ok? <==> forall i | 0 <= i < |sections| :: SectionOk(reg, sections[i])
    ensures res.Ok? ==> res.value.writers.Keys == l.writers.Keys + WriterNames(sections)
    ensures res.Ok? ==> res.value.channel == l.channel
    ensures res.Ok? ==> res.value.maxSeverity >= l.maxSeverity && res.value.maxDebLev >= l.maxDebLev
    ensures res.Ok? && CachesCover(l) ==> CachesCover(res.value)
    ensures res.Ok? && Specified(l.global) ==> Specified(res.value.global)
    decreases |sections|
  {
    if sections == [] then Ok(l)
    else
      var s := sections[0];
      var rest := sections[1..];
      SplitSections(sections);
      if s.name == MainName then
        if s.asTree.Null? then Panic(NullMain) else Configure(ApplyMain(l, s.asLogger), reg, rest)
      else
        var l1 :- AddWriter(l, reg, s.name, s.asTree);
        Configure(l1, reg, rest)
  }

  /** What one accepted section does to the logger. */
  function Step(l: Logger, reg: Registry, s: Section): Logger
    requires SectionOk(reg, s)
  {
    if s.name == MainName then ApplyMain(l, s.asLogger) else AddWriter(l, reg, s.name, s.asTree).value
  }

  /** An accepted loop is its first step followed by the loop over the rest. */
  lemma ConfigureStep(l: Logger, reg: Registry, sections: seq<Section>)
    requires sections != [] && Configure(l, reg, sections).Ok?
    ensures SectionOk(reg, sections[0])
    ensures Configure(l, reg, sections) == Configure(Step(l, reg, sections[0]), reg, sections[1..])
  {
  }

  /** Writers bound before the loop and not named in it keep their rules. */
  lemma {:induction false} ConfigureKeepsWriters(l: Logger, reg: Registry, sections: seq<Section>)
    requires Configure(l, reg, sections).Ok?
    ensures forall w | w in l.writers && w !in WriterNames(sections) ::
      Configure(l, reg, sections).value.writers[w] == l.writers[w]
    decreases |sections|
  {
    if sections != [] {
      var s := sections[0];
      var rest := sections[1..];
      ConfigureStep(l, reg, sections);
      var l1 := Step(l, reg, s);
      ConfigureKeepsWriters(l1, reg, rest);
      SplitSections(sections);
    }
  }

  /** A writer section not repeated later binds its writer for good. */
  lemma ConfigureBindsFirst(l: Logger, reg: Registry, sections: seq<Section>)
    requires Configure(l, reg, sections).Ok?
    requires sections != [] && sections[0].name != MainName && LastNamed(sections, 0, sections[0].name)
    ensures Configure(l, reg, sections).value.writers[sections[0].name]
      == GetWriteRules(sections[0].asTree.entries).value
  {
    var s := sections[0];
    var rest := sections[1..];
    ConfigureStep(l, reg, sections);
    var l1 := Step(l, reg, s);
    assert s.name !in WriterNames(rest) by {
      forall j | 0 <= j < |rest| ensures rest[j].name != s.name {
        assert rest[j] == sections[j + 1];
      }
    }
    ConfigureKeepsWriters(l1, reg, rest);
  }

  /** Each writer named in the sections is bound to the rules read from its last section. */
  lemma {:induction false} ConfigureBindsWriters(l: Logger, reg: Registry, sections: seq<Section>)
    requires Configure(l, reg, sections).Ok?
    ensures forall i | 0 <= i < |sections| && sections[i].name != MainName
                       && LastNamed(sections, i, sections[i].name) ::
      Configure(l, reg, sections).value.writers[sections[i].name]
        == GetWriteRules(sections[i].asTree.entries).value
    decreases |sections|
  {
    if sections != [] {
      var s := sections[0];
      var rest := sections[1..];
      assert forall i | 0 < i < |sections| :: sections[i] == rest[i - 1];
      ConfigureStep(l, reg, sections);
      var l1 := Step(l, reg, s);
      ConfigureBindsWriters(l1, reg, rest);
      forall i | 0 <= i < |sections| && sections[i].name != MainName && LastNamed(sections, i, sections[i].name)
        ensures Configure(l, reg, sections).value.writers[sections[i].name]
          == GetWriteRules(sections[i].asTree.entries).value
      {
        if i > 0 {
          assert LastNamed(rest, i - 1, rest[i - 1].name);
        } else {
          ConfigureBindsFirst(l, reg, sections);
        }
      }
    }
  }

  /** Without a "main" section setting them, the global rule and the flag keep their values. */
  lemma {:induction false} ConfigureLeavesMain(l: Logger, reg: Registry, sections: seq<Section>)
    requires Configure(l, reg, sections).Ok?
    ensures MainLeavesSeverity(sections) && l.global.severity != UNSET ==>
      Configure(l, reg, sections).value.global.severity == l.global.severity
    ensures MainLeavesDebugLevel(sections) && l.global.debugLevel != UNSET ==>
      Configure(l, reg, sections).value.global.debugLevel == l.global.debugLevel
    ensures MainLeavesFlag(sections) ==> Configure(l, reg, sections).value.useFncRules == l.useFncRules
    decreases |sections|
  {
    if sections != [] {
      var s := sections[0];
      var rest := sections[1..];
      MainLeavesRest(sections);
      ConfigureStep(l, reg, sections);
      var l1 := Step(l, reg, s);
      ConfigureLeavesMain(l1, reg, rest);
    }
  }

  /** What no "main" section sets, no "main" section of the tail sets, nor the head. */
  lemma MainLeavesRest(sections: seq<Section>)
    requires sections != []
    ensures MainLeavesSeverity(sections) ==>
      MainLeavesSeverity(sections[1..]) && (sections[0].name == MainName ==> sections[0].asLogger.severity.Nothing?)
    ensures MainLeavesDebugLevel(sections) ==>
      MainLeavesDebugLevel(sections[1..]) && (sections[0].name == MainName ==> sections[0].asLogger.debugLevel.Nothing?)
    ensures MainLeavesFlag(sections) ==>
      MainLeavesFlag(sections[1..]) && (sections[0].name == MainName ==> sections[0].asLogger.useFncRules.Nothing?)
  {
    assert forall i | 0 <= i < |sections[1..]| :: sections[1..][i] == sections[i + 1];
  }

  /** When the first section is the only "main" one, its explicit fields hold after the loop. */
  lemma ConfigureLastMain(l: Logger, reg: Registry, sections: seq<Section>)
    requires Configure(l, reg, sections).Ok?
    requires sections != [] && LastNamed(sections, 0, MainName)
    ensures MainSettles(sections[0].asLogger, Configure(l, reg, sections).value)
  {
    var rest := sections[1..];
    ConfigureStep(l, reg, sections);
    var l1 := Step(l, reg, sections[0]);
    assert forall j | 0 <= j < |rest| :: rest[j] == sections[j + 1];
    assert MainLeavesSeverity(rest) && MainLeavesDebugLevel(rest) && MainLeavesFlag(rest);
    ConfigureLeavesMain(l1, reg, rest);
  }

  /** The last "main" section's explicit fields hold after the loop. */
  lemma {:induction false} ConfigureMain(l: Logger, reg: Registry, sections: seq<Section>)
    requires Configure(l, reg, sections).Ok?
    ensures forall i | 0 <= i < |sections| && LastNamed(sections, i, MainName) ::
      MainSettles(sections[i].asLogger, Configure(l, reg, sections).value)
    decreases |sections|
  {
    if sections != [] {
      var s := sections[0];
      var rest := sections[1..];
      assert forall i | 0 < i < |sections| :: sections[i] == rest[i - 1];
      ConfigureStep(l, reg, sections);
      var l1 := Step(l, reg, s);
      ConfigureMain(l1, reg, rest);
      forall i | 0 <= i < |sections| && LastNamed(sections, i, MainName)
        ensures MainSettles(sections[i].asLogger, Configure(l, reg, sections).value)
      {
        if i > 0 {
          assert LastNamed(rest, i - 1, MainName);
        } else {
          ConfigureLastMain(l, reg, sections);
        }
      }
    }
  }

  /** Every threshold a section can set is within the bounds. */
  predicate SectionWithin(s: Section, sevBound: int, debBound: int) {
    if s.name == MainName then
      && (s.asLogger.severity.Just? ==> Effective(s.asLogger.severity.value, SEVERROR) <= sevBound)
      && (s.asLogger.debugLevel.Just? ==> Effective(s.asLogger.debugLevel.value, DLB) <= debBound)
    else
      s.asTree.Obj? && GetWriteRules(s.asTree.entries).Ok? ==>
        && GetWriteRules(s.asTree.entries).value.base.severity <= sevBound
        && GetWriteRules(s.asTree.entries).value.base.debugLevel <= debBound
  }

  /** The loop raises the caches to no more than the largest threshold it sets. */
  lemma {:induction false} ConfigureCachesTight(l: Logger, reg: Registry, sections: seq<Section>, sevBound: int, debBound: int)
    requires Configure(l, reg, sections).Ok?
    requires CachesCover(l) && Specified(l.global)
    requires l.maxSeverity <= sevBound && l.maxDebLev <= debBound
    requires forall i | 0 <= i < |sections| :: SectionWithin(sections[i], sevBound, debBound)
    ensures Configure(l, reg, sections).value.maxSeverity <= sevBound
    ensures Configure(l, reg, sections).value.maxDebLev <= debBound
    decreases |sections|
  {
    if sections != [] {
      var s := sections[0];
      var rest := sections[1..];
      assert forall i | 0 <= i < |rest| :: rest[i] == sections[i + 1];
      ConfigureStep(l, reg, sections);
      var l1 := Step(l, reg, s);
      StepWithin(l, reg, s, sevBound, debBound);
      ConfigureCachesTight(l1, reg, rest, sevBound, debBound);
    }
  }

  /** One step within the bounds keeps the caches within them, covering and specified. */
  lemma StepWithin(l: Logger, reg: Registry, s: Section, sevBound: int, debBound: int)
    requires SectionOk(reg, s) && SectionWithin(s, sevBound, debBound)
    requires CachesCover(l) && Specified(l.global)
    requires l.maxSeverity <= sevBound && l.maxDebLev <= debBound
    ensures CachesCover(Step(l, reg, s)) && Specified(Step(l, reg, s).global)
    ensures Step(l, reg, s).maxSeverity <= sevBound && Step(l, reg, s).maxDebLev <= debBound
  {
  }
}
