/**
 `NewLogDeb` (logdeb.go:142-195): the defaults, the channel buffer, the
 loop over the collapsed top-level keys, and the panic without writers.
 */
module Construction {

  import opened Common
  import opened Levels
  import opened Rules
  import opened Config
  import opened Registry
  import opened LogDeb
  import opened TopLevel
  import opened Ordering

  /** The logger before the configuration is read: Error and base level. */
  const Fresh := SetDebugLevel(SetSeverity(Blank, SEVERROR), DLB)

  /**
   `NewLogDeb` over an already decoded configuration: the channel buffer,
   the defaults Error and base level, the loop over the top-level keys
   (each with its last value), and the panic on zero writers.
   */
  function NewLogDeb(bufferSize: int, reg: Registry, sections: seq<Section>): (res: Outcome<Logger>)
    ensures res.Ok? <==>
      0 <= bufferSize && LastSectionsOk(reg, sections) && WriterNames(sections) != {}
    ensures bufferSize < 0 ==> res == Panic(BadBufferSize)
    ensures 0 <= bufferSize && LastSectionsOk(reg, sections) && WriterNames(sections) == {} ==>
      res == Panic(NoWriter)
    ensures forall i | 0 <= i < |sections| && sections[i].name != MainName && sections[i].name !in reg ::
      res.Panic?
    ensures forall i | 0 <= i < |sections| && sections[i].name != MainName && sections[i].name in reg
                       && reg[sections[i].name].Nil? ::
      res.Panic?
    ensures forall i | 0 <= i < |sections| && LastNamed(sections, i, MainName) && sections[i].asTree.Null? ::
      res.Panic?
    ensures res.Ok? ==> res.value.writers.Keys == WriterNames(sections)
    ensures res.Ok? ==> res.value.channel == []
    ensures res.Ok? ==> CachesCover(res.value)
    ensures res.Ok? ==> Specified(res.value.global)
    ensures res.Ok? ==> res.value.maxSeverity >= SEVERROR && res.value.maxDebLev >= DLB
  {
    if bufferSize < 0 then Panic(BadBufferSize)
    else
      CollapseOk(reg, sections);
      UnknownWriterPanics(reg, sections);
      var l :- Configure(Fresh, reg, Collapse(sections));
      if |l.writers| == 0 then Panic(NoWriter) else Ok(l)
  }

  /**
   Go's `range` over the decoded map may visit its keys in any order: every
   order of the collapsed sections builds the same logger, or panics alike.
   */
  lemma NewLogDebAnyOrder(bufferSize: int, reg: Registry, sections: seq<Section>, order: seq<Section>)
    requires 0 <= bufferSize
    requires DistinctNames(order) && multiset(order) == multiset(Collapse(sections))
    ensures var res := NewLogDeb(bufferSize, reg, sections);
      && (res.Ok? <==> Configure(Fresh, reg, order).Ok? && WriterNames(order) != {})
      && (res.Ok? ==> res == Configure(Fresh, reg, order))
  {
    var out := Collapse(sections);
    NewLogDebIsLoop(bufferSize, reg, sections);
    ConfigureOrderFree(Fresh, reg, out, order);
    assert forall t :: t in out <==> t in multiset(out);
    assert forall t :: t in order <==> t in multiset(order);
    WriterNamesMembers(out, order);
  }

  /** With a valid buffer, construction is the loop over the collapsed sections, failing without writers. */
  lemma NewLogDebIsLoop(bufferSize: int, reg: Registry, sections: seq<Section>)
    requires 0 <= bufferSize
    ensures var res := NewLogDeb(bufferSize, reg, sections);
      var loop := Configure(Fresh, reg, Collapse(sections));
      && (res.Ok? <==> loop.Ok? && WriterNames(Collapse(sections)) != {})
      && (res.Ok? ==> res == loop)
  {
    CollapseOk(reg, sections);
  }

  /** Each configured writer holds the rules read from the last section of its name. */
  lemma NewLogDebWriters(bufferSize: int, reg: Registry, sections: seq<Section>)
    ensures var res := NewLogDeb(bufferSize, reg, sections);
      res.Ok? ==>
        forall i | 0 <= i < |sections| && sections[i].name != MainName && LastNamed(sections, i, sections[i].name) ::
          res.value.writers[sections[i].name] == GetWriteRules(sections[i].asTree.entries).value
  {
    var res := NewLogDeb(bufferSize, reg, sections);
    if res.Ok? {
      var out := Collapse(sections);
      assert res == Configure(Fresh, reg, out);
      ConfigureBindsWriters(Fresh, reg, out);
      forall i | 0 <= i < |sections| && sections[i].name != MainName && LastNamed(sections, i, sections[i].name)
        ensures res.value.writers[sections[i].name] == GetWriteRules(sections[i].asTree.entries).value
      {
        var k := CollapseKeepsLast(sections, i);
      }
    }
  }

  /** The last "main" section's explicit fields hold in the constructed logger. */
  lemma NewLogDebMain(bufferSize: int, reg: Registry, sections: seq<Section>)
    ensures var res := NewLogDeb(bufferSize, reg, sections);
      res.Ok? ==>
        forall i | 0 <= i < |sections| && LastNamed(sections, i, MainName) ::
          MainSettles(sections[i].asLogger, res.value)
  {
    var res := NewLogDeb(bufferSize, reg, sections);
    if res.Ok? {
      var out := Collapse(sections);
      assert res == Configure(Fresh, reg, out);
      ConfigureMain(Fresh, reg, out);
      forall i | 0 <= i < |sections| && LastNamed(sections, i, MainName)
        ensures MainSettles(sections[i].asLogger, res.value)
      {
        var k := CollapseKeepsLast(sections, i);
      }
    }
  }

  /** What the last "main" section leaves out keeps its default. */
  lemma NewLogDebDefaults(bufferSize: int, reg: Registry, sections: seq<Section>)
    ensures var res := NewLogDeb(bufferSize, reg, sections);
      res.Ok? ==>
        && ((forall i | 0 <= i < |sections| && LastNamed(sections, i, MainName) ::
               sections[i].asLogger.severity.Nothing?) ==> res.value.global.severity == SEVERROR)
        && ((forall i | 0 <= i < |sections| && LastNamed(sections, i, MainName) ::
               sections[i].asLogger.debugLevel.Nothing?) ==> res.value.global.debugLevel == DLB)
        && ((forall i | 0 <= i < |sections| && LastNamed(sections, i, MainName) ::
               sections[i].asLogger.useFncRules.Nothing?) ==> !res.value.useFncRules)
  {
    var res := NewLogDeb(bufferSize, reg, sections);
    if res.Ok? {
      var out := Collapse(sections);
      assert res == Configure(Fresh, reg, out);
      ConfigureLeavesMain(Fresh, reg, out);
      if forall i | 0 <= i < |sections| && LastNamed(sections, i, MainName) :: sections[i].asLogger.severity.Nothing? {
        forall k | 0 <= k < |out| && out[k].name == MainName ensures out[k].asLogger.severity.Nothing? {
          var i := CollapseMainWasLast(sections, k);
        }
      }
      if forall i | 0 <= i < |sections| && LastNamed(sections, i, MainName) :: sections[i].asLogger.debugLevel.Nothing? {
        forall k | 0 <= k < |out| && out[k].name == MainName ensures out[k].asLogger.debugLevel.Nothing? {
          var i := CollapseMainWasLast(sections, k);
        }
      }
      if forall i | 0 <= i < |sections| && LastNamed(sections, i, MainName) :: sections[i].asLogger.useFncRules.Nothing? {
        forall k | 0 <= k < |out| && out[k].name == MainName ensures out[k].asLogger.useFncRules.Nothing? {
          var i := CollapseMainWasLast(sections, k);
        }
      }
    }
  }

  /**
   The global rule of a constructed logger, given the last "main" section:
   each field it sets takes effect, and a field it leaves out counts as an
   explicit 0, that is, the default Error or base level.
   */
  lemma NewLogDebGlobal(bufferSize: int, reg: Registry, sections: seq<Section>, i: int)
    requires 0 <= i < |sections| && LastNamed(sections, i, MainName)
    ensures var res := NewLogDeb(bufferSize, reg, sections);
      var m := sections[i].asLogger;
      res.Ok? ==>
        && res.value.global == BaseRule(Effective(m.severity.Or(UNSET), SEVERROR), Effective(m.debugLevel.Or(UNSET), DLB))
        && res.value.useFncRules == m.useFncRules.Or(false)
  {
    assert forall j | 0 <= j < |sections| && LastNamed(sections, j, MainName) :: j == i;
    NewLogDebMain(bufferSize, reg, sections);
    NewLogDebDefaults(bufferSize, reg, sections);
  }

  /** Without a "main" section, the global rule is Error at the base level and function rules are off. */
  lemma NewLogDebNoMain(bufferSize: int, reg: Registry, sections: seq<Section>)
    requires MainName !in SectionNames(sections)
    ensures var res := NewLogDeb(bufferSize, reg, sections);
      res.Ok? ==> res.value.global == BaseRule(SEVERROR, DLB) && !res.value.useFncRules
  {
    assert forall j | 0 <= j < |sections| :: sections[j].name in SectionNames(sections);
    NewLogDebDefaults(bufferSize, reg, sections);
  }

  /**
   What a constructed logger holds: each configured writer's rules as read
   from the last section of its name; the last "main" section's explicit
   fields; and, for every field that section leaves out (or without a
   "main" section), the defaults Error and base level with function rules off.
   */
  lemma NewLogDebRules(bufferSize: int, reg: Registry, sections: seq<Section>)
    ensures var res := NewLogDeb(bufferSize, reg, sections);
      res.Ok? ==>
        && (forall i | 0 <= i < |sections| && sections[i].name != MainName
                       && LastNamed(sections, i, sections[i].name) ::
              res.value.writers[sections[i].name] == GetWriteRules(sections[i].asTree.entries).value)
        && ((forall i | 0 <= i < |sections| && LastNamed(sections, i, MainName) ::
               sections[i].asLogger.severity.Nothing?) ==> res.value.global.severity == SEVERROR)
        && ((forall i | 0 <= i < |sections| && LastNamed(sections, i, MainName) ::
               sections[i].asLogger.debugLevel.Nothing?) ==> res.value.global.debugLevel == DLB)
        && ((forall i | 0 <= i < |sections| && LastNamed(sections, i, MainName) ::
               sections[i].asLogger.useFncRules.Nothing?) ==> !res.value.useFncRules)
        && forall i | 0 <= i < |sections| && LastNamed(sections, i, MainName) ::
             MainSettles(sections[i].asLogger, res.value)
  {
    NewLogDebWriters(bufferSize, reg, sections);
    NewLogDebDefaults(bufferSize, reg, sections);
    NewLogDebMain(bufferSize, reg, sections);
  }

  /**
   The caches of a constructed logger are the least bounds: no larger than
   the defaults and every threshold the last copy of each key sets. With
   `CachesCover` this makes each the maximum of those thresholds.
   */
  lemma NewLogDebCachesTight(bufferSize: int, reg: Registry, sections: seq<Section>, sevBound: int, debBound: int)
    requires SEVERROR <= sevBound && DLB <= debBound
    requires forall i | 0 <= i < |sections| && LastNamed(sections, i, sections[i].name) ::
      SectionWithin(sections[i], sevBound, debBound)
    ensures var res := NewLogDeb(bufferSize, reg, sections);
      res.Ok? ==> res.value.maxSeverity <= sevBound && res.value.maxDebLev <= debBound
  {
    if NewLogDeb(bufferSize, reg, sections).Ok? {
      var out := Collapse(sections);
      CollapseSpec(sections);
      assert NewLogDeb(bufferSize, reg, sections) == Configure(Fresh, reg, out);
      forall k | 0 <= k < |out| ensures SectionWithin(out[k], sevBound, debBound) {
        assert IsLast(sections, out[k]);
      }
      ConfigureCachesTight(Fresh, reg, out, sevBound, debBound);
    }
  }
}
