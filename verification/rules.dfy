/**
 Write rules and their evaluation (logdeb.go, `sBaseRule`, `sWriteRules`,
 `SLogMsg`, `get`, `eval`, and the function-name lookup of `MustWrite`).
 */
module Rules {

  import opened Common
  import opened Levels

  /** `sBaseRule`: a severity threshold and a debug-level threshold; 0 is "unset". */
  datatype BaseRule = BaseRule(severity: Int8, debugLevel: Int8)

  /** The zero value of `sBaseRule`. */
  const ZeroRule := BaseRule(UNSET, UNSET)

  /** `tFncName`: the function/component tag of a message. */
  type FncName = string

  /** `sWriteRules`: a writer's own rule and its per-function overrides. */
  datatype WriteRules = WriteRules(base: BaseRule, fncRules: map<FncName, BaseRule>)

  /** The zero value of `sWriteRules` (what a missing map entry reads as). */
  const ZeroWriteRules := WriteRules(ZeroRule, map[])

  /** `SLogMsg`. Messages of a severity other than Debug carry debug level 0. */
  datatype LogMsg = LogMsg(fnc: FncName, text: string, sev: Int8, debLev: Int8)

  /** Both fields of the rule are set. */
  predicate Specified(r: BaseRule) {
    r.severity != UNSET && r.debugLevel != UNSET
  }

  /** `sBaseRule.get`: fill every unset field of `r` from `parent`. */
  function Get(r: BaseRule, parent: BaseRule): (e: BaseRule)
    ensures r.severity != UNSET ==> e.severity == r.severity
    ensures r.severity == UNSET ==> e.severity == parent.severity
    ensures r.debugLevel != UNSET ==> e.debugLevel == r.debugLevel
    ensures r.debugLevel == UNSET ==> e.debugLevel == parent.debugLevel
  {
    BaseRule(
      if r.severity == UNSET then parent.severity else r.severity,
      if r.debugLevel == UNSET then parent.debugLevel else r.debugLevel)
  }

  /**
   The accept test of `eval` on an already resolved rule. The second
   disjunct does not look at the message's severity: messages other than
   Debug carry debug level 0, so a rule at Debug severity lets them through.
   */
  predicate Accepts(e: BaseRule, msg: LogMsg) {
    || (msg.sev < SEVDEBUG && msg.sev <= e.severity)
    || (e.severity == SEVDEBUG && msg.debLev <= e.debugLevel)
  }

  /** `sBaseRule.eval`: resolve `r` against `parent`, then test the message. */
  predicate Eval(r: BaseRule, msg: LogMsg, parent: BaseRule) {
    Accepts(Get(r, parent), msg)
  }

  /** A rule whose fields are both set ignores its parent. */
  lemma GetSpecified(r: BaseRule, parent: BaseRule)
    requires Specified(r)
    ensures Get(r, parent) == r
  {
  }

  /** Resolving twice against the same parent changes nothing more. */
  lemma GetIdempotent(r: BaseRule, parent: BaseRule)
    ensures Get(Get(r, parent), parent) == Get(r, parent)
  {
  }

  /** Resolving against a specified parent yields a specified rule. */
  lemma GetAgainstSpecified(r: BaseRule, parent: BaseRule)
    requires Specified(parent)
    ensures Specified(Get(r, parent))
  {
  }

  /** A message accepted at some severity is accepted at every more severe one. */
  lemma EvalMonotone(r: BaseRule, parent: BaseRule, msg: LogMsg, moreSevere: Int8)
    requires Eval(r, msg, parent)
    requires moreSevere < msg.sev
    ensures Eval(r, msg.(sev := moreSevere), parent)
  {
  }

  /** Under an effective Debug rule of level n, a Debug message passes iff its level is at most n. */
  lemma DebugThreshold(r: BaseRule, parent: BaseRule, msg: LogMsg)
    requires Get(r, parent).severity == SEVDEBUG
    requires msg.sev == SEVDEBUG
    ensures Eval(r, msg, parent) <==> msg.debLev <= Get(r, parent).debugLevel
  {
  }

  /** An effective rule below Debug severity never admits a Debug message. */
  lemma NoDebugBelowDebugSeverity(r: BaseRule, parent: BaseRule, msg: LogMsg)
    requires Get(r, parent).severity != SEVDEBUG
    requires msg.sev == SEVDEBUG
    ensures !Eval(r, msg, parent)
  {
  }

  /**
   The intended accept test: a message of severity other than Debug passes
   when it is at least as severe as the threshold; a Debug message passes when
   the rule is at Debug severity and its level is within the threshold. The
   intent is read from the source: debug levels refine only the Debug
   severity (logdeb.go:37-44), and only `Deb` and `Debl` give a message a
   level, while `Fatal` to `Info` pass 0 (logdeb.go:317-343).
   */
  predicate IntendedAccepts(e: BaseRule, msg: LogMsg) {
    || (msg.sev < SEVDEBUG && msg.sev <= e.severity)
    || (msg.sev == SEVDEBUG && e.severity == SEVDEBUG && msg.debLev <= e.debugLevel)
  }

  /**
   The literal test agrees with the intended one on every message of
   severity at most Debug, although it omits the `msg.sev == SEVDEBUG` guard.
   */
  lemma AcceptsMatchesIntent(e: BaseRule, msg: LogMsg)
    requires msg.sev <= SEVDEBUG
    ensures Accepts(e, msg) <==> IntendedAccepts(e, msg)
  {
  }

  /**
   The length of the longest non-empty prefix of `fnc` that is a key of
   `rules`, or 0 when there is none. This is the byte-by-byte truncation of
   `MustWrite`: the prefix need not end at a separator.
   */
  function MatchLength(rules: map<FncName, BaseRule>, fnc: FncName): (k: nat)
    ensures k <= |fnc|
    ensures 0 < k ==> fnc[..k] in rules
    ensures forall j | k < j <= |fnc| :: fnc[..j] !in rules
    decreases |fnc|
  {
    if |fnc| == 0 then 0
    else if fnc in rules then
      assert fnc[..|fnc|] == fnc;
      |fnc|
    else
      var shorter := fnc[..|fnc| - 1];
      var k := MatchLength(rules, shorter);
      assert forall j | 0 <= j <= |shorter| :: shorter[..j] == fnc[..j];
      assert fnc[..|fnc|] == fnc;
      k
  }

  /** The rule `MustWrite` picks for a tag, if any prefix of it is configured. */
  function FncLookup(rules: map<FncName, BaseRule>, fnc: FncName): (r: Maybe<BaseRule>)
    ensures r.Nothing? <==> forall j | 0 < j <= |fnc| :: fnc[..j] !in rules
    ensures r.Just? ==> exists k | 0 < k <= |fnc| ::
      && fnc[..k] in rules && r.value == rules[fnc[..k]]
      && forall j | k < j <= |fnc| :: fnc[..j] !in rules
  {
    var k := MatchLength(rules, fnc);
    if k == 0 then Nothing else Just(rules[fnc[..k]])
  }
}
