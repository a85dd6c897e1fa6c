/**
 The per-writer decision `MustWrite` (logdeb.go:272-291), the
 producer-side pre-filter `logw` and its wrappers (logdeb.go:304-343), and
 delivery from the channel.

 The channel is an append-only sequence: a message is accepted by the
 producer when it is appended. The dispatch task hands every message, in
 channel order, to every writer, and a writer delivers it when `MustWrite`
 holds, so what a writer receives is the channel filtered by `MustWrite`.
 */
module Delivery {

  import opened Common
  import opened Levels
  import opened Rules
  import opened Config
  import opened Registry
  import opened LogDeb

  /** The write rules of a writer; an unknown name reads as the zero value. */
  function RulesOf(l: Logger, name: string): WriteRules {
    if name in l.writers then l.writers[name] else ZeroWriteRules
  }

  /**
   `MustWrite`. Without function rules: the writer's rule resolved against
   the global one. With them: the rule of the longest configured prefix of
   the tag, resolved against the writer's rule resolved against the global
   one; no configured prefix means no write.
   */
  predicate MustWrite(l: Logger, name: string, msg: LogMsg) {
    var wr := RulesOf(l, name);
    if l.useFncRules && |wr.fncRules| > 0 then
      var k := MatchLength(wr.fncRules, msg.fnc);
      0 < k && Eval(wr.fncRules[msg.fnc[..k]], msg, Get(wr.base, l.global))
    else
      Eval(wr.base, msg, l.global)
  }

  /** `MustWrite` as the source runs it: drop one character of the tag per miss. */
  method MustWriteLoop(l: Logger, name: string, msg: LogMsg) returns (b: bool)
    ensures b == MustWrite(l, name, msg)
  {
    var wr := RulesOf(l, name);
    if l.useFncRules && |wr.fncRules| > 0 {
      var fnc := msg.fnc;
      while fnc != [] && fnc !in wr.fncRules
        invariant |fnc| <= |msg.fnc| && fnc == msg.fnc[..|fnc|]
        invariant forall j | |fnc| < j <= |msg.fnc| :: msg.fnc[..j] !in wr.fncRules
        decreases |fnc|
      {
        fnc := fnc[..|fnc| - 1];
      }
      var k := MatchLength(wr.fncRules, msg.fnc);
      if fnc == [] {
        b := false;
      } else {
        assert k == |fnc|;
        b := Eval(wr.fncRules[fnc], msg, Get(wr.base, l.global));
      }
    } else {
      b := Eval(wr.base, msg, l.global);
    }
  }

  /** Without function rules in play, a writer's decision is its own rule under the global one. */
  lemma MustWriteWithoutFncRules(l: Logger, name: string, msg: LogMsg)
    requires !l.useFncRules || name !in l.writers || |l.writers[name].fncRules| == 0
    ensures MustWrite(l, name, msg) == Eval(RulesOf(l, name).base, msg, l.global)
    ensures name !in l.writers ==> (MustWrite(l, name, msg) <==> Accepts(l.global, msg))
  {
  }

  /**
   With function rules in play, the decision is the rule of the longest
   configured prefix of the tag, and is false when no non-empty prefix is
   configured.
   */
  lemma MustWriteWithFncRules(l: Logger, name: string, msg: LogMsg)
    requires l.useFncRules && name in l.writers && |l.writers[name].fncRules| > 0
    ensures FncLookup(l.writers[name].fncRules, msg.fnc).Nothing? ==> !MustWrite(l, name, msg)
    ensures forall k | 0 < k <= |msg.fnc| && msg.fnc[..k] in l.writers[name].fncRules
                       && (forall j | k < j <= |msg.fnc| :: msg.fnc[..j] !in l.writers[name].fncRules) ::
      MustWrite(l, name, msg) ==
        Eval(l.writers[name].fncRules[msg.fnc[..k]], msg, Get(l.writers[name].base, l.global))
  {
    var rules := l.writers[name].fncRules;
    var m := MatchLength(rules, msg.fnc);
    assert RulesOf(l, name) == l.writers[name];
    forall k | 0 < k <= |msg.fnc| && msg.fnc[..k] in rules && (forall j | k < j <= |msg.fnc| :: msg.fnc[..j] !in rules)
      ensures k == m
    {
    }
  }

  /** `MustWrite` reads only the rules, not the caches or the channel. */
  predicate SameRules(a: Logger, b: Logger) {
    a.global == b.global && a.useFncRules == b.useFncRules && a.writers == b.writers
  }

  // ---------------------------------------------------------------------
  // Producer side
  // ---------------------------------------------------------------------

  /**
   `logw`: unless function rules are on, a message less severe than every
   configured threshold is dropped; anything else is sent on the channel.
   */
  function Logw(l: Logger, fnc: FncName, text: string, sev: Int8, debLev: Int8): (l': Logger)
    ensures l' == l.(channel := l'.channel)
    ensures l'.channel == l.channel || l'.channel == l.channel + [LogMsg(fnc, text, sev, debLev)]
    ensures l'.channel == l.channel <==> !l.useFncRules && sev > l.maxSeverity
  {
    if !l.useFncRules && sev > l.maxSeverity then l
    else l.(channel := l.channel + [LogMsg(fnc, text, sev, debLev)])
  }

  /** `Fatal`: severity Fatal, debug level 0. */
  function Fatal(l: Logger, fnc: FncName, text: string): (l': Logger)
    ensures l' == l.(channel := l'.channel)
    ensures l'.channel == l.channel || l'.channel == l.channel + [LogMsg(fnc, text, SEVFATAL, UNSET)]
    ensures l.maxSeverity >= SEVFATAL || l.useFncRules <==> l'.channel == l.channel + [LogMsg(fnc, text, SEVFATAL, UNSET)]
  {
    Logw(l, fnc, text, SEVFATAL, UNSET)
  }

  /** `Err`: severity Error, debug level 0. */
  function Err(l: Logger, fnc: FncName, text: string): (l': Logger)
    ensures l' == l.(channel := l'.channel)
    ensures l'.channel == l.channel || l'.channel == l.channel + [LogMsg(fnc, text, SEVERROR, UNSET)]
    ensures l.maxSeverity >= SEVERROR || l.useFncRules <==> l'.channel == l.channel + [LogMsg(fnc, text, SEVERROR, UNSET)]
  {
    Logw(l, fnc, text, SEVERROR, UNSET)
  }

  /** `Warn`: severity Warn, debug level 0. */
  function Warn(l: Logger, fnc: FncName, text: string): (l': Logger)
    ensures l' == l.(channel := l'.channel)
    ensures l'.channel == l.channel || l'.channel == l.channel + [LogMsg(fnc, text, SEVWARN, UNSET)]
    ensures l.maxSeverity >= SEVWARN || l.useFncRules <==> l'.channel == l.channel + [LogMsg(fnc, text, SEVWARN, UNSET)]
  {
    Logw(l, fnc, text, SEVWARN, UNSET)
  }

  /** `Info`: severity Info, debug level 0. */
  function Info(l: Logger, fnc: FncName, text: string): (l': Logger)
    ensures l' == l.(channel := l'.channel)
    ensures l'.channel == l.channel || l'.channel == l.channel + [LogMsg(fnc, text, SEVINFO, UNSET)]
    ensures l.maxSeverity >= SEVINFO || l.useFncRules <==> l'.channel == l.channel + [LogMsg(fnc, text, SEVINFO, UNSET)]
  {
    Logw(l, fnc, text, SEVINFO, UNSET)
  }

  /** `Deb`: severity Debug at the base level, with no debug-level gate. */
  function Deb(l: Logger, fnc: FncName, text: string): (l': Logger)
    ensures l' == l.(channel := l'.channel)
    ensures l'.channel == l.channel || l'.channel == l.channel + [LogMsg(fnc, text, SEVDEBUG, DLB)]
    ensures l.maxSeverity >= SEVDEBUG || l.useFncRules <==> l'.channel == l.channel + [LogMsg(fnc, text, SEVDEBUG, DLB)]
  {
    Logw(l, fnc, text, SEVDEBUG, DLB)
  }

  /**
   `Debl`: severity Debug at a given level; a level above the debug-level
   cache is dropped before `logw`, whether or not function rules are on.
   */
  function Debl(l: Logger, fnc: FncName, text: string, debLev: Int8): (l': Logger)
    ensures l' == l.(channel := l'.channel)
    ensures debLev > l.maxDebLev ==> l' == l
    ensures l'.channel == l.channel || l'.channel == l.channel + [LogMsg(fnc, text, SEVDEBUG, debLev)]
    ensures l'.channel == l.channel + [LogMsg(fnc, text, SEVDEBUG, debLev)] <==>
      debLev <= l.maxDebLev && (l.useFncRules || SEVDEBUG <= l.maxSeverity)
  {
    if debLev <= l.maxDebLev then Logw(l, fnc, text, SEVDEBUG, debLev) else l
  }

  /**
   `Debl` corrected: bypass the debug-level cache when function rules are
   on, as `logw` already does for the severity cache (logdeb.go:307), since
   a function rule may admit a level the cache does not cover.
   */
  function DeblFixed(l: Logger, fnc: FncName, text: string, debLev: Int8): (l': Logger)
    ensures l' == l.(channel := l'.channel)
    ensures l.useFncRules ==> l'.channel == l.channel + [LogMsg(fnc, text, SEVDEBUG, debLev)]
    ensures !l.useFncRules ==> l' == Debl(l, fnc, text, debLev)
    ensures l'.channel == l.channel || l'.channel == l.channel + [LogMsg(fnc, text, SEVDEBUG, debLev)]
    ensures l'.channel == l.channel + [LogMsg(fnc, text, SEVDEBUG, debLev)] <==>
      l.useFncRules || (debLev <= l.maxDebLev && SEVDEBUG <= l.maxSeverity)
  {
    if l.useFncRules || debLev <= l.maxDebLev then Logw(l, fnc, text, SEVDEBUG, debLev) else l
  }

  // ---------------------------------------------------------------------
  // Dispatch
  // ---------------------------------------------------------------------

  /** The messages of `msgs` a writer delivers, in channel order. */
  function Delivered(l: Logger, name: string, msgs: seq<LogMsg>): (out: seq<LogMsg>)
    ensures |out| <= |msgs|
    ensures forall m :: m in out <==> m in msgs && MustWrite(l, name, m)
    decreases |msgs|
  {
    if msgs == [] then []
    else
      assert forall m :: m in msgs <==> m == msgs[0] || m in msgs[1..];
      (if MustWrite(l, name, msgs[0]) then [msgs[0]] else []) + Delivered(l, name, msgs[1..])
  }

  /** What a writer receives from everything sent on the channel so far. */
  function Received(l: Logger, name: string): (out: seq<LogMsg>)
    ensures forall m :: m in out <==> m in l.channel && MustWrite(l, name, m)
  {
    Delivered(l, name, l.channel)
  }

  /** Delivery is FIFO: later messages are delivered after earlier ones. */
  lemma {:induction false} DeliveredAppend(l: Logger, name: string, a: seq<LogMsg>, b: seq<LogMsg>)
    ensures Delivered(l, name, a + b) == Delivered(l, name, a) + Delivered(l, name, b)
    decreases |a|
  {
    if a == [] {
      assert a + b == b;
    } else {
      assert (a + b)[1..] == a[1..] + b;
      DeliveredAppend(l, name, a[1..], b);
    }
  }

  /** Delivery depends on the rules only. */
  lemma {:induction false} DeliveredSameRules(l1: Logger, l2: Logger, name: string, msgs: seq<LogMsg>)
    requires SameRules(l1, l2)
    ensures Delivered(l1, name, msgs) == Delivered(l2, name, msgs)
    decreases |msgs|
  {
    if msgs != [] {
      DeliveredSameRules(l1, l2, name, msgs[1..]);
    }
  }

  // ---------------------------------------------------------------------
  // Pre-filter soundness
  // ---------------------------------------------------------------------

  /**
   With function rules off, a message some writer accepts is never more
   severe a number than the severity cache, so `logw` keeps it.
   */
  lemma PreFilterSound(l: Logger, name: string, msg: LogMsg)
    requires CachesCover(l)
    requires !l.useFncRules
    requires msg.sev <= SEVDEBUG
    requires MustWrite(l, name, msg)
    ensures msg.sev <= l.maxSeverity
    ensures Logw(l, msg.fnc, msg.text, msg.sev, msg.debLev).channel == l.channel + [msg]
  {
  }

  /**
   With function rules off, a Debug message some writer accepts has a level
   within the debug-level cache, so `Debl` keeps it.
   */
  lemma DebugLevelFilterSound(l: Logger, name: string, msg: LogMsg)
    requires CachesCover(l)
    requires !l.useFncRules
    requires msg.sev == SEVDEBUG
    requires MustWrite(l, name, msg)
    ensures msg.debLev <= l.maxDebLev
    ensures Debl(l, msg.fnc, msg.text, msg.debLev).channel == l.channel + [msg]
  {
  }

  /**
   The pre-filter is invisible to every writer: after `logw`, each writer
   has received exactly what it had, plus the new message when it accepts it.
   */
  lemma LogwInvisible(l: Logger, fnc: FncName, text: string, sev: Int8, debLev: Int8, name: string)
    requires CachesCover(l)
    requires sev <= SEVDEBUG
    ensures var msg := LogMsg(fnc, text, sev, debLev);
      Received(Logw(l, fnc, text, sev, debLev), name)
        == Received(l, name) + (if MustWrite(l, name, msg) then [msg] else [])
  {
    var msg := LogMsg(fnc, text, sev, debLev);
    var l' := Logw(l, fnc, text, sev, debLev);
    DeliveredSameRules(l', l, name, l'.channel);
    if l'.channel == l.channel {
      if MustWrite(l, name, msg) {
        PreFilterSound(l, name, msg);
      }
    } else {
      DeliveredAppend(l, name, l.channel, [msg]);
    }
  }

  /** One public logging call. */
  datatype Call =
    | FatalCall(fnc: FncName, text: string)
    | ErrCall(fnc: FncName, text: string)
    | WarnCall(fnc: FncName, text: string)
    | InfoCall(fnc: FncName, text: string)
    | DebCall(fnc: FncName, text: string)
    | DeblCall(fnc: FncName, text: string, level: Int8)

  /** The message a call produces. */
  function MessageOf(c: Call): LogMsg {
    match c
    case FatalCall(f, t) => LogMsg(f, t, SEVFATAL, UNSET)
    case ErrCall(f, t) => LogMsg(f, t, SEVERROR, UNSET)
    case WarnCall(f, t) => LogMsg(f, t, SEVWARN, UNSET)
    case InfoCall(f, t) => LogMsg(f, t, SEVINFO, UNSET)
    case DebCall(f, t) => LogMsg(f, t, SEVDEBUG, DLB)
    case DeblCall(f, t, d) => LogMsg(f, t, SEVDEBUG, d)
  }

  /** Performs a call as the source does. */
  function Emit(l: Logger, c: Call): (l': Logger)
    ensures l' == l.(channel := l'.channel)
    ensures l'.channel == l.channel || l'.channel == l.channel + [MessageOf(c)]
    ensures !l.useFncRules && MessageOf(c).sev > l.maxSeverity ==> l' == l
  {
    match c
    case FatalCall(f, t) => Fatal(l, f, t)
    case ErrCall(f, t) => Err(l, f, t)
    case WarnCall(f, t) => Warn(l, f, t)
    case InfoCall(f, t) => Info(l, f, t)
    case DebCall(f, t) => Deb(l, f, t)
    case DeblCall(f, t, d) => Debl(l, f, t, d)
  }

  /** Performs a call, with `Debl` bypassing its cache under function rules. */
  function EmitFixed(l: Logger, c: Call): (l': Logger)
    ensures l' == l.(channel := l'.channel)
    ensures l'.channel == l.channel || l'.channel == l.channel + [MessageOf(c)]
    ensures l.useFncRules ==> l'.channel == l.channel + [MessageOf(c)]
    ensures !l.useFncRules ==> l' == Emit(l, c)
  {
    match c
    case DeblCall(f, t, d) => DeblFixed(l, f, t, d)
    case _ => Emit(l, c)
  }

  /** The channel is the only thing a call changes. */
  lemma EmitKeepsRules(l: Logger, c: Call)
    ensures Emit(l, c) == l.(channel := Emit(l, c).channel)
    ensures EmitFixed(l, c) == l.(channel := EmitFixed(l, c).channel)
  {
  }

  /**
   Every call the source offers is invisible to every writer, except `Debl`
   while function rules are on.
   */
  lemma EmitInvisible(l: Logger, c: Call, name: string)
    requires CachesCover(l)
    requires !(l.useFncRules && c.DeblCall?)
    ensures Received(Emit(l, c), name)
      == Received(l, name) + (if MustWrite(l, name, MessageOf(c)) then [MessageOf(c)] else [])
  {
    var msg := MessageOf(c);
    if c.DeblCall? && c.level > l.maxDebLev {
      if MustWrite(l, name, msg) {
        DebugLevelFilterSound(l, name, msg);
      }
    } else {
      LogwInvisible(l, msg.fnc, msg.text, msg.sev, msg.debLev, name);
    }
  }

  /** With `DeblFixed`, every call is invisible to every writer. */
  lemma EmitFixedInvisible(l: Logger, c: Call, name: string)
    requires CachesCover(l)
    ensures Received(EmitFixed(l, c), name)
      == Received(l, name) + (if MustWrite(l, name, MessageOf(c)) then [MessageOf(c)] else [])
  {
    if c.DeblCall? && l.useFncRules {
      var msg := MessageOf(c);
      LogwInvisible(l, msg.fnc, msg.text, msg.sev, msg.debLev, name);
    } else {
      EmitInvisible(l, c, name);
    }
  }

  /** Performs calls in order. */
  function EmitAll(l: Logger, calls: seq<Call>): (l': Logger)
    ensures SameRules(l', l) && l'.maxSeverity == l.maxSeverity && l'.maxDebLev == l.maxDebLev
    decreases |calls|
  {
    if calls == [] then l else EmitAll(Emit(l, calls[0]), calls[1..])
  }

  /** The messages of a list of calls. */
  function MessagesOf(calls: seq<Call>): (msgs: seq<LogMsg>)
    ensures |msgs| == |calls|
    ensures forall i | 0 <= i < |calls| :: msgs[i] == MessageOf(calls[i])
  {
    if calls == [] then [] else [MessageOf(calls[0])] + MessagesOf(calls[1..])
  }

  /**
   End to end: after a run of calls from one thread, each writer has
   received exactly the messages of those calls it accepts, in call order,
   as if nothing were filtered before the channel.
   */
  lemma {:induction false} EmitAllInvisible(l: Logger, calls: seq<Call>, name: string)
    requires CachesCover(l)
    requires l.useFncRules ==> forall i | 0 <= i < |calls| :: !calls[i].DeblCall?
    ensures Received(EmitAll(l, calls), name) == Received(l, name) + Delivered(l, name, MessagesOf(calls))
    decreases |calls|
  {
    if calls != [] {
      var c := calls[0];
      var rest := calls[1..];
      assert forall i | 0 <= i < |rest| :: rest[i] == calls[i + 1];
      EmitKeepsRules(l, c);
      EmitAllInvisible(Emit(l, c), rest, name);
      EmitThenDeliver(l, c, MessagesOf(rest), name);
      assert MessagesOf(calls) == [MessageOf(c)] + MessagesOf(rest);
    }
  }

  /**
   One call followed by the delivery of later messages: the writer ends with
   what it would have received had the call's message been delivered first.
   */
  lemma EmitThenDeliver(l: Logger, c: Call, later: seq<LogMsg>, name: string)
    requires CachesCover(l)
    requires !(l.useFncRules && c.DeblCall?)
    ensures Received(Emit(l, c), name) + Delivered(Emit(l, c), name, later)
      == Received(l, name) + Delivered(l, name, [MessageOf(c)] + later)
  {
    var msg := MessageOf(c);
    var l1 := Emit(l, c);
    var before, now, rest := Received(l, name), Delivered(l, name, [msg]), Delivered(l, name, later);
    assert Received(l1, name) == before + now by {
      EmitInvisible(l, c, name);
      assert [msg][1..] == [];
    }
    assert Delivered(l1, name, later) == rest by {
      EmitKeepsRules(l, c);
      DeliveredSameRules(l1, l, name, later);
    }
    assert Delivered(l, name, [msg] + later) == now + rest by {
      DeliveredAppend(l, name, [msg], later);
    }
    Regroup(before, now, rest);
  }

  /**
   Regrouping a concatenation. Proved apart from the delivery lemmas: in
   their context the membership clauses of `Delivered` and `Received` make
   the solver's extensionality search run away.
   */
  lemma Regroup<T>(a: seq<T>, b: seq<T>, c: seq<T>)
    ensures (a + b) + c == a + (b + c)
  {
  }
}
