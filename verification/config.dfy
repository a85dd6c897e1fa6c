/**
 Reading write rules out of a decoded configuration tree (logdeb.go,
 `sBaseRule.extract` and `getWriteRules`).

 A decoded JSON object is a Go `map[string]interface{}` whose `range`
 visits the keys in an unspecified order. The model represents such an
 object by its entries in the order `range` visits them; when two keys
 fold to the same word, the one visited last wins, exactly as in the
 loop for that order.
 */
module Config {

  import opened Common
  import opened Levels
  import opened Rules

  /**
   A decoded JSON value; numbers are already converted to `int8`. An object
   is the sequence of its members in the order Go's `range` visits the
   decoded map. A Go map never repeats an exact key, so the keys of an
   object are meant to be distinct; distinct keys may still fold to the
   same word ("Severity" and "severity"), and the readers handle that.
   */
  datatype Value =
    | Num(n: Int8)
    | Text(s: string)
    | Obj(entries: seq<Entry>)
    | Null                         // JSON null
    | Other                        // a boolean or array
  datatype Entry = Entry(key: string, value: Value)

  /**
   Lower-cases an ASCII letter. Go's `unicode.ToLower` maps exactly these
   characters, and additionally U+0130 and U+212A, onto ASCII lower-case
   letters; every other character keeps a non-ASCII lower-case form, so
   returning it unchanged is enough to compare against an ASCII word.
   */
  function LowerChar(c: char): char {
    if 'A' <= c <= 'Z' then (c as int + 32) as char
    else if c == '\U{0130}' then 'i'
    else if c == '\U{212A}' then 'k'
    else c
  }

  /** `strings.ToLower(key) == word`, for an all lower-case ASCII `word`. */
  predicate IsKey(key: string, word: string) {
    |key| == |word| && forall i | 0 <= i < |key| :: LowerChar(key[i]) == word[i]
  }

  const SeverityKey := "severity"
  const DebugLevelKey := "debuglevel"
  const FncRulesKey := "fncrules"

  /** `entries[i]` is the last entry whose key folds to `word`. */
  predicate LastKeyed(entries: seq<Entry>, i: int, word: string)
    requires 0 <= i < |entries|
  {
    IsKey(entries[i].key, word) && forall j | i < j < |entries| :: !IsKey(entries[j].key, word)
  }

  /** No entry's key folds to `word`. */
  predicate Absent(entries: seq<Entry>, word: string) {
    forall i | 0 <= i < |entries| :: !IsKey(entries[i].key, word)
  }

  /** Every entry whose key folds to `word` holds a number. */
  predicate AllNumbers(entries: seq<Entry>, word: string) {
    forall i | 0 <= i < |entries| :: IsKey(entries[i].key, word) ==> entries[i].value.Num?
  }

  /**
   The value a field takes after the entries are visited: `initial` when no key
   folds to `word`, otherwise the number of the last such key.
   */
  predicate Settles(entries: seq<Entry>, word: string, initial: Int8, v: Int8) {
    && (Absent(entries, word) ==> v == initial)
    && forall i | 0 <= i < |entries| && LastKeyed(entries, i, word) :: entries[i].value == Num(v)
  }

  /**
   `sBaseRule.extract`: visit the entries in order, setting the severity on
   a key that folds to "severity" and the debug level on one that folds to
   "debuglevel"; the type assertion panics on a value that is no number.
   */
  function Extract(r: BaseRule, entries: seq<Entry>): Outcome<BaseRule>
    decreases |entries|
  {
    if entries == [] then Ok(r)
    else
      var e := entries[0];
      if IsKey(e.key, SeverityKey) then
        if e.value.Num? then Extract(r.(severity := e.value.n), entries[1..]) else Panic(NotANumber(e.key))
      else if IsKey(e.key, DebugLevelKey) then
        if e.value.Num? then Extract(r.(debugLevel := e.value.n), entries[1..]) else Panic(NotANumber(e.key))
      else
        Extract(r, entries[1..])
  }

  /** `Extract` panics exactly when some severity or debug-level key holds no number. */
  lemma {:induction false} ExtractOk(r: BaseRule, entries: seq<Entry>)
    ensures Extract(r, entries).Ok? <==> AllNumbers(entries, SeverityKey) && AllNumbers(entries, DebugLevelKey)
    decreases |entries|
  {
    if entries != [] {
      var e := entries[0];
      var rest := entries[1..];
      assert forall i | 0 < i < |entries| :: entries[i] == rest[i - 1];
      if IsKey(e.key, SeverityKey) {
        if e.value.Num? { ExtractOk(r.(severity := e.value.n), rest); }
      } else if IsKey(e.key, DebugLevelKey) {
        if e.value.Num? { ExtractOk(r.(debugLevel := e.value.n), rest); }
      } else {
        ExtractOk(r, rest);
      }
    }
  }

  /** Each field of the extracted rule is the number under its last key, or the initial value. */
  lemma {:induction false} ExtractSettles(r: BaseRule, entries: seq<Entry>)
    requires Extract(r, entries).Ok?
    ensures Settles(entries, SeverityKey, r.severity, Extract(r, entries).value.severity)
    ensures Settles(entries, DebugLevelKey, r.debugLevel, Extract(r, entries).value.debugLevel)
    decreases |entries|
  {
    if entries != [] {
      var e := entries[0];
      var rest := entries[1..];
      assert forall i | 0 < i < |entries| :: entries[i] == rest[i - 1];
      assert !IsKey(e.key, SeverityKey) || !IsKey(e.key, DebugLevelKey);
      if IsKey(e.key, SeverityKey) {
        ExtractSettles(r.(severity := e.value.n), rest);
      } else if IsKey(e.key, DebugLevelKey) {
        ExtractSettles(r.(debugLevel := e.value.n), rest);
      } else {
        ExtractSettles(r, rest);
      }
    }
  }

  /** The keys of a list of entries. */
  function KeysOf(entries: seq<Entry>): set<string> {
    set i | 0 <= i < |entries| :: entries[i].key
  }

  lemma KeysOfCons(entries: seq<Entry>)
    requires entries != []
    ensures KeysOf(entries) == {entries[0].key} + KeysOf(entries[1..])
  {
    var rest := entries[1..];
    forall k | k in KeysOf(entries) ensures k in {entries[0].key} + KeysOf(rest) {
      var i :| 0 <= i < |entries| && entries[i].key == k;
      if i > 0 { assert rest[i - 1].key == k; }
    }
    forall k | k in KeysOf(rest) ensures k in KeysOf(entries) {
      var i :| 0 <= i < |rest| && rest[i].key == k;
      assert entries[i + 1].key == k;
    }
  }

  /** `entries[i]` is the last entry with its key. */
  predicate LastOf(entries: seq<Entry>, i: int)
    requires 0 <= i < |entries|
  {
    forall j | i < j < |entries| :: entries[j].key != entries[i].key
  }

  /** A function rule's configuration: an object whose rule extracts without panic. */
  predicate RuleTreeOk(v: Value) {
    v.Obj? && Extract(ZeroRule, v.entries).Ok?
  }

  /** The rule a well-formed function-rule configuration extracts to. */
  function RuleOf(v: Value): BaseRule
    requires RuleTreeOk(v)
  {
    Extract(ZeroRule, v.entries).value
  }

  /**
   The inner loop of `getWriteRules`: each entry of a "fncrules" object is
   asserted to be an object, its rule is extracted from zero, and it is
   stored under the entry's key in `acc`.
   */
  function AddFncRules(acc: map<FncName, BaseRule>, rules: seq<Entry>): Outcome<map<FncName, BaseRule>>
    decreases |rules|
  {
    if rules == [] then Ok(acc)
    else
      var e := rules[0];
      if e.value.Obj? then
        var r :- Extract(ZeroRule, e.value.entries);
        AddFncRules(acc[e.key := r], rules[1..])
      else
        Panic(NotAnObject(e.key))
  }

  /** `AddFncRules` panics exactly when some entry is no well-formed rule object. */
  lemma {:induction false} AddFncRulesOk(acc: map<FncName, BaseRule>, rules: seq<Entry>)
    ensures AddFncRules(acc, rules).Ok? <==> forall i | 0 <= i < |rules| :: RuleTreeOk(rules[i].value)
    decreases |rules|
  {
    if rules != [] {
      var e := rules[0];
      var rest := rules[1..];
      assert forall i | 0 < i < |rules| :: rules[i] == rest[i - 1];
      if e.value.Obj? && Extract(ZeroRule, e.value.entries).Ok? {
        AddFncRulesOk(acc[e.key := Extract(ZeroRule, e.value.entries).value], rest);
      }
    }
  }

  /**
   On success the map gains exactly the entries' keys, keeps every other
   key, and binds each key to the rule of its last entry.
   */
  lemma {:induction false} AddFncRulesContents(acc: map<FncName, BaseRule>, rules: seq<Entry>)
    requires forall i | 0 <= i < |rules| :: RuleTreeOk(rules[i].value)
    ensures AddFncRules(acc, rules).Ok?
    ensures AddFncRules(acc, rules).value.Keys == acc.Keys + KeysOf(rules)
    ensures forall k | k in acc && k !in KeysOf(rules) :: AddFncRules(acc, rules).value[k] == acc[k]
    ensures forall i | 0 <= i < |rules| && LastOf(rules, i) ::
      AddFncRules(acc, rules).value[rules[i].key] == RuleOf(rules[i].value)
    decreases |rules|
  {
    if rules != [] {
      var e := rules[0];
      var rest := rules[1..];
      assert forall i | 0 < i < |rules| :: rules[i] == rest[i - 1];
      KeysOfCons(rules);
      AddFncRulesOk(acc, rules);
      var acc' := acc[e.key := RuleOf(e.value)];
      assert AddFncRules(acc, rules) == AddFncRules(acc', rest);
      AddFncRulesContents(acc', rest);
      forall i | 0 <= i < |rules| && LastOf(rules, i)
        ensures AddFncRules(acc, rules).value[rules[i].key] == RuleOf(rules[i].value)
      {
        if i == 0 {
          assert e.key !in KeysOf(rest) by {
            forall j | 0 <= j < |rest| ensures rest[j].key != e.key {
              assert rest[j] == rules[j + 1];
            }
          }
        } else {
          assert LastOf(rest, i - 1) by {
            forall j | i - 1 < j < |rest| ensures rest[j].key != rest[i - 1].key {
              assert rest[j] == rules[j + 1];
            }
          }
        }
      }
    }
  }

  /** A "fncrules" value: an object of well-formed function rules. */
  predicate FncSectionOk(v: Value) {
    v.Obj? && forall i | 0 <= i < |v.entries| :: RuleTreeOk(v.entries[i].value)
  }

  /** The function rules a well-formed "fncrules" value builds from an empty map. */
  function SectionRules(v: Value): map<FncName, BaseRule>
    requires FncSectionOk(v)
  {
    AddFncRulesOk(map[], v.entries);
    AddFncRules(map[], v.entries).value
  }

  /**
   The outer loop of `getWriteRules`: every key folding to "fncrules" must
   hold an object and replaces the function-rule map with a fresh one.
   */
  function FoldFncRules(wr: WriteRules, entries: seq<Entry>): Outcome<WriteRules>
    decreases |entries|
  {
    if entries == [] then Ok(wr)
    else
      var e := entries[0];
      if IsKey(e.key, FncRulesKey) then
        if e.value.Obj? then
          var m :- AddFncRules(map[], e.value.entries);
          FoldFncRules(wr.(fncRules := m), entries[1..])
        else
          Panic(NotAnObject(e.key))
      else
        FoldFncRules(wr, entries[1..])
  }

  /** `FoldFncRules` panics exactly when some "fncrules" key holds no well-formed section. */
  lemma {:induction false} FoldFncRulesOk(wr: WriteRules, entries: seq<Entry>)
    ensures FoldFncRules(wr, entries).Ok? <==> forall i | 0 <= i < |entries| ::
      IsKey(entries[i].key, FncRulesKey) ==> FncSectionOk(entries[i].value)
    decreases |entries|
  {
    if entries != [] {
      var e := entries[0];
      var rest := entries[1..];
      assert forall i | 0 < i < |entries| :: entries[i] == rest[i - 1];
      if IsKey(e.key, FncRulesKey) && e.value.Obj? {
        AddFncRulesOk(map[], e.value.entries);
        var m := AddFncRules(map[], e.value.entries);
        if m.Ok? {
          FoldFncRulesOk(wr.(fncRules := m.value), rest);
        }
      } else {
        FoldFncRulesOk(wr, rest);
      }
    }
  }

  /**
   On success the base rule is untouched, and the function rules are those
   of the last "fncrules" section, or the initial ones when there is none.
   */
  lemma {:induction false} FoldFncRulesContents(wr: WriteRules, entries: seq<Entry>)
    requires forall i | 0 <= i < |entries| :: IsKey(entries[i].key, FncRulesKey) ==> FncSectionOk(entries[i].value)
    ensures FoldFncRules(wr, entries).Ok?
    ensures FoldFncRules(wr, entries).value.base == wr.base
    ensures Absent(entries, FncRulesKey) ==> FoldFncRules(wr, entries).value.fncRules == wr.fncRules
    ensures forall i | 0 <= i < |entries| && LastKeyed(entries, i, FncRulesKey) ::
      FoldFncRules(wr, entries).value.fncRules == SectionRules(entries[i].value)
    decreases |entries|
  {
    if entries != [] {
      var e := entries[0];
      var rest := entries[1..];
      assert forall i | 0 < i < |entries| :: entries[i] == rest[i - 1];
      FoldFncRulesOk(wr, entries);
      if IsKey(e.key, FncRulesKey) {
        AddFncRulesOk(map[], e.value.entries);
        FoldFncRulesContents(wr.(fncRules := AddFncRules(map[], e.value.entries).value), rest);
      } else {
        FoldFncRulesContents(wr, rest);
      }
    }
  }

  /**
   `getWriteRules`: a writer's rule from its configuration object. The
   base rule starts at zero, so an absent key leaves its field unset.
   */
  function GetWriteRules(entries: seq<Entry>): Outcome<WriteRules> {
    var base :- Extract(ZeroRule, entries);
    FoldFncRules(WriteRules(base, map[]), entries)
  }

  /**
   `getWriteRules` panics exactly when a severity or debug-level key holds
   no number or a "fncrules" key holds no well-formed section; otherwise
   each base field is the number under its last key (unset when there is
   none) and the function rules are those of the last "fncrules" section.
   */
  lemma GetWriteRulesSpec(entries: seq<Entry>)
    ensures GetWriteRules(entries).Ok? <==>
      && AllNumbers(entries, SeverityKey)
      && AllNumbers(entries, DebugLevelKey)
      && forall i | 0 <= i < |entries| :: IsKey(entries[i].key, FncRulesKey) ==> FncSectionOk(entries[i].value)
    ensures var res := GetWriteRules(entries);
      res.Ok? ==>
        && Settles(entries, SeverityKey, UNSET, res.value.base.severity)
        && Settles(entries, DebugLevelKey, UNSET, res.value.base.debugLevel)
        && (Absent(entries, FncRulesKey) ==> res.value.fncRules == map[])
        && forall i | 0 <= i < |entries| && LastKeyed(entries, i, FncRulesKey) ::
             && res.value.fncRules == SectionRules(entries[i].value)
             && res.value.fncRules.Keys == KeysOf(entries[i].value.entries)
  {
    ExtractOk(ZeroRule, entries);
    var base := Extract(ZeroRule, entries);
    if base.Ok? {
      ExtractSettles(ZeroRule, entries);
      var wr := WriteRules(base.value, map[]);
      FoldFncRulesOk(wr, entries);
      if FoldFncRules(wr, entries).Ok? {
        FoldFncRulesContents(wr, entries);
        forall i | 0 <= i < |entries| && LastKeyed(entries, i, FncRulesKey)
          ensures FoldFncRules(wr, entries).value.fncRules.Keys == KeysOf(entries[i].value.entries)
          ensures FoldFncRules(wr, entries).value.fncRules == SectionRules(entries[i].value)
        {
          AddFncRulesContents(map[], entries[i].value.entries);
        }
      }
    }
  }
}
