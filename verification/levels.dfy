/**
 Severity codes and debug levels (logdeb.go, `tSeverity`, `tDebLevel`).

 Both are Go `int8`. In a rule field the value 0 means "unset".
 */
module Levels {

  import opened Common

  /** Go's `int8`, the width of `tSeverity` and `tDebLevel`. */
  type Int8 = x: int | -128 <= x < 128

  const SEVFATAL: Int8 := 1
  const SEVERROR: Int8 := 2
  const SEVWARN: Int8 := 3
  const SEVINFO: Int8 := 4
  const SEVDEBUG: Int8 := 5

  const DLB: Int8 := 1
  const DLE: Int8 := 2
  const DLV: Int8 := 3
  const DLVV: Int8 := 4
  const DLVVV: Int8 := 5

  /** The zero value of a rule field: inherit from the parent rule. */
  const UNSET: Int8 := 0

  /** One of the five severities, Fatal (most severe) .. Debug. */
  predicate IsSeverity(s: int) {
    SEVFATAL <= s <= SEVDEBUG
  }

  const UnknownPrefix: string := "Unknown severity: "

  /** The single-letter display code of each severity, in code order. */
  const Letters: string := "FEWID"

  /**
   Go's `string(x)` for an integer `x` of type int8: the one-character
   string of code point `x`, or U+FFFD for a value that is no code point.
   */
  function RuneString(x: Int8): (r: string)
    ensures |r| == 1
    ensures 0 <= x ==> r[0] as int == x
    ensures x < 0 ==> r[0] == '\U{FFFD}'
  {
    if 0 <= x then [x as char] else ['\U{FFFD}']
  }

  /** `tSeverity.String`. */
  function SeverityString(s: Int8): (r: string)
    ensures IsSeverity(s) <==> |r| == 1
    ensures IsSeverity(s) ==> r[0] == Letters[s - 1]
    ensures !IsSeverity(s) ==> r == UnknownPrefix + RuneString(s)
  {
    match s
    case 5 => "D"
    case 4 => "I"
    case 3 => "W"
    case 2 => "E"
    case 1 => "F"
    case _ => UnknownPrefix + RuneString(s)
  }

  /** Reads a display string back into a severity code (the partner of `SeverityString`). */
  function ParseSeverity(r: string): Maybe<Int8> {
    if |r| == 1 && r[0] in Letters then
      Just(IndexOf(Letters, r[0]) + 1)
    else if |r| == |UnknownPrefix| + 1 && r[..|UnknownPrefix|] == UnknownPrefix
         && r[|UnknownPrefix|] as int < 128 then
      Just(r[|UnknownPrefix|] as int)
    else
      Nothing
  }

  function IndexOf(s: string, c: char): (i: nat)
    requires c in s
    ensures i < |s| && s[i] == c
    ensures forall j | 0 <= j < i :: s[j] != c
  {
    if s[0] == c then 0 else 1 + IndexOf(s[1..], c)
  }

  /** Every non-negative severity code is recovered from its display string. */
  lemma SeverityStringRoundTrip(s: Int8)
    requires 0 <= s
    ensures ParseSeverity(SeverityString(s)) == Just(s)
  {
    var r := SeverityString(s);
    if IsSeverity(s) {
      assert r[0] == Letters[s - 1];
      var i := IndexOf(Letters, r[0]);
      assert i == s - 1;
    } else {
      assert r[..|UnknownPrefix|] == UnknownPrefix;
      assert r[|UnknownPrefix|] as int == s;
    }
  }

  /** Distinct non-negative codes display differently. */
  lemma SeverityStringInjective(a: Int8, b: Int8)
    requires 0 <= a && 0 <= b
    requires SeverityString(a) == SeverityString(b)
    ensures a == b
  {
    SeverityStringRoundTrip(a);
    SeverityStringRoundTrip(b);
  }

  /** All negative codes share one display string. */
  lemma NegativeSeveritiesCollide(a: Int8, b: Int8)
    requires a < 0 && b < 0
    ensures SeverityString(a) == SeverityString(b)
  {
  }
}
