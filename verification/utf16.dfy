/**
 * Java strings are sequences of UTF-16 code units: a character below
 * U+10000 is one unit, any other character a high and a low surrogate.
 * `String.compareTo` and `String.hashCode` work on these units, so the
 * model converts a string to its units before comparing or hashing it.
 */
module Utf16 {

  /** The first character that needs two code units. */
  const SupplementaryBase: int := 0x1_0000
  const HighSurrogateBase: int := 0xD800
  const LowSurrogateBase: int := 0xDC00
  const SurrogateSpan: int := 0x400

  /** A code unit that opens a surrogate pair. */
  predicate IsHighSurrogate(u: int) {
    HighSurrogateBase <= u < LowSurrogateBase
  }

  /** A code unit that closes a surrogate pair. */
  predicate IsLowSurrogate(u: int) {
    LowSurrogateBase <= u < LowSurrogateBase + SurrogateSpan
  }

  /**
   * The code units of one character: the character itself below U+10000,
   * otherwise a high and a low surrogate that decode back to it.
   */
  function CharUnits(c: char): (u: seq<int>)
    ensures |u| == 1 || |u| == 2
    ensures forall i :: 0 <= i < |u| ==> 0 <= u[i] < SupplementaryBase
    ensures |u| == 2 <==> IsHighSurrogate(u[0])
    ensures |u| == 1 <==> c as int < SupplementaryBase
    ensures |u| == 1 ==> u[0] == c as int
    ensures |u| == 2 ==> IsLowSurrogate(u[1])
    ensures |u| == 2 ==>
              SupplementaryBase + (u[0] - HighSurrogateBase) * SurrogateSpan + (u[1] - LowSurrogateBase) == c as int
  {
    var v := c as int;
    if v < SupplementaryBase then [v]
    else [HighSurrogateBase + (v - SupplementaryBase) / SurrogateSpan,
          LowSurrogateBase + (v - SupplementaryBase) % SurrogateSpan]
  }

  /** A character is recovered from its code units: the decoding in `CharUnits`'s contract determines it. */
  lemma CharUnitsInjective(c: char, d: char)
    requires CharUnits(c) == CharUnits(d)
    ensures c == d
  {
  }

  /** The code units of a string, character by character. */
  function CodeUnits(s: string): (u: seq<int>)
    ensures |s| <= |u| <= 2 * |s|
    ensures forall i :: 0 <= i < |u| ==> 0 <= u[i] < SupplementaryBase
  {
    if s == [] then [] else CharUnits(s[0]) + CodeUnits(s[1..])
  }

  /** Different strings have different code units: the conversion loses nothing. */
  lemma {:induction false} CodeUnitsInjective(s: string, t: string)
    requires CodeUnits(s) == CodeUnits(t)
    ensures s == t
    decreases |s|
  {
    if s != [] && t != [] {
      var us, ut := CharUnits(s[0]), CharUnits(t[0]);
      var u := CodeUnits(s);
      assert u[0] == us[0] == ut[0];
      assert |us| == |ut|;
      assert us == u[..|us|] == ut;
      CharUnitsInjective(s[0], t[0]);
      assert CodeUnits(s[1..]) == u[|us|..] == CodeUnits(t[1..]);
      CodeUnitsInjective(s[1..], t[1..]);
      assert s == [s[0]] + s[1..] && t == [t[0]] + t[1..];
    }
  }

  /** A character above U+FFFF becomes a surrogate pair; U+FFFF stays one unit. */
  lemma SurrogatePairExample()
    ensures CodeUnits("\U{10000}") == [0xD800, 0xDC00]
    ensures CodeUnits("\U{10FFFF}") == [0xDBFF, 0xDFFF]
    ensures CodeUnits("\U{FFFF}") == [0xFFFF]
  {
    assert "\U{10000}"[1..] == [];
    assert "\U{10FFFF}"[1..] == [];
    assert "\U{FFFF}"[1..] == [];
  }
}
