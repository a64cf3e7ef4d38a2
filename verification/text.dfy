/** Character classes and decimal rendering used by both the Go and the TypeScript code. */
module Text {

  predicate IsDigit(c: char) { '0' <= c <= '9' }

  predicate IsAsciiUpper(c: char) { 'A' <= c <= 'Z' }

  predicate IsAsciiLower(c: char) { 'a' <= c <= 'z' }

  /** No string occurs twice. */
  predicate Distinct(xs: seq<string>) {
    forall i, j | 0 <= i < j < |xs| :: xs[i] != xs[j]
  }

  predicate AllDigits(s: string) {
    forall i | 0 <= i < |s| :: IsDigit(s[i])
  }

  function DigitChar(d: nat): (c: char)
    requires d < 10
    ensures IsDigit(c)
  {
    (48 + d) as char
  }

  function DigitValue(c: char): (d: nat)
    requires IsDigit(c)
    ensures d < 10
  {
    c as int - 48
  }

  /** Decimal rendering of a natural number, as Go's `%d` and JavaScript's `String(n)` write it. */
  function NatToString(n: nat): (s: string)
    ensures |s| >= 1 && AllDigits(s)
    ensures s[0] == '0' ==> n == 0
    decreases n
  {
    if n < 10 then [DigitChar(n)] else NatToString(n / 10) + [DigitChar(n % 10)]
  }

  /** The number a string of decimal digits denotes: the reference reading of `NatToString`. */
  function DigitsValue(s: string): nat
    requires AllDigits(s)
  {
    if s == [] then 0 else 10 * DigitsValue(s[..|s| - 1]) + DigitValue(s[|s| - 1])
  }

  /** Reading back a rendered number gives the number: the rendering loses nothing. */
  lemma {:induction false} NatToStringRoundTrip(n: nat)
    ensures DigitsValue(NatToString(n)) == n
    decreases n
  {
    if n >= 10 {
      var s := NatToString(n);
      NatToStringRoundTrip(n / 10);
      assert s[..|s| - 1] == NatToString(n / 10);
    }
  }

  /** Distinct numbers render as distinct strings. */
  lemma NatToStringInjective(a: nat, b: nat)
    ensures NatToString(a) == NatToString(b) ==> a == b
  {
    NatToStringRoundTrip(a);
    NatToStringRoundTrip(b);
  }

  /** Decimal rendering of an integer with a leading '-' for negatives. */
  function IntToString(i: int): (s: string)
    ensures i >= 0 ==> s == NatToString(i)
    ensures i < 0 ==> s == "-" + NatToString(-i)
  {
    if i >= 0 then NatToString(i) else "-" + NatToString(-i)
  }

  /** `sep`-separated concatenation, as JavaScript's `Array.prototype.join`. */
  function Join(parts: seq<string>, sep: string): string {
    if |parts| == 0 then ""
    else if |parts| == 1 then parts[0]
    else Join(parts[..|parts| - 1], sep) + sep + parts[|parts| - 1]
  }

  /** Whether `sub` occurs in `s` as a contiguous block. */
  predicate ContainsStr(s: string, sub: string) {
    exists i | 0 <= i <= |s| - |sub| :: OccursAt(s, sub, i)
  }

  /** Whether `sub` occurs in `s` starting at offset `i`. */
  predicate OccursAt(s: string, sub: string, i: int) {
    0 <= i <= |s| - |sub| && s[i..i + |sub|] == sub
  }

  /** A block of a concatenation is found at its offset. */
  lemma ContainsAt(s: string, sub: string, pre: string, post: string)
    requires s == pre + sub + post
    ensures ContainsStr(s, sub)
  {
    assert s[|pre|..|pre| + |sub|] == sub;
    assert OccursAt(s, sub, |pre|);
  }

  /** A block inside a block of `s` is a block of `s`. */
  lemma ContainsWithin(s: string, outer: string, pre: string, sub: string, post: string)
    requires ContainsStr(s, outer) && outer == pre + sub + post
    ensures ContainsStr(s, sub)
  {
    var i :| 0 <= i <= |s| - |outer| && OccursAt(s, outer, i);
    assert forall k | 0 <= k < |outer| :: s[i + k] == outer[k] by {
      assert s[i..i + |outer|] == outer;
    }
    assert forall k | 0 <= k < |sub| :: outer[|pre| + k] == sub[k];
    assert s[i + |pre|..i + |pre| + |sub|] == sub;
    assert OccursAt(s, sub, i + |pre|);
  }

  /** The concatenation of all parts, as a sequence of lines is written out. */
  function Concat(parts: seq<string>): (s: string)
    ensures |parts| == 1 ==> s == parts[0]
  {
    if parts == [] then "" else parts[0] + Concat(parts[1..])
  }

  /** Every part occurs in the concatenation. */
  lemma {:induction false} ConcatContains(parts: seq<string>, i: nat)
    requires i < |parts|
    ensures ContainsStr(Concat(parts), parts[i])
  {
    var rest := Concat(parts[1..]);
    if i == 0 {
      ContainsAt(Concat(parts), parts[0], "", rest);
    } else {
      ConcatContains(parts[1..], i - 1);
      var k :| 0 <= k <= |rest| - |parts[i]| && OccursAt(rest, parts[i], k);
      var n := |parts[0]|;
      assert Concat(parts)[n + k..n + k + |parts[i]|] == rest[k..k + |parts[i]|];
      assert OccursAt(Concat(parts), parts[i], n + k);
    }
  }

  /** The concatenation starts with the first part. */
  lemma ConcatPrefix(parts: seq<string>)
    requires parts != []
    ensures |parts[0]| <= |Concat(parts)| && Concat(parts)[..|parts[0]|] == parts[0]
  {
  }
}
