/**
 * String helpers shared by the client model: decimal digit runs and their values
 * (what `parseInt(s, 10)` reads from a digit run), decimal rendering of numbers (what a
 * template literal prints), JavaScript's `trim`, an ASCII `toLowerCase` and `includes`.
 */
module Text {

  predicate IsDigit(c: char) { '0' <= c <= '9' }

  predicate AllDigits(s: string) {
    forall i :: 0 <= i < |s| ==> IsDigit(s[i])
  }

  function DigitValue(c: char): (d: nat)
    requires IsDigit(c)
    ensures d < 10
  {
    (c as int) - ('0' as int)
  }

  function DigitChar(d: nat): (c: char)
    requires d < 10
    ensures IsDigit(c) && DigitValue(c) == d
  {
    (('0' as int) + d) as char
  }

  /** The value of a decimal digit string, most significant digit first. */
  function Value(s: string): nat
    requires AllDigits(s)
  {
    if s == [] then 0 else Value(s[..|s| - 1]) * 10 + DigitValue(s[|s| - 1])
  }

  /** The decimal rendering of a natural number, without leading zeros. */
  function Dec(n: nat): (r: string)
    ensures |r| >= 1 && AllDigits(r)
    ensures n > 0 ==> r[0] != '0'
  {
    if n < 10 then [DigitChar(n)] else Dec(n / 10) + [DigitChar(n % 10)]
  }

  /** The decimal rendering of an integer, with a leading '-' for negatives. */
  function IntText(i: int): (r: string)
    ensures |r| >= 1
    ensures i >= 0 ==> AllDigits(r)
    ensures i < 0 ==> r[0] == '-'
  {
    if i < 0 then "-" + Dec(-i) else Dec(i)
  }

  /** Reading back what `Dec` wrote gives the number. */
  lemma {:induction false} ValueOfDec(n: nat)
    ensures Value(Dec(n)) == n
  {
    if n >= 10 {
      var r := Dec(n);
      assert r[..|r| - 1] == Dec(n / 10);
      ValueOfDec(n / 10);
    }
  }

  lemma DecInjective(a: nat, b: nat)
    requires Dec(a) == Dec(b)
    ensures a == b
  {
    ValueOfDec(a);
    ValueOfDec(b);
  }

  /** The longest prefix of `s` made of decimal digits (what `\d+` matches greedily). */
  function DigitRun(s: string): (r: string)
    ensures r <= s && AllDigits(r)
    ensures |r| < |s| ==> !IsDigit(s[|r|])
  {
    if s != [] && IsDigit(s[0]) then [s[0]] + DigitRun(s[1..]) else []
  }

  /** A digit prefix followed by a non-digit (or by nothing) is the digit run. */
  lemma {:induction false} DigitRunIs(s: string, d: string)
    requires d <= s && AllDigits(d)
    requires |d| < |s| ==> !IsDigit(s[|d|])
    ensures DigitRun(s) == d
  {
    if d != [] {
      DigitRunIs(s[1..], d[1..]);
    }
  }

  lemma DigitRunOfDec(n: nat, rest: string)
    requires rest == [] || !IsDigit(rest[0])
    ensures DigitRun(Dec(n) + rest) == Dec(n)
  {
    DigitRunIs(Dec(n) + rest, Dec(n));
  }

  /** The white space and line terminators that JavaScript's `trim` removes. */
  predicate IsSpace(c: char) {
    c == '\t' || c == '\n' || c == '\U{000B}' || c == '\U{000C}' || c == '\r' || c == ' '
    || c == '\U{00A0}' || c == '\U{1680}' || ('\U{2000}' <= c <= '\U{200A}')
    || c == '\U{2028}' || c == '\U{2029}' || c == '\U{202F}' || c == '\U{205F}'
    || c == '\U{3000}' || c == '\U{FEFF}'
  }

  predicate AllSpace(s: string) {
    forall i :: 0 <= i < |s| ==> IsSpace(s[i])
  }

  function TrimStart(s: string): (r: string)
    ensures |r| <= |s| && r == s[|s| - |r|..]
    ensures AllSpace(s[..|s| - |r|])
    ensures r != [] ==> !IsSpace(r[0])
  {
    if s != [] && IsSpace(s[0]) then TrimStart(s[1..]) else s
  }

  function TrimEnd(s: string): (r: string)
    ensures r <= s
    ensures AllSpace(s[|r|..])
    ensures r != [] ==> !IsSpace(r[|r| - 1])
  {
    if s != [] && IsSpace(s[|s| - 1]) then TrimEnd(s[..|s| - 1]) else s
  }

  /** `s.trim()`: `s` without its leading and trailing white space: what is cut off on
      either side is all white space, and the rest neither starts nor ends with any. */
  function Trim(s: string): (r: string)
    ensures r == [] <==> AllSpace(s)
    ensures r != [] ==> !IsSpace(r[0]) && !IsSpace(r[|r| - 1])
    ensures exists k :: OccursAt(s, r, k) && AllSpace(s[..k]) && AllSpace(s[k + |r|..])
  {
    var t := TrimStart(s);
    var r := TrimEnd(t);
    TrimmedIsSlice(s, t, r);
    r
  }

  lemma TrimmedIsSlice(s: string, t: string, r: string)
    requires |t| <= |s| && t == s[|s| - |t|..] && AllSpace(s[..|s| - |t|])
    requires r <= t && AllSpace(t[|r|..]) && (r != [] ==> !IsSpace(r[0]))
    ensures exists k :: OccursAt(s, r, k) && AllSpace(s[..k]) && AllSpace(s[k + |r|..])
    ensures r == [] <==> AllSpace(s)
  {
    var k := |s| - |t|;
    assert s[k..k + |r|] == t[..|r|];
    assert s[k + |r|..] == t[|r|..];
    if r == [] {
      forall i | 0 <= i < |s| ensures IsSpace(s[i]) {
        if i < k {
          assert s[i] == s[..k][i];
        } else {
          assert s[i] == t[|r|..][i - k];
        }
      }
    } else {
      assert s[k] == r[0];
    }
    assert OccursAt(s, r, k) && AllSpace(s[..k]) && AllSpace(s[k + |r|..]);
  }

  /** ASCII case folding, the part of `toLowerCase` this model keeps. */
  function LowerChar(c: char): (d: char)
    ensures !('A' <= d <= 'Z')
  {
    if 'A' <= c <= 'Z' then ((c as int) + 32) as char else c
  }

  function Lower(s: string): (r: string)
    ensures |r| == |s|
    ensures forall i :: 0 <= i < |s| ==> r[i] == LowerChar(s[i])
  {
    if s == [] then [] else [LowerChar(s[0])] + Lower(s[1..])
  }

  /** `q` occurs in `s` starting at index `k`. */
  predicate OccursAt(s: string, q: string, k: int) {
    0 <= k && k + |q| <= |s| && s[k..k + |q|] == q
  }

  /** `s.includes(q)`: `q` occurs somewhere in `s`. */
  function Includes(s: string, q: string): (b: bool)
    ensures b <==> exists k :: OccursAt(s, q, k)
  {
    if q <= s then (assert OccursAt(s, q, 0); true)
    else if s == [] then false
    else
      var b := Includes(s[1..], q);
      assert forall k :: OccursAt(s, q, k) ==> k >= 1 && OccursAt(s[1..], q, k - 1) by {
        forall k | OccursAt(s, q, k) ensures k >= 1 && OccursAt(s[1..], q, k - 1) {
          assert s[1..][k - 1..k - 1 + |q|] == s[k..k + |q|];
        }
      }
      assert b ==> exists k :: OccursAt(s, q, k) by {
        if b {
          var k :| OccursAt(s[1..], q, k);
          assert s[k + 1..k + 1 + |q|] == s[1..][k..k + |q|];
          assert OccursAt(s, q, k + 1);
        }
      }
      b
  }
}
