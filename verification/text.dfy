/** Character and string conventions the application inherits from JavaScript:
    decimal numerals (`Number`, template literals), ASCII lower-casing (`toLowerCase`),
    substring search (`includes`) and `Number.parseInt(text, 10)` as section 19.2.5 of
    ECMA-262 defines it. */
module Text {
  import opened Wrappers

  // ---------------------------------------------------------------------------
  // Decimal numerals
  // ---------------------------------------------------------------------------

  predicate IsDigit(c: char) { '0' <= c <= '9' }

  predicate AllDigits(s: string) { forall i | 0 <= i < |s| :: IsDigit(s[i]) }

  /** A string of decimal digits: the shape of the ids the backend sends. */
  type Digits = s: string | AllDigits(s)

  function DigitValue(c: char): (d: nat)
    requires IsDigit(c)
    ensures d < 10
  {
    c as int - '0' as int
  }

  function DigitChar(d: nat): (c: char)
    requires d < 10
    ensures IsDigit(c) && DigitValue(c) == d
  {
    ('0' as int + d) as char
  }

  /** The value of a decimal numeral as JavaScript's `Number` reads it; `Number("")` is 0. */
  function DigitsValue(s: string): nat
    requires AllDigits(s)
    decreases |s|
  {
    if |s| == 0 then 0 else 10 * DigitsValue(s[..|s| - 1]) + DigitValue(s[|s| - 1])
  }

  /** The numeral a template literal prints for a non-negative integer. */
  function NatToString(n: nat): (r: string)
    ensures 1 <= |r| && AllDigits(r)
  {
    if n < 10 then [DigitChar(n)] else NatToString(n / 10) + [DigitChar(n % 10)]
  }

  /** The numeral a template literal prints for any integer. */
  function IntToString(n: int): string
  {
    if n < 0 then "-" + NatToString(-n) else NatToString(n)
  }

  /** Reading back a printed numeral gives the number that was printed. */
  lemma {:induction false} NatToStringRoundTrip(n: nat)
    ensures DigitsValue(NatToString(n)) == n
  {
    if n >= 10 {
      var s := NatToString(n);
      assert s[..|s| - 1] == NatToString(n / 10);
      NatToStringRoundTrip(n / 10);
    }
  }

  lemma NatToStringInjective(a: nat, b: nat)
    ensures NatToString(a) == NatToString(b) ==> a == b
  {
    NatToStringRoundTrip(a);
    NatToStringRoundTrip(b);
  }

  /** Distinct integers print differently. */
  lemma IntToStringInjective(a: int, b: int)
    ensures IntToString(a) == IntToString(b) ==> a == b
  {
    if a != b {
      if a < 0 && b < 0 {
        assert NatToString(-a) == IntToString(a)[1..];
        assert NatToString(-b) == IntToString(b)[1..];
        NatToStringInjective(-a, -b);
      } else if a < 0 {
        assert IntToString(a)[0] != IntToString(b)[0];
      } else if b < 0 {
        assert IntToString(a)[0] != IntToString(b)[0];
      } else {
        NatToStringInjective(a, b);
      }
    }
  }

  // ---------------------------------------------------------------------------
  // Lower-casing and substring search
  // ---------------------------------------------------------------------------

  /** `toLowerCase` on one character, restricted to the ASCII letters. */
  function LowerChar(c: char): char
  {
    if 'A' <= c <= 'Z' then (c as int + 32) as char else c
  }

  function Lower(s: string): (r: string)
    ensures |r| == |s|
  {
    seq(|s|, i requires 0 <= i < |s| => LowerChar(s[i]))
  }

  /** Lower-casing twice is lower-casing once. */
  lemma LowerIdempotent(s: string)
    ensures Lower(Lower(s)) == Lower(s)
  {
    assert forall i | 0 <= i < |s| :: LowerChar(LowerChar(s[i])) == LowerChar(s[i]);
  }

  lemma LowerSlice(s: string, i: int, j: int)
    requires 0 <= i <= j <= |s|
    ensures Lower(s)[i..j] == Lower(s[i..j])
  {
  }

  /** `needle` occurs in `hay` starting at position `i`. */
  predicate OccursAt(hay: string, needle: string, i: int)
  {
    0 <= i && i + |needle| <= |hay| && hay[i..i + |needle|] == needle
  }

  /** JavaScript's `hay.includes(needle)`. */
  predicate Contains(hay: string, needle: string)
  {
    exists i | 0 <= i <= |hay| - |needle| :: OccursAt(hay, needle, i)
  }

  lemma ContainsEmpty(hay: string)
    ensures Contains(hay, "")
  {
    assert OccursAt(hay, "", 0);
  }

  /** A string contains whatever its substrings contain. */
  lemma ContainsTransitive(a: string, b: string, c: string)
    requires Contains(b, a) && Contains(c, b)
    ensures Contains(c, a)
  {
    var i :| 0 <= i <= |b| - |a| && OccursAt(b, a, i);
    var j :| 0 <= j <= |c| - |b| && OccursAt(c, b, j);
    forall k | 0 <= k < |a|
      ensures c[j + i + k] == a[k]
    {
      assert a[k] == b[i + k] == c[j + i + k];
    }
    assert c[j + i..j + i + |a|] == a;
    assert OccursAt(c, a, j + i);
  }

  /** Lower-casing both sides keeps an occurrence. */
  lemma ContainsLower(hay: string, needle: string)
    requires Contains(hay, needle)
    ensures Contains(Lower(hay), Lower(needle))
  {
    var i :| 0 <= i <= |hay| - |needle| && OccursAt(hay, needle, i);
    LowerSlice(hay, i, i + |needle|);
    assert OccursAt(Lower(hay), Lower(needle), i);
  }

  // ---------------------------------------------------------------------------
  // Number.parseInt(text, 10)
  // ---------------------------------------------------------------------------

  /** The WhiteSpace and LineTerminator code points of sections 12.2 and 12.3 of ECMA-262,
      which `parseInt` skips before the numeral. */
  predicate IsJsSpace(c: char)
  {
    || c == '\t' || c == '\U{000B}' || c == '\U{000C}' || c == ' ' || c == '\U{00A0}'
    || c == '\U{FEFF}' || c == '\n' || c == '\r' || c == '\U{2028}' || c == '\U{2029}'
    || c == '\U{1680}' || ('\U{2000}' <= c <= '\U{200A}') || c == '\U{202F}'
    || c == '\U{205F}' || c == '\U{3000}'
  }

  predicate AllSpace(s: string) { forall i | 0 <= i < |s| :: IsJsSpace(s[i]) }

  predicate IsSign(c: char) { c == '+' || c == '-' }

  /** Length of the run of white space that starts `s`. */
  function SpaceRun(s: string): (k: nat)
    ensures k <= |s| && AllSpace(s[..k])
    ensures k < |s| ==> !IsJsSpace(s[k])
  {
    if |s| > 0 && IsJsSpace(s[0]) then
      var k := 1 + SpaceRun(s[1..]);
      assert s[..k] == [s[0]] + s[1..][..k - 1];
      k
    else 0
  }

  /** Length of the run of decimal digits that starts `s`. */
  function DigitRun(s: string): (k: nat)
    ensures k <= |s| && AllDigits(s[..k])
    ensures k < |s| ==> !IsDigit(s[k])
  {
    if |s| > 0 && IsDigit(s[0]) then
      var k := 1 + DigitRun(s[1..]);
      assert s[..k] == [s[0]] + s[1..][..k - 1];
      k
    else 0
  }

  /** The text after the leading white space and one optional sign. */
  function Unsigned(s: string): string
  {
    var t := s[SpaceRun(s)..];
    if |t| > 0 && IsSign(t[0]) then t[1..] else t
  }

  /** `Number.parseInt(s, 10)`: skip white space, read one optional sign, then the longest
      run of decimal digits; `None` is NaN (no digit at all). A negative zero is 0 here. */
  function ParseInt(s: string): Option<int>
  {
    var t := s[SpaceRun(s)..];
    var negative := |t| > 0 && t[0] == '-';
    var u := Unsigned(s);
    var z := u[..DigitRun(u)];
    if |z| == 0 then None
    else
      var v: int := DigitsValue(z);
      if negative then Some(-v) else Some(v)
  }

  /** `s` begins with a numeral `parseInt` can read: white space, an optional sign, a digit. */
  predicate HasLeadingNumeral(s: string)
  {
    exists i | 0 <= i < |s| :: AllSpace(s[..i]) && StartsNumeral(s, i)
  }

  predicate StartsNumeral(s: string, i: int)
    requires 0 <= i < |s|
  {
    IsDigit(s[i]) || (IsSign(s[i]) && i + 1 < |s| && IsDigit(s[i + 1]))
  }

  lemma SpaceRunExact(s: string, i: nat)
    requires i < |s| && AllSpace(s[..i]) && !IsJsSpace(s[i])
    ensures SpaceRun(s) == i
  {
    if i > 0 {
      assert IsJsSpace(s[..i][0]);
      assert s[1..][..i - 1] == s[..i][1..];
      SpaceRunExact(s[1..], i - 1);
    }
  }

  /** `parseInt` yields a number exactly when the text begins with a numeral; otherwise NaN. */
  lemma ParseIntDefined(s: string)
    ensures ParseInt(s).Some? <==> HasLeadingNumeral(s)
  {
    var k := SpaceRun(s);
    var u := Unsigned(s);
    if ParseInt(s).Some? {
      assert DigitRun(u) > 0;
      assert k < |s|;
      assert StartsNumeral(s, k);
    }
    if HasLeadingNumeral(s) {
      var i :| 0 <= i < |s| && AllSpace(s[..i]) && StartsNumeral(s, i);
      SpaceRunExact(s, i);
      assert DigitRun(u) > 0;
    }
  }

  lemma DigitRunOfNumeral(d: string, rest: string)
    requires AllDigits(d)
    requires |rest| == 0 || !IsDigit(rest[0])
    ensures DigitRun(d + rest) == |d|
  {
    if |d| > 0 {
      assert (d + rest)[1..] == d[1..] + rest;
      DigitRunOfNumeral(d[1..], rest);
    }
  }

  /** A quantity typed as white space, a numeral and any non-digit tail parses to the
      numeral's value. */
  lemma {:induction false} ParseIntNumeral(w: string, n: nat, rest: string)
    requires AllSpace(w)
    requires |rest| == 0 || !IsDigit(rest[0])
    ensures ParseInt(w + NatToString(n) + rest) == Some(n)
  {
    var d := NatToString(n);
    var s := w + d + rest;
    assert s[..|w|] == w;
    assert s[|w|] == d[0];
    SpaceRunExact(s, |w|);
    assert s[SpaceRun(s)..] == d + rest;
    assert Unsigned(s) == d + rest;
    DigitRunOfNumeral(d, rest);
    assert (d + rest)[..|d|] == d;
    NatToStringRoundTrip(n);
  }

  /** A leading minus sign negates the numeral's value. */
  lemma {:induction false} ParseIntNegative(n: nat, rest: string)
    requires |rest| == 0 || !IsDigit(rest[0])
    ensures ParseInt("-" + NatToString(n) + rest) == Some(-(n as int))
  {
    var d := NatToString(n);
    var s := "-" + d + rest;
    assert s[0] == '-';
    SpaceRunExact(s, 0);
    assert Unsigned(s) == d + rest;
    DigitRunOfNumeral(d, rest);
    assert (d + rest)[..|d|] == d;
    NatToStringRoundTrip(n);
  }
}
