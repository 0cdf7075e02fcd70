/**
 * Text helpers the document builder relies on: the decimal text JavaScript prints
 * for half of an integer, a reader for that text, ASCII upper-casing, and two
 * facts about substrings.
 */
module Text {
  import opened Wrappers

  predicate IsDigit(c: char) {
    '0' <= c <= '9'
  }

  predicate AllDigits(s: string) {
    forall i :: 0 <= i < |s| ==> IsDigit(s[i])
  }

  /** Characters that can occur in the text of a finite number below 10^21 in magnitude. */
  predicate IsNumberChar(c: char) {
    IsDigit(c) || c == '-' || c == '.'
  }

  function DigitValue(c: char): (d: nat)
    requires IsDigit(c)
    ensures d < 10
  {
    (c as int) - ('0' as int)
  }

  function DigitChar(d: nat): (c: char)
    requires d < 10
    ensures IsDigit(c) && DigitValue(c) == d
  {
    ('0' as int + d) as char
  }

  /** Decimal text of a natural number, without leading zeros. */
  function NatText(n: nat): (s: string)
    ensures |s| > 0 && AllDigits(s)
    ensures (s[0] == '0') == (n == 0)
    decreases n
  {
    if n < 10 then [DigitChar(n)] else NatText(n / 10) + [DigitChar(n % 10)]
  }

  /** The number a string of decimal digits denotes. */
  function DigitsValue(s: string): nat
    requires AllDigits(s)
  {
    if s == [] then 0 else DigitsValue(s[..|s| - 1]) * 10 + DigitValue(s[|s| - 1])
  }

  lemma {:induction false} NatTextRoundTrip(n: nat)
    ensures DigitsValue(NatText(n)) == n
  {
    var s := NatText(n);
    if n < 10 {
      assert s[..|s| - 1] == [];
    } else {
      assert s[..|s| - 1] == NatText(n / 10);
      NatTextRoundTrip(n / 10);
    }
  }

  /**
   * The text JavaScript's Number-to-String conversion gives for `n / 2`: an optional
   * minus sign, the integer part, and ".5" when `n` is odd. This is exact while
   * `n` is a safe integer (below 2^53 in magnitude), so that `n / 2` is exact and
   * well below 10^21, where JavaScript switches to exponent notation.
   */
  function HalfText(n: int): (s: string)
    ensures forall i :: 0 <= i < |s| ==> IsNumberChar(s[i])
  {
    var m := if n < 0 then -n else n;
    var whole := NatText(m / 2);
    var fraction := if m % 2 == 1 then ".5" else "";
    assert forall i :: 0 <= i < |whole + fraction| ==> IsNumberChar((whole + fraction)[i]);
    (if n < 0 then "-" else "") + (whole + fraction)
  }

  /** The longest prefix of `s` that does not contain `c`. */
  function TakeUntil(s: string, c: char): (r: string)
    ensures r <= s && c !in r
    ensures |r| < |s| ==> s[|r|] == c
  {
    if s == [] || s[0] == c then [] else [s[0]] + TakeUntil(s[1..], c)
  }

  lemma {:induction false} TakeUntilConcat(a: string, b: string, c: char)
    requires c !in a
    requires b == [] || b[0] == c
    ensures TakeUntil(a + b, c) == a
  {
    if a == [] {
      assert a + b == b;
    } else {
      assert (a + b)[0] == a[0] != c;
      assert (a + b)[1..] == a[1..] + b;
      TakeUntilConcat(a[1..], b, c);
      assert [a[0]] + a[1..] == a;
    }
  }

  /**
   * Reader for decimal number text: an optional '-', one or more digits, and an
   * optional '.' followed by one digit. Anything else is None.
   */
  function ParseNumber(s: string): Option<real> {
    if |s| > 0 && s[0] == '-' then
      match ParseUnsigned(s[1..])
      case Some(v) => Some(-v)
      case None => None
    else
      ParseUnsigned(s)
  }

  function ParseUnsigned(s: string): Option<real> {
    var whole := TakeUntil(s, '.');
    if whole == [] || !AllDigits(whole) then None
    else if |whole| == |s| then Some(DigitsValue(whole) as real)
    else
      var fraction := s[|whole| + 1..];
      if |fraction| == 1 && IsDigit(fraction[0]) then
        Some(DigitsValue(whole) as real + DigitValue(fraction[0]) as real / 10.0)
      else None
  }

  lemma NoPointInDigits(s: string)
    requires AllDigits(s)
    ensures '.' !in s
  {
    forall i | 0 <= i < |s| ensures s[i] != '.' {
      assert IsDigit(s[i]);
    }
  }

  lemma ReadWhole(k: nat)
    ensures ParseUnsigned(NatText(k)) == Some(k as real)
  {
    var whole := NatText(k);
    NoPointInDigits(whole);
    TakeUntilConcat(whole, [], '.');
    assert whole + [] == whole;
    NatTextRoundTrip(k);
  }

  lemma ReadWholeAndHalf(k: nat)
    ensures ParseUnsigned(NatText(k) + ".5") == Some(k as real + 0.5)
  {
    var whole := NatText(k);
    var s := whole + ".5";
    NoPointInDigits(whole);
    TakeUntilConcat(whole, ".5", '.');
    assert s[|whole| + 1..] == "5";
    NatTextRoundTrip(k);
  }

  /** The unsigned part of `HalfText`, for `m >= 0`, reads back as `m / 2`. */
  lemma UnsignedHalfRoundTrip(m: nat)
    ensures ParseUnsigned(NatText(m / 2) + (if m % 2 == 1 then ".5" else "")) == Some(m as real / 2.0)
  {
    var k := m / 2;
    if m % 2 == 1 {
      ReadWholeAndHalf(k);
      assert m == 2 * k + 1;
    } else {
      ReadWhole(k);
      assert NatText(k) + "" == NatText(k);
      assert m == 2 * k;
    }
  }

  /** Reading the printed text of `n / 2` back gives exactly `n / 2`. */
  lemma HalfTextRoundTrip(n: int)
    ensures ParseNumber(HalfText(n)) == Some(n as real / 2.0)
  {
    var m := if n < 0 then -n else n;
    var body := NatText(m / 2) + (if m % 2 == 1 then ".5" else "");
    UnsignedHalfRoundTrip(m);
    assert IsDigit(body[0]);
    if n < 0 {
      assert HalfText(n) == "-" + body;
      assert ("-" + body)[1..] == body;
      assert -(m as real / 2.0) == n as real / 2.0;
    } else {
      assert HalfText(n) == body;
    }
  }

  predicate IsAsciiLower(c: char) {
    'a' <= c <= 'z'
  }

  predicate IsAsciiUpper(c: char) {
    'A' <= c <= 'Z'
  }

  /** `toUpperCase` on one character, for the ASCII letters only. */
  function UpperChar(c: char): (r: char)
    ensures !IsAsciiLower(r)
    ensures IsAsciiLower(c) ==> IsAsciiUpper(r) && r as int + 32 == c as int
    ensures !IsAsciiLower(c) ==> r == c
  {
    if IsAsciiLower(c) then (c as int - 32) as char else c
  }

  function ToUpper(s: string): (r: string)
    ensures |r| == |s|
    ensures forall i :: 0 <= i < |s| ==> r[i] == UpperChar(s[i])
  {
    seq(|s|, i requires 0 <= i < |s| => UpperChar(s[i]))
  }

  /** The concatenation of `parts` in order, with no separator: JavaScript's `join('')`. */
  function Concat(parts: seq<string>): (s: string)
    ensures parts == [] ==> s == ""
    ensures parts != [] ==> parts[0] <= s
  {
    if parts == [] then "" else parts[0] + Concat(parts[1..])
  }

  /** The concatenation is empty exactly when every part is. */
  lemma {:induction false} ConcatEmpty(parts: seq<string>)
    ensures Concat(parts) == "" <==> forall i :: 0 <= i < |parts| ==> parts[i] == ""
  {
    if parts != [] {
      var rest := parts[1..];
      ConcatEmpty(rest);
      assert Concat(parts) == parts[0] + Concat(rest);
      assert (forall i :: 0 <= i < |parts| ==> parts[i] == "")
         <==> parts[0] == "" && forall j :: 0 <= j < |rest| ==> rest[j] == "" by {
        assert forall j :: 0 <= j < |rest| ==> rest[j] == parts[j + 1];
      }
    }
  }

  lemma {:induction false} ConcatAppend(a: seq<string>, b: seq<string>)
    ensures Concat(a + b) == Concat(a) + Concat(b)
  {
    if a == [] {
      assert a + b == b;
    } else {
      assert (a + b)[0] == a[0];
      assert (a + b)[1..] == a[1..] + b;
      ConcatAppend(a[1..], b);
    }
  }

  /** Part `i` sits in the concatenation between the parts before and after it. */
  lemma ConcatAt(parts: seq<string>, i: nat)
    requires i < |parts|
    ensures Concat(parts) == Concat(parts[..i]) + parts[i] + Concat(parts[i + 1..])
  {
    var after := parts[i..];
    assert parts == parts[..i] + after;
    ConcatAppend(parts[..i], after);
    assert after[0] == parts[i] && after[1..] == parts[i + 1..];
  }

  /** The concatenation starts with the first part and ends with the last one. */
  lemma ConcatEnds(parts: seq<string>)
    requires parts != []
    ensures parts[0] <= Concat(parts)
    ensures EndsWith(Concat(parts), parts[|parts| - 1])
  {
    var n := |parts|;
    var last := parts[n - 1];
    ConcatAt(parts, n - 1);
    assert parts[n..] == [];
    var before := Concat(parts[..n - 1]);
    assert Concat(parts) == before + last;
    assert EndsWith(last, last);
    EndsWithAfter(before, last, last);
  }

  /** `t` occurs somewhere in `s`. */
  predicate Contains(s: string, t: string)
    decreases |s|
  {
    t <= s || (s != [] && Contains(s[1..], t))
  }

  lemma {:induction false} ContainsAfter(a: string, s: string, t: string)
    requires Contains(s, t)
    ensures Contains(a + s, t)
  {
    if a != [] {
      assert (a + s)[1..] == a[1..] + s;
      ContainsAfter(a[1..], s, t);
    } else {
      assert a + s == s;
    }
  }

  lemma {:induction false} ContainsBefore(s: string, b: string, t: string)
    requires Contains(s, t)
    ensures Contains(s + b, t)
  {
    if t <= s {
      assert t <= s + b;
    } else {
      assert (s + b)[1..] == s[1..] + b;
      ContainsBefore(s[1..], b, t);
    }
  }

  lemma {:induction false} ContainsTransitive(s: string, h: string, t: string)
    requires Contains(s, h) && Contains(h, t)
    ensures Contains(s, t)
    decreases |s|
  {
    if h <= s {
      assert s == h + s[|h|..];
      ContainsBefore(h, s[|h|..], t);
    } else {
      ContainsTransitive(s[1..], h, t);
    }
  }

  lemma ContainsWithin(a: string, t: string, b: string)
    ensures Contains(a + (t + b), t)
  {
    assert t <= t + b;
    ContainsAfter(a, t + b, t);
  }

  lemma PrefixTransitive(a: string, b: string, c: string)
    requires a <= b && b <= c
    ensures a <= c
  {
    assert c[..|a|] == b[..|a|];
  }

  predicate EndsWith(s: string, suffix: string) {
    |suffix| <= |s| && s[|s| - |suffix|..] == suffix
  }

  lemma EndsWithAfter(a: string, s: string, suffix: string)
    requires EndsWith(s, suffix)
    ensures EndsWith(a + s, suffix)
  {
    assert (a + s)[|a + s| - |suffix|..] == s[|s| - |suffix|..];
  }
}
