/** The string operations of Python's `str` that the adapter relies on
    (`strip`, `lower`, `rfind`, `split`, `replace`, `str(int)`, `%0Nd`),
    written out over `seq<char>`. */
module Text {

  /** Python's `str.isspace` on one character (the characters `strip()` and
      the regular-expression class `\s` treat as whitespace). */
  predicate IsSpace(c: char)
  {
    || c == ' '
    || ('\t' <= c <= '\r')
    || ('\U{1c}' <= c <= '\U{1f}')
    || c == '\U{85}' || c == '\U{a0}' || c == '\U{1680}'
    || ('\U{2000}' <= c <= '\U{200a}')
    || c == '\U{2028}' || c == '\U{2029}' || c == '\U{202f}' || c == '\U{205f}' || c == '\U{3000}'
  }

  predicate IsDigit(c: char)
  {
    '0' <= c <= '9'
  }

  predicate AllDigits(s: string)
  {
    forall i :: 0 <= i < |s| ==> IsDigit(s[i])
  }

  function DigitValue(c: char): (d: nat)
    requires IsDigit(c)
    ensures d < 10
  {
    c as int - '0' as int
  }

  function DigitChar(d: nat): (c: char)
    requires d < 10
    ensures IsDigit(c) && DigitValue(c) == d
  {
    ('0' as int + d) as char
  }

  function Pow10(k: nat): (p: nat)
    ensures p >= 1
  {
    if k == 0 then 1 else 10 * Pow10(k - 1)
  }

  /** `s.lstrip()`: the longest suffix of `s` that does not start with whitespace. */
  function LStrip(s: string): (r: string)
    ensures |r| <= |s| && r == s[|s| - |r|..]
    ensures r == [] || !IsSpace(r[0])
    ensures forall i :: 0 <= i < |s| - |r| ==> IsSpace(s[i])
  {
    if s != [] && IsSpace(s[0]) then LStrip(s[1..]) else s
  }

  /** `s.rstrip()`: the longest prefix of `s` that does not end with whitespace. */
  function RStrip(s: string): (r: string)
    ensures |r| <= |s| && r == s[..|r|]
    ensures r == [] || !IsSpace(r[|r| - 1])
    ensures forall i :: |r| <= i < |s| ==> IsSpace(s[i])
  {
    if s != [] && IsSpace(s[|s| - 1]) then RStrip(s[..|s| - 1]) else s
  }

  /** `s.strip()`. */
  function Strip(s: string): (r: string)
    ensures |s| - |LStrip(s)| + |r| <= |s|
    ensures r == s[|s| - |LStrip(s)|..|s| - |LStrip(s)| + |r|]
    ensures r == [] || (!IsSpace(r[0]) && !IsSpace(r[|r| - 1]))
  {
    var l := LStrip(s);
    var r := RStrip(l);
    PrefixOfSuffix(s, |s| - |l|, |r|);
    r
  }

  /** Stripping only removes characters, so it brings in none. */
  lemma StripAddsNothing(s: string, c: char)
    ensures c in Strip(s) ==> c in s
  {
    var r := Strip(s);
    var k := |s| - |LStrip(s)|;
    if c in r {
      var i :| 0 <= i < |r| && r[i] == c;
      assert s[k + i] == c;
    }
  }

  lemma PrefixOfSuffix<T>(s: seq<T>, k: nat, n: nat)
    requires k + n <= |s|
    ensures s[k..][..n] == s[k..k + n]
  {
  }

  /** `s.lstrip(c)` for a single character. */
  function LStripChar(s: string, c: char): (r: string)
    ensures |r| <= |s| && r == s[|s| - |r|..]
    ensures r == [] || r[0] != c
    ensures forall i :: 0 <= i < |s| - |r| ==> s[i] == c
  {
    if s != [] && s[0] == c then LStripChar(s[1..], c) else s
  }

  function LowerChar(c: char): char
  {
    if 'A' <= c <= 'Z' then (c as int + 32) as char else c
  }

  /** `s.lower()` on ASCII letters; every other character is kept. */
  function Lower(s: string): (r: string)
    ensures |r| == |s|
    ensures forall i :: 0 <= i < |s| ==> r[i] == LowerChar(s[i])
  {
    if s == [] then [] else [LowerChar(s[0])] + Lower(s[1..])
  }

  /** Lowering works character by character, so it distributes over
      concatenation. */
  lemma LowerAppend(a: string, b: string)
    ensures Lower(a + b) == Lower(a) + Lower(b)
  {
    var l := Lower(a + b);
    var m := Lower(a) + Lower(b);
    forall i | 0 <= i < |l|
      ensures l[i] == m[i]
    {
      if i < |a| {
        assert (a + b)[i] == a[i];
      } else {
        assert (a + b)[i] == b[i - |a|];
      }
    }
  }

  /** `s.replace(c, "")` for a single character. */
  function RemoveChar(s: string, c: char): (r: string)
    ensures c !in r
    ensures forall x :: x in r <==> x in s && x != c
    ensures c !in s ==> r == s
  {
    if s == [] then []
    else if s[0] == c then RemoveChar(s[1..], c)
    else [s[0]] + RemoveChar(s[1..], c)
  }

  /** `s.replace(a + b, "")` for a two-character pattern, scanning left to right. */
  function RemovePair(s: string, a: char, b: char): (r: string)
    ensures b !in s ==> r == s
  {
    if |s| >= 2 && s[0] == a && s[1] == b then RemovePair(s[2..], a, b)
    else if s == [] then []
    else [s[0]] + RemovePair(s[1..], a, b)
  }

  /** `s.rfind(c)`: the index of the last occurrence of `c`, or -1. */
  function RFind(s: string, c: char): (r: int)
    ensures -1 <= r < |s|
    ensures r == -1 <==> c !in s
    ensures r >= 0 ==> s[r] == c && c !in s[r + 1..]
  {
    if s == [] then -1
    else if s[|s| - 1] == c then |s| - 1
    else
      assert s == s[..|s| - 1] + [s[|s| - 1]];
      RFind(s[..|s| - 1], c)
  }

  lemma {:induction false} RFindAppend(a: string, b: string, c: char)
    ensures RFind(a + b, c) == if c in b then |a| + RFind(b, c) else RFind(a, c)
    decreases |b|
  {
    if b == [] {
      assert a + b == a;
    } else {
      var ab := a + b;
      assert ab[|ab| - 1] == b[|b| - 1];
      if b[|b| - 1] != c {
        assert ab[..|ab| - 1] == a + b[..|b| - 1];
        assert b == b[..|b| - 1] + [b[|b| - 1]];
        RFindAppend(a, b[..|b| - 1], c);
      }
    }
  }

  /** `s.split(sep)` for a one-character separator: the pieces between the
      separators, empty pieces included. */
  function Split(s: string, sep: char): (parts: seq<string>)
    ensures |parts| >= 1
    ensures forall i :: 0 <= i < |parts| ==> sep !in parts[i]
  {
    if s == [] then [""]
    else
      var rest := Split(s[1..], sep);
      if s[0] == sep then [""] + rest else [[s[0]] + rest[0]] + rest[1..]
  }

  /** `sep.join(parts)`. */
  function JoinWith(parts: seq<string>, sep: char): string
  {
    if parts == [] then ""
    else if |parts| == 1 then parts[0]
    else parts[0] + [sep] + JoinWith(parts[1..], sep)
  }

  /** Concatenation is associative; stated once so that loops building a
      sequence piece by piece need not re-derive it element by element. */
  lemma AppendAssoc<T>(a: seq<T>, b: seq<T>, c: seq<T>)
    ensures (a + b) + c == a + (b + c)
  {
  }

  /** `sep.join(parts)` for a separator of any length. */
  function JoinText(parts: seq<string>, sep: string): string
  {
    if parts == [] then ""
    else if |parts| == 1 then parts[0]
    else parts[0] + sep + JoinText(parts[1..], sep)
  }

  /** Splitting loses nothing: joining the pieces back with the separator gives
      the original string.  Together with the pieces holding no separator,
      this pins `Split` down. */
  lemma {:induction false} SplitJoinRoundTrip(s: string, sep: char)
    ensures JoinWith(Split(s, sep), sep) == s
  {
    if s != [] {
      var rest := Split(s[1..], sep);
      SplitJoinRoundTrip(s[1..], sep);
      if s[0] == sep {
        assert Split(s, sep)[1..] == rest;
      } else {
        var parts := Split(s, sep);
        assert parts[1..] == rest[1..];
        if |rest| == 1 {
          assert parts == [[s[0]] + rest[0]];
        } else {
          assert JoinWith(rest, sep) == rest[0] + [sep] + JoinWith(rest[1..], sep);
          assert JoinWith(parts, sep) == ([s[0]] + rest[0]) + [sep] + JoinWith(rest[1..], sep);
        }
        assert s == [s[0]] + s[1..];
      }
    }
  }

  /** `str(n)` for a natural number. */
  function NatToDecimal(n: nat): (s: string)
    ensures |s| >= 1 && AllDigits(s)
    ensures |s| > 1 ==> s[0] != '0'
    decreases n
  {
    if n < 10 then [DigitChar(n)] else NatToDecimal(n / 10) + [DigitChar(n % 10)]
  }

  /** `str(n)`. */
  function IntToDecimal(n: int): (s: string)
    ensures |s| >= 1
    ensures s[0] == '-' <==> n < 0
  {
    if n < 0 then "-" + NatToDecimal(-n) else NatToDecimal(n)
  }

  /** The value of a string of decimal digits (Python's `int` on it). */
  function DigitsValue(s: string): nat
    requires AllDigits(s)
  {
    if s == [] then 0 else 10 * DigitsValue(s[..|s| - 1]) + DigitValue(s[|s| - 1])
  }

  lemma {:induction false} NatDecimalRoundTrip(n: nat)
    ensures DigitsValue(NatToDecimal(n)) == n
    decreases n
  {
    if n >= 10 {
      NatDecimalRoundTrip(n / 10);
      var s := NatToDecimal(n);
      assert s[..|s| - 1] == NatToDecimal(n / 10);
    }
  }

  /** Distinct integers print differently, so a message quoting `str(code)`
      names the code unambiguously. */
  lemma IntToDecimalInjective(a: int, b: int)
    requires IntToDecimal(a) == IntToDecimal(b)
    ensures a == b
  {
    if a < 0 {
      assert b < 0;
      NegativeDecimal(a);
      NegativeDecimal(b);
      NatDecimalRoundTrip(-a);
      NatDecimalRoundTrip(-b);
    } else {
      NatDecimalRoundTrip(a);
      NatDecimalRoundTrip(b);
    }
  }

  /** The digits of a negative number follow its minus sign. */
  lemma NegativeDecimal(n: int)
    requires n < 0
    ensures IntToDecimal(n)[1..] == NatToDecimal(-n)
  {
    assert ("-" + NatToDecimal(-n))[1..] == NatToDecimal(-n);
  }

  /** `"%0{width}d" % n` for `n < 10^width`: exactly `width` digits. */
  function FixedDigits(n: nat, width: nat): (s: string)
    ensures |s| == width && AllDigits(s)
  {
    if width == 0 then "" else FixedDigits(n / 10, width - 1) + [DigitChar(n % 10)]
  }

  lemma {:induction false} FixedDigitsRoundTrip(n: nat, width: nat)
    requires n < Pow10(width)
    ensures DigitsValue(FixedDigits(n, width)) == n
  {
    if width > 0 {
      var q := n / 10;
      assert Pow10(width) == 10 * Pow10(width - 1);
      assert q < Pow10(width - 1);
      FixedDigitsRoundTrip(q, width - 1);
      var s := FixedDigits(n, width);
      var d := DigitChar(n % 10);
      assert s == FixedDigits(q, width - 1) + [d];
      assert s[..|s| - 1] == FixedDigits(q, width - 1);
      assert DigitsValue(s) == 10 * DigitsValue(FixedDigits(q, width - 1)) + DigitValue(d);
    }
  }
}
