/**
 * The two pieces of Python's string library the dashboard relies on:
 * `str.strip()` with no argument and the decimal text of an `int`
 * (what an f-string prints for `{year}`).
 */
module Strings {

  /** Python's `str.isspace` for one character: the characters that
      `str.strip()` removes when it is given no argument. */
  predicate IsSpace(c: char) {
    ('\t' <= c <= '\r') || ('\U{1C}' <= c <= '\U{1F}') || c == ' ' ||
    c == '\U{85}' || c == '\U{A0}' || c == '\U{1680}' ||
    ('\U{2000}' <= c <= '\U{200A}') || c == '\U{2028}' || c == '\U{2029}' ||
    c == '\U{202F}' || c == '\U{205F}' || c == '\U{3000}'
  }

  predicate AllSpace(s: string) {
    forall i :: 0 <= i < |s| ==> IsSpace(s[i])
  }

  /** Neither the first nor the last character is whitespace. */
  predicate Bare(s: string) {
    s == [] || (!IsSpace(s[0]) && !IsSpace(s[|s| - 1]))
  }

  /** `s.lstrip()`: drops the leading whitespace, and only that. */
  function TrimStart(s: string): (r: string)
    ensures |r| <= |s| && r == s[|s| - |r|..]
    ensures AllSpace(s[..|s| - |r|])
    ensures r == [] || !IsSpace(r[0])
  {
    if s != [] && IsSpace(s[0]) then
      var r := TrimStart(s[1..]);
      assert s[..|s| - |r|] == [s[0]] + s[1..][..|s| - 1 - |r|];
      r
    else s
  }

  /** `s.rstrip()`: drops the trailing whitespace, and only that. */
  function TrimEnd(s: string): (r: string)
    ensures |r| <= |s| && r == s[..|r|]
    ensures AllSpace(s[|r|..])
    ensures r == [] || !IsSpace(r[|r| - 1])
  {
    if s != [] && IsSpace(s[|s| - 1]) then
      var r := TrimEnd(s[..|s| - 1]);
      assert s[|r|..] == s[..|s| - 1][|r|..] + [s[|s| - 1]];
      r
    else s
  }

  /** `s.strip()`: the part of `s` left once the whitespace at both ends is cut. */
  function Strip(s: string): (r: string)
    ensures Bare(r)
  {
    TrimEnd(TrimStart(s))
  }

  /** `strip` cuts whitespace, and only whitespace, from the two ends of `s`. */
  lemma {:induction false} StripCutsSpace(s: string)
    ensures var r := Strip(s); var lead := |s| - |TrimStart(s)|;
      lead + |r| <= |s| && r == s[lead..lead + |r|] &&
      AllSpace(s[..lead]) && AllSpace(s[lead + |r|..])
  {
    var t := TrimStart(s);
    var r := Strip(s);
    assert r == TrimEnd(t);
    CutBothEnds(s, t, r);
  }

  lemma CutBothEnds(s: string, t: string, r: string)
    requires |t| <= |s| && t == s[|s| - |t|..] && AllSpace(s[..|s| - |t|])
    requires |r| <= |t| && r == t[..|r|] && AllSpace(t[|r|..])
    ensures var lead := |s| - |t|;
      lead + |r| <= |s| && r == s[lead..lead + |r|] &&
      AllSpace(s[..lead]) && AllSpace(s[lead + |r|..])
  {
    var lead := |s| - |t|;
    assert s[lead..][..|r|] == s[lead..lead + |r|];
    assert s[lead..][|r|..] == s[lead + |r|..];
  }

  lemma {:induction false} TrimStartSkips(a: string, t: string)
    requires AllSpace(a) && (t == [] || !IsSpace(t[0]))
    ensures TrimStart(a + t) == t
  {
    if a == [] {
      assert a + t == t;
    } else {
      assert (a + t)[0] == a[0];
      assert (a + t)[1..] == a[1..] + t;
      TrimStartSkips(a[1..], t);
    }
  }

  lemma {:induction false} TrimEndSkips(t: string, b: string)
    requires AllSpace(b) && (t == [] || !IsSpace(t[|t| - 1]))
    ensures TrimEnd(t + b) == t
  {
    if b == [] {
      assert t + b == t;
    } else {
      var n := |t + b|;
      assert (t + b)[n - 1] == b[|b| - 1];
      assert (t + b)[..n - 1] == t + b[..|b| - 1];
      TrimEndSkips(t, b[..|b| - 1]);
    }
  }

  /** The reference description of `strip`: padding a bare string with
      whitespace on either side and stripping gives the bare string back. */
  lemma StripPadded(a: string, m: string, b: string)
    requires AllSpace(a) && AllSpace(b) && Bare(m)
    ensures Strip(a + m + b) == m
  {
    if m == [] {
      assert a + m + b == (a + b) + [];
      assert AllSpace(a + b) by {
        forall i | 0 <= i < |a + b| ensures IsSpace((a + b)[i]) {
          if i < |a| { assert (a + b)[i] == a[i]; } else { assert (a + b)[i] == b[i - |a|]; }
        }
      }
      TrimStartSkips(a + b, []);
    } else {
      assert a + m + b == a + (m + b);
      assert (m + b)[0] == m[0];
      TrimStartSkips(a, m + b);
      TrimEndSkips(m, b);
    }
  }

  /** `strip` leaves a string alone exactly when it has no whitespace at its ends. */
  lemma StripFixesBare(s: string)
    ensures Strip(s) == s <==> Bare(s)
  {
    if Bare(s) {
      assert [] + s + [] == s;
      StripPadded([], s, []);
    }
  }

  lemma StripIdempotent(s: string)
    ensures Strip(Strip(s)) == Strip(s)
  {
    StripFixesBare(Strip(s));
  }

  predicate IsDigit(c: char) {
    '0' <= c <= '9'
  }

  function DigitChar(d: nat): (c: char)
    requires d < 10
    ensures IsDigit(c) && c as int - '0' as int == d
  {
    ('0' as int + d) as char
  }

  /** The decimal digits of `n`, most significant first, without leading zeros. */
  function NatToString(n: nat): (r: string)
    ensures r != [] && forall i :: 0 <= i < |r| ==> IsDigit(r[i])
    ensures 1 < |r| ==> r[0] != '0'
    decreases n
  {
    if n < 10 then [DigitChar(n)] else NatToString(n / 10) + [DigitChar(n % 10)]
  }

  function DigitValue(c: char): (d: nat)
    requires IsDigit(c)
    ensures d < 10
  {
    c as int - '0' as int
  }

  /** The number a string of decimal digits denotes. */
  function DigitsValue(s: string): nat
    requires forall i :: 0 <= i < |s| ==> IsDigit(s[i])
  {
    if s == [] then 0 else DigitsValue(s[..|s| - 1]) * 10 + DigitValue(s[|s| - 1])
  }

  lemma {:induction false} NatToStringValue(n: nat)
    ensures DigitsValue(NatToString(n)) == n
    decreases n
  {
    if 10 <= n {
      NatToStringValue(n / 10);
      var s := NatToString(n);
      assert s[..|s| - 1] == NatToString(n / 10);
    }
  }

  /** Python's `str(n)` for an `int`. */
  function IntToString(n: int): (r: string)
    ensures r != [] && (r[0] == '-' <==> n < 0)
    ensures forall i :: (if n < 0 then 1 else 0) <= i < |r| ==> IsDigit(r[i])
  {
    if n < 0 then "-" + NatToString(-n) else NatToString(n)
  }

  /** Different numbers print differently, so the printed year names the year. */
  lemma IntToStringInjective(m: int, n: int)
    ensures IntToString(m) == IntToString(n) <==> m == n
  {
    if IntToString(m) == IntToString(n) {
      if m < 0 && n < 0 {
        assert NatToString(-m) == IntToString(m)[1..];
        assert NatToString(-n) == IntToString(n)[1..];
        NatToStringValue(-m);
        NatToStringValue(-n);
      } else if 0 <= m && 0 <= n {
        NatToStringValue(m);
        NatToStringValue(n);
      }
    }
  }
}
