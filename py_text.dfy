/** Text primitives of the Python runtime that the scraper and the scheduler rely
    on: `str.isspace`/`\s`, `str.strip`, the ASCII `\d` and `\w` classes,
    `int(str)` and `str(int)`. */
module PyText {
  import opened Options

  /** Python's whitespace (`str.isspace`, the `\s` class of `re` on `str`):
      the ASCII controls 0x09-0x0d and 0x1c-0x1f, the space, and the wider
      characters of `IsWideSpace`. */
  predicate IsSpace(c: char) {
    || ('\t' <= c <= '\r') || ('\U{1c}' <= c <= ' ')
    || ('\U{85}' <= c && IsWideSpace(c))
  }

  /** The whitespace characters from U+0085 on. */
  predicate IsWideSpace(c: char) {
    || c == '\U{85}' || c == '\U{a0}' || c == '\U{1680}'
    || ('\U{2000}' <= c <= '\U{200a}') || c == '\U{2028}' || c == '\U{2029}'
    || c == '\U{202f}' || c == '\U{205f}' || c == '\U{3000}'
  }

  predicate IsDigit(c: char) { '0' <= c <= '9' }

  predicate IsAsciiLetter(c: char) { ('a' <= c <= 'z') || ('A' <= c <= 'Z') }

  /** The `\w` class, restricted to ASCII. */
  predicate IsWordChar(c: char) { IsAsciiLetter(c) || IsDigit(c) || c == '_' }

  predicate AllDigits(s: string) { forall i :: 0 <= i < |s| ==> IsDigit(s[i]) }

  predicate AllSpace(s: string) { forall i :: 0 <= i < |s| ==> IsSpace(s[i]) }

  function LowerChar(c: char): char {
    if 'A' <= c <= 'Z' then (c as int + 32) as char else c
  }

  /** ASCII lower-casing. */
  function Lower(s: string): (r: string)
    ensures |r| == |s|
  {
    if s == [] then [] else [LowerChar(s[0])] + Lower(s[1..])
  }

  /** `Lower` works character by character. */
  lemma {:induction false} LowerAt(s: string)
    ensures forall i :: 0 <= i < |s| ==> Lower(s)[i] == LowerChar(s[i])
    decreases |s|
  {
    if s != [] {
      LowerAt(s[1..]);
      assert forall i :: 1 <= i < |s| ==> Lower(s)[i] == Lower(s[1..])[i - 1];
    }
  }

  /** Drops trailing whitespace. */
  function StripRight(s: string): (r: string)
    ensures |r| <= |s| && r == s[..|r|]
    ensures r == [] || !IsSpace(r[|r| - 1])
  {
    if s != [] && IsSpace(s[|s| - 1]) then StripRight(s[..|s| - 1]) else s
  }

  /** What `StripRight` cuts off is whitespace. */
  lemma {:induction false} StripRightCutsSpace(s: string)
    ensures AllSpace(s[|StripRight(s)|..])
    decreases |s|
  {
    if s != [] && IsSpace(s[|s| - 1]) {
      var r := StripRight(s[..|s| - 1]);
      StripRightCutsSpace(s[..|s| - 1]);
      assert s[|r|..] == s[..|s| - 1][|r|..] + [s[|s| - 1]];
    }
  }

  /** How many whitespace characters `s` starts with. */
  function LeadingSpace(s: string): (n: nat)
    ensures n <= |s|
    ensures n < |s| ==> !IsSpace(s[n])
  {
    if s != [] && IsSpace(s[0]) then 1 + LeadingSpace(s[1..]) else 0
  }

  /** `str.strip()`: the slice of `s` left after cutting whitespace off both
      ends; it neither starts nor ends with whitespace. */
  function Strip(s: string): (r: string)
    ensures LeadingSpace(s) + |r| <= |s|
    ensures r == s[LeadingSpace(s)..LeadingSpace(s) + |r|]
    ensures r == [] || (!IsSpace(r[0]) && !IsSpace(r[|r| - 1]))
  {
    var i := LeadingSpace(s);
    StripRight(s[i..])
  }

  /** The value of a string of ASCII digits. */
  function DigitsValue(s: string): (n: nat)
    requires AllDigits(s)
  {
    if s == [] then 0 else DigitsValue(s[..|s| - 1]) * 10 + (s[|s| - 1] as int - '0' as int)
  }

  /** Digits as CPython's `int()` accepts them in base 10: at least one ASCII
      digit, underscores allowed only singly and between digits. */
  predicate UnderscoredDigits(s: string) {
    && |s| > 0 && IsDigit(s[0]) && IsDigit(s[|s| - 1])
    && (forall i :: 0 <= i < |s| ==> IsDigit(s[i]) || s[i] == '_')
    && (forall i :: 0 <= i < |s| - 1 ==> s[i] == '_' ==> s[i + 1] != '_')
  }

  function DropUnderscores(s: string): (r: string)
    ensures (forall i :: 0 <= i < |s| ==> IsDigit(s[i]) || s[i] == '_') ==> AllDigits(r)
  {
    if s == [] then []
    else (if s[0] == '_' then [] else [s[0]]) + DropUnderscores(s[1..])
  }

  /** `int(s)` for a `str` in base 10 written with ASCII digits: `None` where
      Python raises `ValueError`. Python also accepts other Unicode decimal
      digits (`int("\u0663") == 3`); here they give `None` as well. */
  function ParseInt(s: string): (r: Option<int>)
    ensures r.Some? ==> Strip(s) != [] && (r.value < 0 ==> Strip(s)[0] == '-')
  {
    var t := Strip(s);
    if t == [] then None
    else
      var neg := t[0] == '-';
      var body := if t[0] == '-' || t[0] == '+' then t[1..] else t;
      if !UnderscoredDigits(body) then None
      else
        var n := DigitsValue(DropUnderscores(body));
        var v: int := n;
        Some(if neg then -v else v)
  }

  function DigitChar(d: nat): (c: char)
    requires d < 10
    ensures IsDigit(c)
  {
    ('0' as int + d) as char
  }

  /** Decimal digits of `n`, without leading zeros (`str(n)` for `n >= 0`). */
  function NatToString(n: nat): (s: string)
    ensures |s| > 0 && AllDigits(s) && DigitsValue(s) == n
    ensures |s| > 1 ==> s[0] != '0'
  {
    if n < 10 then [DigitChar(n)]
    else
      var s := NatToString(n / 10) + [DigitChar(n % 10)];
      assert s[..|s| - 1] == NatToString(n / 10);
      s
  }

  /** `str(n)` for an `int`. */
  function IntToString(n: int): (s: string)
  {
    if n < 0 then "-" + NatToString(-n) else NatToString(n)
  }

  /** `n` written with exactly `width` digits, zero-padded (`%0<width>d`). */
  function PadDigits(n: nat, width: nat): (s: string)
    requires n < Pow10(width)
    ensures |s| == width && AllDigits(s) && DigitsValue(s) == n
  {
    if width == 0 then []
    else
      var s := PadDigits(n / 10, width - 1) + [DigitChar(n % 10)];
      assert s[..|s| - 1] == PadDigits(n / 10, width - 1);
      s
  }

  function Pow10(k: nat): (p: nat)
    ensures p >= 1
  {
    if k == 0 then 1 else 10 * Pow10(k - 1)
  }

  lemma {:induction false} StripOfUnspaced(s: string)
    requires s == [] || (!IsSpace(s[0]) && !IsSpace(s[|s| - 1]))
    ensures Strip(s) == s
  {
  }

  lemma {:induction false} DropUnderscoresOfDigits(s: string)
    requires AllDigits(s)
    ensures DropUnderscores(s) == s
  {
    if s != [] {
      DropUnderscoresOfDigits(s[1..]);
    }
  }

  /** `int(str(n)) == n`: the decimal rendering the scheduler reports for a job's
      interval reads back as that interval. */
  lemma {:induction false} ParseIntOfIntToString(n: int)
    ensures ParseInt(IntToString(n)) == Some(n)
  {
    if n < 0 {
      var d := NatToString(-n);
      var s := "-" + d;
      assert s[0] == '-' && s[1..] == d && s[|s| - 1] == d[|d| - 1];
      assert IntToString(n) == s;
      ParseIntOfSigned(d);
    } else {
      var d := NatToString(n);
      assert IntToString(n) == d;
      ParseIntOfDigits(d);
      StripOfUnspaced(d);
      assert !IsDigit('-') && !IsDigit('+');
    }
  }

  /** `int("-" + d) == -int(d)` for a run of digits `d`. */
  lemma {:induction false} ParseIntOfSigned(d: string)
    requires d != [] && AllDigits(d)
    ensures ParseInt("-" + d) == Some(-(DigitsValue(d) as int))
  {
    var s := "-" + d;
    assert s[0] == '-' && s[1..] == d && s[|s| - 1] == d[|d| - 1];
    StripOfUnspaced(s);
    ParseIntOfDigits(d);
  }

  /** A run of ASCII digits is the body `int()` accepts, and reads as its value. */
  lemma {:induction false} ParseIntOfDigits(d: string)
    requires d != [] && AllDigits(d)
    ensures UnderscoredDigits(d) && d[0] != '-' && d[0] != '+'
    ensures DigitsValue(DropUnderscores(d)) == DigitsValue(d)
  {
    DropUnderscoresOfDigits(d);
  }

  /** What `strip` keeps of a text that begins and ends with non-whitespace
      and is followed by anything: all of that text, at the front. */
  lemma {:induction false} StripKeepsHead(u: string, rest: string)
    requires u != [] && !IsSpace(u[0]) && !IsSpace(u[|u| - 1])
    ensures |u| <= |Strip(u + rest)| && Strip(u + rest)[..|u|] == u
  {
    var s := u + rest;
    assert s[0] == u[0] && s[|u| - 1] == u[|u| - 1];
    assert LeadingSpace(s) == 0;
    StripRightKeeps(s, |u| - 1);
    var r := Strip(s);
    assert r == StripRight(s);
    assert r[..|u|] == s[..|u|];
  }

  /** `StripRight` keeps every character up to the last non-whitespace one. */
  lemma {:induction false} StripRightKeeps(s: string, k: nat)
    requires k < |s| && !IsSpace(s[k])
    ensures |StripRight(s)| > k
    decreases |s|
  {
    if IsSpace(s[|s| - 1]) {
      assert k < |s| - 1 && s[..|s| - 1][k] == s[k];
      StripRightKeeps(s[..|s| - 1], k);
    }
  }

  lemma {:induction false} NatToStringShort(n: nat)
    requires n < 100
    ensures 1 <= |NatToString(n)| <= 2
  {
  }

  /** Reading `width` digits back and writing them again gives the same text:
      the other half of the round trip of `PadDigits`. */
  lemma {:induction false} PadDigitsOfValue(s: string)
    requires AllDigits(s)
    ensures DigitsValue(s) < Pow10(|s|)
    ensures PadDigits(DigitsValue(s), |s|) == s
  {
    if s != [] {
      var init := s[..|s| - 1];
      PadDigitsOfValue(init);
      var q := DigitsValue(init);
      var last := s[|s| - 1] as int - '0' as int;
      DecimalShift(q, last, Pow10(|s| - 1));
      assert s == init + [DigitChar(last)];
    }
  }

  /** Appending one decimal digit: what `/ 10` and `% 10` give back, and the
      bound it keeps. */
  lemma DecimalShift(q: nat, last: int, bound: nat)
    requires 0 <= last < 10 && q < bound
    ensures (q * 10 + last) / 10 == q && (q * 10 + last) % 10 == last
    ensures q * 10 + last < 10 * bound
  {
  }
}
