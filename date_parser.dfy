/** `parse_date` of the backend scraper, and the `datetime.fromisoformat` and
    `datetime.strptime` behaviour it depends on. */
module DateParser {
  import opened Options
  import opened PyText
  import opened Calendar

  /** The three character classes the patterns use. */
  datatype CharClass = Digit | Space | Word

  predicate InClass(c: char, k: CharClass) {
    match k
    case Digit => IsDigit(c)
    case Space => IsSpace(c)
    case Word => IsWordChar(c)
  }

  /** The character at index `p` of `s` is of class `k`. */
  predicate ClassAt(s: string, p: int, k: CharClass)
    requires 0 <= p < |s|
  {
    InClass(s[p], k)
  }

  /** Length of the longest run of class `k` that starts at index `i`. */
  function Span(s: string, i: nat, k: CharClass): (n: nat)
    requires i <= |s|
    ensures i + n <= |s|
    decreases |s| - i
  {
    if i < |s| && InClass(s[i], k) then 1 + Span(s, i + 1, k) else 0
  }

  /** The pieces of the text `\d{1,2}\s+\w+\s+\d{4}` captures at the start of a
      string: the day digits, the word and the four year digits. Whatever
      follows the year digits is not part of the capture. */
  datatype LongMatch = LongMatch(day: string, word: string, year: string)

  /** `re.match(r'\d{1,2}\s+\w+\s+\d{4}', t)` followed by the capture of
      `re.search(r'(\d{1,2}\s+\w+\s+\d{4})', t)`. Since `\d` is part of `\w` and
      neither meets `\s`, every run is taken whole and the match is unique. */
  function MatchLong(t: string): Option<LongMatch> {
    var d := Span(t, 0, Digit);
    var s1 := Span(t, d, Space);
    var w := Span(t, d + s1, Word);
    var s2 := Span(t, d + s1 + w, Space);
    LongPieces(t, d, s1, w, s2)
  }

  /** The capture, given the lengths of the digit, space, word and space runs
      at the start of `t`. */
  function LongPieces(t: string, d: nat, s1: nat, w: nat, s2: nat): Option<LongMatch> {
    var y := d + s1 + w + s2;
    if 1 <= d <= 2 && s1 > 0 && w > 0 && s2 > 0 && y + 4 <= |t| && AllDigits(t[y..y + 4])
    then Some(LongMatch(t[..d], t[d + s1..d + s1 + w], t[y..y + 4]))
    else None
  }

  /** `re.match(r'\d{4}-\d{2}-\d{2}', t)`. */
  predicate MatchIsoPrefix(t: string) {
    && |t| >= 10
    && AllDigits(t[..4]) && t[4] == '-'
    && AllDigits(t[5..7]) && t[7] == '-'
    && AllDigits(t[8..10])
  }

  /** `re.match(r'\d{1,2}/\d{1,2}/\d{4}', t)`. */
  predicate MatchSlashPrefix(t: string) {
    var d := Span(t, 0, Digit);
    && 1 <= d <= 2 && d < |t| && t[d] == '/'
    && var m := Span(t, d + 1, Digit);
       && 1 <= m <= 2 && d + 1 + m < |t| && t[d + 1 + m] == '/'
       && d + m + 6 <= |t| && AllDigits(t[d + m + 2..d + m + 6])
  }

  const MonthNames: seq<string> := [
    "january", "february", "march", "april", "may", "june",
    "july", "august", "september", "october", "november", "december"]

  /** `%B`: a full English month name, in any letter case; `None` otherwise. */
  function MonthNumber(word: string): (r: Option<int>)
    ensures r.Some? ==> 1 <= r.value <= 12 && Lower(word) == MonthNames[r.value - 1]
  {
    MonthIndexFrom(Lower(word), 0)
  }

  function MonthIndexFrom(w: string, i: nat): (r: Option<int>)
    requires i <= 12
    ensures r.Some? ==> i + 1 <= r.value <= 12 && w == MonthNames[r.value - 1]
    decreases 12 - i
  {
    if i == 12 then None
    else if w == MonthNames[i] then Some(i + 1)
    else MonthIndexFrom(w, i + 1)
  }

  /** `%d` (`3[01]|[12]\d|0[1-9]|[1-9]`) or `%m` (`1[0-2]|0[1-9]|[1-9]`) on a run
      of one or two digits: the value when it lies in [1, hi]. */
  function NumberField(digits: string, hi: int): (r: Option<int>)
    ensures r.Some? ==> 1 <= r.value <= hi
  {
    if 1 <= |digits| <= 2 && AllDigits(digits) && 1 <= DigitsValue(digits) <= hi
    then Some(DigitsValue(digits))
    else None
  }

  /** The `date` constructor's check: `None` where it raises `ValueError`. */
  function MakeDate(y: int, m: int, d: int): (r: Option<Date>)
    ensures r.Some? ==> ValidDate(r.value) && r.value == Date(y, m, d)
  {
    if ValidDate(Date(y, m, d)) then Some(Date(y, m, d)) else None
  }

  /** `datetime.strptime(group, '%d %B %Y')` on the captured text. The format's
      spaces become `\s+`, so its own split of the capture is the one
      `MatchLong` made. */
  function StrptimeLong(g: LongMatch): (r: Option<Date>)
    ensures r.Some? ==> ValidDate(r.value)
  {
    match (NumberField(g.day, 31), MonthNumber(g.word))
    case (Some(d), Some(m)) =>
      if AllDigits(g.year) && |g.year| == 4 then MakeDate(DigitsValue(g.year), m, d) else None
    case _ => None
  }

  /** `datetime.fromisoformat(t)` for the date-only form `YYYY-MM-DD`. */
  function FromIsoFormat(t: string): (r: Option<Date>)
    ensures r.Some? ==> ValidDate(r.value)
  {
    if |t| == 10 && MatchIsoPrefix(t)
    then MakeDate(DigitsValue(t[..4]), DigitsValue(t[5..7]), DigitsValue(t[8..10]))
    else None
  }

  /** `datetime.strptime(t, '%d/%m/%Y')`: the whole of `t` must be consumed. */
  function StrptimeSlash(t: string): (r: Option<Date>)
    ensures r.Some? ==> ValidDate(r.value)
  {
    var d := Span(t, 0, Digit);
    if d < |t| && t[d] == '/' then
      var m := Span(t, d + 1, Digit);
      if d + 1 + m < |t| && t[d + 1 + m] == '/' && |t| == d + m + 6 && AllDigits(t[d + m + 2..]) then
        match (NumberField(t[..d], 31), NumberField(t[d + 1..d + 1 + m], 12))
        case (Some(day), Some(month)) => MakeDate(DigitsValue(t[d + m + 2..]), month, day)
        case _ => None
      else None
    else None
  }

  /** `parse_date`: empty or absent text gives `None`; otherwise the stripped
      text is tried against `D Month YYYY` (trailing text allowed), then
      `YYYY-MM-DD`, then `DD/MM/YYYY`. The first pattern whose prefix matches
      decides: when its parse fails the result is `None` and no later pattern
      is tried. Every failure is `None`, never an exception. */
  function ParseDate(text: Option<string>): (r: Option<Date>)
    ensures r.Some? ==> ValidDate(r.value)
  {
    match text
    case None => None
    case Some(s) =>
      if s == "" then None
      else ParseStripped(Strip(s))
  }

  /** The three formats tried in turn on text already stripped of blanks. */
  function ParseStripped(t: string): (r: Option<Date>)
    ensures r.Some? ==> ValidDate(r.value)
  {
    match MatchLong(t)
    case Some(g) => StrptimeLong(g)
    case None =>
      if MatchIsoPrefix(t) then FromIsoFormat(t)
      else if MatchSlashPrefix(t) then StrptimeSlash(t)
      else None
  }
}

/** What `parse_date` is proved to do: its prefix matchers are the regular
    expressions they stand for, the three forms cannot overlap, and each form
    written out for a valid date parses back to that date. */
module DateParserFacts {
  import opened Options
  import opened PyText
  import opened Calendar
  import opened DateParser

  /** Every character of `t` in [a, b) is of class `k`. */
  predicate RunOf(t: string, a: int, b: int, k: CharClass)
    requires 0 <= a <= b <= |t|
  {
    forall p :: a <= p < b ==> ClassAt(t, p, k)
  }

  /** `t` starts with a match of `\d{1,2}\s+\w+\s+\d{4}` whose runs end at
      `i`, `j`, `k`, `l` and `l + 4`. */
  predicate LongPatternAt(t: string, i: int, j: int, k: int, l: int) {
    && 1 <= i <= 2 && i < j < k < l && l + 4 <= |t|
    && RunOf(t, 0, i, Digit) && RunOf(t, i, j, Space) && RunOf(t, j, k, Word)
    && RunOf(t, k, l, Space) && RunOf(t, l, l + 4, Digit)
  }

  /** `t` starts with a match of `\d{1,2}/\d{1,2}/\d{4}` whose slashes stand at
      `i` and `j`. */
  predicate SlashPatternAt(t: string, i: int, j: int) {
    && 1 <= i <= 2 && i + 2 <= j <= i + 3 && j + 5 <= |t|
    && RunOf(t, 0, i, Digit) && t[i] == '/' && RunOf(t, i + 1, j, Digit) && t[j] == '/'
    && RunOf(t, j + 1, j + 5, Digit)
  }

  lemma SpaceIsNotWord(c: char)
    requires IsSpace(c)
    ensures !IsWordChar(c) && !IsDigit(c)
  {
  }

  lemma DigitRun(t: string, a: int, b: int)
    requires 0 <= a <= b <= |t|
    ensures RunOf(t, a, b, Digit) <==> AllDigits(t[a..b])
  {
    if AllDigits(t[a..b]) {
      forall p | a <= p < b ensures ClassAt(t, p, Digit) {
        assert t[p] == t[a..b][p - a];
      }
    }
    if RunOf(t, a, b, Digit) {
      forall q | 0 <= q < b - a ensures IsDigit(t[a..b][q]) {
        assert ClassAt(t, a + q, Digit);
      }
    }
  }

  /** A run of class `k` that is followed by a character outside `k` (or by the
      end) is exactly what `Span` measures. */
  lemma SpanExact(s: string, i: nat, n: nat, k: CharClass)
    requires i + n <= |s| && RunOf(s, i, i + n, k)
    requires i + n == |s| || !InClass(s[i + n], k)
    ensures Span(s, i, k) == n
    decreases n
  {
    if n > 0 {
      assert ClassAt(s, i, k);
      SpanExact(s, i + 1, n - 1, k);
    }
  }

  /** `Span` measures a maximal run: every character it covers is of class
      `k`, and the one after it, if any, is not. */
  lemma SpanFacts(s: string, i: nat, k: CharClass)
    requires i <= |s|
    ensures i + Span(s, i, k) <= |s| && RunOf(s, i, i + Span(s, i, k), k)
    ensures i + Span(s, i, k) < |s| ==> !InClass(s[i + Span(s, i, k)], k)
    decreases |s| - i
  {
    if i < |s| && InClass(s[i], k) {
      SpanFacts(s, i + 1, k);
      assert ClassAt(s, i, k);
    }
  }

  lemma LongMatchFromPattern(t: string, i: int, j: int, k: int, l: int)
    requires LongPatternAt(t, i, j, k, l)
    ensures MatchLong(t) == Some(LongMatch(t[..i], t[j..k], t[l..l + 4]))
  {
    LongSpans(t, i, j, k, l);
    DigitRun(t, l, l + 4);
    MatchLongBySpans(t, i, j - i, k - j, l - k);
    LongPiecesOf(t, i, j, k, l);
  }

  /** The runs of a match of the long pattern are the maximal runs `Span`
      measures. */
  lemma LongSpans(t: string, i: int, j: int, k: int, l: int)
    requires LongPatternAt(t, i, j, k, l)
    ensures Span(t, 0, Digit) == i && Span(t, i, Space) == j - i
    ensures Span(t, j, Word) == k - j && Span(t, k, Space) == l - k
  {
    assert ClassAt(t, i, Space) && ClassAt(t, k, Space);
    SpaceIsNotWord(t[i]);
    SpaceIsNotWord(t[k]);
    assert ClassAt(t, j, Word) && ClassAt(t, l, Digit);
    WordIsNotSpace(t[j]);
    WordIsNotSpace(t[l]);
    SpanExact(t, 0, i, Digit);
    SpanExact(t, i, j - i, Space);
    SpanExact(t, j, k - j, Word);
    SpanExact(t, k, l - k, Space);
  }

  lemma WordIsNotSpace(c: char)
    requires IsWordChar(c) || IsDigit(c)
    ensures !IsSpace(c)
  {
  }

  lemma MatchLongBySpans(t: string, d: nat, s1: nat, w: nat, s2: nat)
    requires d + s1 + w + s2 <= |t|
    requires Span(t, 0, Digit) == d && Span(t, d, Space) == s1
    requires Span(t, d + s1, Word) == w && Span(t, d + s1 + w, Space) == s2
    ensures MatchLong(t) == LongPieces(t, d, s1, w, s2)
  {
  }

  lemma LongPiecesOf(t: string, i: int, j: int, k: int, l: int)
    requires 1 <= i <= 2 && i < j < k < l && l + 4 <= |t| && AllDigits(t[l..l + 4])
    ensures LongPieces(t, i, j - i, k - j, l - k) == Some(LongMatch(t[..i], t[j..k], t[l..l + 4]))
  {
  }

  /** `MatchLong` succeeds exactly when the regular expression
      `\d{1,2}\s+\w+\s+\d{4}` matches at the start, and then returns the pieces
      of that (unique) match. */
  lemma {:induction false} MatchLongIsRegex(t: string)
    ensures MatchLong(t).Some? <==> exists i, j, k, l :: LongPatternAt(t, i, j, k, l)
    ensures forall i, j, k, l :: LongPatternAt(t, i, j, k, l) ==>
              MatchLong(t) == Some(LongMatch(t[..i], t[j..k], t[l..l + 4]))
  {
    forall i, j, k, l | LongPatternAt(t, i, j, k, l)
      ensures MatchLong(t) == Some(LongMatch(t[..i], t[j..k], t[l..l + 4]))
    {
      LongMatchFromPattern(t, i, j, k, l);
    }
    if MatchLong(t).Some? {
      var i, j, k, l := PatternOfMatch(t);
    }
  }

  /** A successful `MatchLong` comes from a match of the pattern. */
  lemma PatternOfMatch(t: string) returns (i: int, j: int, k: int, l: int)
    requires MatchLong(t).Some?
    ensures LongPatternAt(t, i, j, k, l)
  {
    var d := Span(t, 0, Digit);
    var s1 := Span(t, d, Space);
    var w := Span(t, d + s1, Word);
    var s2 := Span(t, d + s1 + w, Space);
    i, j, k, l := d, d + s1, d + s1 + w, d + s1 + w + s2;
    assert 1 <= d <= 2 && s1 > 0 && w > 0 && s2 > 0 && l + 4 <= |t| && AllDigits(t[l..l + 4]);
    SpanFacts(t, 0, Digit);
    SpanFacts(t, i, Space);
    SpanFacts(t, j, Word);
    SpanFacts(t, k, Space);
    DigitRun(t, l, l + 4);
  }

  /** `MatchSlashPrefix` holds exactly when `\d{1,2}/\d{1,2}/\d{4}` matches at
      the start. */
  lemma {:induction false} MatchSlashIsRegex(t: string)
    ensures MatchSlashPrefix(t) <==> exists i, j :: SlashPatternAt(t, i, j)
  {
    if MatchSlashPrefix(t) {
      var d := Span(t, 0, Digit);
      var m := Span(t, d + 1, Digit);
      DigitRun(t, d + m + 2, d + m + 6);
      assert SlashPatternAt(t, d, d + 1 + m);
    }
    forall i, j | SlashPatternAt(t, i, j) ensures MatchSlashPrefix(t) {
      SpanExact(t, 0, i, Digit);
      SpanExact(t, i + 1, j - i - 1, Digit);
      DigitRun(t, j + 1, j + 5);
    }
  }

  /** No text starts with more than one of the three forms, so the priority
      order only shows in that a failed parse of the matched form is final. */
  lemma {:induction false} PrefixFormsExclusive(t: string)
    ensures !(MatchLong(t).Some? && MatchIsoPrefix(t))
    ensures !(MatchLong(t).Some? && MatchSlashPrefix(t))
    ensures !(MatchIsoPrefix(t) && MatchSlashPrefix(t))
  {
    var d := Span(t, 0, Digit);
    if MatchIsoPrefix(t) {
      DigitRun(t, 0, 4);
      assert InClass(t[0], Digit) && InClass(t[1], Digit) && InClass(t[2], Digit);
    }
    if MatchLong(t).Some? {
      assert IsSpace(t[d]);
      SpaceIsNotWord(t[d]);
    }
  }

  predicate AllWord(s: string) { forall i :: 0 <= i < |s| ==> IsWordChar(s[i]) }

  /** A word of lower-case ASCII letters. */
  predicate LowerWord(w: string) {
    |w| > 0 && forall i :: 0 <= i < |w| ==> 'a' <= w[i] <= 'z'
  }

  /** The word with its first letter in upper case. */
  function Capitalized(w: string): string {
    if w == [] then [] else [if 'a' <= w[0] <= 'z' then (w[0] as int - 32) as char else w[0]] + w[1..]
  }

  /** The month's English name as written in dates: "July". */
  function MonthTitle(m: int): string
    requires 1 <= m <= 12
  {
    Capitalized(MonthNames[m - 1])
  }

  /** "11 July 2025": the day without padding, the month's English name and a
      four-digit year. */
  function LongText(d: Date): string
    requires ValidDate(d)
  {
    NatToString(d.day) + " " + MonthTitle(d.month) + " " + PadDigits(d.year, 4)
  }

  /** "2025-07-11", the full-date form of section 5.6 of RFC 3339. */
  function IsoText(d: Date): string
    requires ValidDate(d)
  {
    PadDigits(d.year, 4) + "-" + PadDigits(d.month, 2) + "-" + PadDigits(d.day, 2)
  }

  /** "11/07/2025". */
  function SlashText(d: Date): string
    requires ValidDate(d)
  {
    PadDigits(d.day, 2) + "/" + PadDigits(d.month, 2) + "/" + PadDigits(d.year, 4)
  }

  lemma MonthNamesDistinct(a: int, b: int)
    requires 0 <= a < 12 && 0 <= b < 12 && a != b
    ensures MonthNames[a] != MonthNames[b]
  {
    var x, y := MonthNames[a], MonthNames[b];
    if |x| == |y| {
      assert x[0] != y[0] || x[1] != y[1] || x[2] != y[2];
    }
  }

  lemma {:induction false} MonthIndexOfName(m: int, i: nat)
    requires 1 <= m <= 12 && i < m
    ensures MonthIndexFrom(MonthNames[m - 1], i) == Some(m)
    decreases m - i
  {
    if i < m - 1 {
      MonthNamesDistinct(i, m - 1);
      MonthIndexOfName(m, i + 1);
    }
  }

  lemma MonthNameLower(m: int)
    requires 1 <= m <= 12
    ensures LowerWord(MonthNames[m - 1])
  {
  }

  /** Lower-casing a capitalised lower-case word gives the word back, and the
      capitalised word is made of `\w` characters. */
  lemma CapitalizedWord(w: string)
    requires LowerWord(w)
    ensures Lower(Capitalized(w)) == w
    ensures AllWord(Capitalized(w)) && |Capitalized(w)| > 0
  {
    var t := Capitalized(w);
    assert |t| == |w|;
    LowerAt(t);
    forall j | 0 <= j < |t| ensures LowerChar(t[j]) == w[j] && IsWordChar(t[j]) {
      if j > 0 {
        assert t[j] == w[j];
      }
    }
  }

  lemma {:induction false} MonthTitleNumber(m: int)
    requires 1 <= m <= 12
    ensures MonthNumber(MonthTitle(m)) == Some(m)
    ensures AllWord(MonthTitle(m)) && |MonthTitle(m)| > 0
  {
    MonthNameLower(m);
    CapitalizedWord(MonthNames[m - 1]);
    MonthIndexOfName(m, 0);
  }

  /** The capture for a text made of day digits, one space, a word, one space,
      four digits and anything after. */
  lemma MatchLongOf(dd: string, word: string, yy: string, rest: string)
    requires 1 <= |dd| <= 2 && AllDigits(dd)
    requires |word| > 0 && AllWord(word)
    requires |yy| == 4 && AllDigits(yy)
    ensures MatchLong(dd + " " + word + " " + yy + rest) == Some(LongMatch(dd, word, yy))
  {
    var t := dd + " " + word + " " + yy + rest;
    var i, j := |dd|, |dd| + 1;
    var k := j + |word|;
    var l := k + 1;
    assert t[..i] == dd && t[j..k] == word && t[l..l + 4] == yy;
    assert t[i] == ' ' && t[k] == ' ';
    assert RunOf(t, 0, i, Digit);
    assert RunOf(t, j, k, Word) by {
      forall p | j <= p < k ensures InClass(t[p], Word) {
        assert t[p] == word[p - j];
      }
    }
    DigitRun(t, l, l + 4);
    LongMatchFromPattern(t, i, j, k, l);
  }

  lemma StrptimeLongOf(d: Date)
    requires ValidDate(d)
    ensures StrptimeLong(LongMatch(NatToString(d.day), MonthTitle(d.month), PadDigits(d.year, 4))) == Some(d)
  {
    PadDigitsOfYear(d.year);
    NatToStringShort(d.day);
    MonthTitleNumber(d.month);
  }

  lemma PadDigitsOfYear(y: int)
    requires 1 <= y <= 9999
    ensures |PadDigits(y, 4)| == 4 && AllDigits(PadDigits(y, 4)) && DigitsValue(PadDigits(y, 4)) == y
  {
    assert Pow10(4) == 10000;
  }

  /** Once the long form's prefix matches, its parse is the answer. */
  lemma ParseDateByLong(s: string, g: LongMatch)
    requires s != "" && MatchLong(Strip(s)) == Some(g)
    ensures ParseDate(Some(s)) == StrptimeLong(g)
  {
  }

  /** What the long branch gives for any capture, canonical or not ("05 July
      2025", "11 JULY 2025"): a date exactly when the day lies in 1..31, `%B`
      accepts the word and the three make a calendar date, and then that
      date. */
  lemma LongBranchDate(s: string, g: LongMatch)
    requires s != "" && MatchLong(Strip(s)) == Some(g)
    ensures 1 <= |g.day| <= 2 && AllDigits(g.day) && |g.year| == 4 && AllDigits(g.year)
    ensures ParseDate(Some(s)).Some? <==>
              && 1 <= DigitsValue(g.day) <= 31 && MonthNumber(g.word).Some?
              && ValidDate(Date(DigitsValue(g.year), MonthNumber(g.word).value, DigitsValue(g.day)))
    ensures ParseDate(Some(s)).Some? ==>
              ParseDate(Some(s)).value == Date(DigitsValue(g.year), MonthNumber(g.word).value, DigitsValue(g.day))
  {
    ParseDateByLong(s, g);
    LongMatchFields(Strip(s));
    StrptimeLongFields(g);
  }

  /** The capture's day is one or two digits and its year four. */
  lemma LongMatchFields(t: string)
    requires MatchLong(t).Some?
    ensures var g := MatchLong(t).value;
            1 <= |g.day| <= 2 && AllDigits(g.day) && |g.year| == 4 && AllDigits(g.year)
  {
    var i, j, k, l := PatternOfMatch(t);
    LongMatchFromPattern(t, i, j, k, l);
    DigitRun(t, 0, i);
    DigitRun(t, l, l + 4);
    assert t[..i] == t[0..i];
  }

  lemma StrptimeLongFields(g: LongMatch)
    requires 1 <= |g.day| <= 2 && AllDigits(g.day) && |g.year| == 4 && AllDigits(g.year)
    ensures StrptimeLong(g).Some? <==>
              && 1 <= DigitsValue(g.day) <= 31 && MonthNumber(g.word).Some?
              && ValidDate(Date(DigitsValue(g.year), MonthNumber(g.word).value, DigitsValue(g.day)))
    ensures StrptimeLong(g).Some? ==>
              StrptimeLong(g).value == Date(DigitsValue(g.year), MonthNumber(g.word).value, DigitsValue(g.day))
  {
  }

  /** Once the slash form's prefix matches, its parse is the answer. */
  lemma ParseDateBySlash(s: string)
    requires s != "" && MatchSlashPrefix(Strip(s))
    ensures ParseDate(Some(s)) == StrptimeSlash(Strip(s))
  {
    PrefixFormsExclusive(Strip(s));
  }

  lemma {:induction false} LongTextStripped(d: Date, rest: string) returns (rest': string)
    requires ValidDate(d)
    ensures Strip(LongText(d) + rest) ==
              NatToString(d.day) + " " + MonthTitle(d.month) + " " + PadDigits(d.year, 4) + rest'
  {
    var dd, word, yy := NatToString(d.day), MonthTitle(d.month), PadDigits(d.year, 4);
    var u := LongText(d);
    NatToStringShort(d.day);
    PadDigitsOfYear(d.year);
    assert u[0] == dd[0] && u[|u| - 1] == yy[3];
    assert IsDigit(dd[0]) && IsDigit(yy[3]);
    StripKeepsHead(u, rest);
    var t := Strip(u + rest);
    rest' := t[|u|..];
    assert t == u + rest';
  }

  /** Whatever follows "11 July 2025" (a space and prose, more digits, blanks),
      the text parses to the date it names: only this form drops trailing text. */
  lemma {:induction false} LongTextParses(d: Date, rest: string)
    requires ValidDate(d)
    ensures ParseDate(Some(LongText(d) + rest)) == Some(d)
  {
    var dd, word, yy := NatToString(d.day), MonthTitle(d.month), PadDigits(d.year, 4);
    var rest' := LongTextStripped(d, rest);
    NatToStringShort(d.day);
    MonthTitleNumber(d.month);
    PadDigitsOfYear(d.year);
    MatchLongOf(dd, word, yy, rest');
    StrptimeLongOf(d);
    ParseDateByLong(LongText(d) + rest, LongMatch(dd, word, yy));
  }

  /** "2025-07-11" parses to 11 July 2025, and so does every valid date written
      this way. */
  lemma {:induction false} IsoTextParses(d: Date)
    requires ValidDate(d)
    ensures ParseDate(Some(IsoText(d))) == Some(d)
  {
    var t := IsoText(d);
    var yy, mm, dd := PadDigits(d.year, 4), PadDigits(d.month, 2), PadDigits(d.day, 2);
    assert t[..4] == yy && t[5..7] == mm && t[8..10] == dd;
    StripOfUnspaced(t);
    assert MatchIsoPrefix(t);
    PrefixFormsExclusive(t);
  }

  /** "11/07/2025" parses to 11 July 2025, and so does every valid date written
      this way. */
  lemma {:induction false} SlashTextParses(d: Date)
    requires ValidDate(d)
    ensures ParseDate(Some(SlashText(d))) == Some(d)
  {
    var t := SlashText(d);
    var dd, mm, yy := PadDigits(d.day, 2), PadDigits(d.month, 2), PadDigits(d.year, 4);
    SlashFields(dd, mm, yy);
    assert NumberField(dd, 31) == Some(d.day) && NumberField(mm, 12) == Some(d.month);
    assert t[0] == dd[0] && t[|t| - 1] == yy[3];
    StripOfUnspaced(t);
    ParseDateBySlash(t);
  }

  /** The ISO form is canonical: a text that takes the ISO branch and parses is
      exactly the date's `YYYY-MM-DD` rendering. */
  lemma {:induction false} IsoBranchIsCanonical(s: string, d: Date)
    requires MatchIsoPrefix(Strip(s))
    requires ParseDate(Some(s)) == Some(d)
    ensures Strip(s) == IsoText(d)
  {
    var t := Strip(s);
    ParseDateByIso(s);
    IsoFields(t, d);
  }

  /** Once the ISO prefix matches, `fromisoformat` is the answer. */
  lemma ParseDateByIso(s: string)
    requires MatchIsoPrefix(Strip(s))
    ensures ParseDate(Some(s)) == FromIsoFormat(Strip(s))
  {
    PrefixFormsExclusive(Strip(s));
  }

  lemma IsoFields(t: string, d: Date)
    requires FromIsoFormat(t) == Some(d)
    ensures t == IsoText(d)
  {
    assert |t| == 10 && MatchIsoPrefix(t);
    assert d == Date(DigitsValue(t[..4]), DigitsValue(t[5..7]), DigitsValue(t[8..10]));
    PadDigitsOfValue(t[..4]);
    PadDigitsOfValue(t[5..7]);
    PadDigitsOfValue(t[8..10]);
    IsoJoin(t);
  }

  lemma IsoJoin(t: string)
    requires |t| == 10 && t[4] == '-' && t[7] == '-'
    ensures t == t[..4] + "-" + t[5..7] + "-" + t[8..10]
  {
  }

  /** Surrounding whitespace never matters: parsing the stripped text gives the
      same answer, so parsing is idempotent under `strip`. */
  lemma {:induction false} ParseDateIgnoresBlanks(s: string)
    ensures ParseDate(Some(Strip(s))) == ParseDate(Some(s))
  {
    var t := Strip(s);
    StripOfUnspaced(t);
    if t == "" {
      EmptyParsesToNothing();
    }
  }

  lemma EmptyParsesToNothing()
    ensures ParseStripped("") == None
  {
    assert MatchLong("").None? && !MatchIsoPrefix("") && !MatchSlashPrefix("");
  }

  /** The three accepted forms of 11 July 2025; the long one with the trailing
      prose the listing pages put after it. */
  lemma ExamplesAccepted()
    ensures ParseDate(Some("11 July 2025" + " published amendments")) == Some(Date(2025, 7, 11))
    ensures ParseDate(Some("2025-07-11")) == Some(Date(2025, 7, 11))
    ensures ParseDate(Some("11/07/2025")) == Some(Date(2025, 7, 11))
  {
    var d := Date(2025, 7, 11);
    ExampleLongText();
    ExampleIsoText();
    ExampleSlashText();
    LongTextParses(d, " published amendments");
    IsoTextParses(d);
    SlashTextParses(d);
  }

  lemma ExampleIsoText()
    ensures ValidDate(Date(2025, 7, 11)) && IsoText(Date(2025, 7, 11)) == "2025-07-11"
  {
    ExampleValid();
    ExampleDigits();
  }

  lemma ExampleSlashText()
    ensures ValidDate(Date(2025, 7, 11)) && SlashText(Date(2025, 7, 11)) == "11/07/2025"
  {
    ExampleValid();
    ExampleDigits();
  }

  lemma ExampleValid()
    ensures ValidDate(Date(2025, 7, 11))
  {
    assert DaysInMonth(2025, 7) == 31;
  }

  lemma ExampleLongText()
    ensures ValidDate(Date(2025, 7, 11)) && LongText(Date(2025, 7, 11)) == "11 July 2025"
  {
    ExampleValid();
    ExampleDigits();
    ExampleMonthTitle();
    ExampleLongJoin();
  }

  lemma ExampleMonthTitle()
    ensures MonthTitle(7) == "July"
  {
    assert MonthNames[6] == "july";
  }

  lemma ExampleLongJoin()
    ensures "11" + " " + "July" + " " + "2025" == "11 July 2025"
  {
  }

  lemma ExampleDigits()
    ensures NatToString(11) == "11"
    ensures PadDigits(2025, 4) == "2025"
    ensures PadDigits(7, 2) == "07"
    ensures PadDigits(11, 2) == "11"
  {
    assert NatToString(1) == "1";
    assert PadDigits(0, 0) == "";
    assert PadDigits(0, 1) == "0";
    assert PadDigits(1, 1) == "1";
    assert PadDigits(2, 1) == "2";
    assert PadDigits(20, 2) == "20";
    assert PadDigits(202, 3) == "202";
  }

  /** A long-form text whose word is not a month: the prefix matches, `%B`
      refuses the word, and no other form is tried. */
  lemma {:induction false} NotAMonthNoDate(dd: string, word: string, yy: string)
    requires 1 <= |dd| <= 2 && AllDigits(dd)
    requires |word| > 0 && AllWord(word) && MonthNumber(word).None?
    requires |yy| == 4 && AllDigits(yy)
    ensures ParseDate(Some(dd + " " + word + " " + yy)) == None
  {
    var t := dd + " " + word + " " + yy;
    assert t == dd + " " + word + " " + yy + "";
    MatchLongOf(dd, word, yy, "");
    assert t[0] == dd[0] && t[|t| - 1] == yy[3];
    assert IsDigit(dd[0]) && IsDigit(yy[3]);
    StripOfUnspaced(t);
    ParseDateByLong(t, LongMatch(dd, word, yy));
  }

  /** An abbreviated month: the long prefix matches, `%B` refuses "Jul", and no
      other form is tried. */
  lemma ExampleAbbreviatedMonth()
    ensures ParseDate(Some("11" + " " + "Jul" + " " + "2025")) == None
  {
    assert AllWord("Jul") && AllDigits("11") && AllDigits("2025");
    AbbreviatedMonthRefused();
    NotAMonthNoDate("11", "Jul", "2025");
  }

  lemma AbbreviatedMonthRefused()
    ensures MonthNumber("Jul") == None
  {
    var w := Lower("Jul");
    LowerAt("Jul");
    assert |w| == 3 && w[0] == 'j';
    forall i | 0 <= i < 12 ensures w != MonthNames[i] {
      if |MonthNames[i]| == 3 {
        assert MonthNames[i][0] == 'm';
      }
    }
    MonthNumberNone("Jul");
  }

  /** `%B` refuses a word whose lower-case form is none of the month names. */
  lemma MonthNumberNone(word: string)
    requires forall k :: 0 <= k < 12 ==> Lower(word) != MonthNames[k]
    ensures MonthNumber(word) == None
  {
    MonthIndexNone(Lower(word), 0);
  }

  /** A word that is none of the month names from index `i` on is not found. */
  lemma {:induction false} MonthIndexNone(w: string, i: nat)
    requires i <= 12 && forall k :: i <= k < 12 ==> w != MonthNames[k]
    ensures MonthIndexFrom(w, i) == None
    decreases 12 - i
  {
    if i < 12 {
      MonthIndexNone(w, i + 1);
    }
  }

  /** Any `DD/MM/YYYY` text matches the slash prefix, and `strptime` reads its
      day, month and year fields. */
  lemma {:induction false} SlashFields(dd: string, mm: string, yy: string)
    requires |dd| == 2 && |mm| == 2 && |yy| == 4
    requires AllDigits(dd) && AllDigits(mm) && AllDigits(yy)
    ensures MatchSlashPrefix(dd + "/" + mm + "/" + yy)
    ensures NumberField(dd, 31).Some? && NumberField(mm, 12).Some? ==>
              StrptimeSlash(dd + "/" + mm + "/" + yy) ==
                MakeDate(DigitsValue(yy), DigitsValue(mm), DigitsValue(dd))
    ensures NumberField(dd, 31).None? || NumberField(mm, 12).None? ==>
              StrptimeSlash(dd + "/" + mm + "/" + yy) == None
  {
    var t := dd + "/" + mm + "/" + yy;
    assert t[..2] == dd && t[3..5] == mm && t[6..] == yy && t[6..10] == yy;
    assert t[2] == '/' && t[5] == '/';
    DigitRun(t, 0, 2);
    DigitRun(t, 3, 5);
    DigitRun(t, 6, 10);
    SpanExact(t, 0, 2, Digit);
    SpanExact(t, 3, 2, Digit);
    assert SlashPatternAt(t, 2, 5);
    MatchSlashIsRegex(t);
  }

  /** A calendar date that does not exist: the slash form matches, and the
      date constructor refuses 31 February. */
  lemma ExampleNoSuchDay()
    ensures ParseDate(Some("31" + "/" + "02" + "/" + "2025")) == None
  {
    assert AllDigits("31") && AllDigits("02") && AllDigits("2025");
    SlashTextParsesAs("31", "02", "2025");
    NoThirtyFirstFebruary();
  }

  lemma NoThirtyFirstFebruary()
    ensures StrptimeSlash("31" + "/" + "02" + "/" + "2025") == None
  {
    assert AllDigits("31") && AllDigits("02") && AllDigits("2025");
    SlashFields("31", "02", "2025");
    assert DigitsValue("31") == 31 && DigitsValue("02") == 2;
    assert NumberField("31", 31) == Some(31) && NumberField("02", 12) == Some(2);
    assert DaysInMonth(DigitsValue("2025"), 2) <= 29;
  }

  /** A `DD/MM/YYYY` text takes the slash branch as it stands: `strptime`
      decides the result. */
  lemma SlashTextParsesAs(dd: string, mm: string, yy: string)
    requires |dd| == 2 && |mm| == 2 && |yy| == 4
    requires AllDigits(dd) && AllDigits(mm) && AllDigits(yy)
    ensures ParseDate(Some(dd + "/" + mm + "/" + yy)) == StrptimeSlash(dd + "/" + mm + "/" + yy)
  {
    var t := dd + "/" + mm + "/" + yy;
    SlashFields(dd, mm, yy);
    assert t[0] == dd[0] && t[|t| - 1] == yy[3];
    assert IsDigit(dd[0]) && IsDigit(yy[3]);
    StripOfUnspaced(t);
    ParseDateBySlash(t);
  }

  /** Text without a leading digit, such as 'not a date' or the extractor's
      'No date', never parses. */
  lemma {:induction false} NoLeadingDigitNoDate(s: string)
    requires Strip(s) == [] || !IsDigit(Strip(s)[0])
    ensures ParseDate(Some(s)) == None
  {
    var t := Strip(s);
    if t != [] {
      assert !InClass(t[0], Digit);
      assert Span(t, 0, Digit) == 0;
    }
  }
}
