/** Report dates in utils.py: int() and "{:02d}", _normalize_date, DATE_PATTERN (search and sub)
    and pick_two_dates. */
module Dates {
  import opened Wrappers
  import opened Text

  // ---------------------------------------------------------------------------
  // int(s) and f"{n:02d}"
  // ---------------------------------------------------------------------------

  /** The digit part int() accepts: ASCII digits, single underscores only between digits. */
  predicate ValidDigits(s: string) {
    && s != [] && IsDigit(s[0]) && IsDigit(s[|s| - 1])
    && (forall i :: 0 <= i < |s| ==> IsDigit(s[i]) || s[i] == '_')
    && (forall i :: 0 <= i < |s| - 1 ==> !(s[i] == '_' && s[i + 1] == '_'))
  }

  function DigitValue(c: char): nat
    requires IsDigit(c)
  {
    c as int - '0' as int
  }

  function DigitChar(d: nat): (c: char)
    requires d < 10
    ensures IsDigit(c) && DigitValue(c) == d
  {
    ('0' as int + d) as char
  }

  /** The number a digit string denotes, underscores ignored. */
  function DigitsValue(s: string): nat
    requires forall i :: 0 <= i < |s| ==> IsDigit(s[i]) || s[i] == '_'
  {
    if s == [] then 0
    else if s[|s| - 1] == '_' then DigitsValue(s[..|s| - 1])
    else DigitsValue(s[..|s| - 1]) * 10 + DigitValue(s[|s| - 1])
  }

  /** int(s) for a str: surrounding whitespace, an optional sign, then the digits; None where
      Python raises ValueError. */
  function ParseInt(s: string): Option<int> {
    ParseSigned(IntStrip(s))
  }

  /** The whitespace int() skips around a number: what str.isspace() accepts, except the four
      ASCII separators U+001C..U+001F, which int() keeps and then rejects as non-digits. */
  predicate IntSpace(c: char) {
    IsSpace(c) && !('\U{1C}' <= c <= '\U{1F}')
  }

  /** The text int() reads once the whitespace around it is skipped. */
  function IntStrip(s: string): string {
    IntStripEnd(IntStripStart(s))
  }

  /** int() skips nothing of a text that neither starts nor ends with whitespace. */
  lemma IntStripKeeps(s: string)
    requires s != [] && !IntSpace(s[0]) && !IntSpace(s[|s| - 1])
    ensures IntStrip(s) == s
  {
    assert IntStripStart(s) == s;
  }

  function IntStripStart(s: string): (r: string)
    ensures |r| <= |s| && r == s[|s| - |r|..]
    ensures r == [] || !IntSpace(r[0])
    ensures forall i :: 0 <= i < |s| - |r| ==> IntSpace(s[i])
  {
    if s != [] && IntSpace(s[0]) then IntStripStart(s[1..]) else s
  }

  function IntStripEnd(s: string): (r: string)
    ensures |r| <= |s| && r == s[..|r|]
    ensures r == [] || !IntSpace(r[|r| - 1])
    ensures forall i :: |r| <= i < |s| ==> IntSpace(s[i])
  {
    if s != [] && IntSpace(s[|s| - 1]) then IntStripEnd(s[..|s| - 1]) else s
  }

  /** int() rejects a text that starts with one of U+001C..U+001F, although str.isspace()
      holds of those characters. */
  lemma ParseIntRejectsSeparator(s: string)
    requires s != [] && '\U{1C}' <= s[0] <= '\U{1F}'
    ensures ParseInt(s) == None
  {
    assert IntStripStart(s) == s;
    var t := IntStripEnd(s);
    assert t != [] && t[0] == s[0];
    assert !ValidDigits(t);
  }

  /** int() once the surrounding whitespace is gone. */
  function ParseSigned(t: string): Option<int> {
    if t != [] && (t[0] == '+' || t[0] == '-') then
      if ValidDigits(t[1..]) then
        var v: int := DigitsValue(t[1..]);
        Some(if t[0] == '-' then -v else v)
      else None
    else if ValidDigits(t) then Some(DigitsValue(t))
    else None
  }

  /** str(n) for n >= 0. */
  function Digits(n: nat): (r: string)
    ensures r != [] && forall i :: 0 <= i < |r| ==> IsDigit(r[i])
  {
    if n < 10 then [DigitChar(n)] else Digits(n / 10) + [DigitChar(n % 10)]
  }

  /** f"{n:02d}": zero-padded to width two, the sign counting towards the width. */
  function Format2(n: int): string {
    if n < 0 then "-" + Digits(-n)
    else if n < 10 then "0" + Digits(n)
    else Digits(n)
  }

  lemma {:induction false} DigitsValueOfDigits(n: nat)
    ensures ValidDigits(Digits(n)) && DigitsValue(Digits(n)) == n
  {
    if n >= 10 {
      DigitsValueOfDigits(n / 10);
      var r := Digits(n);
      assert r[..|r| - 1] == Digits(n / 10);
    }
  }

  lemma {:induction false} LeadingZero(s: string)
    requires forall i :: 0 <= i < |s| ==> IsDigit(s[i])
    ensures DigitsValue("0" + s) == DigitsValue(s)
  {
    if s != [] {
      assert ("0" + s)[..|"0" + s| - 1] == "0" + s[..|s| - 1];
      LeadingZero(s[..|s| - 1]);
    }
  }

  lemma ParseUnsigned(s: string)
    requires ValidDigits(s)
    ensures ParseInt(s) == Some(DigitsValue(s))
  {
    IntStripKeeps(s);
  }

  lemma ParseSignedNegative(m: nat)
    ensures ParseSigned("-" + Digits(m)) == Some(-(m as int))
  {
    var f := "-" + Digits(m);
    DigitsValueOfDigits(m);
    assert f[1..] == Digits(m);
  }

  lemma ParseNegative(m: nat)
    ensures ParseInt("-" + Digits(m)) == Some(-(m as int))
  {
    ParseSignedNegative(m);
    IntStripKeeps("-" + Digits(m));
  }

  lemma ParsePadded(n: nat)
    requires n < 10
    ensures ParseInt("0" + Digits(n)) == Some(n)
  {
    DigitsValueOfDigits(n);
    LeadingZero(Digits(n));
    assert Digits(n) == [DigitChar(n)];
    assert ValidDigits("0" + Digits(n));
    ParseUnsigned("0" + Digits(n));
  }

  lemma ParseDigits(n: nat)
    ensures ParseInt(Digits(n)) == Some(n)
  {
    DigitsValueOfDigits(n);
    ParseUnsigned(Digits(n));
  }

  /** int() reads back what "{:02d}" writes. */
  lemma ParseFormat2(n: int)
    ensures ParseInt(Format2(n)) == Some(n)
  {
    if n < 0 {
      var m: nat := -n;
      var f := "-" + Digits(m);
      assert Format2(n) == f;
      ParseNegative(m);
      assert ParseInt(f) == Some(n);
    } else if n < 10 {
      ParsePadded(n);
    } else {
      ParseDigits(n);
    }
  }

  /** "{:02d}" writes a sign and digits, never a dot. */
  lemma Format2NoDot(n: int)
    ensures '.' !in Format2(n)
  {
    var f := Format2(n);
    assert forall i :: 0 < i < |f| ==> IsDigit(f[i]);
    assert f[0] == '-' || IsDigit(f[0]);
  }

  // ---------------------------------------------------------------------------
  // _normalize_date
  // ---------------------------------------------------------------------------

  /** Index of the first `c` in `s`, or -1. */
  function IndexOf(s: string, c: char): (r: int)
    ensures -1 <= r < |s|
    ensures r >= 0 ==> s[r] == c && c !in s[..r]
    ensures r < 0 ==> c !in s
  {
    if s == [] then -1
    else if s[0] == c then 0
    else var k := IndexOf(s[1..], c); if k < 0 then -1 else k + 1
  }

  /** `dd, mm = d.split(".")` followed by `int(dd), int(mm)`; None where Python raises. */
  function ParseDate(d: string): Option<(int, int)> {
    var k := IndexOf(d, '.');
    if k < 0 || '.' in d[k + 1..] then None
    else match (ParseInt(d[..k]), ParseInt(d[k + 1..]))
      case (Some(dd), Some(mm)) => Some((dd, mm))
      case _ => None
  }

  predicate Parses(d: string) {
    ParseDate(d).Some?
  }

  function FormatDate(dd: int, mm: int): string {
    Format2(dd) + "." + Format2(mm)
  }

  /** _normalize_date (utils.py:31-36). */
  function NormalizeDate(d: string): string {
    match ParseDate(d)
    case Some((dd, mm)) => FormatDate(dd, mm)
    case None => d
  }

  lemma IndexOfPrefix(a: string, b: string, c: char)
    requires c !in a
    ensures IndexOf(a + [c] + b, c) == |a|
    decreases |a|
  {
    if a != [] {
      assert (a + [c] + b)[1..] == a[1..] + [c] + b;
      IndexOfPrefix(a[1..], b, c);
    }
  }

  /** Splitting and reading a formatted date gives its two numbers back. */
  lemma ParseFormatDate(dd: int, mm: int)
    ensures ParseDate(FormatDate(dd, mm)) == Some((dd, mm))
  {
    ParseFormat2(dd);
    ParseFormat2(mm);
    Format2NoDot(dd);
    Format2NoDot(mm);
    var d := FormatDate(dd, mm);
    IndexOfPrefix(Format2(dd), Format2(mm), '.');
    var k := |Format2(dd)|;
    assert d[..k] == Format2(dd);
    assert d[k + 1..] == Format2(mm);
  }

  /** _normalize_date is idempotent. */
  lemma NormalizeDateIdempotent(d: string)
    ensures NormalizeDate(NormalizeDate(d)) == NormalizeDate(d)
  {
    if ParseDate(d).Some? {
      var (dd, mm) := ParseDate(d).value;
      ParseFormatDate(dd, mm);
    }
  }

  /** _normalize_date changes its input only by rewriting a date that splits into two integers,
      and its output then reads back as those two integers. */
  lemma NormalizeDateChangesOnlyDates(d: string)
    ensures NormalizeDate(d) != d ==> Parses(d)
    ensures Parses(d) <==> Parses(NormalizeDate(d))
    ensures Parses(d) ==> ParseDate(NormalizeDate(d)) == ParseDate(d)
  {
    if Parses(d) {
      var (dd, mm) := ParseDate(d).value;
      ParseFormatDate(dd, mm);
    }
  }

  /** A date in the form "DD.MM". */
  predicate IsCanonicalDate(d: string) {
    |d| == 5 && IsDigit(d[0]) && IsDigit(d[1]) && d[2] == '.' && IsDigit(d[3]) && IsDigit(d[4])
  }

  /** A date `_normalize_date` leaves as it is and `pick_two_dates` can order. */
  predicate IsNormalDate(d: string) {
    Parses(d) && NormalizeDate(d) == d
  }

  predicate ShortNumber(s: string) {
    (|s| == 1 || |s| == 2) && forall i :: 0 <= i < |s| ==> IsDigit(s[i])
  }

  lemma Format2TwoDigits(n: nat)
    requires n < 100
    ensures Format2(n) == [DigitChar(n / 10), DigitChar(n % 10)]
  {
    if n < 10 {
      assert Digits(n) == [DigitChar(n)];
      assert DigitChar(0) == '0';
    } else {
      assert Digits(n / 10) == [DigitChar(n / 10)];
    }
  }

  lemma ShortNumberParses(s: string)
    requires ShortNumber(s)
    ensures ParseInt(s) == Some(DigitsValue(s)) && DigitsValue(s) < 100
  {
    if |s| == 2 {
      assert s[..1] == [s[0]];
      assert s[..1][..0] == [];
      assert DigitsValue(s[..1]) == DigitValue(s[0]);
    } else {
      assert s[..0] == [];
    }
    ParseUnsigned(s);
  }

  /** A "D.M" / "DD.MM" token splits into its two numbers. */
  lemma ParseShortDate(x: string, y: string)
    requires ShortNumber(x) && ShortNumber(y)
    ensures ParseDate(x + "." + y) == Some((DigitsValue(x), DigitsValue(y)))
    ensures DigitsValue(x) < 100 && DigitsValue(y) < 100
  {
    var d := x + "." + y;
    IndexOfPrefix(x, y, '.');
    assert d[..|x|] == x && d[|x| + 1..] == y;
    assert '.' !in y;
    ShortNumberParses(x);
    ShortNumberParses(y);
  }

  /** A "D.M" / "DD.MM" token normalises to its two numbers, zero-padded. */
  lemma NormalizeShortDateValue(x: string, y: string)
    requires ShortNumber(x) && ShortNumber(y)
    ensures NormalizeDate(x + "." + y) == FormatDate(DigitsValue(x), DigitsValue(y))
  {
    ParseShortDate(x, y);
  }

  /** Two numbers below 100 format to "DD.MM". */
  lemma FormatDateCanonical(dd: nat, mm: nat)
    requires dd < 100 && mm < 100
    ensures IsCanonicalDate(FormatDate(dd, mm))
  {
    Format2TwoDigits(dd);
    Format2TwoDigits(mm);
  }

  /** A formatted date is left as it is by _normalize_date. */
  lemma FormatDateNormal(dd: int, mm: int)
    ensures IsNormalDate(FormatDate(dd, mm))
  {
    ParseFormatDate(dd, mm);
  }

  /** A "D.M" / "DD.MM" token of one- or two-digit parts normalises to zero-padded "DD.MM"
      holding the same day and month. */
  lemma NormalizeShortDate(x: string, y: string)
    requires ShortNumber(x) && ShortNumber(y)
    ensures var r := NormalizeDate(x + "." + y);
      && IsCanonicalDate(r) && IsNormalDate(r)
      && ParseDate(r) == Some((DigitsValue(x), DigitsValue(y)))
  {
    ParseShortDate(x, y);
    var dd, mm := DigitsValue(x), DigitsValue(y);
    NormalizeShortDateValue(x, y);
    FormatDateCanonical(dd, mm);
    FormatDateNormal(dd, mm);
    ParseFormatDate(dd, mm);
  }

  /** Two digits read back as themselves through "{:02d}". */
  lemma Format2OfTwoDigits(x: string)
    requires |x| == 2 && IsDigit(x[0]) && IsDigit(x[1])
    ensures DigitsValue(x) == 10 * DigitValue(x[0]) + DigitValue(x[1])
    ensures Format2(DigitsValue(x)) == x
  {
    assert x[..1] == [x[0]] && x[..1][..0] == [];
    assert DigitsValue(x[..1]) == DigitValue(x[0]);
    var v := DigitsValue(x);
    assert v == 10 * DigitValue(x[0]) + DigitValue(x[1]);
    Format2TwoDigits(v);
  }

  /** A "DD.MM" date splits into its two two-digit numbers. */
  lemma CanonicalParses(d: string)
    requires IsCanonicalDate(d)
    ensures ParseDate(d) == Some((DigitsValue(d[..2]), DigitsValue(d[3..])))
  {
    assert d == d[..2] + "." + d[3..];
    ParseShortDate(d[..2], d[3..]);
  }

  /** Formatting the two numbers of a "DD.MM" date writes it back. */
  lemma CanonicalFormats(d: string)
    requires IsCanonicalDate(d)
    ensures FormatDate(DigitsValue(d[..2]), DigitsValue(d[3..])) == d
  {
    Format2OfTwoDigits(d[..2]);
    Format2OfTwoDigits(d[3..]);
    assert d == d[..2] + "." + d[3..];
  }

  /** A "DD.MM" date is one _normalize_date leaves as it is. */
  lemma CanonicalIsNormal(d: string)
    requires IsCanonicalDate(d)
    ensures IsNormalDate(d)
  {
    CanonicalParses(d);
    CanonicalFormats(d);
  }

  // ---------------------------------------------------------------------------
  // DATE_PATTERN = \b(\d{1,2}\.\d{1,2})\b
  // ---------------------------------------------------------------------------

  /** Regex \b at position i. */
  predicate BoundaryAt(s: string, i: nat)
    requires i <= |s|
  {
    (i > 0 && IsWordChar(s[i - 1])) != (i < |s| && IsWordChar(s[i]))
  }

  /** \d{n} at i, for n of one or two. */
  predicate DigitsAt(s: string, i: nat, n: nat)
    requires 1 <= n <= 2
  {
    i + n <= |s| && IsDigit(s[i]) && (n == 2 ==> IsDigit(s[i + 1]))
  }

  /** The pattern matches at i with a day of `a` digits and a month of `b` digits. */
  predicate TokenAt(s: string, i: nat, a: nat, b: nat)
    requires i <= |s| && 1 <= a <= 2 && 1 <= b <= 2
  {
    && BoundaryAt(s, i) && DigitsAt(s, i, a) && i + a < |s| && s[i + a] == '.'
    && DigitsAt(s, i + a + 1, b) && BoundaryAt(s, i + a + 1 + b)
  }

  /** Length of the match the regex engine finds at i, trying the greedy \d{1,2} first. */
  function DateMatchAt(s: string, i: nat): (r: Option<nat>)
    ensures r.Some? ==> 3 <= r.value <= 5 && i + r.value <= |s|
  {
    if |s| < i then None
    else if TokenAt(s, i, 2, 2) then Some(5)
    else if TokenAt(s, i, 2, 1) then Some(4)
    else if TokenAt(s, i, 1, 2) then Some(4)
    else if TokenAt(s, i, 1, 1) then Some(3)
    else None
  }

  /** A pattern given by the length of its match at each position of a text, None where it does
      not match there; every match is non-empty and ends inside the text. */
  ghost predicate Advances(m: (string, nat) -> Option<nat>) {
    forall s: string, i: nat :: m(s, i).Some? ==> 0 < m(s, i).value && i + m(s, i).value <= |s|
  }

  lemma DatePatternAdvances()
    ensures Advances(DateMatchAt)
  {
  }

  /** pattern.search(s, i): (start, length) of the leftmost match at or after i. */
  function Search(m: (string, nat) -> Option<nat>, s: string, i: nat): (r: Option<(nat, nat)>)
    requires Advances(m) && i <= |s|
    ensures r.Some? ==> i <= r.value.0 <= |s| && m(s, r.value.0) == Some(r.value.1)
    decreases |s| - i
  {
    match m(s, i)
    case Some(n) => Some((i, n))
    case None => if i == |s| then None else Search(m, s, i + 1)
  }

  /** pattern.sub("", s[i..]), the pattern still reading the whole of s around position i. */
  function Sub(m: (string, nat) -> Option<nat>, s: string, i: nat): string
    requires Advances(m) && i <= |s|
    decreases |s| - i
  {
    if i == |s| then []
    else match m(s, i)
      case Some(n) => Sub(m, s, i + n)
      case None => [s[i]] + Sub(m, s, i + 1)
  }

  /** DATE_PATTERN.search(s) */
  function SearchDate(s: string): (r: Option<(nat, nat)>)
    ensures r.Some? ==> r.value.0 <= |s| && DateMatchAt(s, r.value.0) == Some(r.value.1)
  {
    DatePatternAdvances();
    Search(DateMatchAt, s, 0)
  }

  /** The day digits and the month digits of the DATE_PATTERN match at i. */
  function MatchParts(s: string, i: nat): (r: (string, string))
    requires i <= |s| && DateMatchAt(s, i).Some?
    ensures ShortNumber(r.0) && ShortNumber(r.1)
    ensures s[i..i + DateMatchAt(s, i).value] == r.0 + "." + r.1
  {
    var n, a := DateMatchAt(s, i).value, DayDigits(s, i);
    MatchIsShortDate(s, i);
    (s[i..i + a], s[i + a + 1..i + n])
  }

  /** A date written as day digits, a dot and month digits normalises to "DD.MM" of those two
      numbers. */
  lemma NormalizeJoined(m: string, x: string, y: string)
    requires ShortNumber(x) && ShortNumber(y) && m == x + "." + y
    ensures IsCanonicalDate(NormalizeDate(m)) && IsNormalDate(NormalizeDate(m))
    ensures NormalizeDate(m) == FormatDate(DigitsValue(x), DigitsValue(y))
    ensures ParseDate(NormalizeDate(m)) == Some((DigitsValue(x), DigitsValue(y)))
  {
    NormalizeShortDate(x, y);
    NormalizeShortDateValue(x, y);
  }

  /** DATE_PATTERN.sub("", s) */
  function RemoveDates(s: string): string {
    DatePatternAdvances();
    Sub(DateMatchAt, s, 0)
  }

  /** Number of day digits in the match at i. */
  function DayDigits(s: string, i: nat): nat
    requires i <= |s|
  {
    if TokenAt(s, i, 2, 2) || TokenAt(s, i, 2, 1) then 2 else 1
  }

  /** The text a token covers: the day digits, the dot, the month digits. */
  lemma TokenShape(s: string, i: nat, a: nat, b: nat)
    requires i <= |s| && 1 <= a <= 2 && 1 <= b <= 2 && TokenAt(s, i, a, b)
    ensures s[i..i + a + 1 + b] == s[i..i + a] + "." + s[i + a + 1..i + a + 1 + b]
    ensures ShortNumber(s[i..i + a]) && ShortNumber(s[i + a + 1..i + a + 1 + b])
  {
    assert s[i..i + a + 1 + b] == s[i..i + a] + [s[i + a]] + s[i + a + 1..i + a + 1 + b];
  }

  /** What a match of DATE_PATTERN is: one or two digits, a dot, one or two digits. */
  lemma MatchIsShortDate(s: string, i: nat)
    requires i <= |s| && DateMatchAt(s, i).Some?
    ensures var n, a := DateMatchAt(s, i).value, DayDigits(s, i);
      && a + 2 <= n <= a + 3 && 1 <= a <= 2
      && s[i..i + n] == s[i..i + a] + "." + s[i + a + 1..i + n]
      && ShortNumber(s[i..i + a]) && ShortNumber(s[i + a + 1..i + n])
  {
    var n, a := DateMatchAt(s, i).value, DayDigits(s, i);
    var b := n - a - 1;
    assert 1 <= b <= 2 && TokenAt(s, i, a, b) by {
      if TokenAt(s, i, 2, 2) {
        assert a == 2 && n == 5;
      } else if TokenAt(s, i, 2, 1) {
        assert a == 2 && n == 4;
      } else if TokenAt(s, i, 1, 2) {
        assert a == 1 && n == 4;
      } else {
        assert a == 1 && n == 3;
      }
    }
    TokenShape(s, i, a, b);
  }

  /** _normalize_date of the DATE_PATTERN match at i: "DD.MM" of its day digits and its month
      digits. */
  function NormalizedMatch(s: string, i: nat): (r: string)
    requires i <= |s| && DateMatchAt(s, i).Some?
    ensures IsCanonicalDate(r) && IsNormalDate(r)
    ensures r == FormatDate(DigitsValue(MatchParts(s, i).0), DigitsValue(MatchParts(s, i).1))
    ensures ParseDate(r) == Some((DigitsValue(MatchParts(s, i).0), DigitsValue(MatchParts(s, i).1)))
  {
    var m := s[i..i + DateMatchAt(s, i).value];
    var parts := MatchParts(s, i);
    NormalizeJoined(m, parts.0, parts.1);
    NormalizeDate(m)
  }

  /** sub keeps everything before the first match, drops the match, and goes on after it;
      with no match it keeps the text as it is. */
  lemma SubSkipsFirstMatch(m: (string, nat) -> Option<nat>, s: string, i: nat)
    requires Advances(m) && i <= |s|
    ensures Search(m, s, i).None? ==> Sub(m, s, i) == s[i..]
    ensures Search(m, s, i).Some? ==>
      var (j, n) := Search(m, s, i).value;
      Sub(m, s, i) == s[i..j] + Sub(m, s, j + n)
  {
    SearchFirst(m, s, i);
    var r := Search(m, s, i);
    if r.None? {
      KeepsUnmatched(m, s, i, |s|);
      assert s[i..|s|] == s[i..];
    } else {
      var j, n := r.value.0, r.value.1;
      KeepsUnmatched(m, s, i, j);
      SubAtMatch(m, s, j, n);
    }
  }

  lemma SubAtMatch(m: (string, nat) -> Option<nat>, s: string, j: nat, n: nat)
    requires Advances(m) && j <= |s| && m(s, j) == Some(n)
    ensures j + n <= |s| && Sub(m, s, j) == Sub(m, s, j + n)
  {
    assert j < |s|;
  }

  /** search finds the leftmost position where the pattern matches. */
  lemma {:induction false} SearchFirst(m: (string, nat) -> Option<nat>, s: string, i: nat)
    requires Advances(m) && i <= |s|
    ensures Search(m, s, i).None? ==> forall k :: i <= k <= |s| ==> m(s, k).None?
    ensures Search(m, s, i).Some? ==> forall k :: i <= k < Search(m, s, i).value.0 ==> m(s, k).None?
    decreases |s| - i
  {
    if m(s, i).None? && i < |s| {
      SearchFirst(m, s, i + 1);
    }
  }

  /** sub keeps a stretch of text in which the pattern matches nowhere. */
  lemma {:induction false} KeepsUnmatched(m: (string, nat) -> Option<nat>, s: string, i: nat, j: nat)
    requires Advances(m) && i <= j <= |s|
    requires forall k :: i <= k < j ==> m(s, k).None?
    ensures Sub(m, s, i) == s[i..j] + Sub(m, s, j)
    decreases j - i
  {
    if i < j {
      assert Sub(m, s, i) == [s[i]] + Sub(m, s, i + 1);
      KeepsUnmatched(m, s, i + 1, j);
      assert s[i..j] == [s[i]] + s[i + 1..j];
    }
  }

  // ---------------------------------------------------------------------------
  // pick_two_dates
  // ---------------------------------------------------------------------------

  /** Python's ordering of (month, day) tuples. */
  predicate PairLe(a: (int, int), b: (int, int)) {
    a.0 < b.0 || (a.0 == b.0 && a.1 <= b.1)
  }

  /** key_fn (utils.py:121-123): (int(mm), int(dd)); it is only applied once every date parses. */
  function Key(d: string): (int, int) {
    if Parses(d) then (ParseDate(d).value.1, ParseDate(d).value.0) else (0, 0)
  }

  predicate SortedBy(ds: seq<string>, key: string -> (int, int)) {
    forall i, j :: 0 <= i < j < |ds| ==> PairLe(key(ds[i]), key(ds[j]))
  }

  /** Inserting into a list ordered by `key`; `x` goes before the elements whose key is not below its own. */
  function InsertBy(x: string, ys: seq<string>, key: string -> (int, int)): (r: seq<string>)
    ensures multiset(r) == multiset(ys) + multiset{x}
  {
    if ys == [] || PairLe(key(x), key(ys[0])) then [x] + ys
    else
      assert ys == [ys[0]] + ys[1..];
      [ys[0]] + InsertBy(x, ys[1..], key)
  }

  lemma {:induction false} InsertBySorted(x: string, ys: seq<string>, key: string -> (int, int))
    requires SortedBy(ys, key)
    ensures SortedBy(InsertBy(x, ys, key), key)
  {
    var r := InsertBy(x, ys, key);
    if ys == [] || PairLe(key(x), key(ys[0])) {
      forall i, j | 0 <= i < j < |r| ensures PairLe(key(r[i]), key(r[j])) {
        if i == 0 && j > 1 {
          assert PairLe(key(ys[0]), key(ys[j - 1]));
        }
      }
    } else {
      var rest := InsertBy(x, ys[1..], key);
      InsertBySorted(x, ys[1..], key);
      assert r == [ys[0]] + rest;
      forall j | 0 < j < |r| ensures PairLe(key(r[0]), key(r[j])) {
        assert r[j] in multiset(rest);
        if r[j] != x {
          assert r[j] in ys[1..];
        }
      }
    }
  }

  /** sorted(ds, key=key), a stable sort. */
  function SortBy(ds: seq<string>, key: string -> (int, int)): (r: seq<string>)
    ensures multiset(r) == multiset(ds) && SortedBy(r, key)
  {
    if ds == [] then []
    else
      assert ds == [ds[0]] + ds[1..];
      var rest := SortBy(ds[1..], key);
      InsertBySorted(ds[0], rest, key);
      InsertBy(ds[0], rest, key)
  }

  predicate AllParse(ds: seq<string>) {
    forall i :: 0 <= i < |ds| ==> Parses(ds[i])
  }

  function NormalizeAll(ds: seq<string>): (r: seq<string>)
    ensures |r| == |ds| && forall i :: 0 <= i < |ds| ==> r[i] == NormalizeDate(ds[i])
  {
    seq(|ds|, i requires 0 <= i < |ds| => NormalizeDate(ds[i]))
  }

  /** [d for d in all_dates if d] */
  function NonEmpty(ds: seq<string>): (r: seq<string>)
    ensures forall x :: x in r <==> x in ds && x != []
  {
    if ds == [] then []
    else (if ds[0] != [] then [ds[0]] else []) + NonEmpty(ds[1..])
  }

  /** The first string key_fn cannot split into two integers. */
  function FirstUnparsable(ds: seq<string>): (r: Option<string>)
    ensures r.None? <==> AllParse(ds)
    ensures r.Some? ==> r.value in ds && !Parses(r.value)
  {
    if ds == [] then None
    else
      AllParseCons(ds);
      if !Parses(ds[0]) then Some(ds[0]) else FirstUnparsable(ds[1..])
  }

  lemma AllParseCons(ds: seq<string>)
    requires ds != []
    ensures AllParse(ds) <==> Parses(ds[0]) && AllParse(ds[1..])
  {
    var tail := ds[1..];
    if Parses(ds[0]) && AllParse(tail) {
      forall i | 0 < i < |ds| ensures Parses(ds[i]) {
        assert ds[i] == tail[i - 1];
      }
    }
    if AllParse(ds) {
      forall i | 0 <= i < |tail| ensures Parses(tail[i]) {
        assert tail[i] == ds[i + 1];
      }
    }
  }

  /** pick_two_dates (utils.py:120-127): Failure(d) where key_fn raises on d; (None, None) when
      fewer than two dates are left once the empty ones are dropped. */
  function PickTwoDates(dates: seq<string>): (r: Result<(Option<string>, Option<string>), string>)
    ensures r.Success? ==> (r.value.0.None? <==> |NonEmpty(dates)| < 2)
    ensures r.Success? ==> (r.value.0.None? <==> r.value.1.None?)
  {
    PickLatest(NormalizeAll(NonEmpty(dates)))
  }

  /** The sorting and picking half of pick_two_dates, on the normalised non-empty dates. */
  function PickLatest(normed: seq<string>): (r: Result<(Option<string>, Option<string>), string>)
    ensures r.Success? ==> (r.value.0.None? <==> |normed| < 2)
    ensures r.Success? ==> (r.value.0.None? <==> r.value.1.None?)
  {
    match FirstUnparsable(normed)
    case Some(bad) => Failure(bad)
    case None => Success(LastTwoBy(normed, Key))
  }

  /** ordered = sorted(ds, key=key); (None, None) if len(ordered) < 2 else (ordered[-2], ordered[-1]) */
  function LastTwoBy(ds: seq<string>, key: string -> (int, int)): (r: (Option<string>, Option<string>))
    ensures r.0.None? <==> |ds| < 2
    ensures r.0.None? <==> r.1.None?
  {
    var ordered := SortBy(ds, key);
    assert |ordered| == |multiset(ordered)| == |ds|;
    if |ordered| < 2 then (None, None)
    else (Some(ordered[|ordered| - 2]), Some(ordered[|ordered| - 1]))
  }

  /** `previous` and `current` are the two latest of `ds` under `key`: both occur in `ds`, and
      every element but one occurrence of `current` is at most `previous`. */
  predicate LatestTwo(ds: seq<string>, previous: string, current: string, key: string -> (int, int)) {
    && multiset{previous, current} <= multiset(ds)
    && PairLe(key(previous), key(current))
    && (forall x :: x in multiset(ds) - multiset{current} ==> PairLe(key(x), key(previous)))
  }

  lemma NormalizeAllParses(ne: seq<string>)
    ensures AllParse(NormalizeAll(ne)) <==> forall d :: d in ne ==> Parses(d)
  {
    var normed := NormalizeAll(ne);
    forall i | 0 <= i < |ne| ensures Parses(ne[i]) <==> Parses(normed[i]) {
      NormalizeDateChangesOnlyDates(ne[i]);
    }
  }

  /** The last two elements of a list sorted by `key` are its two latest. */
  lemma LastTwoOfSorted(ordered: seq<string>, key: string -> (int, int))
    requires |ordered| >= 2 && SortedBy(ordered, key)
    ensures LatestTwo(ordered, ordered[|ordered| - 2], ordered[|ordered| - 1], key)
  {
    var n := |ordered|;
    var p, c := ordered[n - 2], ordered[n - 1];
    assert ordered == ordered[..n - 2] + [p] + [c];
    assert ordered[..n - 1] == ordered[..n - 2] + [p];
    assert multiset(ordered) - multiset{c} == multiset(ordered[..n - 1]);
    forall x | x in multiset(ordered) - multiset{c} ensures PairLe(key(x), key(p)) {
      assert x in ordered[..n - 1];
      var i :| 0 <= i < n - 1 && ordered[i] == x;
    }
  }

  /** pick_two_dates raises exactly when a non-empty date does not split into two integers. */
  lemma PickTwoDatesFails(dates: seq<string>)
    ensures PickTwoDates(dates).Failure? <==> exists d :: d in dates && d != [] && !Parses(d)
  {
    NormalizeAllParses(NonEmpty(dates));
  }

  /** With two or more dates, pick_two_dates returns the two latest normalised dates by
      (month, day). */
  lemma PickTwoDatesLatest(dates: seq<string>)
    requires PickTwoDates(dates).Success? && |NonEmpty(dates)| >= 2
    ensures var (p, c) := PickTwoDates(dates).value;
      LatestTwo(NormalizeAll(NonEmpty(dates)), p.value, c.value, Key)
  {
    PickLatestLatest(NormalizeAll(NonEmpty(dates)));
  }

  lemma PickLatestLatest(normed: seq<string>)
    requires PickLatest(normed).Success? && |normed| >= 2
    ensures var (p, c) := PickLatest(normed).value;
      LatestTwo(normed, p.value, c.value, Key)
  {
    assert PickLatest(normed).value == LastTwoBy(normed, Key);
    LastTwoByLatest(normed, Key);
  }

  /** The pair sorted(...)[-2:] is the two latest under the key. */
  lemma LastTwoByLatest(ds: seq<string>, key: string -> (int, int))
    requires |ds| >= 2
    ensures LatestTwo(ds, LastTwoBy(ds, key).0.value, LastTwoBy(ds, key).1.value, key)
  {
    LastTwoOfSorted(SortBy(ds, key), key);
  }

  /** Both dates pick_two_dates returns split into two integers. */
  lemma PickTwoDatesParse(dates: seq<string>)
    requires PickTwoDates(dates).Success? && |NonEmpty(dates)| >= 2
    ensures var (p, c) := PickTwoDates(dates).value;
      Parses(p.value) && Parses(c.value)
  {
    PickLatestParse(NormalizeAll(NonEmpty(dates)));
  }

  lemma PickLatestParse(normed: seq<string>)
    requires PickLatest(normed).Success? && |normed| >= 2
    ensures var (p, c) := PickLatest(normed).value;
      Parses(p.value) && Parses(c.value)
  {
    assert AllParse(normed);
    var ordered := SortBy(normed, Key);
    AllParsePermuted(normed, ordered);
  }

  lemma AllParsePermuted(a: seq<string>, b: seq<string>)
    requires AllParse(a) && multiset(a) == multiset(b)
    ensures AllParse(b)
  {
    forall i | 0 <= i < |b| ensures Parses(b[i]) {
      assert b[i] in multiset(a);
      var j :| 0 <= j < |a| && a[j] == b[i];
    }
  }

  /** When the normalised dates are distinct, `previous` comes strictly before `current`. */
  lemma PickTwoDatesStrict(dates: seq<string>)
    requires PickTwoDates(dates).Success? && |NonEmpty(dates)| >= 2
    requires var normed := NormalizeAll(NonEmpty(dates));
      forall i, j :: 0 <= i < j < |normed| ==> normed[i] != normed[j]
    ensures var (p, c) := PickTwoDates(dates).value;
      Key(p.value) != Key(c.value)
  {
    var ne := NonEmpty(dates);
    var normed := NormalizeAll(ne);
    PickTwoDatesLatest(dates);
    PickTwoDatesParse(dates);
    var (p, c) := PickTwoDates(dates).value;
    NormalizedKeysDiffer(ne, p.value, c.value);
  }

  /** Two occurrences of normalised dates with equal keys are the same occurrence. */
  lemma NormalizedKeysDiffer(ne: seq<string>, p: string, c: string)
    requires AllParse(NormalizeAll(ne))
    requires forall i, j :: 0 <= i < j < |ne| ==> NormalizeAll(ne)[i] != NormalizeAll(ne)[j]
    requires multiset{p, c} <= multiset(NormalizeAll(ne))
    ensures Key(p) != Key(c)
  {
    var normed := NormalizeAll(ne);
    assert p in normed && c in normed;
    var i :| 0 <= i < |normed| && normed[i] == p;
    var j :| 0 <= j < |normed| && normed[j] == c;
    DistinctOnce(normed, i);
    assert multiset{p, c}[p] <= 1;
    assert p != c;
    NormalizeDateChangesOnlyDates(ne[i]);
    NormalizeDateChangesOnlyDates(ne[j]);
    assert p == FormatDate(ParseDate(p).value.0, ParseDate(p).value.1);
    assert c == FormatDate(ParseDate(c).value.0, ParseDate(c).value.1);
  }

  lemma DistinctOnce(s: seq<string>, i: nat)
    requires i < |s| && forall a, b :: 0 <= a < b < |s| ==> s[a] != s[b]
    ensures multiset(s)[s[i]] == 1
  {
    assert s == s[..i] + [s[i]] + s[i + 1..];
    assert s[i] !in s[..i] && s[i] !in s[i + 1..];
    assert multiset(s[..i])[s[i]] == 0 && multiset(s[i + 1..])[s[i]] == 0;
  }

  // ---------------------------------------------------------------------------
  // The order of all_dates
  // ---------------------------------------------------------------------------

  /** Two "DD.MM" dates with the same (month, day) key are the same date. */
  lemma CanonicalKeyInjective(d: string, e: string)
    requires IsCanonicalDate(d) && IsCanonicalDate(e) && Key(d) == Key(e)
    ensures d == e
  {
    CanonicalParses(d);
    CanonicalParses(e);
    CanonicalFormats(d);
    CanonicalFormats(e);
  }

  /** Two lists sorted by a key that tells their elements apart, holding the same elements,
      are the same list. */
  lemma {:induction false} SortedByUnique(xs: seq<string>, ys: seq<string>, key: string -> (int, int))
    requires SortedBy(xs, key) && SortedBy(ys, key) && multiset(xs) == multiset(ys)
    requires KeyTellsApart(xs, key)
    ensures xs == ys
    decreases |xs|
  {
    if xs != [] {
      assert |ys| == |multiset(ys)| == |multiset(xs)| == |xs|;
      SortedHeadsAgree(xs, ys, key);
      SameHeadTails(xs, ys);
      SortedTail(xs, key);
      SortedTail(ys, key);
      KeyTellsApartTail(xs, key);
      SortedByUnique(xs[1..], ys[1..], key);
      assert xs == [xs[0]] + xs[1..] && ys == [ys[0]] + ys[1..];
    }
  }

  /** No two elements of `xs` share a key. */
  predicate KeyTellsApart(xs: seq<string>, key: string -> (int, int)) {
    forall x, y :: x in xs && y in xs && key(x) == key(y) ==> x == y
  }

  lemma KeyTellsApartTail(xs: seq<string>, key: string -> (int, int))
    requires xs != [] && KeyTellsApart(xs, key)
    ensures KeyTellsApart(xs[1..], key)
  {
    forall x, y | x in xs[1..] && y in xs[1..] && key(x) == key(y) ensures x == y {
      assert x in xs && y in xs;
    }
  }

  lemma SameHeadTails(xs: seq<string>, ys: seq<string>)
    requires xs != [] && ys != [] && xs[0] == ys[0] && multiset(xs) == multiset(ys)
    ensures multiset(xs[1..]) == multiset(ys[1..])
  {
    assert xs == [xs[0]] + xs[1..] && ys == [ys[0]] + ys[1..];
    assert multiset(xs[1..]) == multiset(xs) - multiset{xs[0]};
    assert multiset(ys[1..]) == multiset(ys) - multiset{ys[0]};
  }

  lemma SortedTail(xs: seq<string>, key: string -> (int, int))
    requires xs != [] && SortedBy(xs, key)
    ensures SortedBy(xs[1..], key)
  {
    forall i, j | 0 <= i < j < |xs| - 1 ensures PairLe(key(xs[1..][i]), key(xs[1..][j])) {
      assert xs[1..][i] == xs[i + 1] && xs[1..][j] == xs[j + 1];
    }
  }

  lemma SortedHeadsAgree(xs: seq<string>, ys: seq<string>, key: string -> (int, int))
    requires xs != [] && ys != []
    requires SortedBy(xs, key) && SortedBy(ys, key) && multiset(xs) == multiset(ys)
    requires KeyTellsApart(xs, key)
    ensures xs[0] == ys[0]
  {
    assert xs[0] in multiset(ys) && ys[0] in multiset(xs);
    var i :| 0 <= i < |ys| && ys[i] == xs[0];
    var j :| 0 <= j < |xs| && xs[j] == ys[0];
    assert PairLe(key(ys[0]), key(xs[0])) by {
      if i > 0 {
        assert PairLe(key(ys[0]), key(ys[i]));
      }
    }
    assert PairLe(key(xs[0]), key(ys[0])) by {
      if j > 0 {
        assert PairLe(key(xs[0]), key(xs[j]));
      }
    }
    assert key(xs[0]) == key(ys[0]);
    assert xs[0] in xs && ys[0] in xs;
  }

  /** Filtering out empty dates keeps a list without empty dates as it is. */
  lemma {:induction false} NonEmptyKeeps(ds: seq<string>)
    requires forall i :: 0 <= i < |ds| ==> ds[i] != []
    ensures NonEmpty(ds) == ds
    decreases |ds|
  {
    if ds != [] {
      NonEmptyKeeps(ds[1..]);
      assert ds[0] != [];
    }
  }

  /** A list of "DD.MM" dates has no empty date and is its own normalisation. */
  lemma CanonicalListNormalized(ds: seq<string>)
    requires forall d :: d in ds ==> IsCanonicalDate(d)
    ensures NormalizeAll(NonEmpty(ds)) == ds
    ensures AllParse(ds)
  {
    forall i | 0 <= i < |ds| ensures ds[i] != [] {
      assert ds[i] in ds;
    }
    NonEmptyKeeps(ds);
    forall i | 0 <= i < |ds| ensures NormalizeDate(ds[i]) == ds[i] && Parses(ds[i]) {
      CanonicalIsNormal(ds[i]);
    }
  }

  /** Two listings of the same strings, each without repeats, hold each of them once. */
  lemma SameElementsSameMultiset(a: seq<string>, b: seq<string>)
    requires forall i, j :: 0 <= i < j < |a| ==> a[i] != a[j]
    requires forall i, j :: 0 <= i < j < |b| ==> b[i] != b[j]
    requires forall d :: d in a <==> d in b
    ensures multiset(a) == multiset(b)
  {
    forall x ensures multiset(a)[x] == multiset(b)[x] {
      if x in a {
        var i :| 0 <= i < |a| && a[i] == x;
        var j :| 0 <= j < |b| && b[j] == x;
        DistinctOnce(a, i);
        DistinctOnce(b, j);
      }
    }
  }

  /** pick_two_dates gives the same answer however its set argument is iterated: any two
      listings of the same "DD.MM" dates, each without repeats, yield the same pair, and neither
      raises. */
  lemma PickTwoDatesOrderFree(a: seq<string>, b: seq<string>)
    requires forall i, j :: 0 <= i < j < |a| ==> a[i] != a[j]
    requires forall i, j :: 0 <= i < j < |b| ==> b[i] != b[j]
    requires forall d :: d in a <==> d in b
    requires forall d :: d in a ==> IsCanonicalDate(d)
    ensures PickTwoDates(a).Success?
    ensures PickTwoDates(a) == PickTwoDates(b)
  {
    CanonicalListNormalized(a);
    CanonicalListNormalized(b);
    SameElementsSameMultiset(a, b);
    var sa, sb := SortBy(a, Key), SortBy(b, Key);
    forall x, y | x in sa && y in sa && Key(x) == Key(y) ensures x == y {
      assert x in multiset(a) && y in multiset(a);
      CanonicalKeyInjective(x, y);
    }
    SortedByUnique(sa, sb, Key);
    assert PickTwoDates(a) == PickLatest(a) && PickTwoDates(b) == PickLatest(b);
  }
}
