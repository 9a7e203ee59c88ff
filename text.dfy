/** Character classes and the text normaliser of utils.py (_strip_accents, _norm_text),
    together with str.split() / " ".join(...) as _fuzzy_unit uses them. */
module Text {

  // ---------------------------------------------------------------------------
  // Character classes
  // ---------------------------------------------------------------------------

  /** Python's whitespace (str.isspace, str.strip, str.split and regex \s). */
  predicate IsSpace(c: char) {
    || c == ' ' || '\t' <= c <= '\r' || '\U{1C}' <= c <= '\U{1F}'
    || c == '\U{85}' || c == '\U{A0}' || c == '\U{1680}' || '\U{2000}' <= c <= '\U{200A}'
    || c == '\U{2028}' || c == '\U{2029}' || c == '\U{202F}' || c == '\U{205F}' || c == '\U{3000}'
  }

  predicate IsDigit(c: char) {
    '0' <= c <= '9'
  }

  /** A regex word character (\w): ASCII letters, digits, '_' and the Latin-1 letters and numerals. */
  predicate IsWordChar(c: char) {
    InRanges(c, WordRanges)
  }

  /** The characters of Latin-1 that are \w: letters, digits, the underscore and the digit-like
      and letter-like symbols, as closed ranges of code points. */
  const WordRanges: seq<(char, char)> := [
    ('0', '9'), ('A', 'Z'), ('_', '_'), ('a', 'z'), ('\U{AA}', '\U{AA}'), ('\U{B2}', '\U{B3}'),
    ('\U{B5}', '\U{B5}'), ('\U{B9}', '\U{BA}'), ('\U{BC}', '\U{BE}'), ('\U{C0}', '\U{D6}'),
    ('\U{D8}', '\U{F6}'), ('\U{F8}', '\U{FF}')]

  /** `c` lies in one of the closed ranges. */
  predicate InRanges(c: char, ranges: seq<(char, char)>) {
    ranges != [] && (ranges[0].0 <= c <= ranges[0].1 || InRanges(c, ranges[1..]))
  }

  /** A character of the Combining Diacritical Marks block (category Mn). */
  predicate IsCombiningMark(c: char) {
    '\U{300}' <= c <= '\U{36F}'
  }

  /** The base letter left of a Latin-1 precomposed letter once NFD has split off its mark. */
  function Fold(c: char): char {
    if '\U{C0}' <= c <= '\U{C5}' then 'A'
    else if c == '\U{C7}' then 'C'
    else if '\U{C8}' <= c <= '\U{CB}' then 'E'
    else if '\U{CC}' <= c <= '\U{CF}' then 'I'
    else if c == '\U{D1}' then 'N'
    else if '\U{D2}' <= c <= '\U{D6}' then 'O'
    else if '\U{D9}' <= c <= '\U{DC}' then 'U'
    else if c == '\U{DD}' then 'Y'
    else if '\U{E0}' <= c <= '\U{E5}' then 'a'
    else if c == '\U{E7}' then 'c'
    else if '\U{E8}' <= c <= '\U{EB}' then 'e'
    else if '\U{EC}' <= c <= '\U{EF}' then 'i'
    else if c == '\U{F1}' then 'n'
    else if '\U{F2}' <= c <= '\U{F6}' then 'o'
    else if '\U{F9}' <= c <= '\U{FC}' then 'u'
    else if c == '\U{FD}' || c == '\U{FF}' then 'y'
    else c
  }

  /** An upper-case letter that str.lower() changes (ASCII and Latin-1). */
  predicate IsUpperLetter(c: char) {
    'A' <= c <= 'Z' || ('\U{C0}' <= c <= '\U{DE}' && c != '\U{D7}')
  }

  /** str.lower() on one character (ASCII and Latin-1). */
  function LowerChar(c: char): char {
    if IsUpperLetter(c) then (c as int + 32) as char else c
  }

  /** str.upper() on one character (ASCII and Latin-1); 'ß' becomes "SS". */
  function UpperChar(c: char): seq<char> {
    if 'a' <= c <= 'z' || ('\U{E0}' <= c <= '\U{FE}' && c != '\U{F7}') then [(c as int - 32) as char]
    else if c == '\U{FF}' then ['\U{178}']
    else if c == '\U{B5}' then ['\U{39C}']
    else if c == '\U{DF}' then ['S', 'S']
    else [c]
  }

  // ---------------------------------------------------------------------------
  // Whole-string operations
  // ---------------------------------------------------------------------------

  /** str.lower(): no upper-case letter is left, every other character stays where it is, and
      an upper-case letter becomes the letter that str.upper() turns back into it. */
  function Lower(s: string): (r: string)
    ensures |r| == |s|
    ensures forall i :: 0 <= i < |r| ==> !IsUpperLetter(r[i])
    ensures forall i :: 0 <= i < |s| && !IsUpperLetter(s[i]) ==> r[i] == s[i]
    ensures forall i :: 0 <= i < |s| && IsUpperLetter(s[i]) ==> UpperChar(r[i]) == [s[i]]
  {
    seq(|s|, i requires 0 <= i < |s| => LowerChar(s[i]))
  }

  function Upper(s: string): string {
    if s == [] then [] else UpperChar(s[0]) + Upper(s[1..])
  }

  /** str.lstrip() */
  function TrimStart(s: string): (r: string)
    ensures |r| <= |s| && r == s[|s| - |r|..]
    ensures r == [] || !IsSpace(r[0])
  {
    if s != [] && IsSpace(s[0]) then TrimStart(s[1..]) else s
  }

  /** str.rstrip() */
  function TrimEnd(s: string): (r: string)
    ensures |r| <= |s| && r == s[..|r|]
    ensures r == [] || !IsSpace(r[|r| - 1])
  {
    if s != [] && IsSpace(s[|s| - 1]) then TrimEnd(s[..|s| - 1]) else s
  }

  /** str.lstrip() removes whitespace and nothing else: the whole prefix it drops is whitespace. */
  lemma {:induction false} TrimStartDropsSpace(s: string)
    ensures forall i :: 0 <= i < |s| - |TrimStart(s)| ==> IsSpace(s[i])
  {
    if s != [] && IsSpace(s[0]) {
      TrimStartDropsSpace(s[1..]);
      assert forall i :: 1 <= i < |s| ==> s[i] == s[1..][i - 1];
    }
  }

  /** str.rstrip() removes whitespace and nothing else: the whole suffix it drops is whitespace. */
  lemma {:induction false} TrimEndDropsSpace(s: string)
    ensures forall i :: |TrimEnd(s)| <= i < |s| ==> IsSpace(s[i])
  {
    if s != [] && IsSpace(s[|s| - 1]) {
      TrimEndDropsSpace(s[..|s| - 1]);
    }
  }

  /** str.strip() */
  function Trim(s: string): string {
    TrimEnd(TrimStart(s))
  }

  predicate Trimmed(s: string) {
    s == [] || (!IsSpace(s[0]) && !IsSpace(s[|s| - 1]))
  }

  /** str.strip() leaves a trimmed text as it is. */
  lemma TrimOfTrimmed(s: string)
    requires Trimmed(s)
    ensures Trim(s) == s
  {
  }

  /** _strip_accents: NFD decomposition followed by dropping the combining marks. */
  function StripAccents(s: string): string {
    if s == [] then []
    else (if IsCombiningMark(s[0]) then [] else [Fold(s[0])]) + StripAccents(s[1..])
  }

  /** re.sub(r"[_\-]+", " ", s); `inRun` says the previous character was '_' or '-'. */
  function HyphensToSpace(s: string, inRun: bool): string {
    if s == [] then []
    else if s[0] == '_' || s[0] == '-' then (if inRun then [] else [' ']) + HyphensToSpace(s[1..], true)
    else [s[0]] + HyphensToSpace(s[1..], false)
  }

  /** re.sub(r"\s+", " ", s); `inRun` says the previous character was whitespace. */
  function SqueezeSpaces(s: string, inRun: bool): string {
    if s == [] then []
    else if IsSpace(s[0]) then (if inRun then [] else [' ']) + SqueezeSpaces(s[1..], true)
    else [s[0]] + SqueezeSpaces(s[1..], false)
  }

  /** _norm_text (utils.py:25-29). */
  function NormText(s: string): string {
    Trim(SqueezeSpaces(HyphensToSpace(Lower(StripAccents(s)), false), false))
  }

  // ---------------------------------------------------------------------------
  // The shape of a normalised text
  // ---------------------------------------------------------------------------

  /** A character that accent stripping and lowercasing both leave alone: not an upper-case
      letter, not an accented Latin-1 letter and not a combining mark. */
  predicate Folded(c: char) {
    && !('A' <= c <= 'Z') && !('\U{C0}' <= c <= '\U{D6}') && !('\U{D8}' <= c <= '\U{DE}')
    && !('\U{E0}' <= c <= '\U{E5}') && !('\U{E7}' <= c <= '\U{EF}') && !('\U{F1}' <= c <= '\U{F6}')
    && !('\U{F9}' <= c <= '\U{FD}') && c != '\U{FF}' && !IsCombiningMark(c)
  }

  lemma FoldedFixed(c: char)
    requires Folded(c)
    ensures !IsCombiningMark(c) && Fold(c) == c && LowerChar(c) == c
  {
  }

  predicate AllFolded(s: string) {
    forall i :: 0 <= i < |s| ==> Folded(s[i])
  }

  predicate NoHyphens(s: string) {
    forall i :: 0 <= i < |s| ==> s[i] != '_' && s[i] != '-'
  }

  predicate OnlyPlainSpaces(s: string) {
    forall i :: 0 <= i < |s| ==> IsSpace(s[i]) ==> s[i] == ' '
  }

  predicate NoDoubleSpaces(s: string) {
    forall i :: 0 <= i < |s| - 1 ==> !(s[i] == ' ' && s[i + 1] == ' ')
  }

  /** What _norm_text promises of its output: lower-case, unaccented, no '_' or '-',
      single plain spaces between words and none at either end. */
  predicate Canonical(t: string) {
    AllFolded(t) && NoHyphens(t) && OnlyPlainSpaces(t) && NoDoubleSpaces(t) && Trimmed(t)
  }

  lemma FoldThenLower(c: char)
    requires !IsCombiningMark(c) && Fold(c) == c
    ensures Folded(LowerChar(c))
  {
  }

  lemma {:induction false} StripAccentsFolds(s: string)
    ensures forall i :: 0 <= i < |StripAccents(s)| ==> !IsCombiningMark(StripAccents(s)[i]) && Fold(StripAccents(s)[i]) == StripAccents(s)[i]
  {
    if s != [] {
      StripAccentsFolds(s[1..]);
    }
  }

  lemma {:induction false} HyphensToSpaceShape(s: string, inRun: bool)
    requires AllFolded(s)
    ensures AllFolded(HyphensToSpace(s, inRun)) && NoHyphens(HyphensToSpace(s, inRun))
  {
    if s != [] {
      HyphensToSpaceShape(s[1..], s[0] == '_' || s[0] == '-');
    }
  }

  lemma {:induction false} SqueezeSpacesShape(s: string, inRun: bool)
    requires AllFolded(s) && NoHyphens(s)
    ensures var r := SqueezeSpaces(s, inRun);
      && AllFolded(r) && NoHyphens(r) && OnlyPlainSpaces(r) && NoDoubleSpaces(r)
      && (inRun && r != [] ==> r[0] != ' ')
  {
    if s != [] {
      SqueezeSpacesShape(s[1..], IsSpace(s[0]));
    }
  }

  lemma SliceKeepsShape(s: string, lo: nat, hi: nat, r: string)
    requires lo <= hi <= |s| && r == s[lo..hi]
    requires AllFolded(s) && NoHyphens(s) && OnlyPlainSpaces(s) && NoDoubleSpaces(s)
    ensures AllFolded(r) && NoHyphens(r) && OnlyPlainSpaces(r) && NoDoubleSpaces(r)
  {
    assert forall i :: 0 <= i < |r| ==> r[i] == s[lo + i];
  }

  /** str.strip() returns a slice of its input. */
  lemma TrimIsSlice(s: string)
    ensures |s| - |TrimStart(s)| + |Trim(s)| <= |s|
    ensures Trim(s) == s[|s| - |TrimStart(s)|..|s| - |TrimStart(s)| + |Trim(s)|]
  {
  }

  /** str.strip() leaves no whitespace at either end. */
  lemma TrimIsTrimmed(s: string)
    ensures Trimmed(Trim(s))
  {
    var a := TrimStart(s);
    var r := TrimEnd(a);
    assert r != [] ==> r[0] == a[0];
  }

  lemma {:induction false} TrimStartKeepsShape(s: string)
    requires AllFolded(s) && NoHyphens(s) && OnlyPlainSpaces(s) && NoDoubleSpaces(s)
    ensures var r := TrimStart(s); AllFolded(r) && NoHyphens(r) && OnlyPlainSpaces(r) && NoDoubleSpaces(r)
    decreases |s|
  {
    if s != [] && IsSpace(s[0]) {
      SliceKeepsShape(s, 1, |s|, s[1..]);
      TrimStartKeepsShape(s[1..]);
    }
  }

  lemma {:induction false} TrimEndKeepsShape(s: string)
    requires AllFolded(s) && NoHyphens(s) && OnlyPlainSpaces(s) && NoDoubleSpaces(s)
    ensures var r := TrimEnd(s); AllFolded(r) && NoHyphens(r) && OnlyPlainSpaces(r) && NoDoubleSpaces(r)
    decreases |s|
  {
    if s != [] && IsSpace(s[|s| - 1]) {
      SliceKeepsShape(s, 0, |s| - 1, s[..|s| - 1]);
      TrimEndKeepsShape(s[..|s| - 1]);
    }
  }

  lemma TrimKeepsShape(s: string)
    requires AllFolded(s) && NoHyphens(s) && OnlyPlainSpaces(s) && NoDoubleSpaces(s)
    ensures Canonical(Trim(s))
  {
    TrimStartKeepsShape(s);
    TrimEndKeepsShape(TrimStart(s));
    TrimIsTrimmed(s);
  }

  /** Everything _norm_text returns is Canonical. */
  lemma NormTextCanonical(s: string)
    ensures Canonical(NormText(s))
  {
    var a := StripAccents(s);
    StripAccentsFolds(s);
    var b := Lower(a);
    forall i | 0 <= i < |b| ensures Folded(b[i]) {
      FoldThenLower(a[i]);
    }
    HyphensToSpaceShape(b, false);
    var c := HyphensToSpace(b, false);
    SqueezeSpacesShape(c, false);
    TrimKeepsShape(SqueezeSpaces(c, false));
  }

  lemma {:induction false} StripAccentsFixed(t: string)
    requires AllFolded(t)
    ensures StripAccents(t) == t
  {
    if t != [] {
      StripAccentsFixed(t[1..]);
    }
  }

  lemma {:induction false} HyphensToSpaceFixed(t: string, inRun: bool)
    requires NoHyphens(t)
    ensures HyphensToSpace(t, inRun) == t
  {
    if t != [] {
      HyphensToSpaceFixed(t[1..], false);
    }
  }

  lemma {:induction false} SqueezeSpacesFixed(t: string, inRun: bool)
    requires OnlyPlainSpaces(t) && NoDoubleSpaces(t)
    requires inRun ==> t == [] || t[0] != ' '
    ensures SqueezeSpaces(t, inRun) == t
  {
    if t != [] {
      SqueezeSpacesFixed(t[1..], IsSpace(t[0]));
    }
  }

  /** A Canonical text is a fixed point of _norm_text. */
  lemma CanonicalIsFixed(t: string)
    requires Canonical(t)
    ensures NormText(t) == t
  {
    StripAccentsFixed(t);
    assert Lower(t) == t;
    HyphensToSpaceFixed(t, false);
    SqueezeSpacesFixed(t, false);
  }

  /** _norm_text is idempotent. */
  lemma NormTextIdempotent(s: string)
    ensures NormText(NormText(s)) == NormText(s)
  {
    NormTextCanonical(s);
    CanonicalIsFixed(NormText(s));
  }

  // ---------------------------------------------------------------------------
  // str.split() and " ".join(...)
  // ---------------------------------------------------------------------------

  /** Length of the longest prefix of `s` free of whitespace. */
  function WordLen(s: string): (n: nat)
    ensures n <= |s|
    ensures forall i :: 0 <= i < n ==> !IsSpace(s[i])
    ensures n < |s| ==> IsSpace(s[n])
  {
    if s == [] || IsSpace(s[0]) then 0 else 1 + WordLen(s[1..])
  }

  /** str.split() with no argument: the maximal runs of non-whitespace. */
  function Words(s: string): seq<string>
    decreases |s|
  {
    if s == [] then []
    else if IsSpace(s[0]) then Words(s[1..])
    else [s[..WordLen(s)]] + Words(s[WordLen(s)..])
  }

  /** " ".join(words) */
  function JoinSpace(words: seq<string>): string {
    if words == [] then []
    else if |words| == 1 then words[0]
    else words[0] + " " + JoinSpace(words[1..])
  }

  /** Words separated by single plain spaces, none at either end. */
  predicate SingleSpaced(t: string) {
    OnlyPlainSpaces(t) && NoDoubleSpaces(t) && Trimmed(t)
  }

  lemma SingleSpacedSuffix(t: string, k: nat)
    requires SingleSpaced(t) && k < |t| && t[k] != ' '
    ensures SingleSpaced(t[k..])
  {
    var r := t[k..];
    assert forall i :: 0 <= i < |r| ==> r[i] == t[k + i];
  }

  lemma WordsOfWord(t: string)
    requires t != [] && !IsSpace(t[0])
    ensures Words(t) == [t[..WordLen(t)]] + Words(t[WordLen(t)..])
  {
  }

  lemma WordsSkipSpace(u: string)
    requires u != [] && IsSpace(u[0])
    ensures Words(u) == Words(u[1..])
  {
  }

  lemma JoinSpaceCons(w: string, ws: seq<string>)
    requires ws != []
    ensures JoinSpace([w] + ws) == w + " " + JoinSpace(ws)
  {
    assert ([w] + ws)[1..] == ws;
  }

  lemma SplitAtSpace(t: string, n: nat)
    requires n < |t| && t[n] == ' '
    ensures t[..n] + " " + t[n + 1..] == t
  {
    assert t == t[..n] + [t[n]] + t[n + 1..];
  }

  /** On single-spaced text, " ".join(s.split()) gives the text back. */
  lemma {:induction false} JoinWordsOfSingleSpaced(t: string)
    requires SingleSpaced(t)
    ensures JoinSpace(Words(t)) == t
    decreases |t|
  {
    if t != [] {
      var n := WordLen(t);
      WordsOfWord(t);
      if n < |t| {
        assert t[n] == ' ';
        assert n + 1 < |t| && t[n + 1] != ' ';
        var rest := t[n + 1..];
        SingleSpacedSuffix(t, n + 1);
        assert t[n..][1..] == rest;
        WordsSkipSpace(t[n..]);
        JoinWordsOfSingleSpaced(rest);
        WordsOfWord(rest);
        JoinSpaceCons(t[..n], Words(rest));
        SplitAtSpace(t, n);
      } else {
        assert t[n..] == [];
        assert t[..n] == t;
      }
    }
  }

  /** On a normalised text, " ".join(s.split()) gives the text back. */
  lemma JoinWordsOfCanonical(t: string)
    requires Canonical(t)
    ensures JoinSpace(Words(t)) == t
  {
    JoinWordsOfSingleSpaced(t);
  }
}
