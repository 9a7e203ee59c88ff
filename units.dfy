/** The location registry and the file-name reader of utils.py: os.path.splitext, the exact
    substring scan over UNIDADES_VALIDAS, _fuzzy_unit and extract_unit_and_date_from_name. */
module Units {
  import opened Wrappers
  import opened Text
  import opened Order
  import Dates

  /** UNIDADES_VALIDAS (utils.py:7-13): normalised key and display name, in insertion order. */
  const Registry: seq<(string, string)> := [
    ("cidade nova", "Cidade Nova"),
    ("castelo", "Castelo"),
    ("raja", "Raja"),
    ("buritis", "Buritis"),
    ("nova cachoeirinha", "Nova Cachoeirinha")]

  /** The default cutoff of _fuzzy_unit. */
  const DefaultCutoff: real := 0.8

  /** The cutoff extract_unit_and_date_from_name passes to _fuzzy_unit. */
  const ExtractCutoff: real := 0.75

  /** A similarity score, difflib.SequenceMatcher(a=a, b=b).ratio(). */
  type Ratio = (string, string) -> real

  predicate IsDisplayName(s: string) {
    exists i :: 0 <= i < |Registry| && Registry[i].1 == s
  }

  lemma KeysDistinct()
    ensures forall i, j :: 0 <= i < j < |Registry| ==> Registry[i].0 != Registry[j].0
  {
    assert Registry[1].0[0] != Registry[3].0[0];
  }

  /** The display names are distinct too, so the report has one entry per location. */
  lemma DisplayNamesDistinct()
    ensures forall i, j :: 0 <= i < j < |Registry| ==> Registry[i].1 != Registry[j].1
  {
    assert Registry[0].1[1] != Registry[1].1[1];
  }

  /** The display name of the registry entry at an index, if any. */
  function UnitOf(r: Option<nat>): (u: Option<string>)
    requires r.Some? ==> r.value < |Registry|
    ensures u.Some? ==> IsDisplayName(u.value)
  {
    match r
    case None => None
    case Some(i) => Some(Registry[i].1)
  }

  // ---------------------------------------------------------------------------
  // os.path.splitext
  // ---------------------------------------------------------------------------

  /** str.rfind(c): the last index of `c`, or -1. */
  function LastIndexOf(s: string, c: char): (r: int)
    ensures -1 <= r < |s|
    ensures r >= 0 ==> s[r] == c
    ensures forall k :: r < k < |s| ==> s[k] != c
  {
    if s == [] then -1
    else if s[|s| - 1] == c then |s| - 1
    else LastIndexOf(s[..|s| - 1], c)
  }

  /** Some character of s[lo..hi] is not a dot. */
  predicate HasNonDot(s: string, lo: int, hi: int)
    requires 0 <= lo && hi <= |s|
  {
    exists k :: lo <= k < hi && s[k] != '.'
  }

  /** os.path.splitext(p)[0] on POSIX: the text before the last '.', when that dot lies in the
      last path component and is not one of the dots the component starts with. */
  function Stem(p: string): (r: string)
    ensures r == p || (|r| < |p| && p[..|r|] == r && p[|r|] == '.')
  {
    var sep, dot := LastIndexOf(p, '/'), LastIndexOf(p, '.');
    if dot > sep && HasNonDot(p, sep + 1, dot) then p[..dot] else p
  }

  /** A file name with an extension loses exactly the extension. */
  lemma StemOfExtension(root: string, ext: string)
    requires '/' !in root && '/' !in ext && '.' !in ext
    requires exists k :: 0 <= k < |root| && root[k] != '.'
    ensures Stem(root + "." + ext) == root
  {
    var p := root + "." + ext;
    assert p[|root|] == '.';
    assert forall k :: |root| < k < |p| ==> p[k] == ext[k - |root| - 1];
    assert LastIndexOf(p, '.') == |root|;
    assert forall k :: 0 <= k < |p| ==> p[k] != '/';
    assert LastIndexOf(p, '/') == -1;
    var k :| 0 <= k < |root| && root[k] != '.';
    assert p[k] == root[k];
    assert p[..|root|] == root;
  }

  /** A name without a dot is its own stem. */
  lemma StemWithoutDot(p: string)
    requires '.' !in p
    ensures Stem(p) == p
  {
  }

  // ---------------------------------------------------------------------------
  // Scans over the registry
  // ---------------------------------------------------------------------------

  /** `k in t` on strings. */
  predicate IsSubstring(k: string, t: string) {
    exists i :: 0 <= i <= |t| && k <= t[i..]
  }

  /** The index of the first registry key, at i or after, that satisfies `p`: what a
      `for k in keys: if p(k): ...` scan stops at. */
  function FirstKey(p: string -> bool, i: nat): (r: Option<nat>)
    requires i <= |Registry|
    ensures r.Some? ==> i <= r.value < |Registry| && p(Registry[r.value].0)
    ensures r.Some? ==> forall j :: i <= j < r.value ==> !p(Registry[j].0)
    ensures r.None? <==> forall j :: i <= j < |Registry| ==> !p(Registry[j].0)
    decreases |Registry| - i
  {
    if i == |Registry| then None
    else if p(Registry[i].0) then Some(i)
    else FirstKey(p, i + 1)
  }

  /** The keys contained in `t`. */
  function ContainedIn(t: string): string -> bool {
    k => IsSubstring(k, t)
  }

  /** The keys that `joined` scores at least `cutoff` against. */
  function ScoresAbove(ratio: Ratio, joined: string, cutoff: real): string -> bool {
    k => ratio(joined, k) >= cutoff
  }

  /** The exact pass of extract_unit_and_date_from_name (utils.py:65-69): the display name of
      the first key contained in `t`, or None. */
  method ExactUnit(t: string) returns (u: Option<string>)
    ensures u == UnitOf(FirstKey(ContainedIn(t), 0))
  {
    u := None;
    var i := 0;
    while i < |Registry|
      invariant 0 <= i <= |Registry|
      invariant FirstKey(ContainedIn(t), i) == FirstKey(ContainedIn(t), 0)
    {
      var (k, v) := Registry[i];
      if IsSubstring(k, t) {
        u := Some(v);
        break;
      }
      i := i + 1;
    }
  }

  // ---------------------------------------------------------------------------
  // difflib.get_close_matches(word, keys, n=1, cutoff) and _fuzzy_unit
  // ---------------------------------------------------------------------------

  /** Key i ranks above key j in get_close_matches: the pair (score, key) is larger, so a higher
      score, or the same score and the larger key. */
  predicate Outranks(ratio: Ratio, word: string, i: nat, j: nat)
    requires i < |Registry| && j < |Registry|
  {
    var si, sj := ratio(Registry[i].0, word), ratio(Registry[j].0, word);
    si > sj || (si == sj && StrLt(Registry[j].0, Registry[i].0))
  }

  /** The index of the key get_close_matches returns when it looks at keys i onwards: the
      largest (score, key) among the keys scoring at least `cutoff`. */
  function BestClose(ratio: Ratio, word: string, cutoff: real, i: nat): (r: Option<nat>)
    requires i <= |Registry|
    ensures r.Some? ==> i <= r.value < |Registry| && ratio(Registry[r.value].0, word) >= cutoff
    ensures r.None? <==> forall j :: i <= j < |Registry| ==> ratio(Registry[j].0, word) < cutoff
    decreases |Registry| - i
  {
    if i == |Registry| then None
    else
      var rest := BestClose(ratio, word, cutoff, i + 1);
      if ratio(Registry[i].0, word) < cutoff then rest
      else if rest.Some? && Outranks(ratio, word, rest.value, i) then rest
      else Some(i)
  }

  lemma OutranksTotal(ratio: Ratio, word: string, i: nat, j: nat)
    requires i < |Registry| && j < |Registry| && i != j
    ensures Outranks(ratio, word, i, j) || Outranks(ratio, word, j, i)
  {
    KeysDistinct();
    if i < j {
      StrLtTotal(Registry[i].0, Registry[j].0);
    } else {
      StrLtTotal(Registry[j].0, Registry[i].0);
    }
  }

  lemma OutranksTransitive(ratio: Ratio, word: string, i: nat, j: nat, k: nat)
    requires i < |Registry| && j < |Registry| && k < |Registry|
    requires Outranks(ratio, word, i, j) && Outranks(ratio, word, j, k)
    ensures Outranks(ratio, word, i, k)
  {
    if StrLt(Registry[j].0, Registry[i].0) && StrLt(Registry[k].0, Registry[j].0) {
      StrLtTransitive(Registry[k].0, Registry[j].0, Registry[i].0);
    }
  }

  /** The key get_close_matches returns outranks every other key that reaches the cutoff. */
  lemma {:induction false} BestCloseGreatest(ratio: Ratio, word: string, cutoff: real, i: nat)
    requires i <= |Registry| && BestClose(ratio, word, cutoff, i).Some?
    ensures var b := BestClose(ratio, word, cutoff, i).value;
      forall j :: i <= j < |Registry| && j != b && ratio(Registry[j].0, word) >= cutoff ==>
        Outranks(ratio, word, b, j)
    decreases |Registry| - i
  {
    var b := BestClose(ratio, word, cutoff, i).value;
    var rest := BestClose(ratio, word, cutoff, i + 1);
    if rest.Some? {
      BestCloseGreatest(ratio, word, cutoff, i + 1);
    }
    forall j | i <= j < |Registry| && j != b && ratio(Registry[j].0, word) >= cutoff
      ensures Outranks(ratio, word, b, j)
    {
      if ratio(Registry[i].0, word) >= cutoff && !(rest.Some? && Outranks(ratio, word, rest.value, i)) {
        assert b == i && rest.Some?;
        OutranksTotal(ratio, word, i, rest.value);
        if j != rest.value {
          OutranksTransitive(ratio, word, i, rest.value, j);
        }
      }
    }
  }

  /** _fuzzy_unit (utils.py:38-50): the best close match if any; otherwise the first key that
      the space-joined tokens of `u` score at least `cutoff` against. */
  function FuzzyUnitSpec(ratio: Ratio, u: string, cutoff: real): (r: Option<string>)
    requires 0.0 <= cutoff <= 1.0
    ensures r.Some? ==> IsDisplayName(r.value)
  {
    match BestClose(ratio, u, cutoff, 0)
    case Some(i) => Some(Registry[i].1)
    case None => UnitOf(FirstKey(ScoresAbove(ratio, JoinSpace(Words(u)), cutoff), 0))
  }

  /** _fuzzy_unit, with its token loop and early return. */
  method FuzzyUnit(ratio: Ratio, u: string, cutoff: real) returns (r: Option<string>)
    requires 0.0 <= cutoff <= 1.0
    ensures r == FuzzyUnitSpec(ratio, u, cutoff)
  {
    var best := BestClose(ratio, u, cutoff, 0);
    if best.Some? {
      return Some(Registry[best.value].1);
    }
    var joined := JoinSpace(Words(u));
    var i := 0;
    while i < |Registry|
      invariant 0 <= i <= |Registry|
      invariant FirstKey(ScoresAbove(ratio, joined, cutoff), i)
             == FirstKey(ScoresAbove(ratio, joined, cutoff), 0)
    {
      var (k, v) := Registry[i];
      if ratio(joined, k) >= cutoff {
        return Some(v);
      }
      i := i + 1;
    }
    return None;
  }

  /** _fuzzy_unit returns None or a registered display name; it returns a name exactly when
      some key reaches the cutoff in one of its two passes. */
  lemma FuzzyUnitResult(ratio: Ratio, u: string, cutoff: real)
    requires 0.0 <= cutoff <= 1.0
    ensures var r := FuzzyUnitSpec(ratio, u, cutoff);
      && (r.Some? ==> IsDisplayName(r.value))
      && (r.None? <==> forall j :: 0 <= j < |Registry| ==>
            ratio(Registry[j].0, u) < cutoff && ratio(JoinSpace(Words(u)), Registry[j].0) < cutoff)
  {
    var best := BestClose(ratio, u, cutoff, 0);
    var joined := JoinSpace(Words(u));
    var tokens := FirstKey(ScoresAbove(ratio, joined, cutoff), 0);
    assert forall j :: 0 <= j < |Registry| ==>
      (ScoresAbove(ratio, joined, cutoff)(Registry[j].0) <==> ratio(joined, Registry[j].0) >= cutoff);
  }

  /** On normalised text and a symmetric score the token pass adds nothing: the result is the
      best close match alone. */
  lemma TokenPassRedundant(ratio: Ratio, u: string, cutoff: real)
    requires 0.0 <= cutoff <= 1.0
    requires Canonical(u)
    requires forall a, b :: ratio(a, b) == ratio(b, a)
    ensures FuzzyUnitSpec(ratio, u, cutoff) == UnitOf(BestClose(ratio, u, cutoff, 0))
  {
    JoinWordsOfCanonical(u);
    var p := ScoresAbove(ratio, u, cutoff);
    if BestClose(ratio, u, cutoff, 0).None? {
      forall j | 0 <= j < |Registry| ensures !p(Registry[j].0) {
        assert ratio(u, Registry[j].0) == ratio(Registry[j].0, u);
      }
    }
  }

  // ---------------------------------------------------------------------------
  // extract_unit_and_date_from_name
  // ---------------------------------------------------------------------------

  /** The date of a file-name stem: the first DATE_PATTERN match, normalised. It is "DD.MM" of
      the day digits and the month digits of that match. */
  function DateOf(stem: string): (r: Option<string>)
    ensures r.None? <==> Dates.SearchDate(stem).None?
    ensures r.Some? ==> Dates.IsCanonicalDate(r.value) && Dates.IsNormalDate(r.value)
    ensures r.Some? ==>
      var (x, y) := Dates.MatchParts(stem, Dates.SearchDate(stem).value.0);
      && r.value == Dates.FormatDate(Dates.DigitsValue(x), Dates.DigitsValue(y))
      && Dates.ParseDate(r.value) == Some((Dates.DigitsValue(x), Dates.DigitsValue(y)))
  {
    match Dates.SearchDate(stem)
    case None => None
    case Some(found) => Some(Dates.NormalizedMatch(stem, found.0))
  }

  /** The normalised text the location is looked for in: the stem with every date removed. */
  function Candidate(stem: string): string {
    NormText(Dates.RemoveDates(stem))
  }

  /** The location of a candidate: the first key it contains, else _fuzzy_unit at 0.75. */
  function UnitOfCandidate(ratio: Ratio, part: string): (r: Option<string>)
    ensures r.Some? ==> IsDisplayName(r.value)
  {
    match FirstKey(ContainedIn(part), 0)
    case Some(i) => Some(Registry[i].1)
    case None => FuzzyUnitSpec(ratio, part, ExtractCutoff)
  }

  /** extract_unit_and_date_from_name (utils.py:52-74): (location, date). */
  function Extract(ratio: Ratio, name: string): (r: (Option<string>, Option<string>))
    ensures r.0.Some? ==> IsDisplayName(r.0.value)
    ensures r.1.Some? ==> Dates.IsCanonicalDate(r.1.value)
  {
    var stem := Stem(name);
    (UnitOfCandidate(ratio, Candidate(stem)), DateOf(stem))
  }

  method ExtractUnitAndDate(ratio: Ratio, name: string) returns (unit: Option<string>, date: Option<string>)
    ensures (unit, date) == Extract(ratio, name)
  {
    var stem := Stem(name);
    var part := NormText(Dates.RemoveDates(stem));
    unit := ExactUnit(part);
    if unit.None? {
      unit := FuzzyUnit(ratio, part, ExtractCutoff);
    }
    assert unit == UnitOfCandidate(ratio, part);
    date := DateOf(stem);
  }

  /** The first key contained in the candidate decides the location, whatever the score. */
  lemma ExactMatchWins(ratio: Ratio, name: string, i: nat)
    requires i < |Registry|
    requires IsSubstring(Registry[i].0, Candidate(Stem(name)))
    requires forall j :: 0 <= j < i ==> !IsSubstring(Registry[j].0, Candidate(Stem(name)))
    ensures Extract(ratio, name).0 == Some(Registry[i].1)
  {
    var part := Candidate(Stem(name));
    assert ContainedIn(part)(Registry[i].0);
    forall j | 0 <= j < i ensures !ContainedIn(part)(Registry[j].0) {
    }
  }

  /** The score is consulted only when the candidate contains no key. */
  lemma FuzzyOnlyWithoutKey(ratio: Ratio, other: Ratio, name: string)
    requires exists j :: 0 <= j < |Registry| && IsSubstring(Registry[j].0, Candidate(Stem(name)))
    ensures Extract(ratio, name) == Extract(other, name)
  {
    var part := Candidate(Stem(name));
    var j :| 0 <= j < |Registry| && IsSubstring(Registry[j].0, part);
    assert ContainedIn(part)(Registry[j].0);
  }

  /** Without a contained key, the location is _fuzzy_unit's answer at cutoff 0.75. */
  lemma FuzzyWhenNoKey(ratio: Ratio, name: string)
    requires forall j :: 0 <= j < |Registry| ==> !IsSubstring(Registry[j].0, Candidate(Stem(name)))
    ensures Extract(ratio, name).0 == FuzzyUnitSpec(ratio, Candidate(Stem(name)), ExtractCutoff)
  {
    var part := Candidate(Stem(name));
    forall j | 0 <= j < |Registry| ensures !ContainedIn(part)(Registry[j].0) {
    }
  }

  /** The candidate is normalised text. */
  lemma CandidateCanonical(stem: string)
    ensures Canonical(Candidate(stem))
  {
    NormTextCanonical(Dates.RemoveDates(stem));
  }

  /** A stem without a date is normalised as it is. */
  lemma CandidateWithoutDate(stem: string)
    requires Dates.SearchDate(stem).None?
    ensures Candidate(stem) == NormText(stem)
  {
    Dates.DatePatternAdvances();
    Dates.SubSkipsFirstMatch(Dates.DateMatchAt, stem, 0);
    assert Dates.RemoveDates(stem) == stem[0..] == stem;
  }

  /** The candidate is the stem with its first date match cut out and the text after it
      treated the same way. */
  lemma CandidateCutsFirstDate(stem: string)
    requires Dates.SearchDate(stem).Some?
    ensures var (j, n) := Dates.SearchDate(stem).value;
      Candidate(stem) == NormText(stem[..j] + Dates.Sub(Dates.DateMatchAt, stem, j + n))
  {
    Dates.DatePatternAdvances();
    var (j, n) := Dates.SearchDate(stem).value;
    Dates.SubSkipsFirstMatch(Dates.DateMatchAt, stem, 0);
    assert stem[0..j] == stem[..j];
    assert Dates.RemoveDates(stem) == stem[..j] + Dates.Sub(Dates.DateMatchAt, stem, j + n);
  }

  /** On the way to _fuzzy_unit the candidate is already normalised, so the token pass compares
      the candidate itself. */
  lemma CandidateTokensJoin(stem: string)
    ensures JoinSpace(Words(Candidate(stem))) == Candidate(stem)
  {
    CandidateCanonical(stem);
    JoinWordsOfCanonical(Candidate(stem));
  }
}
