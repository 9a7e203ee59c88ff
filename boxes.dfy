/** The spreadsheet side of utils.py: split_boxes, _read_sheet, load_boxes_ge5 and
    load_boxes_anydays, over a sheet given as its column names and rows. */
module Boxes {
  import opened Wrappers
  import opened Text

  /** COL_DIAS (utils.py:18). */
  const DaysColumn: string := "Dias Inadimplência"

  /** COL_BOXES (utils.py:19). */
  const BoxesColumn: string := "Boxes"

  /** The ValueError message of _read_sheet (utils.py:86). */
  const MissingColumns: string := "Planilha sem colunas obrigatórias: " + DaysColumn + ", " + BoxesColumn

  /** The threshold of load_boxes_ge5, in days overdue. */
  const OverdueDays: real := 5.0

  /** One spreadsheet row as _read_sheet keeps it: the days overdue after pd.to_numeric with
      errors='coerce' (None for NaN) and the text of the boxes cell (None for NaN). */
  datatype Row = Row(days: Option<real>, boxes: Option<string>)

  /** A sheet as pd.read_excel returns it: its column names and its rows. */
  datatype Sheet = Sheet(columns: seq<string>, rows: seq<Row>)

  // ---------------------------------------------------------------------------
  // split_boxes
  // ---------------------------------------------------------------------------

  /** The separator class [,/;\|\n\r]. */
  predicate IsBoxSep(c: char) {
    c == ',' || c == '/' || c == ';' || c == '|' || c == '\n' || c == '\r'
  }

  predicate NoSep(s: string) {
    forall i :: 0 <= i < |s| ==> !IsBoxSep(s[i])
  }

  /** The characters of `s` other than separators, in order. */
  function DropSeps(s: string): string {
    if s == [] then [] else (if IsBoxSep(s[0]) then [] else [s[0]]) + DropSeps(s[1..])
  }

  function SepCount(s: string): nat {
    if s == [] then 0 else (if IsBoxSep(s[0]) then 1 else 0) + SepCount(s[1..])
  }

  function Concat(ps: seq<string>): string {
    if ps == [] then [] else ps[0] + Concat(ps[1..])
  }

  /** re.split(r"[,/;\|\n\r]", s): the pieces between separators, empty ones included. */
  function Pieces(s: string): (r: seq<string>)
    ensures |r| == SepCount(s) + 1
    ensures forall k :: 0 <= k < |r| ==> NoSep(r[k])
    ensures Concat(r) == DropSeps(s)
  {
    if s == [] then [[]]
    else
      var rest := Pieces(s[1..]);
      if IsBoxSep(s[0]) then [[]] + rest
      else
        var r := [[s[0]] + rest[0]] + rest[1..];
        assert Concat(rest) == rest[0] + Concat(rest[1..]);
        assert r[1..] == rest[1..];
        r
  }

  /** [p.strip().upper() for p in parts if p.strip()] */
  function Tokens(ps: seq<string>): seq<string> {
    if ps == [] then []
    else (if Trim(ps[0]) != [] then [Upper(Trim(ps[0]))] else []) + Tokens(ps[1..])
  }

  /** split_boxes (utils.py:76-81); None stands for a cell pd.isna reports. */
  function SplitBoxes(value: Option<string>): seq<string> {
    match value
    case None => []
    case Some(s) => Tokens(Pieces(s))
  }

  /** What a token of split_boxes looks like: not empty, no surrounding whitespace, no
      separator, and already upper case. */
  predicate IsToken(t: string) {
    t != [] && Trimmed(t) && NoSep(t) && Upper(t) == t
  }

  lemma UpperCharShape(c: char)
    ensures UpperChar(c) != []
    ensures !IsSpace(c) ==> forall d :: d in UpperChar(c) ==> !IsSpace(d)
    ensures !IsBoxSep(c) ==> forall d :: d in UpperChar(c) ==> !IsBoxSep(d)
    ensures forall d :: d in UpperChar(c) ==> UpperChar(d) == [d]
  {
  }

  lemma {:induction false} UpperAppend(a: string, b: string)
    ensures Upper(a + b) == Upper(a) + Upper(b)
    decreases |a|
  {
    if a != [] {
      assert (a + b)[0] == a[0] && (a + b)[1..] == a[1..] + b;
      assert Upper(a + b) == UpperChar(a[0]) + Upper(a[1..] + b);
      UpperAppend(a[1..], b);
      assert UpperChar(a[0]) + (Upper(a[1..]) + Upper(b)) == (UpperChar(a[0]) + Upper(a[1..])) + Upper(b);
    } else {
      assert a + b == b;
    }
  }

  /** Upper of one upper-cased character changes nothing. */
  lemma UpperOfUpperChar(c: char)
    ensures Upper(UpperChar(c)) == UpperChar(c)
  {
    UpperCharShape(c);
    var u := UpperChar(c);
    if c == '\U{DF}' {
      assert u == ['S', 'S'] && u[1..] == ['S'] && u[1..][1..] == [];
      assert Upper(u[1..]) == ['S'];
    } else {
      assert |u| == 1 && u[1..] == [];
    }
  }

  /** str.upper() is idempotent. */
  lemma {:induction false} UpperIdempotent(x: string)
    ensures Upper(Upper(x)) == Upper(x)
    decreases |x|
  {
    if x != [] {
      UpperIdempotent(x[1..]);
      UpperOfUpperChar(x[0]);
      UpperAppend(UpperChar(x[0]), Upper(x[1..]));
    }
  }

  /** str.upper() brings in no separator. */
  lemma {:induction false} UpperNoSep(x: string)
    requires NoSep(x)
    ensures NoSep(Upper(x))
    decreases |x|
  {
    if x != [] {
      assert NoSep(x[1..]);
      UpperNoSep(x[1..]);
      UpperCharShape(x[0]);
      var u, v := UpperChar(x[0]), Upper(x[1..]);
      assert forall i :: 0 <= i < |u| ==> !IsBoxSep(u[i]);
      assert forall i :: 0 <= i < |u + v| ==> (u + v)[i] == if i < |u| then u[i] else v[i - |u|];
    }
  }

  /** Upper keeps a non-empty trimmed text trimmed and non-empty. */
  lemma UpperTrimmed(x: string)
    requires x != [] && Trimmed(x)
    ensures Upper(x) != [] && Trimmed(Upper(x))
  {
    UpperCharShape(x[0]);
    var n := |x| - 1;
    UpperCharShape(x[n]);
    assert x == x[..n] + [x[n]];
    UpperAppend(x[..n], [x[n]]);
    assert Upper([x[n]]) == UpperChar(x[n]);
    var u := Upper(x);
    assert u[|u| - 1] in UpperChar(x[n]);
    assert u[0] in UpperChar(x[0]);
  }

  lemma TokenOfPiece(p: string)
    requires NoSep(p) && Trim(p) != []
    ensures IsToken(Upper(Trim(p)))
  {
    var t := Trim(p);
    TrimIsSlice(p);
    TrimIsTrimmed(p);
    assert NoSep(t);
    UpperTrimmed(t);
    UpperNoSep(t);
    UpperIdempotent(t);
  }

  lemma {:induction false} TokensAreTokens(ps: seq<string>)
    requires forall k :: 0 <= k < |ps| ==> NoSep(ps[k])
    ensures forall k :: 0 <= k < |Tokens(ps)| ==> IsToken(Tokens(ps)[k])
  {
    if ps != [] {
      TokensAreTokens(ps[1..]);
      if Trim(ps[0]) != [] {
        TokenOfPiece(ps[0]);
      }
    }
  }

  /** Every element split_boxes returns is a token. */
  lemma SplitBoxesTokens(value: Option<string>)
    ensures forall k :: 0 <= k < |SplitBoxes(value)| ==> IsToken(SplitBoxes(value)[k])
  {
    if value.Some? {
      TokensAreTokens(Pieces(value.value));
    }
  }

  /** Every piece with something other than whitespace in it gives a token. */
  lemma {:induction false} TokensCover(ps: seq<string>, k: nat)
    requires k < |ps| && Trim(ps[k]) != []
    ensures Upper(Trim(ps[k])) in Tokens(ps)
  {
    assert ps == [ps[0]] + ps[1..];
    TokensCons(ps[0], ps[1..]);
    if k > 0 {
      TokensCover(ps[1..], k - 1);
      assert ps[1..][k - 1] == ps[k];
    }
  }

  /** A text without separators is a single piece. */
  lemma {:induction false} PiecesOfPlain(x: string)
    requires NoSep(x)
    ensures Pieces(x) == [x]
  {
    if x != [] {
      PiecesOfPlain(x[1..]);
      assert [x[0]] + x[1..] == x;
    }
  }

  /** A separator ends the piece before it. */
  lemma {:induction false} PiecesAtSep(x: string, c: char, y: string)
    requires NoSep(x) && IsBoxSep(c)
    ensures Pieces(x + [c] + y) == [x] + Pieces(y)
  {
    var s := x + [c] + y;
    if x == [] {
      assert s[1..] == y;
    } else {
      assert s[0] == x[0] && s[1..] == x[1..] + [c] + y;
      PiecesAtSep(x[1..], c, y);
      assert [x[0]] + x[1..] == x;
    }
  }

  lemma TokensCons(p: string, ps: seq<string>)
    ensures Tokens([p] + ps) == (if Trim(p) != [] then [Upper(Trim(p))] else []) + Tokens(ps)
  {
    assert ([p] + ps)[1..] == ps;
  }

  lemma TokenStable(p: string)
    requires IsToken(p)
    ensures Trim(p) == p && p != [] && Upper(p) == p
  {
    TrimOfTrimmed(p);
  }

  /** Pieces that strip and upper-casing leave as they are come out unchanged. */
  lemma {:induction false} TokensOfTokens(ps: seq<string>)
    requires forall k :: 0 <= k < |ps| ==> Stable(ps[k])
    ensures Tokens(ps) == ps
  {
    if ps != [] {
      var p, rest := ps[0], ps[1..];
      assert forall k :: 0 <= k < |rest| ==> Stable(rest[k]) by {
        forall k | 0 <= k < |rest| ensures Stable(rest[k]) {
          assert rest[k] == ps[k + 1];
        }
      }
      TokensOfTokens(rest);
      assert ps == [p] + rest;
      TokensConsStable(p, rest);
    }
  }

  /** A piece that strip and upper-casing leave as it is. */
  predicate Stable(p: string) {
    Trim(p) == p && p != [] && Upper(p) == p
  }

  lemma TokensConsStable(p: string, rest: seq<string>)
    requires Stable(p)
    ensures Tokens([p] + rest) == [p] + Tokens(rest)
  {
    TokensCons(p, rest);
  }

  /** Texts joined by one separator character each, as a cell listing several boxes reads. */
  function JoinWith(ts: seq<string>, seps: seq<char>): string
    requires |ts| == |seps| + 1
  {
    if seps == [] then ts[0] else ts[0] + [seps[0]] + JoinWith(ts[1..], seps[1..])
  }

  lemma {:induction false} PiecesOfJoin(ts: seq<string>, seps: seq<char>)
    requires |ts| == |seps| + 1
    requires forall k :: 0 <= k < |ts| ==> NoSep(ts[k])
    requires forall k :: 0 <= k < |seps| ==> IsBoxSep(seps[k])
    ensures Pieces(JoinWith(ts, seps)) == ts
  {
    if seps == [] {
      PiecesOfPlain(ts[0]);
      assert ts == [ts[0]];
    } else {
      PiecesOfJoin(ts[1..], seps[1..]);
      PiecesAtSep(ts[0], seps[0], JoinWith(ts[1..], seps[1..]));
      assert ts == [ts[0]] + ts[1..];
    }
  }

  /** split_boxes gives back the boxes a cell lists between separators, whichever of
      ',', '/', ';', '|', newline or carriage return separates them. */
  lemma SplitBoxesOfJoin(ts: seq<string>, seps: seq<char>)
    requires |ts| == |seps| + 1
    requires forall k :: 0 <= k < |ts| ==> IsToken(ts[k])
    requires forall k :: 0 <= k < |seps| ==> IsBoxSep(seps[k])
    ensures SplitBoxes(Some(JoinWith(ts, seps))) == ts
  {
    forall k | 0 <= k < |ts|
      ensures NoSep(ts[k]) && Stable(ts[k])
    {
      TokenStable(ts[k]);
    }
    PiecesOfJoin(ts, seps);
    TokensOfTokens(ts);
  }

  // ---------------------------------------------------------------------------
  // _read_sheet, load_boxes_ge5, load_boxes_anydays
  // ---------------------------------------------------------------------------

  /** _read_sheet (utils.py:83-87): the rows, or the ValueError when a column is missing. */
  function ReadSheet(sheet: Sheet): (r: Result<seq<Row>, string>)
    ensures r.Failure? <==> DaysColumn !in sheet.columns || BoxesColumn !in sheet.columns
    ensures r.Failure? ==> r.error == MissingColumns
    ensures r.Success? ==> r.value == sheet.rows
  {
    if DaysColumn !in sheet.columns || BoxesColumn !in sheet.columns then Failure(MissingColumns)
    else Success(sheet.rows)
  }

  /** df[df[COL_DIAS] >= 5]; NaN compares false. */
  predicate IsOverdue(row: Row) {
    row.days.Some? && row.days.value >= OverdueDays
  }

  function Overdue(rows: seq<Row>): (r: seq<Row>)
    ensures forall x :: x in r <==> x in rows && IsOverdue(x)
  {
    if rows == [] then []
    else (if IsOverdue(rows[0]) then [rows[0]] else []) + Overdue(rows[1..])
  }

  function Elems(xs: seq<string>): set<string> {
    set x | x in xs
  }

  /** Every token `split` finds in the boxes cells of `rows`. */
  function BoxesOf(rows: seq<Row>, split: Option<string> -> seq<string>): set<string> {
    if rows == [] then {}
    else BoxesOf(rows[..|rows| - 1], split) + Elems(split(rows[|rows| - 1].boxes))
  }

  /** A box is collected exactly when some row's boxes cell yields it. */
  lemma {:induction false} BoxesOfMember(rows: seq<Row>, split: Option<string> -> seq<string>, b: string)
    ensures b in BoxesOf(rows, split) <==> exists x :: x in rows && b in split(x.boxes)
    decreases |rows|
  {
    if rows != [] {
      var n := |rows| - 1;
      BoxesOfMember(rows[..n], split, b);
      assert rows == rows[..n] + [rows[n]];
      assert forall x :: x in rows <==> x in rows[..n] || x == rows[n];
    }
  }

  lemma ElemsSnoc(xs: seq<string>, x: string)
    ensures Elems(xs + [x]) == Elems(xs) + {x}
  {
    assert forall y :: y in xs + [x] <==> y in xs || y == x;
  }

  lemma BoxesOfSnoc(rows: seq<Row>, i: nat, split: Option<string> -> seq<string>)
    requires i < |rows|
    ensures BoxesOf(rows[..i + 1], split) == BoxesOf(rows[..i], split) + Elems(split(rows[i].boxes))
  {
    assert rows[..i + 1][..i] == rows[..i];
  }

  /** The two nested `for` loops of the loaders: every token `split` finds in every row,
      added to a set. The loaders pass split_boxes. */
  method CollectBoxes(rows: seq<Row>, split: Option<string> -> seq<string>) returns (boxes: set<string>)
    ensures boxes == BoxesOf(rows, split)
  {
    boxes := {};
    var i := 0;
    while i < |rows|
      invariant 0 <= i <= |rows|
      invariant boxes == BoxesOf(rows[..i], split)
    {
      var tokens := split(rows[i].boxes);
      var j := 0;
      while j < |tokens|
        invariant 0 <= j <= |tokens|
        invariant boxes == BoxesOf(rows[..i], split) + Elems(tokens[..j])
      {
        ElemsSnoc(tokens[..j], tokens[j]);
        assert tokens[..j + 1] == tokens[..j] + [tokens[j]];
        boxes := boxes + {tokens[j]};
        j := j + 1;
      }
      assert tokens[..j] == tokens;
      BoxesOfSnoc(rows, i, split);
      i := i + 1;
    }
    assert rows[..i] == rows;
  }

  /** load_boxes_ge5 (utils.py:89-97) as a value. */
  function OverdueBoxes(sheet: Sheet): Result<set<string>, string> {
    var rows :- ReadSheet(sheet);
    Success(BoxesOf(Overdue(rows), SplitBoxes))
  }

  /** load_boxes_anydays (utils.py:99-105) as a value. */
  function AllBoxes(sheet: Sheet): Result<set<string>, string> {
    var rows :- ReadSheet(sheet);
    Success(BoxesOf(rows, SplitBoxes))
  }

  method LoadBoxesGe5(sheet: Sheet) returns (r: Result<set<string>, string>)
    ensures r == OverdueBoxes(sheet)
  {
    var rows :- ReadSheet(sheet);
    var boxes := CollectBoxes(Overdue(rows), SplitBoxes);
    return Success(boxes);
  }

  method LoadBoxesAnyDays(sheet: Sheet) returns (r: Result<set<string>, string>)
    ensures r == AllBoxes(sheet)
  {
    var rows :- ReadSheet(sheet);
    var boxes := CollectBoxes(rows, SplitBoxes);
    return Success(boxes);
  }

  /** Both loaders fail together, on a sheet without the two columns, with the same message. */
  lemma LoadersFailTogether(sheet: Sheet)
    ensures OverdueBoxes(sheet).Failure? <==> AllBoxes(sheet).Failure?
    ensures OverdueBoxes(sheet).Failure? <==> DaysColumn !in sheet.columns || BoxesColumn !in sheet.columns
    ensures OverdueBoxes(sheet).Failure? ==> OverdueBoxes(sheet).error == AllBoxes(sheet).error == MissingColumns
  {
  }

  /** load_boxes_ge5 yields exactly the boxes of the rows at least five days overdue. */
  lemma OverdueBoxesMember(sheet: Sheet, b: string)
    requires OverdueBoxes(sheet).Success?
    ensures b in OverdueBoxes(sheet).value <==>
      exists x :: x in sheet.rows && IsOverdue(x) && b in SplitBoxes(x.boxes)
  {
    BoxesOfMember(Overdue(sheet.rows), SplitBoxes, b);
  }

  /** load_boxes_anydays yields exactly the boxes of all rows. */
  lemma AllBoxesMember(sheet: Sheet, b: string)
    requires AllBoxes(sheet).Success?
    ensures b in AllBoxes(sheet).value <==> exists x :: x in sheet.rows && b in SplitBoxes(x.boxes)
  {
    BoxesOfMember(sheet.rows, SplitBoxes, b);
  }

  /** What load_boxes_ge5 returns, load_boxes_anydays returns as well. */
  lemma OverdueWithinAll(sheet: Sheet)
    requires AllBoxes(sheet).Success?
    ensures OverdueBoxes(sheet).Success? && OverdueBoxes(sheet).value <= AllBoxes(sheet).value
  {
    forall b | b in OverdueBoxes(sheet).value ensures b in AllBoxes(sheet).value {
      OverdueBoxesMember(sheet, b);
      AllBoxesMember(sheet, b);
    }
  }

  /** Every box either loader returns is a token. */
  lemma LoadedAreTokens(sheet: Sheet)
    requires AllBoxes(sheet).Success?
    ensures forall b :: b in AllBoxes(sheet).value ==> IsToken(b)
  {
    forall b | b in AllBoxes(sheet).value ensures IsToken(b) {
      AllBoxesMember(sheet, b);
      var x :| x in sheet.rows && b in SplitBoxes(x.boxes);
      SplitBoxesTokens(x.boxes);
    }
  }
}
