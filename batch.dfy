/** process_report_batch: the two latest report dates, the comparison of the overdue boxes of
    each registered location between them, and the per-bucket diagnostics. */
module Batch {
  import opened Wrappers
  import opened Order
  import opened Grouping
  import Dates
  import Boxes
  import Units

  /** The alert of a location whose comparison is inconclusive (utils.py:158). */
  const InconclusiveAlert: string :=
    "Comparação inconclusiva: faltou planilha da data anterior ou atual para esta unidade."

  /** The spreadsheet behind each uploaded path: what _read_sheet finds there. */
  type Files = string -> Boxes.Sheet

  /** Python truthiness of a date: neither None nor "". */
  predicate Truthy(d: Option<string>) {
    d.Some? && d.value != []
  }

  // ---------------------------------------------------------------------------
  // all_dates
  // ---------------------------------------------------------------------------

  /** The date keys of the buckets of `keys`, location by location, in dict order. */
  function DateKeys(g: Grouped, keys: seq<Location>): seq<Date> {
    if keys == [] then []
    else DateKeys(g, keys[..|keys| - 1]) + Get(g, keys[|keys| - 1], Empty()).keys
  }

  /** all_dates.add(d) behind `if d:`. */
  function AddDate(acc: seq<string>, d: Date): seq<string> {
    if Truthy(d) && d.value !in acc then acc + [d.value] else acc
  }

  /** The truthy dates of `ds`, each once, where it first occurs. */
  function Gather(ds: seq<Date>): seq<string> {
    if ds == [] then []
    else AddDate(Gather(ds[..|ds| - 1]), ds[|ds| - 1])
  }

  /** all_dates holds exactly the truthy dates, each once. */
  lemma {:induction false} GatherShape(ds: seq<Date>)
    ensures forall x :: x in Gather(ds) <==> Some(x) in ds && x != []
    ensures forall i, j :: 0 <= i < j < |Gather(ds)| ==> Gather(ds)[i] != Gather(ds)[j]
    decreases |ds|
  {
    if ds != [] {
      GatherShape(ds[..|ds| - 1]);
      assert forall y :: y in ds <==> y in ds[..|ds| - 1] || y == ds[|ds| - 1];
    }
  }

  /** all_dates, listed in the order the grouping first shows each date. Python iterates the
      set in an order of its own; PickAnyOrder shows that the pick does not depend on it. */
  function AllDates(g: Grouped): seq<string> {
    Gather(DateKeys(g, g.keys))
  }

  lemma GatherSnoc(ds: seq<Date>, d: Date)
    ensures Gather(ds + [d]) == AddDate(Gather(ds), d)
  {
    assert (ds + [d])[..|ds|] == ds;
  }

  lemma DateKeysSnoc(g: Grouped, keys: seq<Location>, i: nat)
    requires i < |keys|
    ensures DateKeys(g, keys[..i + 1]) == DateKeys(g, keys[..i]) + Get(g, keys[i], Empty()).keys
  {
    assert keys[..i + 1][..i] == keys[..i];
  }

  /** The two nested loops that fill all_dates (utils.py:135-139). */
  method CollectDates(g: Grouped) returns (dates: seq<string>)
    ensures dates == AllDates(g)
  {
    dates := [];
    for i := 0 to |g.keys|
      invariant dates == Gather(DateKeys(g, g.keys[..i]))
    {
      dates := AddDatesOf(dates, DateKeys(g, g.keys[..i]), Get(g, g.keys[i], Empty()).keys);
      DateKeysSnoc(g, g.keys, i);
    }
    assert g.keys[..|g.keys|] == g.keys;
  }

  /** The inner loop of CollectDates: the truthy dates among `ks` not yet collected are added,
      in order. */
  method AddDatesOf(dates: seq<string>, ghost before: seq<Date>, ks: seq<Date>) returns (r: seq<string>)
    requires dates == Gather(before)
    ensures r == Gather(before + ks)
  {
    r := dates;
    GatherStep(before, ks, 0);
    for j := 0 to |ks|
      invariant r == Gather(before + ks[..j])
    {
      GatherStep(before, ks, j + 1);
      var d := ks[j];
      if d.Some? && d.value != [] && d.value !in r {
        r := r + [d.value];
      }
    }
    assert ks[..|ks|] == ks;
  }

  /** One step of the inner loop: taking the next date key is one AddDate. */
  lemma GatherStep(before: seq<Date>, ks: seq<Date>, j: nat)
    requires j <= |ks|
    ensures j == 0 ==> Gather(before + ks[..j]) == Gather(before)
    ensures j > 0 ==> Gather(before + ks[..j]) == AddDate(Gather(before + ks[..j - 1]), ks[j - 1])
  {
    if j == 0 {
      assert before + ks[..j] == before;
    } else {
      assert before + ks[..j] == (before + ks[..j - 1]) + [ks[j - 1]];
      GatherSnoc(before + ks[..j - 1], ks[j - 1]);
    }
  }

  lemma {:induction false} DateKeysMember(g: Grouped, keys: seq<Location>, d: Date)
    ensures d in DateKeys(g, keys) <==> exists k :: 0 <= k < |keys| && d in Get(g, keys[k], Empty()).keys
    decreases |keys|
  {
    if keys != [] {
      var n := |keys| - 1;
      DateKeysMember(g, keys[..n], d);
      if d in Get(g, keys[n], Empty()).keys {
        assert 0 <= n < |keys|;
      }
      if exists k :: 0 <= k < |keys| && d in Get(g, keys[k], Empty()).keys {
        var k :| 0 <= k < |keys| && d in Get(g, keys[k], Empty()).keys;
        if k < n {
          assert keys[..n][k] == keys[k];
        }
      }
    }
  }

  /** Every date key of the grouping is None or a "DD.MM" date. */
  ghost predicate CanonicalDates(g: Grouped) {
    forall u, d :: u in g.entries && d in g.entries[u].entries && d.Some? ==> Dates.IsCanonicalDate(d.value)
  }

  /** A reader whose every date is "DD.MM". */
  ghost predicate ReadsCanonicalDates(items: seq<Item>, reader: Labeller) {
    forall i :: 0 <= i < |items| && reader(items[i].name).1.Some? ==>
      Dates.IsCanonicalDate(reader(items[i].name).1.value)
  }

  /** extract_unit_and_date_from_name only ever reads "DD.MM" dates. */
  lemma ExtractorReadsCanonicalDates(ratio: Units.Ratio, items: seq<Item>)
    ensures ReadsCanonicalDates(items, Extractor(ratio))
  {
    forall i | 0 <= i < |items| && Extractor(ratio)(items[i].name).1.Some?
      ensures Dates.IsCanonicalDate(Extractor(ratio)(items[i].name).1.value)
    {
      var stem := Units.Stem(items[i].name);
      assert Extractor(ratio)(items[i].name).1 == Units.DateOf(stem);
    }
  }

  lemma {:induction false} GroupCanonicalDates(items: seq<Item>, reader: Labeller)
    requires ReadsCanonicalDates(items, reader)
    ensures CanonicalDates(Group(items, reader))
    decreases |items|
  {
    if items != [] {
      var n := |items| - 1;
      assert ReadsCanonicalDates(items[..n], reader) by {
        forall i | 0 <= i < n ensures items[..n][i] == items[i] {}
      }
      GroupCanonicalDates(items[..n], reader);
      assert reader(items[n].name).1.Some? ==> Dates.IsCanonicalDate(reader(items[n].name).1.value);
    }
  }

  /** Whatever order Python iterates all_dates in, pick_two_dates picks the same pair as on
      AllDates, and never raises. */
  lemma PickAnyOrder(ratio: Units.Ratio, items: seq<Item>, listing: seq<string>)
    requires forall i, j :: 0 <= i < j < |listing| ==> listing[i] != listing[j]
    requires forall d :: d in listing <==> d in AllDates(Group(items, Extractor(ratio)))
    ensures Dates.PickTwoDates(listing).Success?
    ensures Dates.PickTwoDates(listing) == Dates.PickTwoDates(AllDates(Group(items, Extractor(ratio))))
  {
    var g := Group(items, Extractor(ratio));
    ExtractorReadsCanonicalDates(ratio, items);
    GroupCanonicalDates(items, Extractor(ratio));
    GroupWellGrouped(items, Extractor(ratio));
    GatherShape(DateKeys(g, g.keys));
    forall d | d in listing ensures Dates.IsCanonicalDate(d) {
      DateKeysMember(g, g.keys, Some(d));
      var k :| 0 <= k < |g.keys| && Some(d) in Get(g, g.keys[k], Empty()).keys;
      assert g.keys[k] in g.entries;
    }
    Dates.PickTwoDatesOrderFree(listing, AllDates(g));
  }

  // ---------------------------------------------------------------------------
  // The diagnostics
  // ---------------------------------------------------------------------------

  /** {"unidade": ..., "data": ..., "qtde": ...} */
  datatype FileCount = FileCount(unit: Location, date: Date, count: nat)

  /** The rows of one location's buckets, for the date keys `ks`. */
  function Counts(u: Location, dates: Grouping.Dates, ks: seq<Date>): seq<FileCount> {
    if ks == [] then []
    else Counts(u, dates, ks[..|ks| - 1]) + [FileCount(u, ks[|ks| - 1], |Get(dates, ks[|ks| - 1], [])|)]
  }

  /** The rows of the locations `keys`, in dict order. */
  function DiagOf(g: Grouped, keys: seq<Location>): seq<FileCount> {
    if keys == [] then []
    else
      var u := keys[|keys| - 1];
      var dates := Get(g, u, Empty());
      DiagOf(g, keys[..|keys| - 1]) + Counts(u, dates, dates.keys)
  }

  /** The two nested loops that fill diag["files"] (utils.py:143-145). */
  method DiagRows(g: Grouped) returns (rows: seq<FileCount>)
    ensures rows == DiagOf(g, g.keys)
  {
    rows := [];
    for i := 0 to |g.keys|
      invariant rows == DiagOf(g, g.keys[..i])
    {
      var u := g.keys[i];
      var dates := Get(g, u, Empty());
      ghost var before := rows;
      for j := 0 to |dates.keys|
        invariant rows == before + Counts(u, dates, dates.keys[..j])
      {
        var d := dates.keys[j];
        rows := rows + [FileCount(u, d, |Get(dates, d, [])|)];
        assert dates.keys[..j + 1][..j] == dates.keys[..j];
      }
      assert dates.keys[..|dates.keys|] == dates.keys;
      assert g.keys[..i + 1][..i] == g.keys[..i];
    }
    assert g.keys[..|g.keys|] == g.keys;
  }

  function CountSum(rows: seq<FileCount>): int {
    if rows == [] then 0 else CountSum(rows[..|rows| - 1]) + rows[|rows| - 1].count
  }

  lemma {:induction false} CountSumAppend(a: seq<FileCount>, b: seq<FileCount>)
    ensures CountSum(a + b) == CountSum(a) + CountSum(b)
    decreases |b|
  {
    if b != [] {
      assert (a + b)[..|a + b| - 1] == a + b[..|b| - 1];
      CountSumAppend(a, b[..|b| - 1]);
    } else {
      assert a + b == a;
    }
  }

  lemma {:induction false} CountsSum(u: Location, dates: Grouping.Dates, ks: seq<Date>)
    ensures CountSum(Counts(u, dates, ks)) == SumOver(ks, dates.entries, PathCount)
    decreases |ks|
  {
    if ks != [] {
      var n := |ks| - 1;
      CountsSum(u, dates, ks[..n]);
      CountSumAppend(Counts(u, dates, ks[..n]), [FileCount(u, ks[n], |Get(dates, ks[n], [])|)]);
      assert CountSum([FileCount(u, ks[n], |Get(dates, ks[n], [])|)]) == |Get(dates, ks[n], [])|;
    }
  }

  lemma {:induction false} DiagSum(g: Grouped, keys: seq<Location>)
    ensures CountSum(DiagOf(g, keys)) == SumOver(keys, g.entries, DatesTotal)
    decreases |keys|
  {
    if keys != [] {
      var n := |keys| - 1;
      var dates := Get(g, keys[n], Empty());
      DiagSum(g, keys[..n]);
      CountSumAppend(DiagOf(g, keys[..n]), Counts(keys[n], dates, dates.keys));
      CountsSum(keys[n], dates, dates.keys);
      assert DatesTotal(Empty()) == 0;
    }
  }

  /** The qtde of the diagnostic rows add up to the number of uploaded files. */
  lemma DiagCountsEveryFile(items: seq<Item>, reader: Labeller)
    ensures CountSum(DiagOf(Group(items, reader), Group(items, reader).keys)) == |items|
  {
    DiagSum(Group(items, reader), Group(items, reader).keys);
    GroupTotal(items, reader);
  }

  // ---------------------------------------------------------------------------
  // The boxes of the sheets of one date
  // ---------------------------------------------------------------------------

  /** Reading one uploaded sheet into a set of boxes; a Failure is the ValueError raised. */
  type Loader = string -> Result<set<string>, string>

  /** load_boxes_ge5 over the uploaded sheets. */
  function Ge5Loader(files: Files): Loader {
    p => Boxes.OverdueBoxes(files(p))
  }

  /** load_boxes_anydays over the uploaded sheets. */
  function AnyLoader(files: Files): Loader {
    p => Boxes.AllBoxes(files(p))
  }

  /** The sheet at `p` loads and lists the box `b`. */
  predicate Lists(load: Loader, p: string, b: string) {
    load(p).Success? && b in load(p).value
  }

  /** The union of `load` over `paths`; the first failure is raised. */
  function UnionOf(load: Loader, paths: seq<string>): Result<set<string>, string> {
    if paths == [] then Success({})
    else
      var acc :- UnionOf(load, paths[..|paths| - 1]);
      var boxes :- load(paths[|paths| - 1]);
      Success(acc + boxes)
  }

  /** The unions of `first` and of `second` over `paths`, each path loaded by `first` and then
      by `second`; the first failure is raised. */
  function UnionBoth(first: Loader, second: Loader, paths: seq<string>): Result<(set<string>, set<string>), string> {
    if paths == [] then Success(({}, {}))
    else
      var acc :- UnionBoth(first, second, paths[..|paths| - 1]);
      var a :- first(paths[|paths| - 1]);
      var b :- second(paths[|paths| - 1]);
      Success((acc.0 + a, acc.1 + b))
  }

  /** A box is in the union exactly when some sheet lists it. */
  lemma {:induction false} UnionOfMember(load: Loader, paths: seq<string>, b: string)
    requires UnionOf(load, paths).Success?
    ensures forall p :: p in paths ==> load(p).Success?
    ensures b in UnionOf(load, paths).value <==> exists p :: p in paths && Lists(load, p, b)
    decreases |paths|
  {
    if paths != [] {
      var n := |paths| - 1;
      UnionOfMember(load, paths[..n], b);
      var acc, last := UnionOf(load, paths[..n]).value, load(paths[n]).value;
      assert UnionOf(load, paths).value == acc + last;
      assert forall p :: p in paths <==> p in paths[..n] || p == paths[n];
      assert Lists(load, paths[n], b) <==> b in last;
    }
  }

  lemma {:induction false} UnionBothMember(first: Loader, second: Loader, paths: seq<string>, b: string)
    requires UnionBoth(first, second, paths).Success?
    ensures forall p :: p in paths ==> first(p).Success? && second(p).Success?
    ensures b in UnionBoth(first, second, paths).value.0 <==> exists p :: p in paths && Lists(first, p, b)
    ensures b in UnionBoth(first, second, paths).value.1 <==> exists p :: p in paths && Lists(second, p, b)
    decreases |paths|
  {
    if paths != [] {
      var n := |paths| - 1;
      UnionBothMember(first, second, paths[..n], b);
      var acc := UnionBoth(first, second, paths[..n]).value;
      var x, y := first(paths[n]).value, second(paths[n]).value;
      assert UnionBoth(first, second, paths).value == (acc.0 + x, acc.1 + y);
      assert forall p :: p in paths <==> p in paths[..n] || p == paths[n];
      assert Lists(first, paths[n], b) <==> b in x;
      assert Lists(second, paths[n], b) <==> b in y;
    }
  }

  /** curr_ge5 is a subset of curr_any. */
  lemma CurrentOverdueWithinAll(files: Files, paths: seq<string>)
    requires UnionBoth(Ge5Loader(files), AnyLoader(files), paths).Success?
    ensures UnionBoth(Ge5Loader(files), AnyLoader(files), paths).value.0
         <= UnionBoth(Ge5Loader(files), AnyLoader(files), paths).value.1
  {
    var r := UnionBoth(Ge5Loader(files), AnyLoader(files), paths).value;
    forall b | b in r.0 ensures b in r.1 {
      UnionBothMember(Ge5Loader(files), AnyLoader(files), paths, b);
      var p :| p in paths && Lists(Ge5Loader(files), p, b);
      Boxes.OverdueWithinAll(files(p));
    }
  }

  lemma {:induction false} UnionOfFails(load: Loader, paths: seq<string>, k: nat)
    requires k <= |paths| && UnionOf(load, paths[..k]).Failure?
    ensures UnionOf(load, paths) == UnionOf(load, paths[..k])
    decreases |paths|
  {
    if k < |paths| {
      var n := |paths| - 1;
      assert paths[..n][..k] == paths[..k];
      UnionOfFails(load, paths[..n], k);
    } else {
      assert paths[..k] == paths;
    }
  }

  lemma {:induction false} UnionBothFails(first: Loader, second: Loader, paths: seq<string>, k: nat)
    requires k <= |paths| && UnionBoth(first, second, paths[..k]).Failure?
    ensures UnionBoth(first, second, paths) == UnionBoth(first, second, paths[..k])
    decreases |paths|
  {
    if k < |paths| {
      var n := |paths| - 1;
      assert paths[..n][..k] == paths[..k];
      UnionBothFails(first, second, paths[..n], k);
    } else {
      assert paths[..k] == paths;
    }
  }

  /** The loop over prev_paths (utils.py:162-164). */
  method LoadPrevious(files: Files, paths: seq<string>) returns (r: Result<set<string>, string>)
    ensures r == UnionOf(Ge5Loader(files), paths)
  {
    var acc := {};
    for k := 0 to |paths|
      invariant UnionOf(Ge5Loader(files), paths[..k]) == Success(acc)
    {
      assert paths[..k + 1][..k] == paths[..k];
      var boxes := Boxes.LoadBoxesGe5(files(paths[k]));
      assert boxes == Ge5Loader(files)(paths[k]);
      if boxes.Failure? {
        UnionOfFails(Ge5Loader(files), paths, k + 1);
        return Failure(boxes.error);
      }
      acc := acc + boxes.value;
    }
    assert paths[..|paths|] == paths;
    return Success(acc);
  }

  /** The loop over curr_paths (utils.py:166-170). */
  method LoadCurrent(files: Files, paths: seq<string>) returns (r: Result<(set<string>, set<string>), string>)
    ensures r == UnionBoth(Ge5Loader(files), AnyLoader(files), paths)
  {
    var ge5, any := {}, {};
    for k := 0 to |paths|
      invariant UnionBoth(Ge5Loader(files), AnyLoader(files), paths[..k]) == Success((ge5, any))
    {
      assert paths[..k + 1][..k] == paths[..k];
      var overdue := Boxes.LoadBoxesGe5(files(paths[k]));
      assert overdue == Ge5Loader(files)(paths[k]);
      if overdue.Failure? {
        UnionBothFails(Ge5Loader(files), AnyLoader(files), paths, k + 1);
        return Failure(overdue.error);
      }
      var all := Boxes.LoadBoxesAnyDays(files(paths[k]));
      assert all == AnyLoader(files)(paths[k]);
      if all.Failure? {
        UnionBothFails(Ge5Loader(files), AnyLoader(files), paths, k + 1);
        return Failure(all.error);
      }
      ge5, any := ge5 + overdue.value, any + all.value;
    }
    assert paths[..|paths|] == paths;
    return Success((ge5, any));
  }

  // ---------------------------------------------------------------------------
  // One location
  // ---------------------------------------------------------------------------

  /** What the batch decides for a location: nothing, or the boxes to block and to unblock. */
  datatype Plan = Inconclusive | Compare(block: set<string>, unblock: set<string>)

  /** u_bucket.get(date, []) if date else [] */
  function PathsAt(g: Grouped, name: string, date: Option<string>): seq<string> {
    if Truthy(date) then Get(Get(g, Some(name), Empty()), date, []) else []
  }

  /** The decision for the location `name` (utils.py:148-173). */
  function PlanFor(g: Grouped, files: Files, name: string, previous: Option<string>, current: Option<string>): Result<Plan, string> {
    var prevPaths := PathsAt(g, name, previous);
    var curPaths := PathsAt(g, name, current);
    if prevPaths == [] || curPaths == [] then Success(Inconclusive)
    else
      var prevGe5 :- UnionOf(Ge5Loader(files), prevPaths);
      var cur :- UnionBoth(Ge5Loader(files), AnyLoader(files), curPaths);
      Success(Compare(cur.0 - prevGe5, prevGe5 - cur.1))
  }

  /** A location is inconclusive exactly when it has no file of the previous date or none of
      the current date (utils.py:153); it is then decided without loading any sheet. */
  lemma PlanInconclusive(g: Grouped, files: Files, name: string, previous: Option<string>, current: Option<string>)
    ensures PlanFor(g, files, name, previous, current) == Success(Inconclusive) <==>
      PathsAt(g, name, previous) == [] || PathsAt(g, name, current) == []
  {
  }

  /** A box is to be blocked exactly when a sheet of the current date lists it at least five
      days overdue and no sheet of the previous date did; it is to be unblocked exactly when a
      sheet of the previous date listed it at least five days overdue and no sheet of the
      current date lists it at all. */
  lemma PlanMeaning(g: Grouped, files: Files, name: string, previous: Option<string>, current: Option<string>, b: string)
    requires PlanFor(g, files, name, previous, current).Success?
    requires PlanFor(g, files, name, previous, current).value.Compare?
    ensures var plan := PlanFor(g, files, name, previous, current).value;
      var prevPaths, curPaths := PathsAt(g, name, previous), PathsAt(g, name, current);
      && (b in plan.block <==>
            (exists p :: p in curPaths && Lists(Ge5Loader(files), p, b)) &&
            !(exists p :: p in prevPaths && Lists(Ge5Loader(files), p, b)))
      && (b in plan.unblock <==>
            (exists p :: p in prevPaths && Lists(Ge5Loader(files), p, b)) &&
            !(exists p :: p in curPaths && Lists(AnyLoader(files), p, b)))
  {
    UnionOfMember(Ge5Loader(files), PathsAt(g, name, previous), b);
    UnionBothMember(Ge5Loader(files), AnyLoader(files), PathsAt(g, name, current), b);
  }

  /** No box is both to be blocked and to be unblocked. */
  lemma PlanDisjoint(g: Grouped, files: Files, name: string, previous: Option<string>, current: Option<string>)
    requires PlanFor(g, files, name, previous, current).Success?
    requires PlanFor(g, files, name, previous, current).value.Compare?
    ensures var plan := PlanFor(g, files, name, previous, current).value;
      plan.block !! plan.unblock
  {
    CurrentOverdueWithinAll(files, PathsAt(g, name, current));
  }

  // ---------------------------------------------------------------------------
  // The batch
  // ---------------------------------------------------------------------------

  /** UNIDADES_VALIDAS.values(): every display name of the registry, each once. */
  function Locations(): (r: seq<string>)
    ensures |r| == |Units.Registry|
    ensures forall i, j :: 0 <= i < j < |r| ==> r[i] != r[j]
    ensures forall n :: n in r <==> Units.IsDisplayName(n)
  {
    Units.DisplayNamesDistinct();
    var r := seq(|Units.Registry|, i requires 0 <= i < |Units.Registry| => Units.Registry[i].1);
    assert forall n :: Units.IsDisplayName(n) ==> n in r by {
      forall n | Units.IsDisplayName(n) ensures n in r {
        var i :| 0 <= i < |Units.Registry| && Units.Registry[i].1 == n;
        assert r[i] == n;
      }
    }
    r
  }

  /** The decisions for the locations `names`, in order; the first failure is raised. */
  function Plans(g: Grouped, files: Files, previous: Option<string>, current: Option<string>, names: seq<string>): (r: Result<seq<Plan>, string>)
    ensures r.Success? ==> |r.value| == |names|
  {
    MapOrFail(name => PlanFor(g, files, name, previous, current), names)
  }

  /** f applied to each of `names` in order, stopping at the first failure. */
  function MapOrFail<T>(f: string -> Result<T, string>, names: seq<string>): (r: Result<seq<T>, string>)
    ensures r.Success? ==> |r.value| == |names|
  {
    if names == [] then Success([])
    else
      var xs :- MapOrFail(f, names[..|names| - 1]);
      var x :- f(names[|names| - 1]);
      Success(xs + [x])
  }

  /** Entry i of the collected results is f of name i. */
  lemma {:induction false} MapOrFailEach<T>(f: string -> Result<T, string>, names: seq<string>)
    requires MapOrFail(f, names).Success?
    ensures forall i :: 0 <= i < |names| ==> f(names[i]) == Success(MapOrFail(f, names).value[i])
    decreases |names|
  {
    if names != [] {
      var n := |names| - 1;
      MapOrFailEach(f, names[..n]);
      assert forall i :: 0 <= i < n ==> names[..n][i] == names[i];
    }
  }

  /** Collecting succeeds exactly when f succeeds on every name. */
  lemma {:induction false} MapOrFailSucceeds<T>(f: string -> Result<T, string>, names: seq<string>)
    ensures MapOrFail(f, names).Success? <==> forall i :: 0 <= i < |names| ==> f(names[i]).Success?
    decreases |names|
  {
    if names != [] {
      var n := |names| - 1;
      MapOrFailSucceeds(f, names[..n]);
      assert forall i :: 0 <= i < n ==> names[..n][i] == names[i];
    }
  }

  /** What process_report_batch computes, with the boxes lists still as sets. */
  datatype Outcome = Outcome(previous: Option<string>, current: Option<string>, plans: seq<Plan>, files: seq<FileCount>)

  function BatchOf(reader: Labeller, files: Files, items: seq<Item>): Result<Outcome, string> {
    var g := Group(items, reader);
    var picked :- Dates.PickTwoDates(AllDates(g));
    var plans :- Plans(g, files, picked.0, picked.1, Locations());
    Success(Outcome(picked.0, picked.1, plans, DiagOf(g, g.keys)))
  }

  /** resultado[unidade] */
  datatype UnitReport = UnitReport(
    block: seq<string>, unblock: seq<string>,
    previous: Option<string>, current: Option<string>,
    alert: Option<string>)

  /** resultado["_diag"] */
  datatype Diag = Diag(previous: Option<string>, current: Option<string>, files: seq<FileCount>)

  /** resultado: the entry of each registered location in registry order, then "_diag". */
  datatype Report = Report(units: seq<(string, UnitReport)>, diag: Diag)

  /** `u` is how the source writes out `plan`: sorted lists, the dates, and the alert of an
      inconclusive comparison. */
  predicate Renders(u: UnitReport, plan: Plan, previous: Option<string>, current: Option<string>) {
    && u.previous == previous && u.current == current
    && match plan
       case Inconclusive => u.block == [] && u.unblock == [] && u.alert == Some(InconclusiveAlert)
       case Compare(block, unblock) =>
         AscendingListOf(u.block, block) && AscendingListOf(u.unblock, unblock) && u.alert.None?
  }

  /** `r` is the entry the source writes for the decision `plan`, or the exception it raises. */
  predicate Answers(r: Result<UnitReport, string>, plan: Result<Plan, string>, previous: Option<string>, current: Option<string>) {
    match plan
    case Failure(e) => r == Failure(e)
    case Success(p) => r.Success? && Renders(r.value, p, previous, current)
  }

  predicate RendersOutcome(r: Report, o: Outcome) {
    && |r.units| == |o.plans| == |Locations()|
    && (forall i :: 0 <= i < |r.units| ==>
          r.units[i].0 == Locations()[i] && Renders(r.units[i].1, o.plans[i], o.previous, o.current))
    && r.diag == Diag(o.previous, o.current, o.files)
  }

  /** sorted(list(s)) */
  method SortedList(s: set<string>) returns (xs: seq<string>)
    ensures AscendingListOf(xs, s)
  {
    var listed: seq<string> := [];
    var rest := s;
    while rest != {}
      invariant Distinct(listed)
      invariant forall x :: x in listed ==> x in s && x !in rest
      invariant forall x :: x in s ==> x in listed || x in rest
      invariant rest <= s
      decreases |rest|
    {
      var x :| x in rest;
      listed := listed + [x];
      rest := rest - {x};
    }
    xs := Sort(listed);
  }

  /** The body of the loop over UNIDADES_VALIDAS for one location (utils.py:148-179). */
  method UnitEntry(g: Grouped, files: Files, name: string, previous: Option<string>, current: Option<string>)
    returns (r: Result<UnitReport, string>)
    ensures Answers(r, PlanFor(g, files, name, previous, current), previous, current)
  {
    var bucket := Get(g, Some(name), Empty());
    var prevPaths: seq<string> := [];
    if previous.Some? && previous.value != [] {
      prevPaths := Get(bucket, previous, []);
    }
    var curPaths: seq<string> := [];
    if current.Some? && current.value != [] {
      curPaths := Get(bucket, current, []);
    }
    assert prevPaths == PathsAt(g, name, previous) && curPaths == PathsAt(g, name, current);
    if prevPaths == [] || curPaths == [] {
      return Success(UnitReport([], [], previous, current, Some(InconclusiveAlert)));
    }
    var prevGe5 := LoadPrevious(files, prevPaths);
    if prevGe5.Failure? {
      return Failure(prevGe5.error);
    }
    var cur := LoadCurrent(files, curPaths);
    if cur.Failure? {
      return Failure(cur.error);
    }
    var block := SortedList(cur.value.0 - prevGe5.value);
    var unblock := SortedList(prevGe5.value - cur.value.1);
    return Success(UnitReport(block, unblock, previous, current, None));
  }

  lemma {:induction false} PlansFail(g: Grouped, files: Files, previous: Option<string>, current: Option<string>, names: seq<string>, k: nat)
    requires k <= |names| && Plans(g, files, previous, current, names[..k]).Failure?
    ensures Plans(g, files, previous, current, names) == Plans(g, files, previous, current, names[..k])
    decreases |names|
  {
    if k < |names| {
      var n := |names| - 1;
      assert names[..n][..k] == names[..k];
      PlansFail(g, files, previous, current, names[..n], k);
    } else {
      assert names[..k] == names;
    }
  }

  lemma PlansSnoc(g: Grouped, files: Files, previous: Option<string>, current: Option<string>, names: seq<string>, i: nat)
    requires i < |names|
    ensures Plans(g, files, previous, current, names[..i + 1]) ==
      match Plans(g, files, previous, current, names[..i])
      case Failure(e) => Failure(e)
      case Success(plans) =>
        match PlanFor(g, files, names[i], previous, current)
        case Failure(e) => Failure(e)
        case Success(plan) => Success(plans + [plan])
  {
    assert names[..i + 1][..i] == names[..i];
  }

  /** Writing one more entry keeps every entry written so far in step with its decision. */
  lemma RendersSnoc(units: seq<(string, UnitReport)>, plans: seq<Plan>, names: seq<string>, i: nat,
                    u: UnitReport, plan: Plan, previous: Option<string>, current: Option<string>)
    requires i < |names| && |units| == |plans| == i
    requires forall j :: 0 <= j < i ==> units[j].0 == names[j] && Renders(units[j].1, plans[j], previous, current)
    requires Renders(u, plan, previous, current)
    ensures var units', plans' := units + [(names[i], u)], plans + [plan];
      forall j :: 0 <= j < i + 1 ==> units'[j].0 == names[j] && Renders(units'[j].1, plans'[j], previous, current)
  {
  }

  /** A location whose decision succeeds extends the decisions of the ones before it. */
  lemma PlansStep(g: Grouped, files: Files, previous: Option<string>, current: Option<string>, names: seq<string>, i: nat, plans: seq<Plan>)
    requires i < |names| && Plans(g, files, previous, current, names[..i]) == Success(plans)
    requires PlanFor(g, files, names[i], previous, current).Success?
    ensures Plans(g, files, previous, current, names[..i + 1])
      == Success(plans + [PlanFor(g, files, names[i], previous, current).value])
  {
    PlansSnoc(g, files, previous, current, names, i);
  }

  /** A location whose decision raises ends the loop with its error. */
  lemma PlansStepFails(g: Grouped, files: Files, previous: Option<string>, current: Option<string>, names: seq<string>, i: nat)
    requires i < |names| && Plans(g, files, previous, current, names[..i]).Success?
    requires PlanFor(g, files, names[i], previous, current).Failure?
    ensures Plans(g, files, previous, current, names).Failure?
    ensures Plans(g, files, previous, current, names).error == PlanFor(g, files, names[i], previous, current).error
  {
    PlansSnoc(g, files, previous, current, names, i);
    PlansFail(g, files, previous, current, names, i + 1);
  }

  /** Entry i of the decisions is the decision for location i. */
  lemma PlansEach(g: Grouped, files: Files, previous: Option<string>, current: Option<string>, names: seq<string>)
    requires Plans(g, files, previous, current, names).Success?
    ensures forall i :: 0 <= i < |names| ==>
      PlanFor(g, files, names[i], previous, current) == Success(Plans(g, files, previous, current, names).value[i])
  {
    MapOrFailEach(name => PlanFor(g, files, name, previous, current), names);
  }

  /** The decisions are made exactly when no location's decision raises. */
  lemma PlansSucceed(g: Grouped, files: Files, previous: Option<string>, current: Option<string>, names: seq<string>)
    ensures Plans(g, files, previous, current, names).Success? <==>
      forall i :: 0 <= i < |names| ==> PlanFor(g, files, names[i], previous, current).Success?
  {
    MapOrFailSucceeds(name => PlanFor(g, files, name, previous, current), names);
  }

  /** The loop over UNIDADES_VALIDAS.values() (utils.py:147-179), for the locations `names`. */
  method DecideAll(g: Grouped, files: Files, previous: Option<string>, current: Option<string>, names: seq<string>)
    returns (r: Result<seq<(string, UnitReport)>, string>)
    ensures r.Failure? <==> Plans(g, files, previous, current, names).Failure?
    ensures r.Failure? ==> r.error == Plans(g, files, previous, current, names).error
    ensures r.Success? ==> |r.value| == |names| && forall j :: 0 <= j < |r.value| ==>
      r.value[j].0 == names[j] &&
      Renders(r.value[j].1, Plans(g, files, previous, current, names).value[j], previous, current)
  {
    var units: seq<(string, UnitReport)> := [];
    ghost var plans: seq<Plan> := [];
    for i := 0 to |names|
      invariant Plans(g, files, previous, current, names[..i]) == Success(plans)
      invariant |units| == |plans| == i
      invariant forall j :: 0 <= j < i ==> units[j].0 == names[j] && Renders(units[j].1, plans[j], previous, current)
    {
      var entry := UnitEntry(g, files, names[i], previous, current);
      if entry.Failure? {
        PlansStepFails(g, files, previous, current, names, i);
        return Failure(entry.error);
      }
      ghost var plan := PlanFor(g, files, names[i], previous, current).value;
      PlansStep(g, files, previous, current, names, i, plans);
      RendersSnoc(units, plans, names, i, entry.value, plan, previous, current);
      units := units + [(names[i], entry.value)];
      plans := plans + [plan];
    }
    assert names[..|names|] == names;
    return Success(units);
  }

  /** process_report_batch (utils.py:129-182). */
  method ProcessReportBatch(ratio: Units.Ratio, files: Files, items: seq<Item>) returns (r: Result<Report, string>)
    ensures r.Failure? <==> BatchOf(Extractor(ratio), files, items).Failure?
    ensures r.Failure? ==> r.error == BatchOf(Extractor(ratio), files, items).error
    ensures r.Success? ==> RendersOutcome(r.value, BatchOf(Extractor(ratio), files, items).value)
  {
    var grouped := GroupByUnitAndDate(ratio, items);
    var dates := CollectDates(grouped);
    var picked := Dates.PickTwoDates(dates);
    if picked.Failure? {
      return Failure(picked.error);
    }
    var (previous, current) := picked.value;
    var rows := DiagRows(grouped);
    var units := DecideAll(grouped, files, previous, current, Locations());
    if units.Failure? {
      return Failure(units.error);
    }
    return Success(Report(units.value, Diag(previous, current, rows)));
  }

  // ---------------------------------------------------------------------------
  // What the batch promises
  // ---------------------------------------------------------------------------

  /** Without a previous date, every location is inconclusive. */
  lemma {:induction false} NoPairNoAction(g: Grouped, files: Files, current: Option<string>, names: seq<string>)
    ensures Plans(g, files, None, current, names).Success?
    ensures forall i :: 0 <= i < |names| ==> Plans(g, files, None, current, names).value[i] == Inconclusive
    decreases |names|
  {
    if names != [] {
      NoPairNoAction(g, files, current, names[..|names| - 1]);
    }
  }

  /** With fewer than two dates among all the files, no pair is picked and every location is
      inconclusive. */
  lemma FewerThanTwoDates(g: Grouped, files: Files, picked: (Option<string>, Option<string>))
    requires Dates.PickTwoDates(AllDates(g)) == Success(picked)
    requires |AllDates(g)| < 2
    ensures picked == (None, None)
    ensures Plans(g, files, picked.0, picked.1, Locations()).Success?
    ensures forall i :: 0 <= i < |Locations()| ==> Plans(g, files, picked.0, picked.1, Locations()).value[i] == Inconclusive
  {
    GatherShape(DateKeys(g, g.keys));
    forall i | 0 <= i < |AllDates(g)| ensures AllDates(g)[i] != [] {
      assert AllDates(g)[i] in AllDates(g);
    }
    Dates.NonEmptyKeeps(AllDates(g));
    NoPairNoAction(g, files, picked.1, Locations());
  }

  /** The items whose name reads as a registered location. */
  function KnownOnly(items: seq<Item>, reader: Labeller): seq<Item> {
    if items == [] then []
    else
      var last := items[|items| - 1];
      KnownOnly(items[..|items| - 1], reader) + (if reader(last.name).0.Some? then [last] else [])
  }

  /** Adding a file touches only the bucket of its own location. */
  lemma AddTouchesOwnLocation(g: Grouped, lu: Location, ld: Date, path: string, u: Location)
    ensures u != lu ==> Get(Add(g, lu, ld, path), u, Empty()) == Get(g, u, Empty())
    ensures u == lu ==> Get(Add(g, lu, ld, path), u, Empty())
                        == Put(Get(g, u, Empty()), ld, Get(Get(g, u, Empty()), ld, []) + [path])
  {
  }

  /** Dropping the files of no location leaves the bucket of every location as it is. */
  lemma {:induction false} KnownOnlyBuckets(items: seq<Item>, reader: Labeller)
    ensures forall u: Location :: u.Some? ==> Get(Group(items, reader), u, Empty()) == Get(Group(KnownOnly(items, reader), reader), u, Empty())
    decreases |items|
  {
    if items != [] {
      var n := |items| - 1;
      KnownOnlyBuckets(items[..n], reader);
      var g1 := Group(items[..n], reader);
      var k1 := KnownOnly(items[..n], reader);
      var g2 := Group(k1, reader);
      var (lu, ld) := reader(items[n].name);
      var path := items[n].path;
      assert Group(items, reader) == Add(g1, lu, ld, path);
      if lu.Some? {
        var known := k1 + [items[n]];
        assert KnownOnly(items, reader) == known;
        assert known[..|known| - 1] == k1;
        assert Group(known, reader) == Add(g2, lu, ld, path);
        forall u: Location | u.Some?
          ensures Get(Add(g1, lu, ld, path), u, Empty()) == Get(Add(g2, lu, ld, path), u, Empty())
        {
          AddTouchesOwnLocation(g1, lu, ld, path, u);
          AddTouchesOwnLocation(g2, lu, ld, path, u);
        }
      } else {
        assert KnownOnly(items, reader) == k1;
        forall u: Location | u.Some? ensures Get(Add(g1, lu, ld, path), u, Empty()) == Get(g1, u, Empty()) {
          AddTouchesOwnLocation(g1, lu, ld, path, u);
        }
      }
    }
  }

  lemma {:induction false} PlansReadOnlyLocations(g: Grouped, h: Grouped, files: Files, previous: Option<string>, current: Option<string>, names: seq<string>)
    requires forall u: Location :: u.Some? ==> Get(g, u, Empty()) == Get(h, u, Empty())
    ensures Plans(g, files, previous, current, names) == Plans(h, files, previous, current, names)
    decreases |names|
  {
    if names != [] {
      PlansReadOnlyLocations(g, h, files, previous, current, names[..|names| - 1]);
      var name := names[|names| - 1];
      assert PathsAt(g, name, previous) == PathsAt(h, name, previous);
      assert PathsAt(g, name, current) == PathsAt(h, name, current);
    }
  }

  /** Once the two dates are picked, the files of no location change no decision. */
  lemma UnknownFilesChangeNoPlan(items: seq<Item>, reader: Labeller, files: Files, previous: Option<string>, current: Option<string>)
    ensures Plans(Group(items, reader), files, previous, current, Locations())
         == Plans(Group(KnownOnly(items, reader), reader), files, previous, current, Locations())
  {
    KnownOnlyBuckets(items, reader);
    PlansReadOnlyLocations(Group(items, reader), Group(KnownOnly(items, reader), reader), files, previous, current, Locations());
  }

  /** The headline rule of the batch: for each registered location that is compared, a box is
      to be blocked exactly when a sheet of the current date lists it at least five days
      overdue and no sheet of the previous date did, and to be unblocked exactly when a sheet of
      the previous date did and no sheet of the current date lists it at all. */
  lemma BatchPlanMeaning(reader: Labeller, files: Files, items: seq<Item>, i: nat, b: string)
    requires BatchOf(reader, files, items).Success? && i < |Locations()|
    requires BatchOf(reader, files, items).value.plans[i].Compare?
    ensures var o := BatchOf(reader, files, items).value;
      var g, name := Group(items, reader), Locations()[i];
      var prevPaths, curPaths := PathsAt(g, name, o.previous), PathsAt(g, name, o.current);
      && (b in o.plans[i].block <==>
            (exists p :: p in curPaths && Lists(Ge5Loader(files), p, b)) &&
            !(exists p :: p in prevPaths && Lists(Ge5Loader(files), p, b)))
      && (b in o.plans[i].unblock <==>
            (exists p :: p in prevPaths && Lists(Ge5Loader(files), p, b)) &&
            !(exists p :: p in curPaths && Lists(AnyLoader(files), p, b)))
  {
    var o := BatchOf(reader, files, items).value;
    var g := Group(items, reader);
    PlansEach(g, files, o.previous, o.current, Locations());
    PlanMeaning(g, files, Locations()[i], o.previous, o.current, b);
  }

  /** The report has one entry per registered location, each under a distinct name, and its
      diagnostics count every uploaded file once. */
  lemma ReportShape(reader: Labeller, files: Files, items: seq<Item>)
    requires BatchOf(reader, files, items).Success?
    ensures |BatchOf(reader, files, items).value.plans| == |Locations()|
    ensures CountSum(BatchOf(reader, files, items).value.files) == |items|
  {
    DiagCountsEveryFile(items, reader);
  }
}
