/** group_by_unit_and_date: files bucketed by location, then by date, each bucket keeping
    the paths in arrival order, with Python's dict insertion order for both levels. */
module Grouping {
  import opened Wrappers
  import Units

  /** A Python dict: its keys in insertion order and its entries. */
  datatype ODict<K(==), V> = ODict(keys: seq<K>, entries: map<K, V>)

  ghost predicate Valid<K(!new), V>(d: ODict<K, V>) {
    && (forall i, j :: 0 <= i < j < |d.keys| ==> d.keys[i] != d.keys[j])
    && (forall k :: k in d.entries <==> k in d.keys)
  }

  /** d.get(k, default) */
  function Get<K(==), V>(d: ODict<K, V>, k: K, default: V): V {
    if k in d.entries then d.entries[k] else default
  }

  /** d[k] = v: a new key goes to the end, an existing one keeps its place. */
  function Put<K(==,!new), V>(d: ODict<K, V>, k: K, v: V): (r: ODict<K, V>)
    ensures Valid(d) ==> Valid(r)
    ensures r.entries == d.entries[k := v]
  {
    if k in d.entries then ODict(d.keys, d.entries[k := v]) else ODict(d.keys + [k], d.entries[k := v])
  }

  /** An uploaded file: {"path": ..., "name": ...}. */
  datatype Item = Item(path: string, name: string)

  type Location = Option<string>
  type Date = Option<string>
  type Dates = ODict<Date, seq<string>>
  type Grouped = ODict<Location, Dates>

  /** What a file name is read as: extract_unit_and_date_from_name. */
  type Labeller = string -> (Location, Date)

  function Empty<K(==), V>(): ODict<K, V> {
    ODict([], map[])
  }

  /** grouped.setdefault(u, {}).setdefault(d, []).append(path) */
  function Add(g: Grouped, u: Location, d: Date, path: string): Grouped {
    var inner := Get(g, u, Empty());
    Put(g, u, Put(inner, d, Get(inner, d, []) + [path]))
  }

  /** The result of group_by_unit_and_date on `items`, each name read by `reader`. */
  function Group(items: seq<Item>, reader: Labeller): Grouped {
    if items == [] then Empty()
    else
      var last := items[|items| - 1];
      Add(Group(items[..|items| - 1], reader), reader(last.name).0, reader(last.name).1, last.path)
  }

  /** The reading the source uses, under a given similarity score. */
  function Extractor(ratio: Units.Ratio): Labeller {
    name => Units.Extract(ratio, name)
  }

  lemma GroupSnoc(items: seq<Item>, reader: Labeller, i: nat)
    requires i < |items|
    ensures Group(items[..i + 1], reader)
         == Add(Group(items[..i], reader), reader(items[i].name).0, reader(items[i].name).1, items[i].path)
  {
    assert items[..i + 1][..i] == items[..i];
  }

  /** group_by_unit_and_date (utils.py:107-118). */
  method GroupByUnitAndDate(ratio: Units.Ratio, items: seq<Item>) returns (grouped: Grouped)
    ensures grouped == Group(items, Extractor(ratio))
  {
    grouped := Empty();
    for i := 0 to |items|
      invariant grouped == Group(items[..i], Extractor(ratio))
    {
      var item := items[i];
      var unit, date := Units.ExtractUnitAndDate(ratio, item.name);
      GroupSnoc(items, Extractor(ratio), i);
      var dates := Get(grouped, unit, Empty());
      var paths := Get(dates, date, []);
      dates := Put(dates, date, paths + [item.path]);
      grouped := Put(grouped, unit, dates);
    }
    assert items[..|items|] == items;
  }

  // ---------------------------------------------------------------------------
  // What the grouping holds
  // ---------------------------------------------------------------------------

  /** The paths in the bucket of (u, d), empty when there is none. */
  function Bucket(g: Grouped, u: Location, d: Date): seq<string> {
    Get(Get(g, u, Empty()), d, [])
  }

  /** The paths of the items read as (u, d), in order. */
  function PathsOf(items: seq<Item>, reader: Labeller, u: Location, d: Date): seq<string> {
    if items == [] then []
    else
      var last := items[|items| - 1];
      PathsOf(items[..|items| - 1], reader, u, d) + (if reader(last.name) == (u, d) then [last.path] else [])
  }

  /** Each bucket holds exactly the paths of the items read as its location and date, in the
      order they came: every item lands in one bucket and in no other. */
  lemma {:induction false} GroupBuckets(items: seq<Item>, reader: Labeller, u: Location, d: Date)
    ensures Bucket(Group(items, reader), u, d) == PathsOf(items, reader, u, d)
    decreases |items|
  {
    if items != [] {
      GroupBuckets(items[..|items| - 1], reader, u, d);
    }
  }

  /** Both levels are well-formed dicts, and no bucket is empty. */
  ghost predicate WellGrouped(g: Grouped) {
    && Valid(g)
    && forall u :: u in g.entries ==>
         Valid(g.entries[u]) && forall d :: d in g.entries[u].entries ==> g.entries[u].entries[d] != []
  }

  lemma {:induction false} GroupWellGrouped(items: seq<Item>, reader: Labeller)
    ensures WellGrouped(Group(items, reader))
    decreases |items|
  {
    if items != [] {
      GroupWellGrouped(items[..|items| - 1], reader);
    }
  }

  /** The sequence without repeats, each element where it first occurs. */
  function Dedup<T(==)>(xs: seq<T>): seq<T> {
    if xs == [] then []
    else
      var r := Dedup(xs[..|xs| - 1]);
      if xs[|xs| - 1] in r then r else r + [xs[|xs| - 1]]
  }

  lemma {:induction false} DedupMembers<T>(xs: seq<T>)
    ensures forall x :: x in Dedup(xs) <==> x in xs
    decreases |xs|
  {
    if xs != [] {
      DedupMembers(xs[..|xs| - 1]);
      assert xs == xs[..|xs| - 1] + [xs[|xs| - 1]];
    }
  }

  function LocationsOf(items: seq<Item>, reader: Labeller): seq<Location> {
    if items == [] then [] else LocationsOf(items[..|items| - 1], reader) + [reader(items[|items| - 1].name).0]
  }

  function DatesAt(items: seq<Item>, reader: Labeller, u: Location): seq<Date> {
    if items == [] then []
    else
      var last := items[|items| - 1];
      DatesAt(items[..|items| - 1], reader, u) + (if reader(last.name).0 == u then [reader(last.name).1] else [])
  }

  /** The locations come in the order they first occur among the items. */
  lemma {:induction false} GroupLocations(items: seq<Item>, reader: Labeller)
    ensures Group(items, reader).keys == Dedup(LocationsOf(items, reader))
    ensures forall u :: u in Group(items, reader).entries <==> u in Group(items, reader).keys
    decreases |items|
  {
    if items != [] {
      GroupLocations(items[..|items| - 1], reader);
    }
  }

  /** Within a location, the dates come in the order they first occur for it. */
  lemma {:induction false} GroupDates(items: seq<Item>, reader: Labeller, u: Location)
    ensures Get(Group(items, reader), u, Empty()).keys == Dedup(DatesAt(items, reader, u))
    decreases |items|
  {
    if items != [] {
      var n := |items| - 1;
      var g := Group(items[..n], reader);
      var (lu, ld) := reader(items[n].name);
      var xs := DatesAt(items[..n], reader, u);
      GroupDates(items[..n], reader, u);
      GroupWellGrouped(items[..n], reader);
      assert Group(items, reader) == Add(g, lu, ld, items[n].path);
      if lu == u {
        var inner := Get(g, u, Empty());
        assert Valid(inner);
        DedupMembers(xs);
        assert DatesAt(items, reader, u) == xs + [ld];
        assert (xs + [ld])[..|xs|] == xs;
      } else {
        assert DatesAt(items, reader, u) == xs;
      }
    }
  }

  /** A location's dates are exactly the keys of its bucket dict. */
  lemma DatesKeys(items: seq<Item>, reader: Labeller, u: Location)
    ensures forall d :: d in Get(Group(items, reader), u, Empty()).entries <==>
                        d in Get(Group(items, reader), u, Empty()).keys
  {
    GroupWellGrouped(items, reader);
  }

  // ---------------------------------------------------------------------------
  // Counting
  // ---------------------------------------------------------------------------

  /** The sum of `w` over the entries of `keys`. */
  function SumOver<K(==), V>(keys: seq<K>, m: map<K, V>, w: V -> int): int {
    if keys == [] then 0
    else
      var k := keys[|keys| - 1];
      SumOver(keys[..|keys| - 1], m, w) + (if k in m then w(m[k]) else 0)
  }

  lemma {:induction false} SumOverAbsent<K(!new), V>(keys: seq<K>, m: map<K, V>, w: V -> int, k: K, v: V)
    requires k !in keys
    ensures SumOver(keys, m[k := v], w) == SumOver(keys, m, w)
  {
    if keys != [] {
      SumOverAbsent(keys[..|keys| - 1], m, w, k, v);
    }
  }

  lemma {:induction false} SumOverUpdate<K(!new), V>(keys: seq<K>, m: map<K, V>, w: V -> int, k: K, v: V)
    requires k in keys && k in m
    requires forall i, j :: 0 <= i < j < |keys| ==> keys[i] != keys[j]
    ensures SumOver(keys, m[k := v], w) == SumOver(keys, m, w) - w(m[k]) + w(v)
  {
    var n := |keys| - 1;
    if keys[n] == k {
      assert k !in keys[..n];
      SumOverAbsent(keys[..n], m, w, k, v);
    } else {
      SumOverUpdate(keys[..n], m, w, k, v);
    }
  }

  function PathCount(paths: seq<string>): int {
    |paths|
  }

  /** The number of paths under one location. */
  function DatesTotal(dates: Dates): int {
    SumOver(dates.keys, dates.entries, PathCount)
  }

  /** The number of paths in the whole grouping. */
  function Total(g: Grouped): int {
    SumOver(g.keys, g.entries, DatesTotal)
  }

  lemma PutCount<K(!new), V>(d: ODict<K, V>, k: K, v: V, w: V -> int, prev: V)
    requires Valid(d)
    requires prev == Get(d, k, prev)
    requires k !in d.entries ==> w(prev) == 0
    ensures SumOver(Put(d, k, v).keys, Put(d, k, v).entries, w) == SumOver(d.keys, d.entries, w) - w(prev) + w(v)
  {
    if k in d.entries {
      SumOverUpdate(d.keys, d.entries, w, k, v);
    } else {
      SumOverAbsent(d.keys, d.entries, w, k, v);
      assert (d.keys + [k])[..|d.keys|] == d.keys;
    }
  }

  /** Appending a path to one date of a location adds one to the location's count. */
  lemma AppendCount(inner: Dates, d: Date, path: string)
    requires Valid(inner)
    ensures DatesTotal(Put(inner, d, Get(inner, d, []) + [path])) == DatesTotal(inner) + 1
  {
    var paths := Get(inner, d, []);
    assert PathCount(paths + [path]) == PathCount(paths) + 1;
    assert d !in inner.entries ==> PathCount(paths) == 0;
    PutCount(inner, d, paths + [path], PathCount, paths);
  }

  lemma BucketValid(g: Grouped, u: Location)
    requires WellGrouped(g)
    ensures Valid(Get(g, u, Empty()))
  {
  }

  /** Adding one file adds one path to the count. */
  lemma AddCount(g: Grouped, u: Location, d: Date, path: string)
    requires Valid(g) && Valid(Get(g, u, Empty()))
    ensures Total(Add(g, u, d, path)) == Total(g) + 1
  {
    var inner := Get(g, u, Empty());
    AppendCount(inner, d, path);
    TotalPut(g, u, Put(inner, d, Get(inner, d, []) + [path]));
  }

  /** Replacing the dates under one location changes the count by the difference. */
  lemma TotalPut(g: Grouped, u: Location, v: Dates)
    requires Valid(g)
    ensures Total(Put(g, u, v)) == Total(g) - DatesTotal(Get(g, u, Empty())) + DatesTotal(v)
  {
    assert u !in g.entries ==> DatesTotal(Get(g, u, Empty())) == 0;
    PutCount(g, u, v, DatesTotal, Get(g, u, Empty()));
  }

  /** The buckets together hold as many paths as there were items. */
  lemma {:induction false} GroupTotal(items: seq<Item>, reader: Labeller)
    ensures Total(Group(items, reader)) == |items|
    decreases |items|
  {
    if items != [] {
      var n := |items| - 1;
      GroupTotal(items[..n], reader);
      GroupWellGrouped(items[..n], reader);
      BucketValid(Group(items[..n], reader), reader(items[n].name).0);
      AddCount(Group(items[..n], reader), reader(items[n].name).0, reader(items[n].name).1, items[n].path);
    }
  }
}
