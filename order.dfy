/** Python's ordering of str values and `sorted` on a list of strings. */
module Order {

  /** `a < b` on Python strings: lexicographic on code points, a proper prefix first. */
  predicate StrLt(a: string, b: string)
    decreases |a|
  {
    if a == [] then b != []
    else if b == [] then false
    else if a[0] != b[0] then a[0] < b[0]
    else StrLt(a[1..], b[1..])
  }

  lemma {:induction false} StrLtIrreflexive(a: string)
    ensures !StrLt(a, a)
    decreases |a|
  {
    if a != [] {
      StrLtIrreflexive(a[1..]);
    }
  }

  lemma {:induction false} StrLtTransitive(a: string, b: string, c: string)
    requires StrLt(a, b) && StrLt(b, c)
    ensures StrLt(a, c)
    decreases |a|
  {
    if a != [] && b != [] && c != [] && a[0] == b[0] && b[0] == c[0] {
      StrLtTransitive(a[1..], b[1..], c[1..]);
    }
  }

  lemma {:induction false} StrLtTotal(a: string, b: string)
    requires a != b
    ensures StrLt(a, b) || StrLt(b, a)
    decreases |a|
  {
    if a != [] && b != [] && a[0] == b[0] {
      assert a == [a[0]] + a[1..] && b == [b[0]] + b[1..];
      StrLtTotal(a[1..], b[1..]);
    }
  }

  lemma {:induction false} StrLtAsymmetric(a: string, b: string)
    requires StrLt(a, b)
    ensures !StrLt(b, a)
    decreases |a|
  {
    if a != [] && b != [] && a[0] == b[0] {
      StrLtAsymmetric(a[1..], b[1..]);
    }
  }

  predicate Distinct(xs: seq<string>) {
    forall i, j :: 0 <= i < j < |xs| ==> xs[i] != xs[j]
  }

  predicate StrictlyAscending(xs: seq<string>) {
    forall i, j :: 0 <= i < j < |xs| ==> StrLt(xs[i], xs[j])
  }

  /** `xs` lists the members of `s` once each, in ascending order: what sorted(list(s)) returns. */
  predicate AscendingListOf(xs: seq<string>, s: set<string>) {
    StrictlyAscending(xs) && (forall x :: x in xs ==> x in s) && (forall x :: x in s ==> x in xs)
  }

  /** Inserting into an ascending list; `x` goes before the first element not below it. */
  function Insert(x: string, ys: seq<string>): (r: seq<string>)
    ensures |r| == |ys| + 1
    ensures forall z :: z in r <==> z == x || z in ys
    ensures multiset(r) == multiset(ys) + multiset{x}
    ensures StrictlyAscending(ys) && x !in ys ==> StrictlyAscending(r)
  {
    if ys == [] then [x]
    else if !StrLt(ys[0], x) then
      var r := [x] + ys;
      assert StrictlyAscending(ys) && x !in ys ==> StrictlyAscending(r) by {
        if StrictlyAscending(ys) && x !in ys {
          StrLtTotal(x, ys[0]);
          forall j | 0 < j < |r| ensures StrLt(r[0], r[j]) {
            if j > 1 {
              StrLtTransitive(x, ys[0], ys[j - 1]);
            }
          }
        }
      }
      r
    else
      var rest := Insert(x, ys[1..]);
      var r := [ys[0]] + rest;
      assert ys == [ys[0]] + ys[1..];
      assert StrictlyAscending(ys) && x !in ys ==> StrictlyAscending(r) by {
        if StrictlyAscending(ys) && x !in ys {
          assert StrictlyAscending(ys[1..]);
          forall j | 0 < j < |r| ensures StrLt(r[0], r[j]) {
            assert r[j] in rest;
          }
        }
      }
      r
  }

  /** sorted(xs) for a list of strings (insertion sort; on distinct strings any correct sort agrees). */
  function Sort(xs: seq<string>): (r: seq<string>)
    ensures |r| == |xs|
    ensures forall z :: z in r <==> z in xs
    ensures multiset(r) == multiset(xs)
    ensures Distinct(xs) ==> StrictlyAscending(r)
  {
    if xs == [] then []
    else
      var rest := Sort(xs[1..]);
      assert xs == [xs[0]] + xs[1..];
      assert Distinct(xs) ==> Distinct(xs[1..]) && xs[0] !in xs[1..];
      Insert(xs[0], rest)
  }

  /** There is only one ascending listing of a set. */
  lemma {:induction false} AscendingListUnique(xs: seq<string>, ys: seq<string>, s: set<string>)
    requires AscendingListOf(xs, s) && AscendingListOf(ys, s)
    ensures xs == ys
    decreases |xs|
  {
    assert xs != [] ==> xs[0] in ys;
    assert ys != [] ==> ys[0] in xs;
    if xs != [] && ys != [] {
      assert xs[0] == ys[0] by {
        if xs[0] != ys[0] {
          assert xs[0] in s && ys[0] in s;
          assert xs[0] in ys && ys[0] in xs;
          var i :| 0 <= i < |ys| && ys[i] == xs[0];
          var j :| 0 <= j < |xs| && xs[j] == ys[0];
          assert i > 0 && j > 0;
          StrLtAsymmetric(ys[0], ys[i]);
        }
      }
      var s' := s - {xs[0]};
      forall x ensures x in xs[1..] <==> x in s' {
        if x in xs[1..] {
          StrLtIrreflexive(x);
        }
      }
      forall x ensures x in ys[1..] <==> x in s' {
        if x in ys[1..] {
          StrLtIrreflexive(x);
        }
      }
      AscendingListUnique(xs[1..], ys[1..], s');
    }
  }
}
