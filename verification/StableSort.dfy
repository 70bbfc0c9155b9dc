/** Stable sorting by a comparator, as `Array.prototype.sort` promises it
    (section 23.1.3.30 of ECMA-262) for a consistent comparator. */
module StableSort {

  /** A consistent comparator: antisymmetric in sign and transitive. */
  ghost predicate Consistent<T(!new)>(cmp: (T, T) -> int) {
    && (forall a, b :: cmp(a, b) <= 0 || cmp(b, a) <= 0)
    && (forall a, b :: cmp(a, b) == 0 <==> cmp(a, b) <= 0 && cmp(b, a) <= 0)
    && (forall a, b, c :: cmp(a, b) <= 0 && cmp(b, c) <= 0 ==> cmp(a, c) <= 0)
  }

  function Filter<T>(keep: T -> bool, s: seq<T>): (r: seq<T>)
    ensures forall x :: x in r ==> x in s && keep(x)
  {
    if s == [] then []
    else (if keep(s[0]) then [s[0]] else []) + Filter(keep, s[1..])
  }

  predicate Sorted<T>(cmp: (T, T) -> int, s: seq<T>) {
    forall i, j :: 0 <= i < j < |s| ==> cmp(s[i], s[j]) <= 0
  }

  /** The elements of `s` that compare equal to `x`, in their order of occurrence. */
  function Ties<T>(cmp: (T, T) -> int, s: seq<T>, x: T): seq<T> {
    Filter(y => cmp(x, y) == 0, s)
  }

  function Insert<T>(cmp: (T, T) -> int, x: T, s: seq<T>): seq<T> {
    if s == [] || cmp(x, s[0]) <= 0 then [x] + s
    else [s[0]] + Insert(cmp, x, s[1..])
  }

  function Sort<T>(cmp: (T, T) -> int, s: seq<T>): (r: seq<T>) {
    if s == [] then [] else Insert(cmp, s[0], Sort(cmp, s[1..]))
  }

  lemma {:induction false} FilterAppend<T>(keep: T -> bool, a: seq<T>, b: seq<T>)
    ensures Filter(keep, a + b) == Filter(keep, a) + Filter(keep, b)
  {
    if a == [] {
      assert a + b == b;
    } else {
      assert (a + b)[1..] == a[1..] + b;
      FilterAppend(keep, a[1..], b);
    }
  }

  lemma FilterFirst<T>(keep: T -> bool, front: seq<T>, s: seq<T>)
    requires s != []
    ensures front + Filter(keep, s) == front + (if keep(s[0]) then [s[0]] else []) + Filter(keep, s[1..])
  {
    Associative(front, if keep(s[0]) then [s[0]] else [], Filter(keep, s[1..]));
  }

  lemma Associative<T>(a: seq<T>, b: seq<T>, c: seq<T>)
    ensures a + (b + c) == a + b + c
    ensures b == [] ==> a + c == a + b + c
  {
  }

  lemma {:induction false} FilterKeeps<T>(keep: T -> bool, s: seq<T>, x: T)
    ensures x in Filter(keep, s) <==> x in s && keep(x)
  {
    if s != [] {
      FilterKeeps(keep, s[1..], x);
      assert s == [s[0]] + s[1..];
    }
  }

  lemma {:induction false} FilterTwice<T>(p: T -> bool, q: T -> bool, s: seq<T>)
    ensures Filter(p, Filter(q, s)) == Filter(x => q(x) && p(x), s)
  {
    if s != [] {
      FilterTwice(p, q, s[1..]);
      FilterAppend(p, if q(s[0]) then [s[0]] else [], Filter(q, s[1..]));
    }
  }

  lemma {:induction false} FilterSame<T>(p: T -> bool, q: T -> bool, s: seq<T>)
    requires forall x :: x in s ==> p(x) == q(x)
    ensures Filter(p, s) == Filter(q, s)
  {
    if s != [] {
      FilterSame(p, q, s[1..]);
    }
  }

  lemma {:induction false} FilterAll<T>(keep: T -> bool, s: seq<T>)
    requires forall i :: 0 <= i < |s| ==> keep(s[i])
    ensures Filter(keep, s) == s
  {
    if s != [] {
      FilterAll(keep, s[1..]);
    }
  }

  lemma {:induction false} FilterMultiset<T>(keep: T -> bool, s: seq<T>, x: T)
    ensures multiset(Filter(keep, s))[x] == if keep(x) then multiset(s)[x] else 0
  {
    if s != [] {
      FilterMultiset(keep, s[1..], x);
      assert s == [s[0]] + s[1..];
    }
  }

  lemma {:induction false} InsertMultiset<T>(cmp: (T, T) -> int, x: T, s: seq<T>)
    ensures multiset(Insert(cmp, x, s)) == multiset(s) + multiset{x}
  {
    if s == [] || cmp(x, s[0]) <= 0 {
    } else {
      InsertMultiset(cmp, x, s[1..]);
      assert s == [s[0]] + s[1..];
    }
  }

  /** Sorting permutes. */
  lemma {:induction false} SortMultiset<T>(cmp: (T, T) -> int, s: seq<T>)
    ensures multiset(Sort(cmp, s)) == multiset(s)
  {
    if s != [] {
      SortMultiset(cmp, s[1..]);
      InsertMultiset(cmp, s[0], Sort(cmp, s[1..]));
      assert s == [s[0]] + s[1..];
    }
  }

  lemma SortMembers<T>(cmp: (T, T) -> int, s: seq<T>, x: T)
    ensures x in Sort(cmp, s) <==> x in s
  {
    SortMultiset(cmp, s);
    assert x in Sort(cmp, s) <==> x in multiset(Sort(cmp, s));
    assert x in s <==> x in multiset(s);
  }

  lemma SortedCons<T>(cmp: (T, T) -> int, x: T, s: seq<T>)
    requires Sorted(cmp, s) && forall j :: 0 <= j < |s| ==> cmp(x, s[j]) <= 0
    ensures Sorted(cmp, [x] + s)
  {
  }

  lemma InsertedFrom<T>(cmp: (T, T) -> int, x: T, s: seq<T>, y: T)
    requires y in Insert(cmp, x, s)
    ensures y == x || y in s
  {
    InsertMultiset(cmp, x, s);
    assert y in multiset(Insert(cmp, x, s));
  }

  lemma {:induction false} InsertSorted<T(!new)>(cmp: (T, T) -> int, x: T, s: seq<T>)
    requires Consistent(cmp) && Sorted(cmp, s)
    ensures Sorted(cmp, Insert(cmp, x, s))
  {
    if s == [] {
    } else if cmp(x, s[0]) <= 0 {
      forall j | 0 <= j < |s| ensures cmp(x, s[j]) <= 0 {
        assert j > 0 ==> cmp(s[0], s[j]) <= 0;
      }
      SortedCons(cmp, x, s);
    } else {
      var r := Insert(cmp, x, s[1..]);
      InsertSorted(cmp, x, s[1..]);
      forall j | 0 <= j < |r| ensures cmp(s[0], r[j]) <= 0 {
        InsertedFrom(cmp, x, s[1..], r[j]);
      }
      SortedCons(cmp, s[0], r);
    }
  }

  lemma {:induction false} SortSorted<T(!new)>(cmp: (T, T) -> int, s: seq<T>)
    requires Consistent(cmp)
    ensures Sorted(cmp, Sort(cmp, s))
  {
    if s != [] {
      SortSorted(cmp, s[1..]);
      InsertSorted(cmp, s[0], Sort(cmp, s[1..]));
    }
  }

  /** What orders two elements strictly leaves neither tied to what the other is tied to. */
  lemma TiedToOne<T(!new)>(cmp: (T, T) -> int, x: T, z: T, y: T)
    requires Consistent(cmp) && cmp(x, z) > 0
    ensures cmp(y, x) != 0 || cmp(y, z) != 0
  {
    assert cmp(y, x) == 0 ==> cmp(x, y) <= 0;
  }

  lemma TiesCons<T>(cmp: (T, T) -> int, z: T, s: seq<T>, y: T)
    ensures Ties(cmp, [z] + s, y) == (if cmp(y, z) == 0 then [z] else []) + Ties(cmp, s, y)
  {
    assert ([z] + s)[1..] == s;
  }

  lemma {:induction false} InsertTies<T(!new)>(cmp: (T, T) -> int, x: T, s: seq<T>, y: T)
    requires Consistent(cmp)
    ensures Ties(cmp, Insert(cmp, x, s), y) == (if cmp(y, x) == 0 then [x] else []) + Ties(cmp, s, y)
  {
    if s == [] || cmp(x, s[0]) <= 0 {
      TiesCons(cmp, x, s, y);
    } else {
      var z, rest := s[0], s[1..];
      assert s == [z] + rest;
      InsertTies(cmp, x, rest, y);
      TiesCons(cmp, z, rest, y);
      TiesCons(cmp, z, Insert(cmp, x, rest), y);
      TiedToOne(cmp, x, z, y);
    }
  }

  /** Sorting is stable: elements that compare equal keep their order. */
  lemma {:induction false} SortStable<T(!new)>(cmp: (T, T) -> int, s: seq<T>, y: T)
    requires Consistent(cmp)
    ensures Ties(cmp, Sort(cmp, s), y) == Ties(cmp, s, y)
  {
    if s != [] {
      SortStable(cmp, s[1..], y);
      InsertTies(cmp, s[0], Sort(cmp, s[1..]), y);
    }
  }

  lemma HeadIsATie<T(!new)>(cmp: (T, T) -> int, a: seq<T>, b: seq<T>)
    requires Consistent(cmp) && a != []
    requires Ties(cmp, a, a[0]) == Ties(cmp, b, a[0])
    ensures a[0] in b && Ties(cmp, a, a[0])[..1] == [a[0]]
  {
    var x := a[0];
    assert cmp(x, x) == 0;
    assert Ties(cmp, a, x)[0] == x;
    FilterKeeps(y => cmp(x, y) == 0, b, x);
  }

  lemma SameHead<T(!new)>(cmp: (T, T) -> int, a: seq<T>, b: seq<T>)
    requires Consistent(cmp) && Sorted(cmp, a) && Sorted(cmp, b) && a != [] && b != []
    requires Ties(cmp, a, a[0]) == Ties(cmp, b, a[0]) && Ties(cmp, a, b[0]) == Ties(cmp, b, b[0])
    ensures a[0] == b[0]
  {
    var x, z := a[0], b[0];
    HeadIsATie(cmp, a, b);
    HeadIsATie(cmp, b, a);
    assert cmp(x, z) <= 0 && cmp(z, x) <= 0;
    assert cmp(x, z) == 0;
    assert Ties(cmp, b, x)[0] == z;
  }

  /** Sortedness and stability leave no freedom: any two stable sorts of one input agree. */
  lemma {:induction false} StableSortUnique<T(!new)>(cmp: (T, T) -> int, a: seq<T>, b: seq<T>)
    requires Consistent(cmp) && Sorted(cmp, a) && Sorted(cmp, b)
    requires forall y :: Ties(cmp, a, y) == Ties(cmp, b, y)
    ensures a == b
  {
    if a != [] {
      HeadIsATie(cmp, a, b);
    }
    if b != [] {
      HeadIsATie(cmp, b, a);
    }
    if a != [] && b != [] {
      SameHead(cmp, a, b);
      forall y ensures Ties(cmp, a[1..], y) == Ties(cmp, b[1..], y) {
        var k := if cmp(y, a[0]) == 0 then 1 else 0;
        assert Ties(cmp, a[1..], y) == Ties(cmp, a, y)[k..];
        assert Ties(cmp, b[1..], y) == Ties(cmp, b, y)[k..];
      }
      StableSortUnique(cmp, a[1..], b[1..]);
      assert a == [a[0]] + a[1..] && b == [b[0]] + b[1..];
    }
  }

  lemma {:induction false} FilterSorted<T>(cmp: (T, T) -> int, keep: T -> bool, s: seq<T>)
    requires Sorted(cmp, s)
    ensures Sorted(cmp, Filter(keep, s))
  {
    if s != [] {
      var r := Filter(keep, s[1..]);
      FilterSorted(cmp, keep, s[1..]);
      forall j | 0 <= j < |r| ensures cmp(s[0], r[j]) <= 0 {
        assert r[j] in s[1..];
      }
    }
  }

  /** Dropping elements before or after a stable sort is the same. */
  lemma SortFilterCommute<T(!new)>(cmp: (T, T) -> int, keep: T -> bool, s: seq<T>)
    requires Consistent(cmp)
    ensures Filter(keep, Sort(cmp, s)) == Sort(cmp, Filter(keep, s))
  {
    var a, b := Filter(keep, Sort(cmp, s)), Sort(cmp, Filter(keep, s));
    SortSorted(cmp, s);
    FilterSorted(cmp, keep, Sort(cmp, s));
    SortSorted(cmp, Filter(keep, s));
    forall y ensures Ties(cmp, a, y) == Ties(cmp, b, y) {
      var tie := z => cmp(y, z) == 0;
      SortStable(cmp, Filter(keep, s), y);
      SortStable(cmp, s, y);
      FilterTwice(tie, keep, Sort(cmp, s));
      FilterTwice(keep, tie, Sort(cmp, s));
      FilterTwice(tie, keep, s);
      FilterTwice(keep, tie, s);
      FilterSame(z => keep(z) && tie(z), z => tie(z) && keep(z), Sort(cmp, s));
      FilterSame(z => keep(z) && tie(z), z => tie(z) && keep(z), s);
    }
    StableSortUnique(cmp, a, b);
  }

  /** A stable sort by a finer key absorbs an earlier stable sort by a coarser one, even when
      other elements were queued in front. */
  lemma FinerSortAbsorbs<T(!new)>(coarse: (T, T) -> int, fine: (T, T) -> int, front: seq<T>, s: seq<T>)
    requires Consistent(coarse) && Consistent(fine)
    requires forall a, b :: fine(a, b) == 0 ==> coarse(a, b) == 0
    ensures Sort(fine, front + Sort(coarse, s)) == Sort(fine, front + s)
  {
    var t := Sort(coarse, s);
    SortSorted(fine, front + t);
    SortSorted(fine, front + s);
    forall y ensures Ties(fine, Sort(fine, front + t), y) == Ties(fine, Sort(fine, front + s), y) {
      var same := z => fine(y, z) == 0;
      var near := z => coarse(y, z) == 0;
      SortStable(fine, front + t, y);
      SortStable(fine, front + s, y);
      FilterAppend(same, front, t);
      FilterAppend(same, front, s);
      SortStable(coarse, s, y);
      FilterTwice(same, near, t);
      FilterTwice(same, near, s);
      FilterSame(same, z => near(z) && same(z), t);
      FilterSame(same, z => near(z) && same(z), s);
    }
    StableSortUnique(fine, Sort(fine, front + t), Sort(fine, front + s));
  }

  function Map<T, U>(f: T -> U, s: seq<T>): (r: seq<U>)
    ensures |r| == |s| && forall i :: 0 <= i < |s| ==> r[i] == f(s[i])
  {
    seq(|s|, i requires 0 <= i < |s| => f(s[i]))
  }

  lemma {:induction false} InsertMap<T, U>(cmp: (T, T) -> int, cmpU: (U, U) -> int, f: T -> U, x: T, s: seq<T>)
    requires forall y :: y in s ==> cmp(x, y) == cmpU(f(x), f(y))
    ensures Map(f, Insert(cmp, x, s)) == Insert(cmpU, f(x), Map(f, s))
  {
    if s == [] || cmp(x, s[0]) <= 0 {
    } else {
      InsertMap(cmp, cmpU, f, x, s[1..]);
      assert Map(f, s)[1..] == Map(f, s[1..]);
      assert Map(f, Insert(cmp, x, s)) == [f(s[0])] + Map(f, Insert(cmp, x, s[1..]));
    }
  }

  /** Projecting after sorting is sorting the projections, when the comparators agree. */
  lemma {:induction false} SortMap<T, U>(cmp: (T, T) -> int, cmpU: (U, U) -> int, f: T -> U, s: seq<T>)
    requires forall x, y :: x in s && y in s ==> cmp(x, y) == cmpU(f(x), f(y))
    ensures Map(f, Sort(cmp, s)) == Sort(cmpU, Map(f, s))
  {
    if s != [] {
      SortMap(cmp, cmpU, f, s[1..]);
      assert Map(f, s)[1..] == Map(f, s[1..]);
      var r := Sort(cmp, s[1..]);
      forall y | y in r ensures cmp(s[0], y) == cmpU(f(s[0]), f(y)) {
        SortMembers(cmp, s[1..], y);
      }
      InsertMap(cmp, cmpU, f, s[0], r);
    }
  }
}
