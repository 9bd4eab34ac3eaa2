/** Stable sorting by a total preorder, with the laws the trace reducer, the holder snapshot and the
    percentile rely on: sortedness, stability, commutation with filters, and uniqueness of the result.
    Python's `list.sort`, JavaScript's `Array.prototype.sort` and Go's `sort.Float64s` are all used
    only through these laws. */
module Sorting {

  function Filter<T>(s: seq<T>, p: T -> bool): (r: seq<T>)
    ensures forall y :: y in r ==> y in s && p(y)
    ensures forall y :: y in s && p(y) ==> y in r
    ensures |r| <= |s|
  {
    if s == [] then [] else
    if p(s[0]) then [s[0]] + Filter(s[1..], p) else Filter(s[1..], p)
  }

  function Map<T, U>(s: seq<T>, f: T -> U): (r: seq<U>)
    ensures |r| == |s|
    ensures forall i :: 0 <= i < |s| ==> r[i] == f(s[i])
  {
    seq(|s|, i requires 0 <= i < |s| => f(s[i]))
  }

  lemma {:induction false} FilterConcat<T>(a: seq<T>, b: seq<T>, p: T -> bool)
    ensures Filter(a + b, p) == Filter(a, p) + Filter(b, p)
  {
    if a == [] {
      assert a + b == b;
    } else {
      assert (a + b)[1..] == a[1..] + b;
      FilterConcat(a[1..], b, p);
    }
  }

  lemma {:induction false} FilterAll<T>(s: seq<T>, p: T -> bool)
    requires forall y :: y in s ==> p(y)
    ensures Filter(s, p) == s
  {
    if s != [] {
      FilterAll(s[1..], p);
    }
  }

  lemma {:induction false} FilterNone<T>(s: seq<T>, p: T -> bool)
    requires forall y :: y in s ==> !p(y)
    ensures Filter(s, p) == []
  {
    if s != [] {
      FilterNone(s[1..], p);
    }
  }

  lemma {:induction false} FilterCongruence<T>(s: seq<T>, p: T -> bool, q: T -> bool)
    requires forall y :: y in s ==> p(y) == q(y)
    ensures Filter(s, p) == Filter(s, q)
  {
    if s != [] {
      FilterCongruence(s[1..], p, q);
    }
  }

  lemma FilterMultiset<T>(s: seq<T>, p: T -> bool, y: T)
    ensures multiset(Filter(s, p))[y] == if p(y) then multiset(s)[y] else 0
  {
    if s != [] {
      assert s == [s[0]] + s[1..];
      FilterMultiset(s[1..], p, y);
    }
  }

  function CountWhere<T>(s: seq<T>, p: T -> bool): nat {
    |Filter(s, p)|
  }

  lemma {:induction false} CountMonotone<T>(s: seq<T>, p: T -> bool, q: T -> bool)
    requires forall x :: x in s && p(x) ==> q(x)
    ensures CountWhere(s, p) <= CountWhere(s, q)
  {
    if s != [] {
      CountMonotone(s[1..], p, q);
    }
  }

  lemma CountOfPermutation<T(!new)>(a: seq<T>, b: seq<T>, p: T -> bool)
    requires multiset(a) == multiset(b)
    ensures CountWhere(a, p) == CountWhere(b, p)
  {
    var u, v := Filter(a, p), Filter(b, p);
    forall y ensures multiset(u)[y] == multiset(v)[y] {
      FilterMultiset(a, p, y);
      FilterMultiset(b, p, y);
    }
    assert multiset(u) == multiset(v);
    assert |multiset(u)| == |u| && |multiset(v)| == |v|;
  }

  ghost predicate TotalPreorder<T(!new)>(leq: (T, T) -> bool) {
    && (forall x, y :: leq(x, y) || leq(y, x))
    && (forall x, y, z :: leq(x, y) && leq(y, z) ==> leq(x, z))
  }

  ghost predicate Sorted<T>(s: seq<T>, leq: (T, T) -> bool) {
    forall i, j :: 0 <= i < j < |s| ==> leq(s[i], s[j])
  }

  lemma SortedTail<T>(x: T, s: seq<T>, leq: (T, T) -> bool)
    requires Sorted([x] + s, leq) && s != []
    ensures Sorted(s, leq) && leq(x, s[0]) && [s[0]] + s[1..] == s
    ensures Sorted([x] + s[1..], leq)
  {
    var t, u := [x] + s, [x] + s[1..];
    forall i, j | 0 <= i < j < |s| ensures leq(s[i], s[j]) {
      assert s[i] == t[i + 1] && s[j] == t[j + 1];
    }
    assert t[0] == x && t[1] == s[0];
    forall i, j | 0 <= i < j < |u| ensures leq(u[i], u[j]) {
      assert u[j] == t[j + 1] && u[i] == t[if i == 0 then 0 else i + 1];
    }
  }

  lemma SortedCons<T(!new)>(x: T, s: seq<T>, leq: (T, T) -> bool)
    requires TotalPreorder(leq) && Sorted(s, leq) && s != [] && leq(x, s[0])
    ensures Sorted([x] + s, leq)
  {
    var t := [x] + s;
    forall i, j | 0 <= i < j < |t| ensures leq(t[i], t[j]) {
      if i == 0 && j > 1 {
        assert t[j] == s[j - 1] && leq(s[0], s[j - 1]);
      }
    }
  }

  /** Put `x` before the first element that it may precede. */
  function Insert<T>(x: T, s: seq<T>, leq: (T, T) -> bool): (r: seq<T>)
    ensures |r| == |s| + 1
  {
    if s == [] then [x]
    else if leq(x, s[0]) then [x] + s
    else [s[0]] + Insert(x, s[1..], leq)
  }

  function Sort<T>(s: seq<T>, leq: (T, T) -> bool): (r: seq<T>)
    ensures |r| == |s|
  {
    if s == [] then [] else Insert(s[0], Sort(s[1..], leq), leq)
  }

  lemma ConsMultiset<T>(x: T, s: seq<T>)
    ensures multiset([x] + s) == multiset{x} + multiset(s)
  {
  }

  lemma {:induction false} InsertMultiset<T>(x: T, s: seq<T>, leq: (T, T) -> bool)
    ensures multiset(Insert(x, s, leq)) == multiset(s) + multiset{x}
  {
    if s == [] || leq(x, s[0]) {
      ConsMultiset(x, s);
    } else {
      var t := Insert(x, s[1..], leq);
      InsertMultiset(x, s[1..], leq);
      ConsMultiset(s[0], t);
      ConsMultiset(s[0], s[1..]);
      assert s == [s[0]] + s[1..];
    }
  }

  /** Sorting rearranges. */
  lemma {:induction false} SortMultiset<T>(s: seq<T>, leq: (T, T) -> bool)
    ensures multiset(Sort(s, leq)) == multiset(s)
  {
    if s != [] {
      SortMultiset(s[1..], leq);
      InsertMultiset(s[0], Sort(s[1..], leq), leq);
      assert s == [s[0]] + s[1..];
    }
  }

  lemma SortElements<T>(s: seq<T>, leq: (T, T) -> bool)
    ensures forall y :: y in Sort(s, leq) <==> y in s
  {
    SortMultiset(s, leq);
    SameElements(Sort(s, leq), s);
  }

  lemma SameElements<T>(a: seq<T>, b: seq<T>)
    requires multiset(a) == multiset(b)
    ensures forall y :: y in a <==> y in b
  {
    forall y ensures y in a <==> y in b {
      assert y in multiset(a) <==> y in multiset(b);
    }
  }

  lemma {:induction false} InsertSorted<T(!new)>(x: T, s: seq<T>, leq: (T, T) -> bool)
    requires TotalPreorder(leq) && Sorted(s, leq)
    ensures Sorted(Insert(x, s, leq), leq)
  {
    if s != [] && !leq(x, s[0]) {
      InsertSorted(x, s[1..], leq);
      var t := Insert(x, s[1..], leq);
      InsertMultiset(x, s[1..], leq);
      forall y | y in t ensures leq(s[0], y) {
        assert y in multiset(t);
        assert y in multiset(s[1..]) || y == x;
      }
    }
  }

  lemma {:induction false} SortSorted<T(!new)>(s: seq<T>, leq: (T, T) -> bool)
    requires TotalPreorder(leq)
    ensures Sorted(Sort(s, leq), leq)
  {
    if s != [] {
      SortSorted(s[1..], leq);
      InsertSorted(s[0], Sort(s[1..], leq), leq);
    }
  }

  /** Sorting a sorted list changes nothing. */
  lemma {:induction false} SortOfSorted<T>(s: seq<T>, leq: (T, T) -> bool)
    requires Sorted(s, leq)
    ensures Sort(s, leq) == s
  {
    if s != [] {
      SortOfSorted(s[1..], leq);
    }
  }

  lemma {:induction false} InsertFilter<T(!new)>(x: T, s: seq<T>, leq: (T, T) -> bool, p: T -> bool)
    requires TotalPreorder(leq) && Sorted(s, leq)
    ensures Filter(Insert(x, s, leq), p) ==
            if p(x) then Insert(x, Filter(s, p), leq) else Filter(s, p)
  {
    if s == [] {
    } else if leq(x, s[0]) {
      assert ([x] + s)[1..] == s;
      if p(x) && Filter(s, p) != [] {
        assert Filter(s, p)[0] in s;
        assert leq(x, Filter(s, p)[0]);
      }
    } else {
      var t := Insert(x, s[1..], leq);
      assert ([s[0]] + t)[1..] == t;
      InsertFilter(x, s[1..], leq, p);
    }
  }

  /** Stability in its strongest form: sorting commutes with every filter. */
  lemma {:induction false} SortFilter<T(!new)>(s: seq<T>, leq: (T, T) -> bool, p: T -> bool)
    requires TotalPreorder(leq)
    ensures Filter(Sort(s, leq), p) == Sort(Filter(s, p), leq)
  {
    if s != [] {
      SortFilter(s[1..], leq, p);
      SortSorted(s[1..], leq);
      InsertFilter(s[0], Sort(s[1..], leq), leq, p);
    }
  }

  /** The elements of `s` that `leq` ranks together with `x`, in order. */
  function Class<T>(s: seq<T>, leq: (T, T) -> bool, x: T): seq<T> {
    Filter(s, y => leq(x, y) && leq(y, x))
  }

  /** A stable sort keeps the order inside every class. */
  lemma SortClass<T(!new)>(s: seq<T>, leq: (T, T) -> bool, x: T)
    requires TotalPreorder(leq)
    ensures Class(Sort(s, leq), leq, x) == Class(s, leq, x)
  {
    var p := y => leq(x, y) && leq(y, x);
    SortFilter(s, leq, p);
    var c := Filter(s, p);
    forall i, j | 0 <= i < j < |c| ensures leq(c[i], c[j]) {
      assert c[i] in c && c[j] in c;
    }
    SortOfSorted(c, leq);
  }

  ghost predicate SameClasses<T(!new)>(a: seq<T>, b: seq<T>, leq: (T, T) -> bool) {
    forall x :: Class(a, leq, x) == Class(b, leq, x)
  }

  lemma ClassTail<T(!new)>(a: seq<T>, b: seq<T>, leq: (T, T) -> bool)
    requires SameClasses(a, b, leq) && a != [] && b != [] && a[0] == b[0]
    ensures SameClasses(a[1..], b[1..], leq)
  {
    forall x ensures Class(a[1..], leq, x) == Class(b[1..], leq, x) {
      assert Class(a, leq, x) == Class(b, leq, x);
      var p := y => leq(x, y) && leq(y, x);
      if p(a[0]) {
        assert Class(a, leq, x) == [a[0]] + Class(a[1..], leq, x);
        assert Class(b, leq, x) == [b[0]] + Class(b[1..], leq, x);
        assert Class(a, leq, x)[1..] == Class(a[1..], leq, x);
        assert Class(b, leq, x)[1..] == Class(b[1..], leq, x);
      }
    }
  }

  lemma HeadInOther<T(!new)>(a: seq<T>, b: seq<T>, leq: (T, T) -> bool)
    requires TotalPreorder(leq) && SameClasses(a, b, leq) && a != []
    ensures a[0] in b
  {
    assert leq(a[0], a[0]);
    assert Class(a, leq, a[0])[0] == a[0];
    assert a[0] in Class(b, leq, a[0]);
  }

  /** There is only one stable sorted arrangement of a list. */
  lemma {:induction false} StableSortUnique<T(!new)>(a: seq<T>, b: seq<T>, leq: (T, T) -> bool)
    requires TotalPreorder(leq) && Sorted(a, leq) && Sorted(b, leq) && SameClasses(a, b, leq)
    ensures a == b
    decreases |a|
  {
    if a == [] {
      if b != [] {
        HeadInOther(b, a, leq);
      }
    } else {
      HeadInOther(a, b, leq);
      HeadInOther(b, a, leq);
      assert leq(b[0], a[0]) && leq(a[0], b[0]);
      assert Class(a, leq, a[0])[0] == a[0];
      assert Class(b, leq, a[0])[0] == b[0];
      ClassTail(a, b, leq);
      StableSortUnique(a[1..], b[1..], leq);
    }
  }

  /** Sorting part of a list beforehand makes no difference to sorting the whole. */
  lemma SortPresorted<T(!new)>(a: seq<T>, b: seq<T>, leq: (T, T) -> bool)
    requires TotalPreorder(leq)
    ensures Sort(Sort(a, leq) + b, leq) == Sort(a + b, leq)
  {
    var u, v := Sort(a, leq) + b, a + b;
    SortSorted(u, leq);
    SortSorted(v, leq);
    forall x ensures Class(Sort(u, leq), leq, x) == Class(Sort(v, leq), leq, x) {
      SortClass(u, leq, x);
      SortClass(v, leq, x);
      SortClass(a, leq, x);
      var p := y => leq(x, y) && leq(y, x);
      FilterConcat(Sort(a, leq), b, p);
      FilterConcat(a, b, p);
    }
    StableSortUnique(Sort(u, leq), Sort(v, leq), leq);
  }

  /** If `fine` refines the classes of `coarse`, a list sorted by `fine` survives being sorted by
      `coarse` and then by `fine` again. */
  lemma SortBackAndForth<T(!new)>(s: seq<T>, coarse: (T, T) -> bool, fine: (T, T) -> bool)
    requires TotalPreorder(coarse) && TotalPreorder(fine) && Sorted(s, fine)
    requires forall x, y :: fine(x, y) && fine(y, x) ==> coarse(x, y)
    ensures Sort(Sort(s, coarse), fine) == s
  {
    var t := Sort(s, coarse);
    SortSorted(t, fine);
    forall x ensures Class(Sort(t, fine), fine, x) == Class(s, fine, x) {
      SortClass(t, fine, x);
      var p := y => fine(x, y) && fine(y, x);
      SortFilter(s, coarse, p);
      var c := Filter(s, p);
      forall i, j | 0 <= i < j < |c| ensures coarse(c[i], c[j]) {
        assert c[i] in c && c[j] in c;
        assert fine(c[i], c[j]) && fine(c[j], c[i]);
      }
      SortOfSorted(c, coarse);
    }
    StableSortUnique(Sort(t, fine), s, fine);
  }

  ghost predicate KeepsOrder<T, U>(s: seq<T>, f: T -> U, leq: (T, T) -> bool, leq': (U, U) -> bool) {
    forall i, j :: 0 <= i < |s| && 0 <= j < |s| ==> leq(s[i], s[j]) == leq'(f(s[i]), f(s[j]))
  }

  /** Sorting commutes with a map that does not disturb the order. */
  lemma {:induction false} SortMap<T, U>(s: seq<T>, f: T -> U, leq: (T, T) -> bool, leq': (U, U) -> bool)
    requires KeepsOrder(s, f, leq, leq')
    ensures Sort(Map(s, f), leq') == Map(Sort(s, leq), f)
  {
    if s != [] {
      var t := Sort(s[1..], leq);
      assert Map(s, f)[1..] == Map(s[1..], f);
      SortMap(s[1..], f, leq, leq');
      SortMultiset(s[1..], leq);
      forall y | y in t ensures leq(s[0], y) == leq'(f(s[0]), f(y)) {
        assert y in multiset(t);
        assert y in multiset(s[1..]);
      }
      InsertMap(s[0], t, f, leq, leq');
    }
  }

  lemma {:induction false} InsertMap<T, U>(x: T, s: seq<T>, f: T -> U, leq: (T, T) -> bool, leq': (U, U) -> bool)
    requires forall y :: y in s ==> leq(x, y) == leq'(f(x), f(y))
    ensures Insert(f(x), Map(s, f), leq') == Map(Insert(x, s, leq), f)
  {
    if s == [] {
    } else if leq(x, s[0]) {
      assert Map([x] + s, f) == [f(x)] + Map(s, f);
    } else {
      assert Map(s, f)[1..] == Map(s[1..], f);
      InsertMap(x, s[1..], f, leq, leq');
    }
  }
}
