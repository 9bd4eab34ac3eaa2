/** Cardinalities of finite sets that are built from equal pieces. */
module Counting {

  predicate Lt(x: nat, n: nat) {
    x < n
  }

  /** The numbers below `n`. */
  function Below(n: nat): set<nat> {
    set x: nat | x < n && Lt(x, n)
  }

  lemma {:induction false} BelowSize(n: nat)
    ensures |Below(n)| == n
  {
    if n > 0 {
      BelowSize(n - 1);
      assert Below(n) == Below(n - 1) + {n - 1};
    }
  }

  lemma SubsetSize<T>(a: set<T>, b: set<T>)
    requires a <= b
    ensures |a| <= |b|
    ensures |a| == |b| ==> a == b
  {
    assert b == a + (b - a);
    assert |b| == |a| + |b - a|;
  }

  /** A subset of the numbers below `n` with `n` elements is all of them. */
  lemma FullSegment(s: set<nat>, n: nat)
    requires (forall x :: x in s ==> x < n) && |s| == n
    ensures s == Below(n)
  {
    BelowSize(n);
    SubsetSize(s, Below(n));
  }

  ghost predicate Distinct<T>(s: seq<T>) {
    forall i, j :: 0 <= i < j < |s| ==> s[i] != s[j]
  }

  /** Multiplication by repeated addition: keeps counting arguments linear until the last step. */
  function Times(a: nat, b: nat): nat {
    if b == 0 then 0 else Times(a, b - 1) + a
  }

  lemma {:induction false} TimesIsProduct(a: nat, b: nat)
    ensures Times(a, b) == a * b
  {
    if b > 0 {
      TimesIsProduct(a, b - 1);
    }
  }

  lemma TimesCommutes(a: nat, b: nat)
    ensures Times(a, b) == Times(b, a)
  {
    TimesIsProduct(a, b);
    TimesIsProduct(b, a);
  }

  /** A sequence of choices, latest last. */
  datatype Choices = NoChoice | Choose(before: Choices, pick: nat) {
    function Length(): nat {
      match this
      case NoChoice => 0
      case Choose(d, _) => d.Length() + 1
    }
  }

  /** `d` followed by each of the picks in `js`. */
  function Fan(d: Choices, js: set<nat>): (r: set<Choices>)
    ensures forall e :: e in r <==> e.Choose? && e.before == d && e.pick in js
  {
    set j | j in js :: Choose(d, j)
  }

  lemma {:induction false} FanSize(d: Choices, js: set<nat>)
    ensures |Fan(d, js)| == |js|
  {
    if js != {} {
      var j :| j in js;
      FanSize(d, js - {j});
      assert Fan(d, js) == Fan(d, js - {j}) + {Choose(d, j)};
    }
  }

  /** `ext` holds the choices that prolong a member of `base` by an allowed pick, and no others. */
  ghost predicate Prolongs(base: set<Choices>, allowed: Choices -> set<nat>, ext: set<Choices>) {
    forall e :: e in ext <==> e.Choose? && e.before in base && e.pick in allowed(e.before)
  }

  lemma ProlongRest(base: set<Choices>, allowed: Choices -> set<nat>, ext: set<Choices>, d: Choices)
    requires Prolongs(base, allowed, ext) && d in base
    ensures Prolongs(base - {d}, allowed, ext - Fan(d, allowed(d))) && Fan(d, allowed(d)) <= ext
  {
  }

  lemma DisjointSize<T>(all: set<T>, rest: set<T>, part: set<T>)
    requires part <= all && rest == all - part
    ensures |all| == |rest| + |part|
  {
    assert all == rest + part;
  }

  /** When `c` picks are allowed after every member of `base`, there are `c` times as many prolongations. */
  lemma {:induction false} ProlongedSize(base: set<Choices>, allowed: Choices -> set<nat>, ext: set<Choices>, c: nat)
    requires forall d :: d in base ==> |allowed(d)| == c
    requires Prolongs(base, allowed, ext)
    ensures |ext| == Times(c, |base|)
    decreases |base|
  {
    if base == {} {
      assert ext == {};
    } else {
      var d :| d in base;
      var fan := Fan(d, allowed(d));
      var rest := ext - fan;
      ProlongRest(base, allowed, ext, d);
      ProlongedSize(base - {d}, allowed, rest, c);
      FanSize(d, allowed(d));
      DisjointSize(ext, rest, fan);
    }
  }

  /** `all` splits into one part of size `c` for every tag. */
  ghost predicate Splits<T, L>(tags: set<L>, tag: T -> L, all: set<T>, c: nat) {
    && (forall x :: x in all ==> tag(x) in tags)
    && (forall l :: l in tags ==> |Part(all, tag, l)| == c)
  }

  /** The members of `all` that carry the tag `l`. */
  ghost function Part<T, L>(all: set<T>, tag: T -> L, l: L): set<T> {
    set x | x in all && tag(x) == l
  }

  lemma {:induction false} PartitionSize<T, L>(tags: set<L>, tag: T -> L, all: set<T>, c: nat)
    requires Splits(tags, tag, all, c)
    ensures |all| == Times(c, |tags|)
    decreases |tags|
  {
    if tags == {} {
      assert all == {};
    } else {
      var l :| l in tags;
      var part := Part(all, tag, l);
      var rest := all - part;
      assert Splits(tags - {l}, tag, rest, c) by {
        forall k | k in tags - {l} ensures |Part(rest, tag, k)| == c {
          assert Part(rest, tag, k) == Part(all, tag, k);
        }
      }
      PartitionSize(tags - {l}, tag, rest, c);
      assert all == rest + part;
    }
  }
}
