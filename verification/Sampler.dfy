/** The `reservoir` object of src/internal/analytics/reservoir.go, with the nearest-rank percentile. */
module Sampler {
  import opened Counting
  import opened Reservoir
  import opened Sorting

  predicate RealLeq(x: real, y: real) {
    x <= y
  }

  function Ceil(x: real): (c: int)
    ensures (c - 1) as real < x <= c as real
  {
    -((-x).Floor)
  }

  /** The whole number not under `x`, brought into 1 .. n. */
  function RankAt(x: real, n: nat): (k: nat)
    requires n > 0
    ensures 1 <= k <= n
    ensures 0.0 < x <= n as real ==> (k - 1) as real < x <= k as real
    ensures (x <= 0.0 ==> k == 1) && (x > n as real ==> k == n)
  {
    var c := Ceil(x);
    if c < 1 then 1 else if c > n then n else c
  }

  function Position(p: real, n: nat): real {
    p / 100.0 * n as real
  }

  /** The 1-based rank that percentile `p` of `n` samples asks for. */
  function NearestRank(p: real, n: nat): (k: nat)
    requires n > 0
    ensures 1 <= k <= n
  {
    RankAt(Position(p, n), n)
  }

  /** For a proper percentage it is ceil(p * n / 100) with no clamping. */
  lemma NearestRankExact(p: real, n: nat)
    requires n > 0 && 0.0 < p <= 100.0
    ensures (NearestRank(p, n) - 1) as real < p / 100.0 * n as real <= NearestRank(p, n) as real
  {
    var a, b := p / 100.0, n as real;
    assert 0.0 < a <= 1.0 && b > 0.0;
    Scaling(a, b);
  }

  /** Any other percentage asks for the smallest or for the largest sample. */
  lemma NearestRankClamped(p: real, n: nat)
    requires n > 0
    ensures p <= 0.0 ==> NearestRank(p, n) == 1
    ensures p > 100.0 ==> NearestRank(p, n) == n
  {
    var a, b := p / 100.0, n as real;
    if p <= 0.0 {
      ProductMonotone(a, 0.0, b);
    } else if p > 100.0 {
      Stretching(a, b);
    }
  }

  lemma Stretching(a: real, b: real)
    requires a > 1.0 && b > 0.0
    ensures a * b > b
  {
  }

  lemma Scaling(a: real, b: real)
    requires 0.0 < a <= 1.0 && b > 0.0
    ensures 0.0 < a * b <= b
  {
  }

  /** `v` is a sample with fewer than `k` samples under it and at least `k` samples not over it. */
  ghost predicate IsKth(s: seq<real>, k: nat, v: real) {
    v in s && CountWhere(s, x => x < v) < k <= CountWhere(s, x => x <= v)
  }

  lemma SortedIndexIsKth(t: seq<real>, k: nat)
    requires Sorted(t, RealLeq) && 1 <= k <= |t|
    ensures IsKth(t, k, t[k - 1])
  {
    var v := t[k - 1];
    var le, lt := (x: real) => x <= v, (x: real) => x < v;
    assert t == t[..k] + t[k..] && t == t[..k - 1] + t[k - 1..];
    FilterConcat(t[..k], t[k..], le);
    FilterConcat(t[..k - 1], t[k - 1..], lt);
    forall x | x in t[..k] ensures le(x) {
      var i :| 0 <= i < k && t[i] == x;
      assert i == k - 1 || RealLeq(t[i], v);
    }
    forall x | x in t[k - 1..] ensures !lt(x) {
      var i :| k - 1 <= i < |t| && t[i] == x;
      assert i == k - 1 || RealLeq(v, t[i]);
    }
    FilterAll(t[..k], le);
    FilterNone(t[k - 1..], lt);
  }

  /** Being the k-th depends on the samples as a multiset only. */
  lemma KthOfPermutation(a: seq<real>, b: seq<real>, k: nat, v: real)
    requires multiset(a) == multiset(b)
    ensures IsKth(a, k, v) <==> IsKth(b, k, v)
  {
    SameElements(a, b);
    CountOfPermutation(a, b, x => x < v);
    CountOfPermutation(a, b, x => x <= v);
  }

  lemma SortedSampleIsKth(s: seq<real>, t: seq<real>, k: nat)
    requires 1 <= k <= |s| && t == Sort(s, RealLeq)
    ensures IsKth(s, k, t[k - 1])
  {
    SortSorted(s, RealLeq);
    SortMultiset(s, RealLeq);
    SortedIndexIsKth(t, k);
    KthOfPermutation(s, t, k, t[k - 1]);
  }

  /** A lower rank never gives a larger value; in particular the k-th value is unique. */
  lemma KthMonotone(s: seq<real>, j: nat, k: nat, v: real, w: real)
    requires j <= k && IsKth(s, j, v) && IsKth(s, k, w)
    ensures v <= w
  {
    if w < v {
      CountMonotone(s, x => x <= w, x => x < v);
      assert false;
    }
  }

  lemma RankMonotone(p: real, q: real, n: nat)
    requires n > 0 && p <= q
    ensures NearestRank(p, n) <= NearestRank(q, n)
  {
    var x, y := p / 100.0 * n as real, q / 100.0 * n as real;
    assert x <= y by {
      ProductMonotone(p / 100.0, q / 100.0, n as real);
    }
    assert Ceil(x) <= Ceil(y);
  }

  lemma ProductMonotone(a: real, b: real, c: real)
    requires a <= b && c >= 0.0
    ensures a * c <= b * c
  {
  }

  /** Percentiles of one sample are monotone in the percentage. */
  lemma PercentileMonotone(s: seq<real>, p: real, q: real, v: real, w: real)
    requires s != [] && p <= q && IsKth(s, NearestRank(p, |s|), v) && IsKth(s, NearestRank(q, |s|), w)
    ensures v <= w
  {
    RankMonotone(p, q, |s|);
    KthMonotone(s, NearestRank(p, |s|), NearestRank(q, |s|), v, w);
  }

  class Sampler {
    const max: nat
    var samples: seq<real>
    var count: nat
    ghost var observed: seq<real>
    ghost var drawn: Choices

    ghost predicate Valid()
      reads this
    {
      && 1 <= max
      && count == |observed|
      && drawn in Draws(max, if count <= max then 0 else count - max)
      && samples == Run(max, observed, drawn)
      && |samples| == if count <= max then count else max
    }

    constructor (requested: int)
      ensures Valid() && observed == [] && max == if requested < 1 then 1 else requested
    {
      max := if requested < 1 then 1 else requested;
      samples, count := [], 0;
      observed, drawn := [], NoChoice;
    }

    /** One observation. `j` is what `rng.Intn(count)` returns; it is ignored while the sample fills. */
    method Add(v: real, j: nat)
      requires Valid() && j <= count
      modifies this
      ensures Valid()
      ensures observed == old(observed) + [v] && count == old(count) + 1
      ensures drawn == if old(count) < max then old(drawn) else Choose(old(drawn), j)
      ensures samples == Added(max, old(samples), v, j)
    {
      count := count + 1;
      if |samples| < max {
        samples := samples + [v];
      } else {
        if j < max {
          samples := samples[j := v];
        }
        DrawsStep(max, count - max);
        assert (observed + [v])[..|observed|] == observed;
        drawn := Choose(drawn, j);
      }
      observed := observed + [v];
    }

    /** The nearest-rank percentile of the current samples; 0 when there are none. */
    method Percentile(p: real) returns (v: real)
      ensures samples == [] ==> v == 0.0
      ensures samples != [] ==> IsKth(samples, NearestRank(p, |samples|), v)
    {
      var n := |samples|;
      if n == 0 {
        return 0.0;
      }
      var sorted := Sort(samples, RealLeq);
      var rank := RankIndex(Position(p, n), n);
      v := sorted[rank];
      assert rank + 1 == NearestRank(p, n);
      SortedSampleIsKth(samples, sorted, rank + 1);
    }

    static method RankIndex(x: real, n: nat) returns (rank: nat)
      requires n > 0
      ensures rank + 1 == RankAt(x, n)
    {
      var c := Ceil(x) - 1;
      if c < 0 {
        c := 0;
      }
      if c >= n {
        c := n - 1;
      }
      rank := c;
    }
  }
}
