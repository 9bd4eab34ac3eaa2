/** The bounded sample of src/internal/analytics/reservoir.go: Algorithm R. `rng.Intn(count)` becomes a
    parameter; the claim that the sample is unbiased becomes a statement about all draw sequences. */
module Reservoir {
  import opened Counting

  /** The samples after one more observation `v`; `j` is the draw, looked at only when `s` is full. */
  function Added<T>(m: nat, s: seq<T>, v: T, j: nat): seq<T> {
    if |s| < m then s + [v] else if j < m then s[j := v] else s
  }

  /** The samples after observing `vs`: one draw is made for each observation past the first `m`. */
  function Run<T>(m: nat, vs: seq<T>, d: Choices): seq<T>
    decreases d
  {
    match d
    case NoChoice => vs
    case Choose(e, j) => if vs == [] then [] else Added(m, Run(m, vs[..|vs| - 1], e), vs[|vs| - 1], j)
  }

  function Iota(n: nat): (r: seq<nat>)
    ensures |r| == n && forall i :: 0 <= i < n ==> r[i] == i
  {
    seq(n, i => i)
  }

  /** The positions held after `m + d.Length()` observations. */
  function Kept(m: nat, d: Choices): (r: seq<nat>)
    ensures |r| == m
  {
    match d
    case NoChoice => Iota(m)
    case Choose(e, j) => if j < m then Kept(m, e)[j := m + e.Length()] else Kept(m, e)
  }

  ghost predicate AllBelow(s: seq<nat>, n: nat) {
    forall i :: 0 <= i < |s| ==> s[i] < n
  }

  /** The slots always hold pairwise different past positions. */
  lemma {:induction false} KeptInvariant(m: nat, d: Choices)
    ensures Distinct(Kept(m, d)) && AllBelow(Kept(m, d), m + d.Length())
  {
    match d
    case NoChoice =>
    case Choose(e, j) => KeptInvariant(m, e);
  }

  /** The sampler never looks at the values: slot `i` holds the observation at position `Kept[i]`. */
  lemma {:induction false} RunReadsPositions<T>(m: nat, vs: seq<T>, d: Choices)
    requires |vs| == m + d.Length()
    ensures |Run(m, vs, d)| == m
    ensures forall i :: 0 <= i < m ==> Kept(m, d)[i] < |vs| && Run(m, vs, d)[i] == vs[Kept(m, d)[i]]
  {
    match d
    case NoChoice =>
    case Choose(e, j) =>
      RunReadsPositions(m, vs[..|vs| - 1], e);
  }

  /** Every sequence of draws that `k` observations past the first `m` may consume, each as likely as
      any other: `Intn(count)` ranges over the numbers below `count`. */
  function Draws(m: nat, k: nat): set<Choices> {
    if k == 0 then {NoChoice} else set d, j | d in Draws(m, k - 1) && 0 <= j < m + k :: Choose(d, j)
  }

  /** `D'` prolongs the members of `D`, which all end before observation `n`, by every draw below `n`. */
  ghost predicate NextDraws(m: nat, n: nat, D: set<Choices>, D': set<Choices>) {
    && 0 < n
    && (forall d :: d in D ==> m + d.Length() == n - 1)
    && (forall e :: e in D' <==> e.Choose? && e.before in D && e.pick < n)
  }

  lemma {:induction false} DrawsStep(m: nat, k: nat)
    requires k > 0
    ensures NextDraws(m, m + k, Draws(m, k - 1), Draws(m, k))
  {
    if k > 1 {
      DrawsStep(m, k - 1);
    }
  }

  lemma NextSize(m: nat, n: nat, D: set<Choices>, D': set<Choices>)
    requires NextDraws(m, n, D, D')
    ensures |D'| == Times(n, |D|)
  {
    BelowSize(n);
    ProlongedSize(D, _ => Below(n), D', n);
  }

  /** n! */
  function Factorial(n: nat): nat {
    if n == 0 then 1 else Times(Factorial(n - 1), n)
  }

  lemma Reassociate(a: nat, b: nat, c: nat)
    ensures (a * b) * c == a * (b * c) == (b * c) * a
  {
  }

  lemma TimesReassociate(n: nat, t: nat, f: nat)
    ensures Times(Times(n, t), f) == Times(Times(t, f), n)
  {
    TimesIsProduct(n, t);
    TimesIsProduct(n * t, f);
    TimesIsProduct(t, f);
    TimesIsProduct(t * f, n);
    Reassociate(n, t, f);
  }

  lemma DrawsGrow(m: nat, k: nat)
    requires k > 0
    ensures |Draws(m, k)| == Times(m + k, |Draws(m, k - 1)|)
  {
    DrawsStep(m, k);
    NextSize(m, m + k, Draws(m, k - 1), Draws(m, k));
  }

  /** There are n! / m! draw sequences for `n = m + k` observations. */
  lemma {:induction false} DrawsTotal(m: nat, k: nat)
    ensures Times(|Draws(m, k)|, Factorial(m)) == Factorial(m + k)
  {
    if k == 0 {
      TimesIsProduct(1, Factorial(m));
    } else {
      DrawsTotal(m, k - 1);
      DrawsGrow(m, k);
      TimesReassociate(m + k, |Draws(m, k - 1)|, Factorial(m));
    }
  }

  // ---- Each observation is held equally often ----

  /** The draw sequences in `D` after which position `p` is still held. */
  function Holding(m: nat, D: set<Choices>, p: nat): set<Choices> {
    set d | d in D && p in Kept(m, d)
  }

  function Slot(s: seq<nat>, p: nat): (i: nat)
    requires p in s
    ensures i < |s| && s[i] == p
  {
    if s[0] == p then 0 else 1 + Slot(s[1..], p)
  }

  /** After `d`, the draws below `n` that leave the older position `p` held. */
  function Sparing(m: nat, n: nat, p: nat, d: Choices): set<nat> {
    if p in Kept(m, d) then Below(n) - {Slot(Kept(m, d), p)} else {}
  }

  lemma SparingIsRight(m: nat, p: nat, e: Choices)
    requires e.Choose? && p < m + e.before.Length()
    ensures p in Kept(m, e) <==> p in Kept(m, e.before) && e.pick != Slot(Kept(m, e.before), p)
  {
    KeptInvariant(m, e.before);
    var s, t := Kept(m, e.before), Kept(m, e);
    if p in s && e.pick != Slot(s, p) {
      assert t[Slot(s, p)] == p;
    }
  }

  lemma SparingSize(m: nat, n: nat, p: nat, d: Choices)
    requires p in Kept(m, d) && m <= n
    ensures |Sparing(m, n, p, d)| == n - 1
  {
    var i := Slot(Kept(m, d), p);
    BelowSize(n);
    assert i in Below(n);
    assert |Below(n) - {i}| == |Below(n)| - 1;
  }

  lemma HoldingProlongs(m: nat, n: nat, D: set<Choices>, D': set<Choices>, p: nat, allowed: Choices -> set<nat>)
    requires NextDraws(m, n, D, D') && m <= n && p < n - 1
    requires forall d :: d in D ==> allowed(d) == Sparing(m, n, p, d)
    ensures Prolongs(Holding(m, D, p), allowed, Holding(m, D', p))
  {
    forall e: Choices | e.Choose? && e.before in D
      ensures p in Kept(m, e) && e.pick < n <==> p in Kept(m, e.before) && e.pick in allowed(e.before)
    {
      SparingIsRight(m, p, e);
    }
  }

  lemma HoldingOlder(m: nat, n: nat, D: set<Choices>, D': set<Choices>, p: nat)
    requires NextDraws(m, n, D, D') && m <= n && p < n - 1
    ensures |Holding(m, D', p)| == Times(n - 1, |Holding(m, D, p)|)
  {
    var allowed := d => Sparing(m, n, p, d);
    HoldingProlongs(m, n, D, D', p, allowed);
    forall d | d in Holding(m, D, p) ensures |allowed(d)| == n - 1 {
      SparingSize(m, n, p, d);
    }
    ProlongedSize(Holding(m, D, p), allowed, Holding(m, D', p), n - 1);
  }

  lemma NewestIsRight(m: nat, e: Choices)
    requires e.Choose?
    ensures m + e.before.Length() in Kept(m, e) <==> e.pick < m
  {
    KeptInvariant(m, e.before);
    if e.pick < m {
      assert Kept(m, e)[e.pick] == m + e.before.Length();
    }
  }

  lemma HoldingNewest(m: nat, n: nat, D: set<Choices>, D': set<Choices>)
    requires NextDraws(m, n, D, D') && m <= n
    ensures |Holding(m, D', n - 1)| == Times(m, |D|)
  {
    var ext := Holding(m, D', n - 1);
    forall e: Choices | e.Choose? && e.before in D ensures n - 1 in Kept(m, e) <==> e.pick < m {
      NewestIsRight(m, e);
    }
    BelowSize(m);
    ProlongedSize(D, _ => Below(m), ext, m);
  }

  lemma ScaleOlder(h: nat, t: nat, m: nat, n: nat)
    requires n > 0 && h * (n - 1) == m * t
    ensures Times(n - 1, h) * n == m * Times(n, t)
  {
    TimesIsProduct(n - 1, h);
    TimesIsProduct(n, t);
    Reassociate(m, t, n);
    assert (n - 1) * h == m * t;
  }

  lemma ScaleNewest(t: nat, m: nat, n: nat)
    ensures Times(m, t) * n == m * Times(n, t)
  {
    TimesIsProduct(m, t);
    TimesIsProduct(n, t);
  }

  lemma ShareStart(m: nat, D: set<Choices>, p: nat)
    requires p < m && D == {NoChoice}
    ensures |Holding(m, D, p)| == 1
  {
    assert Iota(m)[p] == p;
    assert Holding(m, D, p) == {NoChoice};
  }

  /** One more observation keeps every position's share at m/n. */
  lemma ShareStep(m: nat, n: nat, D: set<Choices>, D': set<Choices>, p: nat)
    requires NextDraws(m, n, D, D') && m <= n && p < n
    requires p < n - 1 ==> |Holding(m, D, p)| * (n - 1) == m * |D|
    ensures |Holding(m, D', p)| * n == m * |D'|
  {
    NextSize(m, n, D, D');
    if p < n - 1 {
      HoldingOlder(m, n, D, D', p);
      ScaleOlder(|Holding(m, D, p)|, |D|, m, n);
    } else {
      HoldingNewest(m, n, D, D');
      ScaleNewest(|D|, m, n);
    }
  }

  /** Unbiased: out of all draw sequences for `n = m + k` observations, exactly the fraction m/n keeps
      any given position. */
  lemma {:induction false} EveryPositionEquallyLikely(m: nat, k: nat, n: nat, p: nat)
    requires 1 <= m && n == m + k && p < n
    ensures |Holding(m, Draws(m, k), p)| * n == m * |Draws(m, k)|
  {
    if k == 0 {
      ShareStart(m, Draws(m, 0), p);
    } else {
      if p < n - 1 {
        EveryPositionEquallyLikely(m, k - 1, n - 1, p);
      }
      DrawsStep(m, k);
      ShareStep(m, n, Draws(m, k - 1), Draws(m, k), p);
    }
  }

  // ---- Each set of m positions is held equally often ----

  function Elements(s: seq<nat>): set<nat> {
    set p | p in s
  }

  lemma {:induction false} ElementsSize(s: seq<nat>)
    requires Distinct(s)
    ensures |Elements(s)| == |s|
  {
    if s != [] {
      ElementsSize(s[1..]);
      assert Elements(s) == Elements(s[1..]) + {s[0]};
    }
  }

  /** The set of held positions. */
  function Held(m: nat, d: Choices): set<nat> {
    Elements(Kept(m, d))
  }

  lemma HeldInvariant(m: nat, d: Choices)
    ensures |Held(m, d)| == m && Held(m, d) <= Below(m + d.Length())
  {
    KeptInvariant(m, d);
    ElementsSize(Kept(m, d));
  }

  lemma SwapElement(s: seq<nat>, j: nat, v: nat)
    requires Distinct(s) && j < |s| && v !in s
    ensures Elements(s[j := v]) == Elements(s) - {s[j]} + {v}
  {
    var t := s[j := v];
    forall p ensures p in t <==> p == v || (p in s && p != s[j]) {
      if p in s && p != s[j] {
        assert t[Slot(s, p)] == p;
      }
      assert t[j] == v;
    }
  }

  lemma NewestAbsent(m: nat, d: Choices)
    ensures Distinct(Kept(m, d)) && m + d.Length() !in Kept(m, d)
  {
    KeptInvariant(m, d);
  }

  lemma HeldStep(m: nat, d: Choices, j: nat)
    ensures Held(m, Choose(d, j)) ==
            if j < m then Held(m, d) - {Kept(m, d)[j]} + {m + d.Length()} else Held(m, d)
  {
    NewestAbsent(m, d);
    var s, t := Kept(m, d), Kept(m, Choose(d, j));
    assert t == if j < m then s[j := m + d.Length()] else s;
    if j < m {
      SwapElement(s, j, m + d.Length());
    }
  }

  /** The draw sequences in `D` after which the held positions are exactly those in `S`. */
  function Selecting(m: nat, D: set<Choices>, S: set<nat>): set<Choices> {
    set d | d in D && Held(m, d) == S
  }

  lemma OldIsRight(m: nat, e: Choices, S: set<nat>)
    requires e.Choose? && m + e.before.Length() !in S
    ensures Held(m, e) == S <==> Held(m, e.before) == S && e.pick >= m
  {
    HeldStep(m, e.before, e.pick);
    if e.pick < m {
      assert m + e.before.Length() in Held(m, e);
    }
  }

  lemma SelectingOld(m: nat, n: nat, D: set<Choices>, D': set<Choices>, S: set<nat>)
    requires NextDraws(m, n, D, D') && m <= n && n - 1 !in S
    ensures |Selecting(m, D', S)| == Times(n - m, |Selecting(m, D, S)|)
  {
    var js := Below(n) - Below(m);
    forall e: Choices | e.Choose? && e.before in D ensures Held(m, e) == S <==> Held(m, e.before) == S && e.pick >= m {
      OldIsRight(m, e, S);
    }
    assert |js| == n - m by {
      BelowSize(n);
      BelowSize(m);
      assert Below(n) == Below(m) + js;
    }
    ProlongedSize(Selecting(m, D, S), _ => js, Selecting(m, D', S), n - m);
  }

  /** The draw sequences in `D` that hold all of `R`. */
  function Covering(m: nat, D: set<Choices>, R: set<nat>): set<Choices> {
    set d | d in D && R <= Held(m, d)
  }

  lemma OneExtra(R: set<nat>, E: set<nat>, x: nat)
    requires R <= E && |E| == |R| + 1 && x in E && x !in R
    ensures E == R + {x}
  {
    SubsetSize(R + {x}, E);
  }

  lemma ExtraExists(R: set<nat>, E: set<nat>) returns (x: nat)
    requires R <= E && |E| == |R| + 1
    ensures x in E && x !in R && E == R + {x}
  {
    assert E - R != {} by {
      assert E == R + (E - R);
    }
    x :| x in E - R;
    OneExtra(R, E, x);
  }

  /** The slots whose content is not in `R`. */
  function Foreign(m: nat, R: set<nat>, d: Choices): (r: set<nat>)
    ensures forall j: nat :: j in r <==> j < m && Kept(m, d)[j] !in R
  {
    set j | j in Below(m) && Kept(m, d)[j] !in R
  }

  lemma OneForeign(m: nat, R: set<nat>, d: Choices)
    requires R <= Held(m, d) && |R| == m - 1
    ensures |Foreign(m, R, d)| == 1
  {
    HeldInvariant(m, d);
    KeptInvariant(m, d);
    var x := ExtraExists(R, Held(m, d));
    var s := Kept(m, d);
    forall j ensures j in Foreign(m, R, d) <==> j == Slot(s, x) {
      if j in Foreign(m, R, d) {
        assert s[j] in Held(m, d);
      }
    }
    assert Foreign(m, R, d) == {Slot(s, x)};
  }

  lemma SwapBack(E: set<nat>, R: set<nat>, x: nat, v: nat)
    requires x in E && v !in E && v !in R
    ensures E - {x} + {v} == R + {v} <==> E == R + {x} && x !in R
  {
    if E - {x} + {v} == R + {v} {
      forall y ensures y in E <==> y in R || y == x {
        assert y in E - {x} + {v} <==> y in R + {v};
      }
      assert x in R ==> x in E - {x} + {v};
    }
  }

  lemma NewestNotHeld(m: nat, d: Choices)
    ensures |Held(m, d)| == m && m + d.Length() !in Held(m, d) && forall j :: 0 <= j < m ==> Kept(m, d)[j] in Held(m, d)
  {
    HeldInvariant(m, d);
  }

  lemma PickedIsRight(m: nat, d: Choices, j: nat, R: set<nat>, v: nat)
    requires j < m && |R| == m - 1 && v == m + d.Length() && v !in R
    ensures Held(m, Choose(d, j)) == R + {v} <==> R <= Held(m, d) && Kept(m, d)[j] !in R
  {
    HeldStep(m, d, j);
    NewestNotHeld(m, d);
    NewSet(Held(m, d), R, Kept(m, d)[j], v);
  }

  lemma NewIsRight(m: nat, e: Choices, R: set<nat>)
    requires e.Choose? && |R| == m - 1 && m + e.before.Length() !in R
    ensures Held(m, e) == R + {m + e.before.Length()} <==>
            R <= Held(m, e.before) && e.pick in Foreign(m, R, e.before)
  {
    var v := m + e.before.Length();
    if e.pick < m {
      PickedIsRight(m, e.before, e.pick, R, v);
    } else {
      HeldStep(m, e.before, e.pick);
      NewestNotHeld(m, e.before);
      assert v in R + {v};
    }
  }

  /** Putting `v` in the place of `x` gives `R` and `v` just when `E` has `R` and only `x` besides. */
  lemma NewSet(E: set<nat>, R: set<nat>, x: nat, v: nat)
    requires x in E && v !in E && v !in R && |E| == |R| + 1
    ensures E - {x} + {v} == R + {v} <==> R <= E && x !in R
  {
    SwapBack(E, R, x, v);
    if R <= E && x !in R {
      OneExtra(R, E, x);
    }
  }

  lemma SelectingNew(m: nat, n: nat, D: set<Choices>, D': set<Choices>, R: set<nat>, S: set<nat>)
    requires NextDraws(m, n, D, D') && m <= n && n - 1 !in R && |R| == m - 1 && S == R + {n - 1}
    ensures |Selecting(m, D', S)| == |Covering(m, D, R)|
  {
    var allowed := d => Foreign(m, R, d);
    forall e: Choices | e.Choose? && e.before in D
      ensures Held(m, e) == S <==> R <= Held(m, e.before) && e.pick in allowed(e.before)
    {
      NewIsRight(m, e, R);
    }
    forall d | d in Covering(m, D, R) ensures |allowed(d)| == 1 {
      OneForeign(m, R, d);
    }
    ProlongedSize(Covering(m, D, R), allowed, Selecting(m, D', S), 1);
    TimesIsProduct(1, |Covering(m, D, R)|);
  }

  function Singletons(s: set<nat>): set<set<nat>> {
    set x | x in s :: {x}
  }

  lemma {:induction false} SingletonsSize(s: set<nat>)
    ensures |Singletons(s)| == |s|
  {
    if s != {} {
      var x :| x in s;
      SingletonsSize(s - {x});
      assert Singletons(s) == Singletons(s - {x}) + {{x}};
      forall y | y in s - {x} ensures {y} != {x} {
        assert y in {y};
      }
    }
  }

  lemma CoveringPart(m: nat, D: set<Choices>, R: set<nat>, tag: Choices -> set<nat>, x: nat)
    requires x !in R && forall d :: d in D ==> tag(d) == Held(m, d) - R
    ensures Part(Covering(m, D, R), tag, {x}) == Selecting(m, D, R + {x})
  {
    forall d | d in D ensures R <= Held(m, d) && tag(d) == {x} <==> Held(m, d) == R + {x} {
      assert x in {x};
    }
  }

  lemma CoveringTag(m: nat, n: nat, R: set<nat>, d: Choices)
    requires m + d.Length() == n && R <= Held(m, d) && |R| == m - 1
    ensures Held(m, d) - R in Singletons(Below(n) - R)
  {
    HeldInvariant(m, d);
    var x := ExtraExists(R, Held(m, d));
    assert Held(m, d) - R == {x};
  }

  lemma CoveringSplits(m: nat, n: nat, D: set<Choices>, R: set<nat>, tag: Choices -> set<nat>, c: nat)
    requires |R| == m - 1 && forall d :: d in D ==> m + d.Length() == n && tag(d) == Held(m, d) - R
    requires forall x :: x in Below(n) - R ==> |Selecting(m, D, R + {x})| == c
    ensures Splits(Singletons(Below(n) - R), tag, Covering(m, D, R), c)
  {
    forall t | t in Singletons(Below(n) - R) ensures |Part(Covering(m, D, R), tag, t)| == c {
      var x :| x in Below(n) - R && t == {x};
      CoveringPart(m, D, R, tag, x);
    }
    forall d | d in Covering(m, D, R) ensures tag(d) in Singletons(Below(n) - R) {
      CoveringTag(m, n, R, d);
    }
  }

  lemma OthersSize(n: nat, R: set<nat>)
    requires R <= Below(n)
    ensures |R| <= n && |Singletons(Below(n) - R)| == n - |R|
  {
    BelowSize(n);
    SingletonsSize(Below(n) - R);
    assert Below(n) == R + (Below(n) - R);
  }

  /** When `R` with any one further position is the outcome of `c` members of `D`, there are `c` members
      for each further position that cover `R`. */
  lemma CoveringSize(m: nat, n: nat, D: set<Choices>, R: set<nat>, c: nat)
    requires |R| == m - 1 && m <= n && R <= Below(n) && forall d :: d in D ==> m + d.Length() == n
    requires forall x :: x in Below(n) - R ==> |Selecting(m, D, R + {x})| == c
    ensures |Covering(m, D, R)| == Times(c, n + 1 - m)
  {
    var tag := d => Held(m, d) - R;
    CoveringSplits(m, n, D, R, tag, c);
    OthersSize(n, R);
    PartitionSize(Singletons(Below(n) - R), tag, Covering(m, D, R), c);
  }

  /** Every set of `m` of the first `n` positions is the outcome of `c` draw sequences in `D`. */
  ghost predicate Uniform(m: nat, n: nat, D: set<Choices>, c: nat) {
    forall S :: S <= Below(n) && |S| == m ==> |Selecting(m, D, S)| == c
  }

  lemma UniformStepOld(m: nat, n: nat, D: set<Choices>, D': set<Choices>, c: nat, S: set<nat>)
    requires m < n && NextDraws(m, n, D, D') && Uniform(m, n - 1, D, c) && S <= Below(n) && |S| == m
    requires n - 1 !in S
    ensures |Selecting(m, D', S)| == Times(c, n - m)
  {
    assert S <= Below(n - 1);
    SelectingOld(m, n, D, D', S);
    TimesCommutes(n - m, c);
  }

  lemma UniformStepNew(m: nat, n: nat, D: set<Choices>, D': set<Choices>, c: nat, S: set<nat>)
    requires 1 <= m < n && NextDraws(m, n, D, D') && Uniform(m, n - 1, D, c) && S <= Below(n) && |S| == m
    requires n - 1 in S
    ensures |Selecting(m, D', S)| == Times(c, n - m)
  {
    var R := S - {n - 1};
    forall x | x in Below(n - 1) - R ensures |Selecting(m, D, R + {x})| == c {
      assert R + {x} <= Below(n - 1) && |R + {x}| == m;
    }
    CoveringSize(m, n - 1, D, R, c);
    SelectingNew(m, n, D, D', R, S);
  }

  lemma UniformStart(m: nat, D: set<Choices>)
    requires D == {NoChoice}
    ensures Uniform(m, m, D, 1)
  {
    forall S | S <= Below(m) && |S| == m ensures |Selecting(m, D, S)| == 1 {
      FullSegment(S, m);
      HeldInvariant(m, NoChoice);
      FullSegment(Held(m, NoChoice), m);
      assert Selecting(m, D, S) == {NoChoice};
    }
  }

  lemma UniformNext(m: nat, n: nat, D: set<Choices>, D': set<Choices>, c: nat)
    requires 1 <= m < n && NextDraws(m, n, D, D') && Uniform(m, n - 1, D, c)
    ensures Uniform(m, n, D', Times(c, n - m))
  {
    forall S | S <= Below(n) && |S| == m ensures |Selecting(m, D', S)| == Times(c, n - m) {
      if n - 1 in S {
        UniformStepNew(m, n, D, D', c, S);
      } else {
        UniformStepOld(m, n, D, D', c, S);
      }
    }
  }

  /** The sample is a simple random sample: every set of `m` of the `n = m + k` positions is the outcome
      of the same number of draw sequences, (n - m)!. */
  lemma {:induction false} EverySubsetEquallyLikely(m: nat, k: nat)
    requires 1 <= m
    ensures Uniform(m, m + k, Draws(m, k), Factorial(k))
  {
    if k == 0 {
      UniformStart(m, Draws(m, 0));
    } else {
      EverySubsetEquallyLikely(m, k - 1);
      DrawsStep(m, k);
      UniformNext(m, m + k, Draws(m, k - 1), Draws(m, k), Factorial(k - 1));
    }
  }
}
