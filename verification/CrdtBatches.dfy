/** How src/internal/protocol/go-ds-crdt/crdt.go collects the writes of a batch in one delta, and which batches
    give a delta that merges in any order. */
module CrdtBatches {
  import opened CrdtProofs
  import opened CrdtSet
  import opened Options

  /** `deltaMerge`. */
  function DeltaMerge(d1: Delta, d2: Delta): (d: Delta)
    ensures d.priority == d1.priority >= d2.priority || d.priority == d2.priority >= d1.priority
  {
    Delta(d1.elements + d2.elements, d1.tombs + d2.tombs,
          if d2.priority > d1.priority then d2.priority else d1.priority)
  }

  datatype Op = Put(key: Key, value: Value) | Remove(key: Key, tombs: seq<Tomb>)

  /** The elements for other keys. */
  function Without(es: seq<Element>, k: Key): seq<Element> {
    if es == [] then []
    else
      var n := |es| - 1;
      Without(es[..n], k) + if es[n].key == k then [] else [es[n]]
  }

  /** What one operation makes of the collected delta. */
  function Collected(d: Delta, op: Op): Delta {
    match op
    case Put(k, v) => DeltaMerge(d, Delta([Element(k, v)], [], 0))
    case Remove(k, ts) => DeltaMerge(d.(elements := Without(d.elements, k)), Delta([], ts, 0))
  }

  const NO_DELTA := Delta([], [], 0)

  function CollectAll(ops: seq<Op>): Delta {
    if ops == [] then NO_DELTA else Collected(CollectAll(ops[..|ops| - 1]), ops[|ops| - 1])
  }

  /** `curDelta` of the datastore. */
  class Batcher {
    var cur: Delta

    constructor ()
      ensures cur == NO_DELTA
    {
      cur := NO_DELTA;
    }

    /** `addToDelta` and `updateDelta`. */
    method Add(k: Key, v: Value)
      modifies this
      ensures cur == Collected(old(cur), Put(k, v))
    {
      cur := DeltaMerge(cur, Delta([Element(k, v)], [], 0));
    }

    /** `updateDeltaWithRemove`: what the batch had added for the key is taken out. */
    method AddRemoval(k: Key, ts: seq<Tomb>)
      modifies this
      ensures cur == Collected(old(cur), Remove(k, ts))
    {
      var elems := [];
      for i := 0 to |cur.elements|
        invariant cur == old(cur)
        invariant elems == Without(cur.elements[..i], k)
      {
        assert cur.elements[..i + 1][..i] == cur.elements[..i];
        if cur.elements[i].key != k {
          elems := elems + [cur.elements[i]];
        }
      }
      assert cur.elements[..|cur.elements|] == cur.elements;
      cur := DeltaMerge(Delta(elems, cur.tombs, cur.priority), Delta([], ts, 0));
    }

    /** `publishDelta` gives the delta its height, which is at least 1, and starts a new one. */
    method Publish(height: nat) returns (d: Delta)
      requires height >= 1
      modifies this
      ensures d == old(cur).(priority := height) && cur == NO_DELTA
    {
      d := cur.(priority := height);
      cur := NO_DELTA;
    }
  }

  // ---- Which batches are tame ----

  /** The values that a delta holds for a key, in order. */
  function ValuesOf(es: seq<Element>, k: Key): seq<Value> {
    if es == [] then []
    else
      var n := |es| - 1;
      ValuesOf(es[..n], k) + if es[n].key == k then [es[n].value] else []
  }

  /** The values put for a key since it was removed last. */
  function Pending(ops: seq<Op>, k: Key): seq<Value> {
    if ops == [] then []
    else
      var op, vs := ops[|ops| - 1], Pending(ops[..|ops| - 1], k);
      if op.key != k then vs else if op.Put? then vs + [op.value] else []
  }

  lemma {:induction false} ValuesWithout(es: seq<Element>, k: Key, k': Key)
    ensures ValuesOf(Without(es, k), k') == if k' == k then [] else ValuesOf(es, k')
  {
    if es != [] {
      var n := |es| - 1;
      ValuesWithout(es[..n], k, k');
      if es[n].key != k {
        ValuesSnoc(Without(es[..n], k), es[n], k');
      } else {
        assert Without(es[..n], k) + [] == Without(es[..n], k);
      }
    }
  }

  lemma ValuesSnoc(es: seq<Element>, e: Element, k: Key)
    ensures ValuesOf(es + [e], k) == ValuesOf(es, k) + if e.key == k then [e.value] else []
  {
    assert (es + [e])[..|es|] == es;
  }

  /** The batch holds for a key what was put for it since its last removal. */
  lemma {:induction false} CollectedValues(ops: seq<Op>, k: Key)
    ensures ValuesOf(CollectAll(ops).elements, k) == Pending(ops, k)
  {
    if ops != [] {
      var n := |ops| - 1;
      var d := CollectAll(ops[..n]);
      CollectedValues(ops[..n], k);
      match ops[n]
      case Put(k', v) =>
        ValuesSnoc(d.elements, Element(k', v), k);
        assert ValuesOf(d.elements, k) + [] == ValuesOf(d.elements, k);
      case Remove(k', ts) =>
        ValuesWithout(d.elements, k', k);
        assert Without(d.elements, k') + [] == Without(d.elements, k');
    }
  }

  /** The last value is not empty, and none before it is greater. */
  ghost predicate EndsGreatest(vs: seq<Value>) {
    vs != [] ==> vs[|vs| - 1] != [] && NoneGreater(vs, vs[|vs| - 1])
  }

  ghost predicate NoneGreater(vs: seq<Value>, g: Value) {
    forall i :: 0 <= i < |vs| ==> !Less(g, vs[i])
  }

  /** What was put for each key since its last removal ends with the greatest. */
  ghost predicate AllEndGreatest(ops: seq<Op>) {
    forall k :: EndsGreatest(Pending(ops, k))
  }

  lemma {:induction false} LastIsTaken(es: seq<Element>, k: Key, prio: nat)
    requires prio >= 1
    ensures var vs := ValuesOf(es, k);
      LastAbove(es, k, prio, BOTTOM) == if vs == [] then None else Some(vs[|vs| - 1])
  {
    if es != [] {
      LastIsTaken(es[..|es| - 1], k, prio);
    }
  }

  lemma {:induction false} GreatestOfValues(es: seq<Element>, k: Key)
    ensures var vs, g := ValuesOf(es, k), Greatest(es, k);
      (g == [] || g in vs) && NoneGreater(vs, g)
  {
    if es != [] {
      var n := |es| - 1;
      var vs, g := ValuesOf(es[..n], k), Greatest(es[..n], k);
      GreatestOfValues(es[..n], k);
      if es[n].key == k {
        GreatestOfMore(vs, g, es[n].value);
      }
    }
  }

  lemma GreatestOfMore(vs: seq<Value>, g: Value, v: Value)
    requires NoneGreater(vs, g)
    ensures NoneGreater(vs + [v], if Less(g, v) then v else g)
  {
    var g', vs' := if Less(g, v) then v else g, vs + [v];
    forall i | 0 <= i < |vs'| ensures !Less(g', vs'[i]) {
      if i < |vs| {
        if Less(g', vs[i]) && Less(g, v) {
          LessTransitive(g, g', vs[i]);
        }
      } else {
        LessTotal(v, v);
      }
    }
  }

  /** A delta published at a height is tame at a key just when the last of its values there is its greatest and
      is not empty. */
  lemma TameByValues(d: Delta, k: Key)
    requires d.priority >= 1
    ensures TameAt(d, k) <==> EndsGreatest(ValuesOf(d.elements, k))
  {
    var vs, g := ValuesOf(d.elements, k), Greatest(d.elements, k);
    LastIsTaken(d.elements, k, d.priority);
    GreatestOfValues(d.elements, k);
    if vs != [] {
      var last := vs[|vs| - 1];
      LessTotal(g, last);
      if EndsGreatest(vs) && g in vs {
        var i :| 0 <= i < |vs| && vs[i] == g;
        assert !Less(last, vs[i]);
      }
    }
  }

  /** A published batch merges in any order if and only if, for every key, the last value put since its last
      removal is not empty and not less than the others. */
  lemma BatchTameExactly(ops: seq<Op>, height: nat)
    requires height >= 1
    ensures Tame(CollectAll(ops).(priority := height)) <==> AllEndGreatest(ops)
  {
    var d := CollectAll(ops).(priority := height);
    if Tame(d) {
      forall k ensures EndsGreatest(Pending(ops, k)) {
        assert TameAt(d, k);
        BatchTameAt(ops, height, k);
      }
    }
    if AllEndGreatest(ops) {
      forall k ensures TameAt(d, k) {
        assert EndsGreatest(Pending(ops, k));
        BatchTameAt(ops, height, k);
      }
    }
  }

  lemma BatchTameAt(ops: seq<Op>, height: nat, k: Key)
    requires height >= 1
    ensures TameAt(CollectAll(ops).(priority := height), k) <==> EndsGreatest(Pending(ops, k))
  {
    TameByValues(CollectAll(ops).(priority := height), k);
    CollectedValues(ops, k);
  }

  // ---- What a batch removes ----

  /** The tombstones of all removals, in order. */
  function Removals(ops: seq<Op>): seq<Tomb> {
    if ops == [] then []
    else Removals(ops[..|ops| - 1]) + if ops[|ops| - 1].Remove? then ops[|ops| - 1].tombs else []
  }

  /** The batch holds the tombstones of all its removals, whatever else is put or removed. */
  lemma {:induction false} CollectedTombs(ops: seq<Op>)
    ensures CollectAll(ops).tombs == Removals(ops) && CollectAll(ops).priority == 0
  {
    if ops != [] {
      CollectedTombs(ops[..|ops| - 1]);
    }
  }

  lemma {:induction false} RemovalKept(ops: seq<Op>, m: nat, k: Key)
    requires m < |ops| && ops[m].Remove?
    ensures TombIds(ops[m].tombs, k) <= TombIds(Removals(ops), k)
  {
    var n := |ops| - 1;
    var front, last := Removals(ops[..n]), if ops[n].Remove? then ops[n].tombs else [];
    if m < n {
      RemovalKept(ops[..n], m, k);
    }
    var ts := if m < n then front else last;
    forall x | x in TombIds(ts, k) ensures x in TombIds(front + last, k) {
      var i :| 0 <= i < |ts| && ts[i].key == k && ts[i].id == x;
      assert (front + last)[if m < n then i else |front| + i] == ts[i];
    }
  }

  lemma {:induction false} ValuesHaveKey(es: seq<Element>, k: Key)
    ensures ValuesOf(es, k) != [] <==> HasKey(es, k)
  {
    if es != [] {
      ValuesHaveKey(es[..|es| - 1], k);
      HasKeySnoc(es, k);
    }
  }

  /** The block of a batch is new, so nothing has tombstoned it. */
  ghost predicate NewBlock(dag: Dag, s: State, ops: seq<Op>, a: Id, height: nat, k: Key) {
    && dag(a) == CollectAll(ops).(priority := height) && height >= 1
    && (k, a) !in s.tombs && a !in TombIds(Removals(ops), k)
  }

  /** The elements of a key that are alive once the batch is merged. */
  lemma BatchLive(dag: Dag, s: State, ops: seq<Op>, a: Id, height: nat, k: Key)
    requires NewBlock(dag, s, ops, a, height, k)
    ensures LiveIds(Merged(dag, s, a), k) ==
      LiveIds(s, k) - TombIds(Removals(ops), k) + if Pending(ops, k) == [] then {} else {a}
  {
    var d := dag(a);
    var w := PutTombs(dag, s, d.tombs);
    CollectedTombs(ops);
    CollectedValues(ops, k);
    ValuesHaveKey(d.elements, k);
    PutTombsRows(dag, s, d.tombs);
    LiveAfterTombs(s, w, d.tombs, k);
    PutElemsRows(w, d.elements, a, d.priority);
    LiveAfterElems(w, Merged(dag, s, a), d.elements, a, k);
  }

  /** A batch with a removal taken at store `r`, merged anywhere, leaves nothing of what `r` had seen of the key. */
  lemma BatchRemovesObserved(dag: Dag, r: State, s: State, ops: seq<Op>, m: nat, a: Id, height: nat, k: Key)
    requires NewBlock(dag, s, ops, a, height, k) && a !in LiveIds(r, k)
    requires m < |ops| && ops[m].Remove? && TombIds(ops[m].tombs, k) == LiveIds(r, k)
    ensures LiveIds(Merged(dag, s, a), k) !! LiveIds(r, k)
  {
    RemovalKept(ops, m, k);
    BatchLive(dag, s, ops, a, height, k);
  }

  lemma PendingIsBest(dag: Dag, ops: seq<Op>, a: Id, height: nat, k: Key)
    requires dag(a) == CollectAll(ops).(priority := height) && height >= 1
    requires TameAt(dag(a), k) && Pending(ops, k) != []
    ensures var vs := Pending(ops, k);
      RankOf(dag, k, a) == Rank(height, vs[|vs| - 1]) && vs[|vs| - 1] != []
  {
    CollectedValues(ops, k);
    LastIsTaken(dag(a).elements, k, height);
  }

  /** Merged at the store where the removal was taken, the batch leaves for the key what it put afterwards, or
      nothing. */
  lemma BatchRemovesAtHome(dag: Dag, s: State, ops: seq<Op>, m: nat, a: Id, height: nat, k: Key)
    requires Inv(dag, s) && NewBlock(dag, s, ops, a, height, k) && Tame(dag(a))
    requires m < |ops| && ops[m].Remove? && TombIds(ops[m].tombs, k) == LiveIds(s, k)
    ensures var w, vs := Merged(dag, s, a), Pending(ops, k);
      if vs == [] then LiveIds(w, k) == {} && Absent(w, k)
      else LiveIds(w, k) == {a} && HoldsAt(w, k, Rank(height, vs[|vs| - 1]))
  {
    var w, vs := Merged(dag, s, a), Pending(ops, k);
    RemovalKept(ops, m, k);
    BatchLive(dag, s, ops, a, height, k);
    MergeKeepsInv(dag, s, a);
    assert CacheAt(dag, w, k) && TameAt(dag(a), k);
    BestOfNone(dag, k);
    if vs != [] {
      assert LiveIds(w, k) == {} + {a};
      BestWith(dag, k, {}, a);
      PendingIsBest(dag, ops, a, height, k);
    } else {
      assert LiveIds(w, k) == {};
    }
  }

  // ---- A batch that is not tame ----

  /** Two puts of one key, the greater value first. */
  lemma TwoPutsNotTame(k: Key, v1: Value, v2: Value, height: nat)
    requires height >= 1 && Less(v2, v1)
    ensures CollectAll([Put(k, v1), Put(k, v2)]).(priority := height) ==
      Delta([Element(k, v1), Element(k, v2)], [], height)
    ensures !TameAt(Delta([Element(k, v1), Element(k, v2)], [], height), k)
  {
    CollectTwo(k, v1, v2);
    TwoValues(k, v1, v2);
    NotGreatest(v1, v2);
    TameByValues(Delta([Element(k, v1), Element(k, v2)], [], height), k);
  }

  lemma CollectTwo(k: Key, v1: Value, v2: Value)
    ensures CollectAll([Put(k, v1), Put(k, v2)]) == Delta([Element(k, v1), Element(k, v2)], [], 0)
  {
    var ops := [Put(k, v1), Put(k, v2)];
    assert ops[..1] == [Put(k, v1)] && ops[..1][..0] == [];
    assert CollectAll(ops[..1]) == Delta([Element(k, v1)], [], 0);
    assert [Element(k, v1)] + [Element(k, v2)] == [Element(k, v1), Element(k, v2)];
  }

  lemma NotGreatest(v1: Value, v2: Value)
    requires Less(v2, v1)
    ensures !EndsGreatest([v1, v2])
  {
    var vs := [v1, v2];
    assert vs[0] == v1 && vs[|vs| - 1] == v2;
  }

  lemma TwoValues(k: Key, v1: Value, v2: Value)
    ensures ValuesOf([Element(k, v1), Element(k, v2)], k) == [v1, v2]
  {
    var es := [Element(k, v1), Element(k, v2)];
    assert es[..1] == [Element(k, v1)] && es[..1][..0] == [];
    assert ValuesOf(es[..1], k) == [v1];
  }

  lemma TwoPutsTaken(k: Key, v1: Value, v2: Value, p: nat)
    requires p >= 1 && Less(v2, v1)
    ensures var es := [Element(k, v1), Element(k, v2)];
      LastAbove(es, k, p, BOTTOM) == Some(v2) && LastAbove(es, k, p, Rank(p, v2)) == Some(v1)
  {
    var es := [Element(k, v1), Element(k, v2)];
    assert es[..1] == [Element(k, v1)] && es[1] == Element(k, v2);
    LessTotal(v2, v2);
  }

  /** Merging that delta once leaves the smaller value, merging it twice the greater one. */
  lemma MergedTwiceDiffers(dag: Dag, a: Id, k: Key, v1: Value, v2: Value)
    requires dag(a).elements == [Element(k, v1), Element(k, v2)] && dag(a).tombs == [] && dag(a).priority >= 1
    requires Less(v2, v1)
    ensures Current(Run(dag, [a]), k) == Rank(dag(a).priority, v2)
    ensures Current(Run(dag, [a, a]), k) == Rank(dag(a).priority, v1)
    ensures Run(dag, [a]) != Run(dag, [a, a])
  {
    var p, s := dag(a).priority, Run(dag, [a]);
    RunTwo(dag, a, a);
    TwoPutsTaken(k, v1, v2, p);
    PutElemsEntry(EMPTY, dag(a).elements, a, p, k);
    PutElemsRows(EMPTY, dag(a).elements, a, p);
    assert s == PutElems(EMPTY, dag(a).elements, a, p);
    PutElemsEntry(s, dag(a).elements, a, p, k);
    LessTotal(v1, v2);
  }

  /** A concrete input: `Put(k, 2)` and `Put(k, 1)` in one batch, and a tombstone for some other element of the
      key. The order of the two deltas shows, and so does merging the first one again. */
  lemma BatchOrderShows(dag: Dag, a: Id, t: Id, x: Id)
    requires dag(a) == Delta([Element("k", [2]), Element("k", [1])], [], 1)
    requires dag(t) == Delta([], [Tomb("k", x)], 2) && a != x
    ensures !TameAt(dag(a), "k") && Run(dag, [a, t]) != Run(dag, [t, a]) && Run(dag, [a]) != Run(dag, [a, a])
  {
    assert Less([1], [2]);
    TwoPutsNotTame("k", [2], [1], 1);
    TombstoneCommutesExactly(dag, a, t, "k", x);
    MergedTwiceDiffers(dag, a, "k", [2], [1]);
  }
}
