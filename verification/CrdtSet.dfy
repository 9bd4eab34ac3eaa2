/** The observed-remove set of src/internal/protocol/go-ds-crdt/set.go: elements, tombstones, and the cached
    value and priority of every key. Writes go to a batch, so reads see the store as it was before. */
module CrdtSet {
  import opened ByteStrings

  type Key = string
  type Id = string
  type Value = Bytes

  datatype Element = Element(key: Key, value: Value)
  datatype Tomb = Tomb(key: Key, id: Id)
  datatype Delta = Delta(elements: seq<Element>, tombs: seq<Tomb>, priority: nat)

  /** The block behind an id. */
  type Dag = Id -> Delta

  // ---- The order of values ----

  /** `bytes.Compare(a, b) < 0`. */
  predicate Less(a: Value, b: Value) {
    b != [] && (a == [] || a[0] < b[0] || (a[0] == b[0] && Less(a[1..], b[1..])))
  }

  lemma {:induction false} LessTotal(a: Value, b: Value)
    ensures Less(a, b) || a == b || Less(b, a)
    ensures !(Less(a, b) && Less(b, a)) && !(Less(a, b) && a == b)
  {
    if a != [] && b != [] {
      LessTotal(a[1..], b[1..]);
      assert a == [a[0]] + a[1..] && b == [b[0]] + b[1..];
    }
  }

  /** `i` is the first place where the byte strings differ, and `a` has the smaller byte there. */
  predicate SmallerAt(a: Value, b: Value, i: nat) {
    i < |a| && i < |b| && a[..i] == b[..i] && a[i] < b[i]
  }

  /** The order of bytes: a proper prefix comes first, and otherwise the first different byte decides. */
  lemma {:induction false} LessExactly(a: Value, b: Value)
    ensures Less(a, b) <==> (a <= b && a != b) || exists i: nat :: SmallerAt(a, b, i)
  {
    if a != [] && b != [] {
      var a', b' := a[1..], b[1..];
      LessExactly(a', b');
      assert a == [a[0]] + a' && b == [b[0]] + b';
      assert a[0] < b[0] ==> SmallerAt(a, b, 0);
      if a[0] == b[0] {
        if i: nat :| SmallerAt(a', b', i) {
          assert a[..i + 1] == [a[0]] + a'[..i] && b[..i + 1] == [b[0]] + b'[..i];
          assert SmallerAt(a, b, i + 1);
        }
        if i: nat :| SmallerAt(a, b, i) {
          assert a'[..i - 1] == a[..i][1..] && b'[..i - 1] == b[..i][1..];
          assert SmallerAt(a', b', i - 1);
        }
      }
    }
  }

  lemma {:induction false} LessTransitive(a: Value, b: Value, c: Value)
    requires Less(a, b) && Less(b, c)
    ensures Less(a, c)
  {
    if a != [] && a[0] == b[0] == c[0] {
      LessTransitive(a[1..], b[1..], c[1..]);
    }
  }

  datatype Rank = Rank(priority: nat, value: Value)

  const BOTTOM := Rank(0, [])

  /** A higher priority wins; between equal priorities the greater value. */
  predicate Below(a: Rank, b: Rank) {
    a.priority < b.priority || (a.priority == b.priority && Less(a.value, b.value))
  }

  predicate AtMost(a: Rank, b: Rank) {
    a == b || Below(a, b)
  }

  lemma BelowTotal(a: Rank, b: Rank)
    ensures Below(a, b) || a == b || Below(b, a)
    ensures !(Below(a, b) && Below(b, a)) && !(Below(a, b) && a == b)
  {
    LessTotal(a.value, b.value);
  }

  lemma AtMostTransitive(a: Rank, b: Rank, c: Rank)
    requires AtMost(a, b) && AtMost(b, c)
    ensures AtMost(a, c)
  {
    if Less(a.value, b.value) && Less(b.value, c.value) {
      LessTransitive(a.value, b.value, c.value);
    }
  }

  // ---- The best element of a key ----

  /** The greatest value that a delta holds for a key. */
  function Greatest(elements: seq<Element>, k: Key): Value {
    if elements == [] then []
    else
      var n := |elements| - 1;
      var g := Greatest(elements[..n], k);
      if elements[n].key == k && Less(g, elements[n].value) then elements[n].value else g
  }

  function RankOf(dag: Dag, k: Key, id: Id): Rank {
    Rank(dag(id).priority, Greatest(dag(id).elements, k))
  }

  /** `r` is the highest rank among the given elements of a key, or the bottom if there is none. */
  ghost predicate IsBest(dag: Dag, k: Key, ids: set<Id>, r: Rank) {
    && (r == BOTTOM || exists id :: id in ids && RankOf(dag, k, id) == r)
    && (forall id :: id in ids ==> AtMost(RankOf(dag, k, id), r))
  }

  function Max(a: Rank, b: Rank): Rank {
    if Below(a, b) then b else a
  }

  lemma BestOfMore(dag: Dag, k: Key, ids: set<Id>, id: Id, r: Rank)
    requires IsBest(dag, k, ids, r)
    ensures IsBest(dag, k, ids + {id}, Max(r, RankOf(dag, k, id)))
  {
    var more, x := ids + {id}, RankOf(dag, k, id);
    var m := Max(r, x);
    BelowTotal(r, x);
    forall i | i in more ensures AtMost(RankOf(dag, k, i), m) {
      if i in ids {
        AtMostTransitive(RankOf(dag, k, i), r, m);
      }
    }
    if m != BOTTOM {
      var i :| i in more && RankOf(dag, k, i) == m;
    }
  }

  lemma BestUnique(dag: Dag, k: Key, ids: set<Id>, r: Rank, r': Rank)
    requires IsBest(dag, k, ids, r) && IsBest(dag, k, ids, r')
    ensures r == r'
  {
    BelowTotal(r, r');
    BelowTotal(BOTTOM, r);
    BelowTotal(BOTTOM, r');
    BottomLeast(r);
    BottomLeast(r');
  }

  lemma BottomLeast(r: Rank)
    ensures AtMost(BOTTOM, r)
  {
  }

  lemma {:induction false} BestExists(dag: Dag, k: Key, ids: set<Id>)
    ensures exists r :: IsBest(dag, k, ids, r)
    decreases |ids|
  {
    if ids == {} {
      assert IsBest(dag, k, ids, BOTTOM);
    } else {
      var id :| id in ids;
      BestExists(dag, k, ids - {id});
      var r :| IsBest(dag, k, ids - {id}, r);
      BestOfMore(dag, k, ids - {id}, id, r);
      assert ids - {id} + {id} == ids;
    }
  }

  ghost function Best(dag: Dag, k: Key, ids: set<Id>): (r: Rank)
    ensures IsBest(dag, k, ids, r)
  {
    BestExists(dag, k, ids);
    var r :| IsBest(dag, k, ids, r);
    r
  }

  // ---- The store ----

  datatype State = State(elems: set<(Key, Id)>, tombs: set<(Key, Id)>, value: map<Key, Value>, priority: map<Key, nat>)

  const EMPTY := State({}, {}, map[], map[])

  /** The priority and value that `setValue` compares with: 0 and nothing for an absent key. */
  function Current(s: State, k: Key): Rank {
    Rank(if k in s.priority then s.priority[k] else 0, if k in s.value then s.value[k] else [])
  }

  /** The elements of a key that are not tombstoned. */
  function LiveIds(s: State, k: Key): set<Id> {
    set e | e in s.elems && e.0 == k && e !in s.tombs :: e.1
  }

  lemma LiveMember(s: State, k: Key, x: Id)
    ensures x in LiveIds(s, k) <==> (k, x) in s.elems && (k, x) !in s.tombs
  {
    if (k, x) in s.elems && (k, x) !in s.tombs {
      assert (k, x).0 == k && (k, x).1 == x;
    }
  }

  function WithRank(s: State, k: Key, r: Rank): State {
    s.(value := s.value[k := r.value], priority := s.priority[k := r.priority])
  }

  function WithoutRank(s: State, k: Key): State {
    s.(value := s.value - {k}, priority := s.priority - {k})
  }

  /** One element of `putElems`, written to `w` after reading `s`. */
  function PutElem(s: State, w: State, e: Element, id: Id, prio: nat): State {
    var w' := w.(elems := w.elems + {(e.key, id)});
    if (e.key, id) in s.tombs || !Below(Current(s, e.key), Rank(prio, e.value)) then w'
    else WithRank(w', e.key, Rank(prio, e.value))
  }

  function PutElems(s: State, elements: seq<Element>, id: Id, prio: nat): State {
    if elements == [] then s
    else
      var n := |elements| - 1;
      PutElem(s, PutElems(s, elements[..n], id, prio), elements[n], id, prio)
  }

  /** The ids that a list of tombstones holds for a key. */
  function TombIds(tombs: seq<Tomb>, k: Key): set<Id> {
    set i | 0 <= i < |tombs| && tombs[i].key == k :: tombs[i].id
  }

  /** The writes for one tombstone, given the best rank that is left. */
  function Tombstoned(w: State, k: Key, id: Id, best: Rank): State {
    var w' := if best.value == [] then WithoutRank(w, k) else WithRank(w, k, best);
    w'.(tombs := w'.tombs + {(k, id)})
  }

  /** One tombstone of `putTombs`, the last of `tombs`, written to `w` after reading `s`. */
  ghost function PutTomb(dag: Dag, s: State, w: State, tombs: seq<Tomb>): State
    requires tombs != []
  {
    var t := tombs[|tombs| - 1];
    Tombstoned(w, t.key, t.id, Best(dag, t.key, LiveIds(s, t.key) - TombIds(tombs, t.key)))
  }

  ghost function PutTombs(dag: Dag, s: State, tombs: seq<Tomb>): State {
    if tombs == [] then s else PutTomb(dag, s, PutTombs(dag, s, tombs[..|tombs| - 1]), tombs)
  }

  ghost function Merged(dag: Dag, s: State, id: Id): State {
    PutElems(PutTombs(dag, s, dag(id).tombs), dag(id).elements, id, dag(id).priority)
  }

  /** `CompactTombstones`: tombstones and their element rows go together. */
  function Compact(s: State, pruned: set<(Key, Id)>): State {
    s.(elems := s.elems - pruned, tombs := s.tombs - pruned)
  }

  /** The store after merging some deltas one after the other. */
  ghost function Run(dag: Dag, ids: seq<Id>): State {
    if ids == [] then EMPTY else Merged(dag, Run(dag, ids[..|ids| - 1]), ids[|ids| - 1])
  }

  // ---- The code ----

  class Set {
    const dag: Dag
    var elems: set<(Key, Id)>
    var tombs: set<(Key, Id)>
    var value: map<Key, Value>
    var priority: map<Key, nat>

    function View(): State
      reads this
    {
      State(elems, tombs, value, priority)
    }

    constructor (dag: Dag)
      ensures this.dag == dag && View() == EMPTY
    {
      this.dag := dag;
      elems, tombs, value, priority := {}, {}, map[], map[];
    }

    /** The loop over a delta's elements inside `findBestValue`. */
    method GreatestInDelta(elements: seq<Element>, k: Key) returns (greatest: Value)
      ensures greatest == Greatest(elements, k)
    {
      greatest := [];
      for i := 0 to |elements|
        invariant greatest == Greatest(elements[..i], k)
      {
        assert elements[..i + 1][..i] == elements[..i];
        if elements[i].key == k && Less(greatest, elements[i].value) {
          greatest := elements[i].value;
        }
      }
      assert elements[..|elements|] == elements;
    }

    /** Nothing, or the best value among the elements that are neither tombstoned nor about to be. */
    method FindBestValue(k: Key, pending: set<Id>) returns (bestValue: Value, bestPriority: nat)
      ensures Rank(bestPriority, bestValue) == Best(dag, k, LiveIds(View(), k) - pending)
    {
      bestValue, bestPriority := [], 0;
      var results := set e | e in elems && e.0 == k :: e.1;
      ghost var seen: set<Id> := {};
      while results != {}
        invariant forall id :: id in LiveIds(View(), k) - pending <==>
          id in seen || (id in results && id !in pending && (k, id) !in tombs)
        invariant IsBest(dag, k, seen, Rank(bestPriority, bestValue))
        decreases |results|
      {
        var id :| id in results;
        results := results - {id};
        if id in pending || (k, id) in tombs {
          continue;
        }
        var delta := dag(id);
        BestOfMore(dag, k, seen, id, Rank(bestPriority, bestValue));
        seen := seen + {id};
        if delta.priority < bestPriority {
          continue;
        }
        var greatest := GreatestInDelta(delta.elements, k);
        if delta.priority > bestPriority {
          bestValue, bestPriority := greatest, delta.priority;
          continue;
        }
        if Less(bestValue, greatest) {
          bestValue := greatest;
        }
      }
      assert seen == LiveIds(View(), k) - pending;
      BestUnique(dag, k, seen, Rank(bestPriority, bestValue), Best(dag, k, seen));
    }

    /** `Rmv`: tombstones for the elements of a key that this store knows to be alive. */
    method Remove(k: Key) returns (delta: seq<Tomb>)
      ensures TombIds(delta, k) == LiveIds(View(), k)
      ensures forall i :: 0 <= i < |delta| ==> delta[i].key == k
    {
      delta := [];
      var results := set e | e in elems && e.0 == k :: e.1;
      while results != {}
        invariant forall i :: 0 <= i < |delta| ==> delta[i].key == k
        invariant forall id :: id in results ==> (k, id) in elems
        invariant TombIds(delta, k) == LiveIds(View(), k) - results
        decreases |results|
      {
        var id :| id in results;
        LiveMember(View(), k, id);
        results := results - {id};
        if (k, id) !in tombs {
          TombIdsAdd(delta, k, id);
          delta := delta + [Tomb(k, id)];
        }
      }
    }

    /** `putElems`, whose batch is committed at the end. */
    method PutAll(elements: seq<Element>, id: Id, prio: nat)
      modifies this
      ensures View() == PutElems(old(View()), elements, id, prio)
    {
      var batch := View();
      for i := 0 to |elements|
        invariant batch == PutElems(View(), elements[..i], id, prio)
        invariant View() == old(View())
      {
        var e := elements[i];
        batch := batch.(elems := batch.elems + {(e.key, id)});
        batch := SetValue(batch, e.key, id, e.value, prio);
        assert elements[..i + 1][..i] == elements[..i];
      }
      assert elements[..|elements|] == elements;
      elems, tombs, value, priority := batch.elems, batch.tombs, batch.value, batch.priority;
    }

    /** `setValue`: only a higher rank replaces the cached one. */
    method SetValue(batch: State, k: Key, id: Id, v: Value, prio: nat) returns (batch': State)
      ensures batch' == if (k, id) in tombs || !Below(Current(View(), k), Rank(prio, v)) then batch
        else WithRank(batch, k, Rank(prio, v))
    {
      if (k, id) in tombs {
        return batch;
      }
      var curPrio := if k in priority then priority[k] else 0;
      if prio < curPrio {
        return batch;
      }
      if prio == curPrio {
        var curValue := if k in value then value[k] else [];
        LessTotal(curValue, v);
        if curValue == v || Less(v, curValue) {
          return batch;
        }
      }
      return batch.(value := batch.value[k := v], priority := batch.priority[k := prio]);
    }

    /** One tombstone of `putTombs`: the entry of its key is recomputed without the pending ids. */
    method TombOne(batch: State, k: Key, id: Id, pending: set<Id>) returns (batch': State)
      ensures batch' == Tombstoned(batch, k, id, Best(dag, k, LiveIds(View(), k) - pending))
    {
      var v, p := FindBestValue(k, pending);
      if v == [] {
        batch' := batch.(value := batch.value - {k}, priority := batch.priority - {k});
      } else {
        batch' := batch.(value := batch.value[k := v], priority := batch.priority[k := p]);
      }
      batch' := batch'.(tombs := batch'.tombs + {(k, id)});
    }

    /** `putTombs`, whose batch is committed at the end. */
    method TombAll(ts: seq<Tomb>)
      modifies this
      ensures View() == PutTombs(dag, old(View()), ts)
    {
      var batch := View();
      var deleted: map<Key, set<Id>> := map[];
      for i := 0 to |ts|
        invariant View() == old(View()) && batch == PutTombs(dag, old(View()), ts[..i]) && DeletedIs(deleted, ts[..i])
      {
        DeletedNext(deleted, ts, i);
        var k := ts[i].key;
        deleted := deleted[k := (if k in deleted then deleted[k] else {}) + {ts[i].id}];
        NextTomb(dag, View(), batch, ts, i, deleted[k]);
        batch := TombOne(batch, k, ts[i].id, deleted[k]);
      }
      assert ts[..|ts|] == ts;
      elems, tombs, value, priority := batch.elems, batch.tombs, batch.value, batch.priority;
    }

    /** `Merge` that no other merge overlaps. */
    method Merge(id: Id)
      modifies this
      ensures View() == Merged(dag, old(View()), id)
    {
      var delta := dag(id);
      TombAll(delta.tombs);
      PutAll(delta.elements, id, delta.priority);
    }
  }

  /** `deletedElems`: the ids collected for each key so far. */
  ghost predicate DeletedIs(deleted: map<Key, set<Id>>, ts: seq<Tomb>) {
    forall k :: (if k in deleted then deleted[k] else {}) == TombIds(ts, k)
  }

  lemma DeletedNext(deleted: map<Key, set<Id>>, ts: seq<Tomb>, i: nat)
    requires i < |ts| && DeletedIs(deleted, ts[..i])
    ensures var k := ts[i].key;
      var now := (if k in deleted then deleted[k] else {}) + {ts[i].id};
      now == TombIds(ts[..i + 1], k) && DeletedIs(deleted[k := now], ts[..i + 1])
  {
    TombIdsNext(ts, i);
  }

  /** The batch after one more tombstone. */
  lemma NextTomb(dag: Dag, s: State, w: State, ts: seq<Tomb>, i: nat, pending: set<Id>)
    requires i < |ts| && w == PutTombs(dag, s, ts[..i]) && pending == TombIds(ts[..i + 1], ts[i].key)
    ensures PutTombs(dag, s, ts[..i + 1]) ==
      Tombstoned(w, ts[i].key, ts[i].id, Best(dag, ts[i].key, LiveIds(s, ts[i].key) - pending))
  {
    assert ts[..i + 1][..i] == ts[..i];
  }

  lemma TombIdsAdd(ts: seq<Tomb>, k: Key, id: Id)
    ensures TombIds(ts + [Tomb(k, id)], k) == TombIds(ts, k) + {id}
  {
    var us := ts + [Tomb(k, id)];
    assert us[..|ts|] == ts && us[..|us|] == us;
    TombIdsNext(us, |ts|);
  }

  lemma TombIdsNext(ts: seq<Tomb>, i: nat)
    requires i < |ts|
    ensures forall k :: TombIds(ts[..i + 1], k) == TombIds(ts[..i], k) + (if ts[i].key == k then {ts[i].id} else {})
  {
    forall k, x ensures x in TombIds(ts[..i + 1], k) <==>
      x in TombIds(ts[..i], k) || (ts[i].key == k && ts[i].id == x) {
      assert ts[..i + 1][i] == ts[i];
      if j :| 0 <= j < i && ts[j].key == k && ts[j].id == x {
        assert ts[..i][j] == ts[j] && ts[..i + 1][j] == ts[j];
      }
      var us := ts[..i + 1];
      if j :| 0 <= j < |us| && us[j].key == k && us[j].id == x {
        assert us[j] == ts[j] && (j < i ==> ts[..i][j] == ts[j]);
      }
    }
  }
}
