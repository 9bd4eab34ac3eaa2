/** Replicas of the set that have merged the same deltas agree, exactly as far as the deltas are tame. */
module CrdtProofs {
  import opened CrdtSet
  import opened Options

  // ---- What a merge does to one key ----

  predicate HasKey(elements: seq<Element>, k: Key) {
    exists i :: 0 <= i < |elements| && elements[i].key == k
  }

  /** The last value for a key that ranks above `cur`: the one a batch leaves behind. */
  function LastAbove(elements: seq<Element>, k: Key, prio: nat, cur: Rank): Option<Value> {
    if elements == [] then None
    else
      var n := |elements| - 1;
      if elements[n].key == k && Below(cur, Rank(prio, elements[n].value)) then Some(elements[n].value)
      else LastAbove(elements[..n], k, prio, cur)
  }

  /** Two stores have the same entry for a key, or both none. */
  predicate SameAt(a: State, b: State, k: Key) {
    && (k in a.value <==> k in b.value) && (k in a.priority <==> k in b.priority)
    && Current(a, k) == Current(b, k)
  }

  predicate Absent(s: State, k: Key) {
    k !in s.value && k !in s.priority
  }

  predicate HoldsAt(s: State, k: Key, r: Rank) {
    k in s.value && k in s.priority && Current(s, k) == r
  }

  lemma {:induction false} HasKeySnoc(elements: seq<Element>, k: Key)
    requires elements != []
    ensures var n := |elements| - 1;
      HasKey(elements, k) <==> HasKey(elements[..n], k) || elements[n].key == k
  {
    var n := |elements| - 1;
    if i :| 0 <= i < |elements| && elements[i].key == k {
      assert i < n ==> elements[..n][i] == elements[i];
    }
    if i :| 0 <= i < n && elements[..n][i].key == k {
      assert elements[i].key == k;
    }
  }

  lemma {:induction false} PutElemsRows(s: State, elements: seq<Element>, id: Id, prio: nat)
    ensures var w := PutElems(s, elements, id, prio);
      w.tombs == s.tombs && forall k, x :: (k, x) in w.elems <==> (k, x) in s.elems || (x == id && HasKey(elements, k))
  {
    if elements != [] {
      var n := |elements| - 1;
      PutElemsRows(s, elements[..n], id, prio);
      forall k, x ensures (k, x) in PutElems(s, elements, id, prio).elems <==>
        (k, x) in s.elems || (x == id && HasKey(elements, k)) {
        HasKeySnoc(elements, k);
      }
    }
  }

  lemma {:induction false} PutElemsEntry(s: State, elements: seq<Element>, id: Id, prio: nat, k: Key)
    ensures var w := PutElems(s, elements, id, prio);
      var v := if (k, id) in s.tombs then None else LastAbove(elements, k, prio, Current(s, k));
      if v.None? then SameAt(w, s, k) else HoldsAt(w, k, Rank(prio, v.value))
  {
    if elements != [] {
      PutElemsEntry(s, elements[..|elements| - 1], id, prio, k);
    }
  }

  lemma {:induction false} PutTombsRows(dag: Dag, s: State, ts: seq<Tomb>)
    ensures var w := PutTombs(dag, s, ts);
      w.elems == s.elems && forall k, x :: (k, x) in w.tombs <==> (k, x) in s.tombs || x in TombIds(ts, k)
  {
    if ts != [] {
      var n := |ts| - 1;
      PutTombsRows(dag, s, ts[..n]);
      TombIdsNext(ts, n);
      assert ts[..n + 1] == ts;
      forall k, x ensures (k, x) in PutTombs(dag, s, ts).tombs <==> (k, x) in s.tombs || x in TombIds(ts, k) {
        assert x in TombIds(ts, k) <==> x in TombIds(ts[..n], k) || (ts[n].key == k && ts[n].id == x);
      }
    }
  }

  /** The entry that a recomputed best rank leaves. */
  predicate Recomputed(w: State, k: Key, best: Rank) {
    if best.value == [] then Absent(w, k) else HoldsAt(w, k, best)
  }

  lemma PutTombEntry(dag: Dag, s: State, w: State, ts: seq<Tomb>, k: Key)
    requires ts != []
    ensures var w', t := PutTomb(dag, s, w, ts), ts[|ts| - 1];
      if t.key == k then Recomputed(w', k, Best(dag, k, LiveIds(s, k) - TombIds(ts, k))) else SameAt(w', w, k)
  {
  }

  lemma TombIdsFront(ts: seq<Tomb>, k: Key)
    requires ts != []
    ensures var t, front := ts[|ts| - 1], ts[..|ts| - 1];
      if t.key == k then t.id in TombIds(ts, k) else TombIds(ts, k) == TombIds(front, k)
  {
    var n := |ts| - 1;
    TombIdsNext(ts, n);
    assert ts[..n + 1] == ts;
  }

  lemma {:induction false} PutTombsEntry(dag: Dag, s: State, ts: seq<Tomb>, k: Key)
    ensures var w, gone := PutTombs(dag, s, ts), TombIds(ts, k);
      if gone == {} then SameAt(w, s, k) else Recomputed(w, k, Best(dag, k, LiveIds(s, k) - gone))
  {
    if ts != [] {
      var front := ts[..|ts| - 1];
      PutTombsEntry(dag, s, front, k);
      PutTombEntry(dag, s, PutTombs(dag, s, front), ts, k);
      TombIdsFront(ts, k);
    }
  }

  // ---- Tame deltas ----

  /** Whatever a delta would leave for a key in an empty store is its greatest value, and not empty. */
  ghost predicate TameAt(d: Delta, k: Key) {
    var v := LastAbove(d.elements, k, d.priority, BOTTOM);
    v.Some? ==> v.value == Greatest(d.elements, k) && v.value != []
  }

  ghost predicate Tame(d: Delta) {
    forall k :: TameAt(d, k)
  }

  /** Enough: no empty value and no key twice. */
  lemma PlainIsTame(d: Delta)
    requires forall i :: 0 <= i < |d.elements| ==> d.elements[i].value != []
    requires forall i, j :: 0 <= i < j < |d.elements| ==> d.elements[i].key != d.elements[j].key
    ensures Tame(d)
  {
    forall k ensures TameAt(d, k) {
      PlainAt(d.elements, k, d.priority);
    }
  }

  lemma {:induction false} PlainAt(es: seq<Element>, k: Key, prio: nat)
    requires forall i :: 0 <= i < |es| ==> es[i].value != []
    requires forall i, j :: 0 <= i < j < |es| ==> es[i].key != es[j].key
    ensures var v := LastAbove(es, k, prio, BOTTOM);
      Greatest(es, k) == (if v.Some? then v.value else []) && (v.Some? ==> v.value != [] && HasKey(es, k))
  {
    if es != [] {
      var n := |es| - 1;
      PlainAt(es[..n], k, prio);
      HasKeySnoc(es, k);
      if es[n].key == k {
        assert !HasKey(es[..n], k);
      }
    }
  }

  /** No value for the key is greater than `g`. */
  ghost predicate Bounded(es: seq<Element>, k: Key, g: Value) {
    forall i :: 0 <= i < |es| && es[i].key == k ==> es[i].value == g || Less(es[i].value, g)
  }

  lemma {:induction false} GreatestBounds(es: seq<Element>, k: Key)
    ensures Bounded(es, k, Greatest(es, k))
  {
    if es != [] {
      var n := |es| - 1;
      var g, g' := Greatest(es[..n], k), Greatest(es, k);
      GreatestBounds(es[..n], k);
      LessTotal(g, es[n].value);
      forall i | 0 <= i < |es| && es[i].key == k ensures es[i].value == g' || Less(es[i].value, g') {
        if i < n {
          assert es[..n][i] == es[i];
          if Less(es[i].value, g) && Less(g, g') {
            LessTransitive(es[i].value, g, g');
          }
        }
      }
    }
  }

  lemma NotAbove(cur: Rank, x: Rank, y: Rank)
    requires AtMost(x, y) && !Below(cur, y)
    ensures !Below(cur, x)
  {
    BelowTotal(cur, x);
    if Below(cur, x) {
      AtMostTransitive(cur, x, y);
      BelowTotal(x, y);
    }
  }

  lemma {:induction false} NothingAbove(es: seq<Element>, k: Key, prio: nat, cur: Rank, g: Value)
    requires Bounded(es, k, g) && !Below(cur, Rank(prio, g))
    ensures LastAbove(es, k, prio, cur) == None
  {
    if es != [] {
      var n := |es| - 1;
      assert Bounded(es[..n], k, g);
      NothingAbove(es[..n], k, prio, cur, g);
      if es[n].key == k {
        NotAbove(cur, Rank(prio, es[n].value), Rank(prio, g));
      }
    }
  }

  /** In front of a higher current rank a tame delta still leaves its greatest value or nothing. */
  lemma {:induction false} LastAboveCurrent(es: seq<Element>, k: Key, prio: nat, cur: Rank, g: Value)
    requires LastAbove(es, k, prio, BOTTOM) == Some(g) && Bounded(es, k, g) && Below(cur, Rank(prio, g))
    ensures LastAbove(es, k, prio, cur) == Some(g)
  {
    var n := |es| - 1;
    if es[n].key == k && Below(BOTTOM, Rank(prio, es[n].value)) {
    } else {
      assert Bounded(es[..n], k, g);
      LastAboveCurrent(es[..n], k, prio, cur, g);
      if es[n].key == k {
        BottomLeast(cur);
        assert Rank(prio, es[n].value) == BOTTOM;
        BelowTotal(cur, BOTTOM);
      }
    }
  }

  lemma {:induction false} NothingAboveBottom(es: seq<Element>, k: Key, prio: nat)
    requires LastAbove(es, k, prio, BOTTOM) == None
    ensures Greatest(es, k) == [] && (HasKey(es, k) ==> prio == 0)
  {
    if es != [] {
      NothingAboveBottom(es[..|es| - 1], k, prio);
      HasKeySnoc(es, k);
    }
  }

  /** A tame delta's elements act like one element with the greatest value. */
  lemma TameEntry(d: Delta, k: Key, cur: Rank)
    requires TameAt(d, k) && HasKey(d.elements, k)
    ensures var r := Rank(d.priority, Greatest(d.elements, k));
      && LastAbove(d.elements, k, d.priority, cur) == (if Below(cur, r) then Some(r.value) else None)
      && (r.value == [] ==> r == BOTTOM)
  {
    var g := Greatest(d.elements, k);
    GreatestBounds(d.elements, k);
    if LastAbove(d.elements, k, d.priority, BOTTOM) == None {
      NothingAboveBottom(d.elements, k, d.priority);
      BottomLeast(cur);
      BelowTotal(cur, BOTTOM);
    }
    if Below(cur, Rank(d.priority, g)) {
      LastAboveCurrent(d.elements, k, d.priority, cur, g);
    } else {
      NothingAbove(d.elements, k, d.priority, cur, g);
    }
  }

  // ---- The invariant ----

  /** The cached entry of a key is the best of its live elements. */
  ghost predicate CacheAt(dag: Dag, s: State, k: Key) {
    Recomputed(s, k, Best(dag, k, LiveIds(s, k))) && Current(s, k) == Best(dag, k, LiveIds(s, k))
  }

  ghost predicate Known(dag: Dag, s: State) {
    forall k, id :: (k, id) in s.elems ==> HasKey(dag(id).elements, k) && TameAt(dag(id), k)
  }

  ghost predicate Inv(dag: Dag, s: State) {
    Known(dag, s) && forall k :: CacheAt(dag, s, k)
  }

  /** Among tame deltas only the bottom rank has an empty value. */
  lemma BestEmpty(dag: Dag, s: State, k: Key, ids: set<Id>)
    requires Known(dag, s) && ids <= LiveIds(s, k)
    ensures Best(dag, k, ids).value == [] ==> Best(dag, k, ids) == BOTTOM
  {
    var r := Best(dag, k, ids);
    if r != BOTTOM {
      var id :| id in ids && RankOf(dag, k, id) == r;
      assert (k, id) in s.elems;
      TameEntry(dag(id), k, BOTTOM);
    }
  }

  lemma CacheFrom(dag: Dag, w: State, k: Key, best: Rank)
    requires best == Best(dag, k, LiveIds(w, k)) && Recomputed(w, k, best) && (best.value == [] ==> best == BOTTOM)
    ensures CacheAt(dag, w, k)
  {
  }

  lemma CacheSame(dag: Dag, s: State, w: State, k: Key)
    requires CacheAt(dag, s, k) && SameAt(w, s, k) && Best(dag, k, LiveIds(w, k)) == Best(dag, k, LiveIds(s, k))
    ensures CacheAt(dag, w, k)
  {
  }

  lemma TombsKeepCache(dag: Dag, s: State, ts: seq<Tomb>, k: Key)
    requires Known(dag, s) && CacheAt(dag, s, k)
    ensures CacheAt(dag, PutTombs(dag, s, ts), k)
  {
    var w, gone := PutTombs(dag, s, ts), TombIds(ts, k);
    PutTombsRows(dag, s, ts);
    PutTombsEntry(dag, s, ts, k);
    LiveAfterTombs(s, w, ts, k);
    if gone == {} {
      assert LiveIds(w, k) == LiveIds(s, k);
      CacheSame(dag, s, w, k);
    } else {
      BestEmpty(dag, s, k, LiveIds(s, k) - gone);
      CacheFrom(dag, w, k, Best(dag, k, LiveIds(s, k) - gone));
    }
  }

  lemma TombsKeepInv(dag: Dag, s: State, ts: seq<Tomb>)
    requires Inv(dag, s)
    ensures Inv(dag, PutTombs(dag, s, ts))
  {
    PutTombsRows(dag, s, ts);
    forall k ensures CacheAt(dag, PutTombs(dag, s, ts), k) {
      assert CacheAt(dag, s, k);
      TombsKeepCache(dag, s, ts, k);
    }
  }

  lemma LiveAfterTombs(s: State, w: State, ts: seq<Tomb>, k: Key)
    requires w.elems == s.elems && forall k, x :: (k, x) in w.tombs <==> (k, x) in s.tombs || x in TombIds(ts, k)
    ensures LiveIds(w, k) == LiveIds(s, k) - TombIds(ts, k)
  {
    forall x ensures x in LiveIds(w, k) <==> x in LiveIds(s, k) - TombIds(ts, k) {
      LiveMember(w, k, x);
      LiveMember(s, k, x);
    }
  }

  lemma LiveAfterElems(s: State, w: State, es: seq<Element>, id: Id, k: Key)
    requires w.tombs == s.tombs && forall k, x :: (k, x) in w.elems <==> (k, x) in s.elems || (x == id && HasKey(es, k))
    ensures LiveIds(w, k) == LiveIds(s, k) + (if HasKey(es, k) && (k, id) !in s.tombs then {id} else {})
  {
    forall x ensures x in LiveIds(w, k) <==> x in LiveIds(s, k) || (x == id && HasKey(es, k) && (k, id) !in s.tombs) {
      LiveMember(w, k, x);
      LiveMember(s, k, x);
    }
  }

  lemma BestWith(dag: Dag, k: Key, ids: set<Id>, id: Id)
    ensures Best(dag, k, ids + {id}) == Max(Best(dag, k, ids), RankOf(dag, k, id))
  {
    BestOfMore(dag, k, ids, id, Best(dag, k, ids));
    BestUnique(dag, k, ids + {id}, Best(dag, k, ids + {id}), Max(Best(dag, k, ids), RankOf(dag, k, id)));
  }

  lemma {:induction false} LastAboveHasKey(es: seq<Element>, k: Key, prio: nat, cur: Rank)
    requires !HasKey(es, k)
    ensures LastAbove(es, k, prio, cur) == None
  {
    if es != [] {
      HasKeySnoc(es, k);
      LastAboveHasKey(es[..|es| - 1], k, prio, cur);
    }
  }

  lemma EntryIsMax(dag: Dag, s: State, w: State, id: Id, k: Key)
    requires CacheAt(dag, s, k)
    requires Best(dag, k, LiveIds(w, k)) == Max(Best(dag, k, LiveIds(s, k)), RankOf(dag, k, id))
    requires var r := RankOf(dag, k, id);
      (r.value == [] ==> r == BOTTOM) && if Below(Current(s, k), r) then HoldsAt(w, k, r) else SameAt(w, s, k)
    ensures CacheAt(dag, w, k)
  {
    var r := RankOf(dag, k, id);
    if Below(Current(s, k), r) {
      CacheFrom(dag, w, k, r);
    } else {
      CacheSame(dag, s, w, k);
    }
  }

  lemma ElemsKeepCache(dag: Dag, s: State, id: Id, k: Key)
    requires CacheAt(dag, s, k) && TameAt(dag(id), k)
    ensures CacheAt(dag, PutElems(s, dag(id).elements, id, dag(id).priority), k)
  {
    var d := dag(id);
    var w := PutElems(s, d.elements, id, d.priority);
    PutElemsRows(s, d.elements, id, d.priority);
    PutElemsEntry(s, d.elements, id, d.priority, k);
    LiveAfterElems(s, w, d.elements, id, k);
    if !HasKey(d.elements, k) || (k, id) in s.tombs {
      if !HasKey(d.elements, k) {
        LastAboveHasKey(d.elements, k, d.priority, Current(s, k));
      }
      assert LiveIds(w, k) == LiveIds(s, k);
      CacheSame(dag, s, w, k);
    } else {
      TameEntry(d, k, Current(s, k));
      BestWith(dag, k, LiveIds(s, k), id);
      assert LiveIds(w, k) == LiveIds(s, k) + {id};
      EntryIsMax(dag, s, w, id, k);
    }
  }

  lemma ElemsKeepInv(dag: Dag, s: State, id: Id)
    requires Inv(dag, s) && Tame(dag(id))
    ensures Inv(dag, PutElems(s, dag(id).elements, id, dag(id).priority))
  {
    var d := dag(id);
    var w := PutElems(s, d.elements, id, d.priority);
    PutElemsRows(s, d.elements, id, d.priority);
    forall k ensures CacheAt(dag, w, k) {
      assert CacheAt(dag, s, k) && TameAt(d, k);
      ElemsKeepCache(dag, s, id, k);
    }
    assert Known(dag, w);
  }

  lemma MergeKeepsInv(dag: Dag, s: State, id: Id)
    requires Inv(dag, s) && Tame(dag(id))
    ensures Inv(dag, Merged(dag, s, id))
  {
    TombsKeepInv(dag, s, dag(id).tombs);
    ElemsKeepInv(dag, PutTombs(dag, s, dag(id).tombs), id);
  }

  ghost predicate AllTame(dag: Dag, ids: seq<Id>) {
    forall i :: 0 <= i < |ids| ==> Tame(dag(ids[i]))
  }

  lemma {:induction false} RunKeepsInv(dag: Dag, ids: seq<Id>)
    requires AllTame(dag, ids)
    ensures Inv(dag, Run(dag, ids))
  {
    if ids == [] {
      forall k ensures CacheAt(dag, EMPTY, k) {
        assert LiveIds(EMPTY, k) == {};
        BestOfNone(dag, k);
      }
    } else {
      var n := |ids| - 1;
      RunKeepsInv(dag, ids[..n]);
      MergeKeepsInv(dag, Run(dag, ids[..n]), ids[n]);
    }
  }

  lemma BestOfNone(dag: Dag, k: Key)
    ensures Best(dag, k, {}) == BOTTOM
  {
    BestUnique(dag, k, {}, Best(dag, k, {}), BOTTOM);
  }

  // ---- Convergence ----

  ghost predicate Tombstones(dag: Dag, ids: seq<Id>, k: Key, x: Id) {
    exists i :: 0 <= i < |ids| && x in TombIds(dag(ids[i]).tombs, k)
  }

  /** The rows depend on which deltas have been merged, not on the order or on repetitions. */
  lemma {:induction false} RunRows(dag: Dag, ids: seq<Id>, k: Key, x: Id)
    ensures (k, x) in Run(dag, ids).elems <==> x in ids && HasKey(dag(x).elements, k)
    ensures (k, x) in Run(dag, ids).tombs <==> Tombstones(dag, ids, k, x)
  {
    if ids != [] {
      var n := |ids| - 1;
      var front, id := ids[..n], ids[n];
      var s, d := Run(dag, front), dag(id);
      RunRows(dag, front, k, x);
      PutTombsRows(dag, s, d.tombs);
      PutElemsRows(PutTombs(dag, s, d.tombs), d.elements, id, d.priority);
      assert ids == front + [id];
      if i :| 0 <= i < n && x in TombIds(dag(front[i]).tombs, k) {
        assert ids[i] == front[i];
      }
      if i :| 0 <= i < |ids| && x in TombIds(dag(ids[i]).tombs, k) {
        assert i < n ==> front[i] == ids[i];
      }
    }
  }

  /** Equal rows have equal caches. */
  lemma CacheDetermined(dag: Dag, a: State, b: State)
    requires Inv(dag, a) && Inv(dag, b) && a.elems == b.elems && a.tombs == b.tombs
    ensures a == b
  {
    forall k ensures SameAt(a, b, k) {
      assert CacheAt(dag, a, k) && CacheAt(dag, b, k);
      assert LiveIds(a, k) == LiveIds(b, k);
    }
    MapsDetermined(a, b);
  }

  lemma MapsDetermined(a: State, b: State)
    requires a.elems == b.elems && a.tombs == b.tombs && forall k :: SameAt(a, b, k)
    ensures a == b
  {
    forall k | k in a.value ensures k in b.value && a.value[k] == b.value[k] {
      assert SameAt(a, b, k);
    }
    forall k | k in b.value ensures k in a.value {
      assert SameAt(a, b, k);
    }
    forall k | k in a.priority ensures k in b.priority && a.priority[k] == b.priority[k] {
      assert SameAt(a, b, k);
    }
    forall k | k in b.priority ensures k in a.priority {
      assert SameAt(a, b, k);
    }
    assert a.value == b.value && a.priority == b.priority;
  }

  ghost predicate SameIds(a: seq<Id>, b: seq<Id>) {
    forall id :: id in a <==> id in b
  }

  /** Replicas that merged the same tame deltas hold the same store, in whatever order and however often. */
  lemma Convergence(dag: Dag, a: seq<Id>, b: seq<Id>)
    requires AllTame(dag, a) && SameIds(a, b)
    ensures Run(dag, a) == Run(dag, b)
  {
    forall i | 0 <= i < |b| ensures Tame(dag(b[i])) {
      assert b[i] in b && b[i] in a;
    }
    RunKeepsInv(dag, a);
    RunKeepsInv(dag, b);
    SameRows(dag, a, b);
    CacheDetermined(dag, Run(dag, a), Run(dag, b));
  }

  lemma SameRows(dag: Dag, a: seq<Id>, b: seq<Id>)
    requires SameIds(a, b)
    ensures Run(dag, a).elems == Run(dag, b).elems && Run(dag, a).tombs == Run(dag, b).tombs
  {
    var s, t := Run(dag, a), Run(dag, b);
    forall k, x ensures ((k, x) in s.elems <==> (k, x) in t.elems) && ((k, x) in s.tombs <==> (k, x) in t.tombs) {
      RowsAgree(dag, a, b, k, x);
    }
    SetsOfPairs(s.elems, t.elems);
    SetsOfPairs(s.tombs, t.tombs);
  }

  lemma SetsOfPairs(a: set<(Key, Id)>, b: set<(Key, Id)>)
    requires forall k, x :: (k, x) in a <==> (k, x) in b
    ensures a == b
  {
    forall e: (Key, Id) ensures e in a <==> e in b {
      assert e == (e.0, e.1);
    }
  }

  lemma RowsAgree(dag: Dag, a: seq<Id>, b: seq<Id>, k: Key, x: Id)
    requires SameIds(a, b)
    ensures (k, x) in Run(dag, a).elems <==> (k, x) in Run(dag, b).elems
    ensures (k, x) in Run(dag, a).tombs <==> (k, x) in Run(dag, b).tombs
  {
    RunRows(dag, a, k, x);
    RunRows(dag, b, k, x);
    if Tombstones(dag, a, k, x) {
      TombstonesSame(dag, a, b, k, x);
    }
    if Tombstones(dag, b, k, x) {
      TombstonesSame(dag, b, a, k, x);
    }
  }

  lemma TombstonesSame(dag: Dag, a: seq<Id>, b: seq<Id>, k: Key, x: Id)
    requires SameIds(a, b) && Tombstones(dag, a, k, x)
    ensures Tombstones(dag, b, k, x)
  {
    var i :| 0 <= i < |a| && x in TombIds(dag(a[i]).tombs, k);
    assert a[i] in a && a[i] in b;
    var j :| 0 <= j < |b| && b[j] == a[i];
  }

  /** What a reader finds after any run of tame deltas: the best of the live elements, or nothing if there is
      none with a value. */
  lemma RunReads(dag: Dag, ids: seq<Id>, k: Key)
    requires AllTame(dag, ids)
    ensures var s := Run(dag, ids);
      && (k in s.value <==> exists id :: id in LiveIds(s, k) && Greatest(dag(id).elements, k) != [])
      && (k in s.value ==> IsBest(dag, k, LiveIds(s, k), Current(s, k)))
  {
    var s := Run(dag, ids);
    RunKeepsInv(dag, ids);
    assert CacheAt(dag, s, k);
    var best := Best(dag, k, LiveIds(s, k));
    BestEmpty(dag, s, k, LiveIds(s, k));
    if k in s.value {
      var id :| id in LiveIds(s, k) && RankOf(dag, k, id) == best;
    }
    if id :| id in LiveIds(s, k) && Greatest(dag(id).elements, k) != [] {
      BelowTotal(RankOf(dag, k, id), BOTTOM);
      assert AtMost(RankOf(dag, k, id), best);
    }
  }

  /** The delta has a lower priority, or the same and no greater value for the key. */
  predicate NotAhead(d: Delta, k: Key, prio: nat, v: Value) {
    d.priority < prio || (d.priority == prio && !Less(v, Greatest(d.elements, k)))
  }

  /** The same in terms of priorities and values. */
  lemma RunReadsNewest(dag: Dag, ids: seq<Id>, k: Key) returns (id: Id)
    requires AllTame(dag, ids) && k in Run(dag, ids).value
    ensures var s := Run(dag, ids);
      && id in LiveIds(s, k) && k in s.priority
      && s.priority[k] == dag(id).priority && s.value[k] == Greatest(dag(id).elements, k)
      && forall x :: x in LiveIds(s, k) ==> NotAhead(dag(x), k, s.priority[k], s.value[k])
  {
    var s := Run(dag, ids);
    RunReads(dag, ids, k);
    RunKeepsInv(dag, ids);
    assert CacheAt(dag, s, k);
    BestEmpty(dag, s, k, LiveIds(s, k));
    id :| id in LiveIds(s, k) && RankOf(dag, k, id) == Current(s, k);
    forall x | x in LiveIds(s, k) ensures NotAhead(dag(x), k, s.priority[k], s.value[k]) {
      assert AtMost(RankOf(dag, k, x), Current(s, k));
      LessTotal(Greatest(dag(x).elements, k), s.value[k]);
    }
  }

  /** Two additions of a key: in either order the one with the higher priority is read. */
  lemma LaterWins(dag: Dag, a: Id, b: Id, k: Key, v: Value, w: Value, p: nat, q: nat)
    requires dag(a) == Delta([Element(k, v)], [], p) && dag(b) == Delta([Element(k, w)], [], q) && 1 <= p < q
    ensures HoldsAt(Run(dag, [a, b]), k, Rank(q, w)) && HoldsAt(Run(dag, [b, a]), k, Rank(q, w))
  {
    RunTwo(dag, a, b);
    RunTwo(dag, b, a);
    FirstOf(dag, a, k, v, p);
    FirstOf(dag, b, k, w, q);
    AlsoPut(dag, Run(dag, [a]), b, k, w, q);
    AlsoPut(dag, Run(dag, [b]), a, k, v, p);
  }

  /** What any delta leaves for a key, tame or not: its tombstones act first, and its elements are compared with what
      they leave. */
  lemma MergedEntry(dag: Dag, s: State, a: Id, k: Key)
    ensures var d, w := dag(a), Merged(dag, s, a);
      var gone := TombIds(d.tombs, k);
      var best := Best(dag, k, LiveIds(s, k) - gone);
      var mid := if gone == {} then Current(s, k) else if best.value == [] then BOTTOM else best;
      var v := if (k, a) in s.tombs || a in gone then None else LastAbove(d.elements, k, d.priority, mid);
      if v.Some? then HoldsAt(w, k, Rank(d.priority, v.value))
      else if gone == {} then SameAt(w, s, k) else Recomputed(w, k, best)
  {
    var d := dag(a);
    var t := PutTombs(dag, s, d.tombs);
    PutTombsRows(dag, s, d.tombs);
    PutTombsEntry(dag, s, d.tombs, k);
    PutElemsEntry(t, d.elements, a, d.priority, k);
  }

  /** Two additions of a key at one priority: in either order the bytewise greater value is read. */
  lemma TieReadsGreater(dag: Dag, a: Id, b: Id, k: Key, v: Value, w: Value, prio: nat)
    requires dag(a) == Delta([Element(k, v)], [], prio) && dag(b) == Delta([Element(k, w)], [], prio) && prio >= 1
    requires (v <= w && v != w) || exists i: nat :: SmallerAt(v, w, i)
    ensures HoldsAt(Run(dag, [a, b]), k, Rank(prio, w)) && HoldsAt(Run(dag, [b, a]), k, Rank(prio, w))
  {
    LessExactly(v, w);
    LessTotal(v, w);
    assert Less([], w);
    RunTwo(dag, a, b);
    RunTwo(dag, b, a);
    FirstOf(dag, a, k, v, prio);
    FirstOf(dag, b, k, w, prio);
    AlsoPut(dag, Run(dag, [a]), b, k, w, prio);
    AlsoPut(dag, Run(dag, [b]), a, k, v, prio);
  }

  lemma AlsoPut(dag: Dag, s: State, b: Id, k: Key, w: Value, prio: nat)
    requires dag(b) == Delta([Element(k, w)], [], prio) && (k, b) !in s.tombs
    ensures var t := Merged(dag, s, b);
      if Below(Current(s, k), Rank(prio, w)) then HoldsAt(t, k, Rank(prio, w)) else SameAt(t, s, k)
  {
    assert dag(b).elements[..0] == [];
    assert PutElems(s, dag(b).elements[..0], b, prio) == s;
  }

  lemma FirstOf(dag: Dag, a: Id, k: Key, v: Value, prio: nat)
    requires dag(a) == Delta([Element(k, v)], [], prio) && prio >= 1
    ensures HoldsAt(Run(dag, [a]), k, Rank(prio, v)) && Run(dag, [a]).tombs == {}
  {
    assert [a][..0] == [] && Run(dag, [a]) == Merged(dag, EMPTY, a);
    AlsoPut(dag, EMPTY, a, k, v, prio);
    PutElemsRows(EMPTY, dag(a).elements, a, prio);
  }

  // ---- The condition on deltas is exact ----

  /** What the first delta for a key leaves in a store. */
  lemma FirstMerge(dag: Dag, s: State, a: Id, k: Key)
    requires LiveIds(s, k) == {} && Absent(s, k)
    ensures var d, w := dag(a), Merged(dag, s, a);
      var v := if (k, a) in s.tombs || a in TombIds(d.tombs, k) then None
        else LastAbove(d.elements, k, d.priority, BOTTOM);
      if v.None? then Absent(w, k) else HoldsAt(w, k, Rank(d.priority, v.value))
  {
    var d := dag(a);
    var s' := PutTombs(dag, s, d.tombs);
    PutTombsRows(dag, s, d.tombs);
    PutTombsEntry(dag, s, d.tombs, k);
    BestOfNone(dag, k);
    assert LiveIds(s, k) - TombIds(d.tombs, k) == {};
    assert Absent(s', k) && Current(s', k) == BOTTOM;
    PutElemsEntry(s', d.elements, a, d.priority, k);
  }

  lemma OneTomb(ts: seq<Tomb>, k: Key, x: Id, k': Key)
    requires ts == [Tomb(k, x)]
    ensures TombIds(ts, k') == if k' == k then {x} else {}
  {
    assert ts[0].key == k && ts[0].id == x;
  }

  lemma OneDelta(dag: Dag, a: Id, k: Key, y: Id)
    ensures Tombstones(dag, [a], k, y) <==> y in TombIds(dag(a).tombs, k)
  {
    assert [a][0] == a;
  }

  lemma MergeTomb(dag: Dag, s: State, t: Id, k: Key, x: Id)
    requires dag(t).elements == [] && dag(t).tombs == [Tomb(k, x)]
    ensures var w := Merged(dag, s, t);
      && w.elems == s.elems && (forall k', y :: (k', y) in w.tombs <==> (k', y) in s.tombs || (k' == k && y == x))
      && Recomputed(w, k, Best(dag, k, LiveIds(s, k) - {x})) && forall k' :: k' != k ==> SameAt(w, s, k')
  {
    var ts := [Tomb(k, x)];
    forall k' ensures TombIds(ts, k') == if k' == k then {x} else {} {
      OneTomb(ts, k, x, k');
    }
    PutTombsRows(dag, s, ts);
    PutTombsEntry(dag, s, ts, k);
    forall k' | k' != k ensures SameAt(Merged(dag, s, t), s, k') {
      PutTombsEntry(dag, s, ts, k');
    }
  }

  lemma RunTwo(dag: Dag, a: Id, b: Id)
    ensures Run(dag, [a]) == Merged(dag, EMPTY, a) && Run(dag, [a, b]) == Merged(dag, Run(dag, [a]), b)
  {
    assert [a][..0] == [] && [a, b][..1] == [a];
  }

  /** Before a tombstone for another element or after it, a delta leaves the same. */
  lemma AfterTomb(dag: Dag, a: Id, t: Id, k: Key, x: Id, k': Key)
    requires dag(t).elements == [] && dag(t).tombs == [Tomb(k, x)] && a != x
    ensures SameAt(Run(dag, [t, a]), Run(dag, [a]), k')
  {
    RunTwo(dag, t, a);
    RunTwo(dag, a, t);
    var s := Run(dag, [t]);
    MergeTomb(dag, EMPTY, t, k, x);
    assert LiveIds(EMPTY, k') == {} && LiveIds(s, k') == {};
    assert LiveIds(EMPTY, k) - {x} == {};
    BestOfNone(dag, k);
    assert SameAt(s, EMPTY, k');
    FirstMerge(dag, EMPTY, a, k');
    FirstMerge(dag, s, a, k');
  }

  /** The entry that one delta leaves, and the one a later recomputation leaves in its place. */
  lemma RecomputedFirst(dag: Dag, a: Id, k: Key, x: Id)
    requires a != x && a !in TombIds(dag(a).tombs, k)
    ensures var d, s := dag(a), Run(dag, [a]);
      var v := LastAbove(d.elements, k, d.priority, BOTTOM);
      && (if v.None? then Absent(s, k) else HoldsAt(s, k, Rank(d.priority, v.value)))
      && Best(dag, k, LiveIds(s, k) - {x}) == if HasKey(d.elements, k) then RankOf(dag, k, a) else BOTTOM
  {
    var d, s := dag(a), Run(dag, [a]);
    RunTwo(dag, a, a);
    assert LiveIds(EMPTY, k) == {};
    FirstMerge(dag, EMPTY, a, k);
    forall y ensures y in LiveIds(s, k) <==> y == a && HasKey(d.elements, k) {
      RunRows(dag, [a], k, y);
      LiveMember(s, k, y);
      OneDelta(dag, a, k, y);
    }
    BestOfNone(dag, k);
    BestWith(dag, k, {}, a);
    BottomLeast(RankOf(dag, k, a));
    assert {} + {a} == {a};
    assert LiveIds(s, k) - {x} == if HasKey(d.elements, k) then {a} else {};
  }

  /** A delta and a tombstone for another element of the same key commute just when the delta is tame there. */
  lemma TombstoneCommutesExactly(dag: Dag, a: Id, t: Id, k: Key, x: Id)
    requires dag(t).elements == [] && dag(t).tombs == [Tomb(k, x)] && a != x && a !in TombIds(dag(a).tombs, k)
    ensures Run(dag, [a, t]) == Run(dag, [t, a]) <==> TameAt(dag(a), k)
  {
    var d, s, at, ta := dag(a), Run(dag, [a]), Run(dag, [a, t]), Run(dag, [t, a]);
    RunTwo(dag, a, t);
    MergeTomb(dag, s, t, k, x);
    RecomputedFirst(dag, a, k, x);
    AfterTomb(dag, a, t, k, x, k);
    EntryAgrees(d, k, s, at);
    if TameAt(d, k) {
      assert SameIds([a, t], [t, a]);
      SameRows(dag, [a, t], [t, a]);
      forall k' ensures SameAt(at, ta, k') {
        AfterTomb(dag, a, t, k, x, k');
        assert SameAt(at, s, k');
        SameAtThrough(at, s, ta, k');
      }
      MapsDetermined(at, ta);
    }
  }

  lemma SameAtThrough(a: State, b: State, c: State, k: Key)
    requires SameAt(a, b, k) && SameAt(c, b, k)
    ensures SameAt(a, c, k)
  {
  }

  lemma EntryAgrees(d: Delta, k: Key, s: State, w: State)
    requires var v := LastAbove(d.elements, k, d.priority, BOTTOM);
      if v.None? then Absent(s, k) else HoldsAt(s, k, Rank(d.priority, v.value))
    requires Recomputed(w, k, if HasKey(d.elements, k) then Rank(d.priority, Greatest(d.elements, k)) else BOTTOM)
    ensures SameAt(w, s, k) <==> TameAt(d, k)
  {
    if !HasKey(d.elements, k) {
      LastAboveHasKey(d.elements, k, d.priority, BOTTOM);
    } else if LastAbove(d.elements, k, d.priority, BOTTOM) == None {
      NothingAboveBottom(d.elements, k, d.priority);
    }
  }

  // ---- Removal ----

  /** A removal made at store `r` takes away what `r` had seen of the key; the rest stays, and other keys are
      not touched. */
  lemma RemovalTakesObserved(dag: Dag, r: State, s: State, m: Id, k: Key)
    requires Inv(dag, s) && dag(m).elements == [] && TombIds(dag(m).tombs, k) == LiveIds(r, k)
    requires forall i :: 0 <= i < |dag(m).tombs| ==> dag(m).tombs[i].key == k
    ensures var w := Merged(dag, s, m);
      && LiveIds(w, k) == LiveIds(s, k) - LiveIds(r, k) && CacheAt(dag, w, k)
      && forall k' :: k' != k ==> SameAt(w, s, k')
  {
    var ts := dag(m).tombs;
    var w := PutTombs(dag, s, ts);
    assert Merged(dag, s, m) == w;
    PutTombsRows(dag, s, ts);
    LiveAfterTombs(s, w, ts, k);
    assert CacheAt(dag, s, k);
    TombsKeepCache(dag, s, ts, k);
    forall k' | k' != k ensures SameAt(w, s, k') {
      assert TombIds(ts, k') == {};
      PutTombsEntry(dag, s, ts, k');
    }
  }

  /** Removing at the store itself takes the key away. */
  lemma RemovalAtHome(dag: Dag, s: State, m: Id, k: Key)
    requires Inv(dag, s) && dag(m).elements == [] && TombIds(dag(m).tombs, k) == LiveIds(s, k)
    requires forall i :: 0 <= i < |dag(m).tombs| ==> dag(m).tombs[i].key == k
    ensures Absent(Merged(dag, s, m), k)
  {
    RemovalTakesObserved(dag, s, s, m, k);
    assert LiveIds(s, k) - LiveIds(s, k) == {};
    BestOfNone(dag, k);
  }

  /** An addition that the removing store had not seen survives the removal. */
  lemma AddWins(dag: Dag, r: State, s: State, m: Id, k: Key, id: Id)
    requires Inv(dag, s) && dag(m).elements == [] && TombIds(dag(m).tombs, k) == LiveIds(r, k)
    requires forall i :: 0 <= i < |dag(m).tombs| ==> dag(m).tombs[i].key == k
    requires id in LiveIds(s, k) && (k, id) !in r.elems && Greatest(dag(id).elements, k) != []
    ensures var w := Merged(dag, s, m);
      k in w.value && AtMost(RankOf(dag, k, id), Current(w, k))
  {
    RemovalTakesObserved(dag, r, s, m, k);
    var w := Merged(dag, s, m);
    LiveMember(r, k, id);
    assert id in LiveIds(w, k);
    assert AtMost(RankOf(dag, k, id), Best(dag, k, LiveIds(w, k)));
    MergeKeepsInv(dag, s, m);
    BestEmpty(dag, w, k, LiveIds(w, k));
    BelowTotal(RankOf(dag, k, id), BOTTOM);
  }
}
