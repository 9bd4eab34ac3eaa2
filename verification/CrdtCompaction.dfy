/** Pruning of old tombstones, src/internal/protocol/go-ds-crdt/compaction.go: the tombstone and the element
    row go together. Which tombstones are old enough is left open: `pruned` is any set of them. */
module CrdtCompaction {
  import opened CrdtProofs
  import opened CrdtSet

  /** The same live elements and the same cache: nothing a reader could tell apart. */
  ghost predicate Alike(a: State, b: State) {
    forall k :: AlikeAt(a, b, k)
  }

  ghost predicate AlikeAt(a: State, b: State, k: Key) {
    SameAt(a, b, k) && LiveIds(a, k) == LiveIds(b, k)
  }

  /** The stores have the same tombstones but for the pruned ones. */
  ghost predicate TombsAgree(a: State, b: State, pruned: set<(Key, Id)>) {
    forall k, x :: (k, x) !in pruned ==> ((k, x) in a.tombs <==> (k, x) in b.tombs)
  }

  /** Pruning changes nothing that can be read, and keeps the invariant. */
  lemma CompactionInvisible(dag: Dag, s: State, pruned: set<(Key, Id)>)
    requires pruned <= s.tombs
    ensures Alike(s, Compact(s, pruned)) && TombsAgree(s, Compact(s, pruned), pruned)
    ensures Inv(dag, s) ==> Inv(dag, Compact(s, pruned))
  {
    var c := Compact(s, pruned);
    forall k ensures AlikeAt(s, c, k) {
      LiveIdsEqual(s, c, k);
    }
    if Inv(dag, s) {
      forall k ensures CacheAt(dag, c, k) {
        assert CacheAt(dag, s, k) && AlikeAt(s, c, k);
        CacheSame(dag, s, c, k);
      }
    }
  }

  lemma LiveIdsEqual(a: State, b: State, k: Key)
    requires forall x :: ((k, x) in a.elems && (k, x) !in a.tombs) <==> ((k, x) in b.elems && (k, x) !in b.tombs)
    ensures LiveIds(a, k) == LiveIds(b, k)
  {
    forall x ensures x in LiveIds(a, k) <==> x in LiveIds(b, k) {
      LiveMember(a, k, x);
      LiveMember(b, k, x);
    }
  }

  lemma TombsAlikeAt(dag: Dag, a: State, b: State, ts: seq<Tomb>, k: Key)
    requires AlikeAt(a, b, k)
    ensures AlikeAt(PutTombs(dag, a, ts), PutTombs(dag, b, ts), k)
  {
    PutTombsRows(dag, a, ts);
    PutTombsRows(dag, b, ts);
    PutTombsEntry(dag, a, ts, k);
    PutTombsEntry(dag, b, ts, k);
    LiveAfterTombs(a, PutTombs(dag, a, ts), ts, k);
    LiveAfterTombs(b, PutTombs(dag, b, ts), ts, k);
  }

  lemma ElemsAlikeAt(a: State, b: State, es: seq<Element>, id: Id, prio: nat, k: Key)
    requires AlikeAt(a, b, k) && ((k, id) in a.tombs <==> (k, id) in b.tombs)
    ensures AlikeAt(PutElems(a, es, id, prio), PutElems(b, es, id, prio), k)
  {
    PutElemsRows(a, es, id, prio);
    PutElemsRows(b, es, id, prio);
    PutElemsEntry(a, es, id, prio, k);
    PutElemsEntry(b, es, id, prio, k);
    LiveAfterElems(a, PutElems(a, es, id, prio), es, id, k);
    LiveAfterElems(b, PutElems(b, es, id, prio), es, id, k);
  }

  /** Putting elements does nothing to a key that has none of them. */
  lemma ElemsElsewhere(a: State, es: seq<Element>, id: Id, prio: nat, k: Key)
    requires !HasKey(es, k)
    ensures AlikeAt(PutElems(a, es, id, prio), a, k)
  {
    PutElemsRows(a, es, id, prio);
    PutElemsEntry(a, es, id, prio, k);
    LastAboveHasKey(es, k, prio, Current(a, k));
    LiveAfterElems(a, PutElems(a, es, id, prio), es, id, k);
  }

  /** Each pruned element of the delta has its tombstone again, in the store or in the delta itself. */
  ghost predicate Covered(dag: Dag, b: State, pruned: set<(Key, Id)>, id: Id) {
    forall k :: (k, id) in pruned && HasKey(dag(id).elements, k) ==> CoveredAt(dag, b, id, k)
  }

  ghost predicate CoveredAt(dag: Dag, b: State, id: Id, k: Key) {
    (k, id) in b.tombs || id in TombIds(dag(id).tombs, k)
  }

  lemma MergeAlikeAt(dag: Dag, a: State, b: State, pruned: set<(Key, Id)>, id: Id, k: Key)
    requires AlikeAt(a, b, k) && TombsAgree(a, b, pruned) && pruned <= a.tombs
    requires (k, id) in pruned && HasKey(dag(id).elements, k) ==> CoveredAt(dag, b, id, k)
    ensures AlikeAt(Merged(dag, a, id), Merged(dag, b, id), k)
  {
    var d := dag(id);
    var a', b' := PutTombs(dag, a, d.tombs), PutTombs(dag, b, d.tombs);
    PutTombsRows(dag, a, d.tombs);
    PutTombsRows(dag, b, d.tombs);
    TombsAlikeAt(dag, a, b, d.tombs, k);
    if HasKey(d.elements, k) {
      ElemsAlikeAt(a', b', d.elements, id, d.priority, k);
    } else {
      ElemsElsewhere(a', d.elements, id, d.priority, k);
      ElemsElsewhere(b', d.elements, id, d.priority, k);
    }
  }

  lemma MergeTombs(dag: Dag, a: State, id: Id, k: Key, x: Id)
    ensures (k, x) in Merged(dag, a, id).tombs <==> (k, x) in a.tombs || x in TombIds(dag(id).tombs, k)
    ensures (k, x) in Merged(dag, a, id).elems <==> (k, x) in a.elems || (x == id && HasKey(dag(id).elements, k))
  {
    var d := dag(id);
    PutTombsRows(dag, a, d.tombs);
    PutElemsRows(PutTombs(dag, a, d.tombs), d.elements, id, d.priority);
  }

  /** An element without its tombstone comes to life where it was pruned. */
  lemma UncoveredReturns(dag: Dag, a: State, b: State, id: Id, k: Key)
    requires (k, id) in a.tombs && HasKey(dag(id).elements, k) && !CoveredAt(dag, b, id, k)
    ensures id !in LiveIds(Merged(dag, a, id), k) && id in LiveIds(Merged(dag, b, id), k)
  {
    MergeTombs(dag, a, id, k, id);
    MergeTombs(dag, b, id, k, id);
    LiveMember(Merged(dag, a, id), k, id);
    LiveMember(Merged(dag, b, id), k, id);
  }

  /** One merge after the pruning shows just when it brings a pruned element without its tombstone. */
  lemma MergeAlikeExactly(dag: Dag, a: State, b: State, pruned: set<(Key, Id)>, id: Id)
    requires Alike(a, b) && TombsAgree(a, b, pruned) && pruned <= a.tombs
    ensures Alike(Merged(dag, a, id), Merged(dag, b, id)) <==> Covered(dag, b, pruned, id)
  {
    if Covered(dag, b, pruned, id) {
      forall k ensures AlikeAt(Merged(dag, a, id), Merged(dag, b, id), k) {
        assert AlikeAt(a, b, k);
        MergeAlikeAt(dag, a, b, pruned, id, k);
      }
    } else {
      var k :| (k, id) in pruned && HasKey(dag(id).elements, k) && !CoveredAt(dag, b, id, k);
      UncoveredReturns(dag, a, b, id, k);
      assert !AlikeAt(Merged(dag, a, id), Merged(dag, b, id), k);
    }
  }

  /** The first merge after a pruning, in terms of the delta alone. */
  lemma PruningShowsExactly(dag: Dag, s: State, pruned: set<(Key, Id)>, id: Id)
    requires pruned <= s.tombs
    ensures Alike(Merged(dag, s, id), Merged(dag, Compact(s, pruned), id)) <==>
      forall k :: (k, id) in pruned && HasKey(dag(id).elements, k) ==> id in TombIds(dag(id).tombs, k)
  {
    CompactionInvisible(dag, s, pruned);
    MergeAlikeExactly(dag, s, Compact(s, pruned), pruned, id);
  }

  ghost function MergeAll(dag: Dag, s: State, ids: seq<Id>): State {
    if ids == [] then s else Merged(dag, MergeAll(dag, s, ids[..|ids| - 1]), ids[|ids| - 1])
  }

  /** After the first `n` merges the pruned store looks like the other one. */
  ghost predicate AlikeAfter(dag: Dag, s: State, pruned: set<(Key, Id)>, ids: seq<Id>, n: nat)
    requires n <= |ids|
  {
    Alike(MergeAll(dag, s, ids[..n]), MergeAll(dag, Compact(s, pruned), ids[..n]))
  }

  ghost predicate AlwaysAlike(dag: Dag, s: State, pruned: set<(Key, Id)>, ids: seq<Id>) {
    forall n {:trigger AlikeAfter(dag, s, pruned, ids, n)} :: 0 <= n <= |ids| ==> AlikeAfter(dag, s, pruned, ids, n)
  }

  /** Each pruned element that merge `n` brings has been tombstoned again by then, or is by this very delta. */
  ghost predicate TombstonedBy(dag: Dag, pruned: set<(Key, Id)>, ids: seq<Id>, n: nat)
    requires n < |ids|
  {
    forall k :: (k, ids[n]) in pruned && HasKey(dag(ids[n]).elements, k) ==> Tombstones(dag, ids[..n + 1], k, ids[n])
  }

  ghost predicate AllTombstoned(dag: Dag, pruned: set<(Key, Id)>, ids: seq<Id>) {
    forall n {:trigger TombstonedBy(dag, pruned, ids, n)} :: 0 <= n < |ids| ==> TombstonedBy(dag, pruned, ids, n)
  }

  lemma TombstonesNext(dag: Dag, ids: seq<Id>, n: nat, k: Key, x: Id)
    requires n < |ids|
    ensures Tombstones(dag, ids[..n + 1], k, x) <==>
      Tombstones(dag, ids[..n], k, x) || x in TombIds(dag(ids[n]).tombs, k)
  {
    var now, before := ids[..n + 1], ids[..n];
    assert now[n] == ids[n];
    if i :| 0 <= i < |before| && x in TombIds(dag(before[i]).tombs, k) {
      assert now[i] == before[i];
    }
    if i :| 0 <= i < |now| && x in TombIds(dag(now[i]).tombs, k) {
      assert i < n ==> before[i] == now[i];
    }
  }

  /** The tombstones after some merges. */
  lemma {:induction false} MergeAllTombs(dag: Dag, s: State, ids: seq<Id>, k: Key, x: Id)
    ensures (k, x) in MergeAll(dag, s, ids).tombs <==> (k, x) in s.tombs || Tombstones(dag, ids, k, x)
  {
    if ids != [] {
      var n := |ids| - 1;
      MergeAllTombs(dag, s, ids[..n], k, x);
      MergeTombs(dag, MergeAll(dag, s, ids[..n]), ids[n], k, x);
      TombstonesNext(dag, ids, n, k, x);
      assert ids[..n + 1] == ids;
    }
  }

  lemma MergeAllAgrees(dag: Dag, s: State, pruned: set<(Key, Id)>, ids: seq<Id>)
    requires pruned <= s.tombs
    ensures var a, b := MergeAll(dag, s, ids), MergeAll(dag, Compact(s, pruned), ids);
      TombsAgree(a, b, pruned) && pruned <= a.tombs
  {
    var a, b := MergeAll(dag, s, ids), MergeAll(dag, Compact(s, pruned), ids);
    forall k, x | (k, x) !in pruned ensures (k, x) in a.tombs <==> (k, x) in b.tombs {
      MergeAllTombs(dag, s, ids, k, x);
      MergeAllTombs(dag, Compact(s, pruned), ids, k, x);
    }
    forall e | e in pruned ensures e in a.tombs {
      MergeAllTombs(dag, s, ids, e.0, e.1);
    }
  }

  lemma CoveredIsTombstoned(dag: Dag, s: State, pruned: set<(Key, Id)>, ids: seq<Id>, n: nat)
    requires n < |ids|
    ensures Covered(dag, MergeAll(dag, Compact(s, pruned), ids[..n]), pruned, ids[n]) <==>
      TombstonedBy(dag, pruned, ids, n)
  {
    var b, id := MergeAll(dag, Compact(s, pruned), ids[..n]), ids[n];
    forall k | (k, id) in pruned ensures CoveredAt(dag, b, id, k) <==> Tombstones(dag, ids[..n + 1], k, id) {
      MergeAllTombs(dag, Compact(s, pruned), ids[..n], k, id);
      TombstonesNext(dag, ids, n, k, id);
    }
  }

  lemma AlikeStep(dag: Dag, s: State, pruned: set<(Key, Id)>, ids: seq<Id>, n: nat)
    requires pruned <= s.tombs && n < |ids| && AlikeAfter(dag, s, pruned, ids, n)
    ensures AlikeAfter(dag, s, pruned, ids, n + 1) <==> TombstonedBy(dag, pruned, ids, n)
  {
    var c := Compact(s, pruned);
    assert ids[..n + 1][..n] == ids[..n];
    MergeAllAgrees(dag, s, pruned, ids[..n]);
    MergeAlikeExactly(dag, MergeAll(dag, s, ids[..n]), MergeAll(dag, c, ids[..n]), pruned, ids[n]);
    CoveredIsTombstoned(dag, s, pruned, ids, n);
  }

  lemma {:induction false} AlikeUpTo(dag: Dag, s: State, pruned: set<(Key, Id)>, ids: seq<Id>, n: nat)
    requires pruned <= s.tombs && n <= |ids| && AllTombstoned(dag, pruned, ids)
    ensures AlikeAfter(dag, s, pruned, ids, n)
  {
    if n == 0 {
      CompactionInvisible(dag, s, pruned);
      assert ids[..0] == [];
    } else {
      AlikeUpTo(dag, s, pruned, ids, n - 1);
      assert TombstonedBy(dag, pruned, ids, n - 1);
      AlikeStep(dag, s, pruned, ids, n - 1);
    }
  }

  /** Over any later run, the pruning never shows if and only if every pruned element that is merged has its
      tombstone merged with it or before it. */
  lemma PruningNeverShowsExactly(dag: Dag, s: State, pruned: set<(Key, Id)>, ids: seq<Id>)
    requires pruned <= s.tombs
    ensures AlwaysAlike(dag, s, pruned, ids) <==> AllTombstoned(dag, pruned, ids)
  {
    if AllTombstoned(dag, pruned, ids) {
      forall n: nat | n <= |ids| ensures AlikeAfter(dag, s, pruned, ids, n) {
        AlikeUpTo(dag, s, pruned, ids, n);
      }
    }
    if AlwaysAlike(dag, s, pruned, ids) {
      forall n: nat | n < |ids| ensures TombstonedBy(dag, pruned, ids, n) {
        assert AlikeAfter(dag, s, pruned, ids, n) && AlikeAfter(dag, s, pruned, ids, n + 1);
        AlikeStep(dag, s, pruned, ids, n);
      }
    }
  }

  /** Otherwise the element is alive in the pruned store, and what a reader finds there is the higher of its rank
      and the entry of the other store. */
  lemma PrunedElementReturns(dag: Dag, s: State, pruned: set<(Key, Id)>, id: Id, k: Key)
    requires Inv(dag, s) && Tame(dag(id)) && pruned <= s.tombs
    requires (k, id) in pruned && HasKey(dag(id).elements, k) && id !in TombIds(dag(id).tombs, k)
    ensures var a, b := Merged(dag, s, id), Merged(dag, Compact(s, pruned), id);
      && id !in LiveIds(a, k) && LiveIds(b, k) == LiveIds(a, k) + {id}
      && Current(b, k) == Max(Current(a, k), RankOf(dag, k, id)) && (k in b.value <==> Current(b, k).value != [])
  {
    var c := Compact(s, pruned);
    var a, b := Merged(dag, s, id), Merged(dag, c, id);
    CompactionInvisible(dag, s, pruned);
    UncoveredReturns(dag, s, c, id, k);
    forall x ensures x in LiveIds(b, k) <==> x in LiveIds(a, k) || x == id {
      MergeTombs(dag, s, id, k, x);
      MergeTombs(dag, c, id, k, x);
      LiveMember(a, k, x);
      LiveMember(b, k, x);
    }
    assert LiveIds(b, k) == LiveIds(a, k) + {id};
    MergeKeepsInv(dag, s, id);
    MergeKeepsInv(dag, c, id);
    assert CacheAt(dag, a, k) && CacheAt(dag, b, k);
    BestWith(dag, k, LiveIds(a, k), id);
  }
}
