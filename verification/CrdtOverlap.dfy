/** What overlapping merges and prunings do to the cache: exactly which commits break it, key by key. */
module CrdtOverlap {
  import opened CrdtCompaction
  import opened CrdtConcurrent
  import opened CrdtConcurrentProofs
  import opened CrdtProofs
  import opened CrdtSet
  import opened Options

  ghost predicate TameSteps(dag: Dag, steps: seq<Step>) {
    forall i :: 0 <= i < |steps| && steps[i].Start? ==> Tame(dag(steps[i].id))
  }

  ghost predicate TameJobs(dag: Dag, jobs: seq<Job>) {
    forall j :: 0 <= j < |jobs| ==> Tame(dag(jobs[j].id))
  }

  lemma ReadKeepsId(dag: Dag, s: State, job: Job, step: Step)
    requires IsRead(step) && CanRead(dag, job, step)
    ensures AfterRead(dag, s, job, step).id == job.id
  {
  }

  lemma ApplyIds(dag: Dag, guarded: bool, sys: System, step: Step)
    ensures var jobs' := Apply(dag, guarded, sys, step).jobs;
      && |jobs'| == |sys.jobs| + (if step.Start? then 1 else 0)
      && (forall j :: 0 <= j < |sys.jobs| ==> jobs'[j].id == sys.jobs[j].id)
      && (step.Start? ==> jobs'[|sys.jobs|].id == step.id)
  {
    if IsRead(step) && step.j < |sys.jobs| && CanRead(dag, sys.jobs[step.j], step) {
      ReadKeepsId(dag, sys.store, sys.jobs[step.j], step);
    }
  }

  lemma {:induction false} ExecTame(dag: Dag, guarded: bool, steps: seq<Step>)
    requires TameSteps(dag, steps)
    ensures TameJobs(dag, Exec(dag, guarded, steps).jobs)
  {
    if steps != [] {
      var n := |steps| - 1;
      ExecTame(dag, guarded, steps[..n]);
      ApplyIds(dag, guarded, Exec(dag, guarded, steps[..n]), steps[n]);
    }
  }

  lemma RowsKnown(dag: Dag, sys: System)
    requires RowsOk(dag, sys) && TameJobs(dag, sys.jobs)
    ensures Known(dag, sys.store)
  {
    forall k, id | (k, id) in sys.store.elems ensures HasKey(dag(id).elements, k) && TameAt(dag(id), k) {
      assert ElementFrom(dag, sys.jobs, k, id);
      var j :| 0 <= j < |sys.jobs| && sys.jobs[j].phase.Finished? && sys.jobs[j].id == id &&
        HasKey(dag(id).elements, k);
      assert Tame(dag(sys.jobs[j].id));
    }
  }

  ghost predicate KnownIds(dag: Dag, k: Key, ids: set<Id>) {
    forall x :: x in ids ==> HasKey(dag(x).elements, k) && TameAt(dag(x), k)
  }

  /** Whatever a scan has queried came from a tame delta, even if it has been pruned since. */
  ghost predicate JobKnown(dag: Dag, job: Job) {
    var ts := dag(job.id).tombs;
    && (forall k :: k in job.scans ==> KnownIds(dag, k, job.scans[k].found))
    && (job.phase.Scanning? && job.phase.i < |ts| ==>
      KnownIds(dag, ts[job.phase.i].key, job.phase.queried + job.phase.found))
  }

  ghost predicate TameSys(dag: Dag, sys: System) {
    TameJobs(dag, sys.jobs) && forall j :: 0 <= j < |sys.jobs| ==> JobKnown(dag, sys.jobs[j])
  }

  lemma ReadKnown(dag: Dag, s: State, job: Job, step: Step)
    requires Known(dag, s) && JobKnown(dag, job) && IsRead(step) && CanRead(dag, job, step)
    requires job.phase.Scanning? ==> job.phase.todo <= job.phase.queried
    ensures JobKnown(dag, AfterRead(dag, s, job, step))
  {
    if step.Query? {
      var k := dag(job.id).tombs[job.phase.i].key;
      forall x | x in ElemIds(s, k) ensures HasKey(dag(x).elements, k) && TameAt(dag(x), k) {
        ElemMember(s, k, x);
      }
    }
  }

  lemma JobStaysKnown(dag: Dag, guarded: bool, sys: System, step: Step, j: nat)
    requires j < |sys.jobs| && Known(dag, sys.store) && JobKnown(dag, sys.jobs[j])
    requires JobOk(dag, sys.store, sys.pruned, sys.jobs[j])
    ensures j < |Apply(dag, guarded, sys, step).jobs| && JobKnown(dag, Apply(dag, guarded, sys, step).jobs[j])
  {
    if IsRead(step) && Apply(dag, guarded, sys, step) != sys && step.j == j {
      ReadKnown(dag, sys.store, sys.jobs[j], step);
    }
  }

  lemma StepKnown(dag: Dag, guarded: bool, sys: System, step: Step)
    requires SysOk(dag, guarded, sys) && TameSys(dag, sys) && (step.Start? ==> Tame(dag(step.id)))
    ensures TameSys(dag, Apply(dag, guarded, sys, step))
  {
    var jobs' := Apply(dag, guarded, sys, step).jobs;
    ApplyIds(dag, guarded, sys, step);
    RowsKnown(dag, sys);
    forall j | 0 <= j < |jobs'| ensures JobKnown(dag, jobs'[j]) {
      if j < |sys.jobs| {
        assert JobKnown(dag, sys.jobs[j]) && JobOk(dag, sys.store, sys.pruned, sys.jobs[j]);
        JobStaysKnown(dag, guarded, sys, step, j);
      } else {
        assert jobs'[j] == Job(step.id, Queued, NOTHING, map[]);
      }
    }
  }

  lemma {:induction false} ExecKnown(dag: Dag, guarded: bool, steps: seq<Step>)
    requires TameSteps(dag, steps)
    ensures TameSys(dag, Exec(dag, guarded, steps))
  {
    if steps != [] {
      var n := |steps| - 1;
      ExecKnown(dag, guarded, steps[..n]);
      ExecOk(dag, guarded, steps[..n]);
      StepKnown(dag, guarded, Exec(dag, guarded, steps[..n]), steps[n]);
    }
  }

  // ---- The best rank, from both sides ----

  /** Something among the ids ranks higher. */
  ghost predicate Outranked(dag: Dag, k: Key, ids: set<Id>, r: Rank) {
    exists x :: x in ids && Below(r, RankOf(dag, k, x))
  }

  /** Nothing among the ids has this rank. */
  ghost predicate Unheld(dag: Dag, k: Key, ids: set<Id>, r: Rank) {
    r != BOTTOM && forall x :: x in ids ==> RankOf(dag, k, x) != r
  }

  lemma BothSides(dag: Dag, k: Key, ids: set<Id>, r: Rank)
    ensures IsBest(dag, k, ids, r) <==> !Outranked(dag, k, ids, r) && !Unheld(dag, k, ids, r)
  {
    if !Outranked(dag, k, ids, r) {
      forall x | x in ids ensures AtMost(RankOf(dag, k, x), r) {
        BelowTotal(RankOf(dag, k, x), r);
      }
    } else {
      var x :| x in ids && Below(r, RankOf(dag, k, x));
      BelowTotal(RankOf(dag, k, x), r);
      assert !AtMost(RankOf(dag, k, x), r);
    }
  }

  // ---- The commit of putTombs ----

  /** A live element that the scan has not found and this batch does not tombstone. */
  ghost predicate Newcomer(s: State, k: Key, gone: set<Id>, found: set<Id>, x: Id) {
    x in LiveIds(s, k) && x !in gone && x !in found
  }

  /** A live element that the scan has not found has a higher rank than the scan's best. */
  ghost predicate Overtaken(dag: Dag, s: State, k: Key, gone: set<Id>, found: set<Id>) {
    exists x :: Newcomer(s, k, gone, found, x) && Below(Best(dag, k, found), RankOf(dag, k, x))
  }

  /** Whatever the scan has found with its best rank is not alive, and no newcomer has that rank. */
  ghost predicate Orphaned(dag: Dag, s: State, k: Key, gone: set<Id>, found: set<Id>) {
    var r := Best(dag, k, found);
    && r != BOTTOM
    && (forall x :: x in found && RankOf(dag, k, x) == r ==> x !in LiveIds(s, k))
    && (forall x :: Newcomer(s, k, gone, found, x) ==> RankOf(dag, k, x) != r)
  }

  /** Without pruning a newcomer was committed after the query of the scan. */
  lemma NewcomerIsNew(s: State, past: set<(Key, Id)>, k: Key, gone: set<Id>, scan: Scan, x: Id)
    requires ScanOk(s, past, k, gone, scan.queried, {}, scan.found) && Newcomer(s, k, gone, scan.found, x)
    ensures x !in scan.queried || (k, x) in past
  {
    LiveMember(s, k, x);
  }

  lemma StillBest(dag: Dag, s: State, k: Key, gone: set<Id>, found: set<Id>)
    requires found !! gone
    ensures IsBest(dag, k, LiveIds(s, k) - gone, Best(dag, k, found)) <==>
      (!Overtaken(dag, s, k, gone, found) && !Orphaned(dag, s, k, gone, found))
  {
    var r, rest := Best(dag, k, found), LiveIds(s, k) - gone;
    BothSides(dag, k, rest, r);
    forall x ensures x in rest <==> Newcomer(s, k, gone, found, x) || (x in found && x in LiveIds(s, k)) {
    }
    forall x | x in found ensures !Below(r, RankOf(dag, k, x)) {
      assert AtMost(RankOf(dag, k, x), r);
      BelowTotal(RankOf(dag, k, x), r);
    }
  }

  lemma FoundEmpty(dag: Dag, k: Key, ids: set<Id>)
    requires KnownIds(dag, k, ids)
    ensures Best(dag, k, ids).value == [] ==> Best(dag, k, ids) == BOTTOM
  {
    var r := Best(dag, k, ids);
    if r != BOTTOM {
      var id :| id in ids && RankOf(dag, k, id) == r;
      TameEntry(dag(id), k, BOTTOM);
    }
  }

  /** The store after a batch of tombstones has been committed. */
  lemma TombCommitAt(dag: Dag, s: State, b: Batch, k: Key, gone: set<Id>, best: Rank)
    requires b.elems == {} && (forall x :: (k, x) in b.tombs <==> x in gone)
    requires k in b.entries && b.entries[k] == EntryFor(best) && (best.value == [] ==> best == BOTTOM)
    ensures CacheAt(dag, Commit(s, b), k) <==> IsBest(dag, k, LiveIds(s, k) - gone, best)
  {
    var w, rest := Commit(s, b), LiveIds(s, k) - gone;
    CommitAt(s, b, k);
    forall x ensures x in LiveIds(w, k) <==> x in rest {
      LiveMember(w, k, x);
      LiveMember(s, k, x);
    }
    assert LiveIds(w, k) == rest;
    if IsBest(dag, k, rest, best) {
      BestUnique(dag, k, rest, best, Best(dag, k, rest));
    }
  }

  lemma TombCommitElsewhere(dag: Dag, s: State, b: Batch, k: Key)
    requires b.elems == {} && (forall x :: (k, x) !in b.tombs) && k !in b.entries
    ensures CacheAt(dag, Commit(s, b), k) <==> CacheAt(dag, s, k)
  {
    var w := Commit(s, b);
    CommitAt(s, b, k);
    forall x ensures x in LiveIds(w, k) <==> x in LiveIds(s, k) {
      LiveMember(w, k, x);
      LiveMember(s, k, x);
    }
    assert LiveIds(w, k) == LiveIds(s, k);
  }

  /** What the job is about to commit for the key is neither overtaken nor orphaned. */
  ghost predicate TombsUndisturbed(dag: Dag, s: State, job: Job, k: Key) {
    var gone := TombIds(dag(job.id).tombs, k);
    gone != {} && k in job.scans ==>
      !Overtaken(dag, s, k, gone, job.scans[k].found) && !Orphaned(dag, s, k, gone, job.scans[k].found)
  }

  /** Whatever went before, the commit of a batch of tombstones leaves the right entry for a key if and only if
      no live element that the scan missed outranks what it found, and its best is held by a live element. A key
      without tombstones in the batch is left as it was. */
  lemma TombCommitExactly(dag: Dag, guarded: bool, sys: System, j: nat, k: Key)
    requires SysOk(dag, guarded, sys) && TameSys(dag, sys) && TombsReady(dag, sys, j)
    ensures var job := sys.jobs[j];
      var s' := DoCommitTombs(guarded, sys, j).store;
      if TombIds(dag(job.id).tombs, k) == {} then CacheAt(dag, s', k) <==> CacheAt(dag, sys.store, k)
      else k in job.scans && (CacheAt(dag, s', k) <==> TombsUndisturbed(dag, sys.store, job, k))
  {
    var job := sys.jobs[j];
    var ts := dag(job.id).tombs;
    var gone := TombIds(ts, k);
    assert JobOk(dag, sys.store, sys.pruned, job) && JobKnown(dag, job) && ts[..|ts|] == ts;
    assert TombDone(dag, sys.store, sys.pruned, job, k, gone);
    if gone == {} {
      TombCommitElsewhere(dag, sys.store, job.batch, k);
    } else {
      var found := job.scans[k].found;
      FoundEmpty(dag, k, found);
      TombCommitAt(dag, sys.store, job.batch, k, gone, Best(dag, k, found));
      StillBest(dag, sys.store, k, gone, found);
    }
  }

  // ---- The commit of putElems ----

  /** What the job takes for a key outranks the cached entry. */
  ghost predicate TakesAbove(dag: Dag, s: State, job: Job, k: Key) {
    var d := dag(job.id);
    job.phase.Adding? ==>
      && (k in job.batch.entries ==> job.batch.entries[k].Some? && Below(Current(s, k), job.batch.entries[k].value))
      && (job.phase.look.Priced? && job.phase.i < |d.elements| && d.elements[job.phase.i].key == k ==>
        Current(s, k).priority <= d.priority)
  }

  /** A value that was taken is the delta's greatest and has not been tombstoned since; a value that was not
      taken has been tombstoned or is still not above the cached entry. */
  ghost predicate ElemsUndisturbed(dag: Dag, s: State, job: Job, k: Key) {
    var r := RankOf(dag, k, job.id);
    HasKey(dag(job.id).elements, k) ==>
      if k in job.batch.entries then (k, job.id) !in s.tombs && job.batch.entries[k] == Some(r)
      else (k, job.id) in s.tombs || !Below(Current(s, k), r)
  }

  lemma TakenBounded(d: Delta, k: Key, v: Value)
    requires HasElement(d.elements, k, v)
    ensures HasKey(d.elements, k) && AtMost(Rank(d.priority, v), Rank(d.priority, Greatest(d.elements, k)))
  {
    var i :| 0 <= i < |d.elements| && d.elements[i] == Element(k, v);
    GreatestBounds(d.elements, k);
    assert d.elements[i].key == k && d.elements[i].value == v;
  }

  lemma AboveThrough(a: Rank, b: Rank, c: Rank)
    requires Below(a, b) && AtMost(b, c)
    ensures Below(a, c)
  {
    AtMostTransitive(a, b, c);
    BelowTotal(a, b);
    BelowTotal(b, c);
  }

  lemma LiveAfterCommit(s: State, b: Batch, id: Id, k: Key, has: bool)
    requires b.tombs == {} && forall x :: (k, x) in b.elems <==> x == id && has
    ensures LiveIds(Commit(s, b), k) == LiveIds(s, k) + (if has && (k, id) !in s.tombs then {id} else {})
  {
    var w := Commit(s, b);
    forall x ensures x in LiveIds(w, k) <==> x in LiveIds(s, k) || (x == id && has && (k, id) !in s.tombs) {
      LiveMember(w, k, x);
      LiveMember(s, k, x);
    }
  }

  /** The entry is right if and only if it is the higher of the old entry and the element's own rank. */
  lemma ElemCommitAt(dag: Dag, s: State, w: State, id: Id, k: Key, live: bool, taken: Option<Rank>)
    requires CacheAt(dag, s, k) && LiveIds(w, k) == LiveIds(s, k) + (if live then {id} else {})
    requires if taken.None? then SameAt(w, s, k) else HoldsAt(w, k, taken.value) && Below(Current(s, k), taken.value)
    requires taken.Some? ==> AtMost(taken.value, RankOf(dag, k, id))
    requires RankOf(dag, k, id).value == [] ==> RankOf(dag, k, id) == BOTTOM
    ensures CacheAt(dag, w, k) <==>
      if taken.Some? then live && taken.value == RankOf(dag, k, id)
        else !live || !Below(Current(s, k), RankOf(dag, k, id))
  {
    var r, cur := RankOf(dag, k, id), Current(s, k);
    BestWith(dag, k, LiveIds(s, k), id);
    assert LiveIds(s, k) + {} == LiveIds(s, k);
    BelowTotal(cur, r);
    if taken.Some? {
      AboveThrough(cur, taken.value, r);
      BelowTotal(cur, taken.value);
      BottomLeast(cur);
      BelowTotal(cur, BOTTOM);
    }
  }

  /** In a run in which the cache has been right so far. */
  lemma ElemCommitExactly(dag: Dag, guarded: bool, sys: System, j: nat, k: Key)
    requires SysOk(dag, guarded, sys) && TameJobs(dag, sys.jobs) && ElemsReady(dag, sys, j)
    requires CacheAt(dag, sys.store, k) && TakesAbove(dag, sys.store, sys.jobs[j], k)
    ensures CacheAt(dag, DoCommitElems(sys, j).store, k) <==> ElemsUndisturbed(dag, sys.store, sys.jobs[j], k)
  {
    var job, s := sys.jobs[j], sys.store;
    var d, b, id := dag(job.id), job.batch, job.id;
    var w, has := Commit(s, b), HasKey(d.elements, k);
    ElemBatch(dag, sys, j, k);
    CommitAt(s, b, k);
    LiveAfterCommit(s, b, id, k, has);
    if has {
      assert Tame(dag(sys.jobs[j].id)) && TameAt(d, k);
      TameEntry(d, k, BOTTOM);
      ElemCommitAt(dag, s, w, id, k, (k, id) !in s.tombs, if k in b.entries then b.entries[k] else None);
    } else {
      assert LiveIds(w, k) == LiveIds(s, k);
      CacheSame(dag, s, w, k);
    }
  }

  /** What a job that is ready to commit its elements holds for a key. */
  lemma ElemBatch(dag: Dag, sys: System, j: nat, k: Key)
    requires JobsOk(dag, sys.store, sys.pruned, sys.jobs) && ElemsReady(dag, sys, j)
    ensures var job := sys.jobs[j];
      var d, b := dag(job.id), job.batch;
      && b.tombs == {} && (forall x :: (k, x) in b.elems <==> x == job.id && HasKey(d.elements, k))
      && (k in b.entries ==>
        HasKey(d.elements, k) && b.entries[k].Some? && AtMost(b.entries[k].value, RankOf(dag, k, job.id)))
  {
    var job := sys.jobs[j];
    var d, b := dag(job.id), job.batch;
    assert JobOk(dag, sys.store, sys.pruned, job) && d.elements[..|d.elements|] == d.elements;
    assert ElemDone(d, b, k);
    if k in b.entries {
      TakenBounded(d, k, b.entries[k].value.value);
    }
  }

  /** The elements of the key that are alive after the commit. */
  function LiveWith(s: State, id: Id, k: Key): set<Id> {
    LiveIds(s, k) + if (k, id) in s.tombs then {} else {id}
  }

  /** The entry that the commit leaves, taken from the batch or still there, is outranked by nothing that is then
      alive and held by something that is. */
  ghost predicate ElemsRight(dag: Dag, s: State, job: Job, k: Key) {
    var taken := k in job.batch.entries && job.batch.entries[k].Some?;
    var r := if taken then job.batch.entries[k].value else Current(s, k);
    && (if taken then r.value != [] else Recomputed(s, k, r))
    && !Outranked(dag, k, LiveWith(s, job.id, k), r) && !Unheld(dag, k, LiveWith(s, job.id, k), r)
  }

  lemma EntryRight(dag: Dag, s: State, w: State, k: Key, taken: Option<Rank>)
    requires if taken.None? then SameAt(w, s, k) else HoldsAt(w, k, taken.value)
    ensures var r := if taken.Some? then taken.value else Current(s, k);
      CacheAt(dag, w, k) <==>
        IsBest(dag, k, LiveIds(w, k), r) && if taken.Some? then r.value != [] else Recomputed(s, k, r)
  {
    var r := if taken.Some? then taken.value else Current(s, k);
    if IsBest(dag, k, LiveIds(w, k), r) {
      BestUnique(dag, k, LiveIds(w, k), r, Best(dag, k, LiveIds(w, k)));
    }
  }

  /** Whatever went before: a wrong entry may also be put right. */
  lemma ElemCommitAnyway(dag: Dag, guarded: bool, sys: System, j: nat, k: Key)
    requires SysOk(dag, guarded, sys) && ElemsReady(dag, sys, j) && HasKey(dag(sys.jobs[j].id).elements, k)
    ensures CacheAt(dag, DoCommitElems(sys, j).store, k) <==> ElemsRight(dag, sys.store, sys.jobs[j], k)
  {
    var job, s := sys.jobs[j], sys.store;
    var w := Commit(s, job.batch);
    var taken := if k in job.batch.entries then job.batch.entries[k] else None;
    ElemBatch(dag, sys, j, k);
    CommitAt(s, job.batch, k);
    LiveAfterCommit(s, job.batch, job.id, k, true);
    EntryRight(dag, s, w, k, taken);
    BothSides(dag, k, LiveWith(s, job.id, k), if taken.Some? then taken.value else Current(s, k));
  }

  // ---- Whole runs ----

  /** Nothing spoils the commit that this step makes for the key, if it makes one. */
  ghost predicate Undisturbed(dag: Dag, sys: System, step: Step, k: Key) {
    match step
    case CommitTombs(j) => TombsReady(dag, sys, j) ==> TombsUndisturbed(dag, sys.store, sys.jobs[j], k)
    case CommitElems(j) => ElemsReady(dag, sys, j) ==> ElemsUndisturbed(dag, sys.store, sys.jobs[j], k)
    case _ => true
  }

  ghost predicate CachedAfter(dag: Dag, guarded: bool, steps: seq<Step>, n: nat, k: Key)
    requires n <= |steps|
  {
    CacheAt(dag, Exec(dag, guarded, steps[..n]).store, k)
  }

  ghost predicate UndisturbedAt(dag: Dag, guarded: bool, steps: seq<Step>, n: nat, k: Key)
    requires n < |steps|
  {
    Undisturbed(dag, Exec(dag, guarded, steps[..n]), steps[n], k)
  }

  ghost predicate AlwaysCached(dag: Dag, guarded: bool, steps: seq<Step>, k: Key) {
    forall n {:trigger CachedAfter(dag, guarded, steps, n, k)} :: 0 <= n <= |steps| ==>
      CachedAfter(dag, guarded, steps, n, k)
  }

  ghost predicate NeverDisturbed(dag: Dag, guarded: bool, steps: seq<Step>, k: Key) {
    forall n {:trigger UndisturbedAt(dag, guarded, steps, n, k)} :: 0 <= n < |steps| ==>
      UndisturbedAt(dag, guarded, steps, n, k)
  }

  ghost predicate AllTake(dag: Dag, sys: System, k: Key) {
    forall j {:trigger TakesAbove(dag, sys.store, sys.jobs[j], k)} :: 0 <= j < |sys.jobs| ==>
      TakesAbove(dag, sys.store, sys.jobs[j], k)
  }

  lemma BestOfFewer(dag: Dag, k: Key, more: set<Id>, fewer: set<Id>)
    requires fewer <= more
    ensures AtMost(Best(dag, k, fewer), Best(dag, k, more))
  {
    var r := Best(dag, k, fewer);
    if r == BOTTOM {
      BottomLeast(Best(dag, k, more));
    } else {
      var x :| x in fewer && RankOf(dag, k, x) == r;
      assert x in more;
    }
  }

  /** With fewer live elements the cached rank can only go down. */
  lemma TakesAboveLower(dag: Dag, s: State, s': State, job: Job, k: Key)
    requires TakesAbove(dag, s, job, k) && CacheAt(dag, s, k) && CacheAt(dag, s', k) && LiveIds(s', k) <= LiveIds(s, k)
    ensures TakesAbove(dag, s', job, k)
  {
    BestOfFewer(dag, k, LiveIds(s, k), LiveIds(s', k));
    if job.phase.Adding? && k in job.batch.entries {
      var r := job.batch.entries[k].value;
      AtMostTransitive(Current(s', k), Current(s, k), r);
      BelowTotal(Current(s', k), r);
      BelowTotal(Current(s, k), r);
    }
  }

  lemma TakesAboveRead(dag: Dag, s: State, job: Job, k: Key)
    requires TakesAbove(dag, s, job, k) && job.phase.Adding? && job.phase.i < |dag(job.id).elements|
    ensures TakesAbove(dag, s, DoLookTomb(dag, s, job), k)
    ensures job.phase.look.Alive? ==> TakesAbove(dag, s, DoLookPriority(dag, s, job), k)
    ensures job.phase.look.Priced? ==> TakesAbove(dag, s, DoLookValue(dag, s, job), k)
  {
  }

  lemma LocalTake(dag: Dag, sys: System, j: nat, job': Job, lock: Option<nat>, k: Key)
    requires AllTake(dag, sys, k) && j < |sys.jobs| && TakesAbove(dag, sys.store, job', k)
    ensures AllTake(dag, sys.(jobs := sys.jobs[j := job'], lock := lock), k)
  {
    var jobs' := sys.jobs[j := job'];
    forall i | 0 <= i < |jobs'| ensures TakesAbove(dag, sys.store, jobs'[i], k) {
      assert i != j ==> TakesAbove(dag, sys.store, sys.jobs[i], k);
    }
  }

  lemma CommitTombsTake(dag: Dag, guarded: bool, sys: System, j: nat, k: Key)
    requires SysOk(dag, guarded, sys) && AllTake(dag, sys, k) && TombsReady(dag, sys, j)
    requires CacheAt(dag, sys.store, k) && CacheAt(dag, DoCommitTombs(guarded, sys, j).store, k)
    ensures AllTake(dag, DoCommitTombs(guarded, sys, j), k)
  {
    var sys' := DoCommitTombs(guarded, sys, j);
    assert JobOk(dag, sys.store, sys.pruned, sys.jobs[j]);
    forall x | x in LiveIds(sys'.store, k) ensures x in LiveIds(sys.store, k) {
      LiveMember(sys'.store, k, x);
      LiveMember(sys.store, k, x);
    }
    forall i | 0 <= i < |sys'.jobs| ensures TakesAbove(dag, sys'.store, sys'.jobs[i], k) {
      if i != j {
        assert TakesAbove(dag, sys.store, sys.jobs[i], k);
        TakesAboveLower(dag, sys.store, sys'.store, sys.jobs[i], k);
      }
    }
  }

  lemma CommitElemsTake(dag: Dag, guarded: bool, sys: System, j: nat, k: Key)
    requires SysOk(dag, guarded, sys) && ElemsReady(dag, sys, j)
    ensures AllTake(dag, DoCommitElems(sys, j), k)
  {
    var sys' := DoCommitElems(sys, j);
    assert Inside(guarded, sys.jobs[j]) && sys.lock == Some(j);
    forall i | 0 <= i < |sys'.jobs| ensures TakesAbove(dag, sys'.store, sys'.jobs[i], k) {
      assert i != j ==> !Inside(guarded, sys.jobs[i]);
    }
  }

  lemma ReadTake(dag: Dag, guarded: bool, sys: System, step: Step, k: Key)
    requires SysOk(dag, guarded, sys) && AllTake(dag, sys, k) && !step.CommitTombs? && !step.CommitElems?
    requires !step.Prune?
    ensures AllTake(dag, Apply(dag, guarded, sys, step), k)
  {
    var sys' := Apply(dag, guarded, sys, step);
    if step.Start? {
      forall i | 0 <= i < |sys'.jobs| ensures TakesAbove(dag, sys'.store, sys'.jobs[i], k) {
        assert i < |sys.jobs| ==> TakesAbove(dag, sys.store, sys.jobs[i], k);
      }
    } else if sys' != sys {
      var job := sys.jobs[step.j];
      assert JobOk(dag, sys.store, sys.pruned, job) && TakesAbove(dag, sys.store, job, k);
      if job.phase.Adding? {
        TakesAboveRead(dag, sys.store, job, k);
      }
      LocalTake(dag, sys, step.j, sys'.jobs[step.j], sys'.lock, k);
    }
  }

  /** Pruning leaves the live elements and the entry of every key alone. */
  lemma PruneKeeps(dag: Dag, s: State, rows: set<(Key, Id)>, k: Key)
    requires rows <= s.tombs
    ensures AlikeAt(s, Compact(s, rows), k) && (CacheAt(dag, Compact(s, rows), k) <==> CacheAt(dag, s, k))
  {
    CompactionInvisible(dag, s, rows);
    assert AlikeAt(s, Compact(s, rows), k);
  }

  lemma PruneTake(dag: Dag, sys: System, rows: set<(Key, Id)>, k: Key)
    requires AllTake(dag, sys, k) && rows <= sys.store.tombs
    ensures AllTake(dag, sys.(store := Compact(sys.store, rows), pruned := sys.pruned + rows), k)
  {
    PruneKeeps(dag, sys.store, rows, k);
    forall i | 0 <= i < |sys.jobs| ensures TakesAbove(dag, Compact(sys.store, rows), sys.jobs[i], k) {
      assert TakesAbove(dag, sys.store, sys.jobs[i], k);
    }
  }

  /** One step of a run in which the cache has been right so far. */
  lemma StepExactly(dag: Dag, guarded: bool, sys: System, step: Step, k: Key)
    requires SysOk(dag, guarded, sys) && TameSys(dag, sys) && CacheAt(dag, sys.store, k) && AllTake(dag, sys, k)
    ensures CacheAt(dag, Apply(dag, guarded, sys, step).store, k) <==> Undisturbed(dag, sys, step, k)
    ensures CacheAt(dag, Apply(dag, guarded, sys, step).store, k) ==> AllTake(dag, Apply(dag, guarded, sys, step), k)
  {
    if step.CommitTombs? {
      if TombsReady(dag, sys, step.j) {
        TombCommitExactly(dag, guarded, sys, step.j, k);
        if CacheAt(dag, Apply(dag, guarded, sys, step).store, k) {
          CommitTombsTake(dag, guarded, sys, step.j, k);
        }
      }
    } else if step.CommitElems? {
      if ElemsReady(dag, sys, step.j) {
        assert TakesAbove(dag, sys.store, sys.jobs[step.j], k);
        ElemCommitExactly(dag, guarded, sys, step.j, k);
        CommitElemsTake(dag, guarded, sys, step.j, k);
      }
    } else if step.Prune? {
      if step.rows <= sys.store.tombs && (guarded ==> sys.lock.None?) {
        PruneKeeps(dag, sys.store, step.rows, k);
        PruneTake(dag, sys, step.rows, k);
      }
    } else {
      ReadTake(dag, guarded, sys, step, k);
      ReadKeepsStore(dag, guarded, sys, step);
    }
  }

  lemma ReadKeepsStore(dag: Dag, guarded: bool, sys: System, step: Step)
    requires !step.CommitTombs? && !step.CommitElems? && !step.Prune?
    ensures Apply(dag, guarded, sys, step).store == sys.store && Apply(dag, guarded, sys, step).pruned == sys.pruned
  {
  }

  /** In every interleaving, the cache of a key is right at all times if and only if no commit of the run is
      disturbed at that key. */
  lemma {:induction false} CacheRightExactly(dag: Dag, guarded: bool, steps: seq<Step>, k: Key)
    requires TameSteps(dag, steps)
    ensures AlwaysCached(dag, guarded, steps, k) <==> NeverDisturbed(dag, guarded, steps, k)
    ensures AlwaysCached(dag, guarded, steps, k) ==> AllTake(dag, Exec(dag, guarded, steps), k)
  {
    if steps == [] {
      assert LiveIds(EMPTY, k) == {};
      BestOfNone(dag, k);
      assert steps[..0] == steps;
    } else {
      var n := |steps| - 1;
      var front := steps[..n];
      CacheRightExactly(dag, guarded, front, k);
      PrefixesCached(dag, guarded, steps, k);
      PrefixesUndisturbed(dag, guarded, steps, k);
      if AlwaysCached(dag, guarded, front, k) {
        assert CachedAfter(dag, guarded, front, n, k) && front[..n] == front;
        ExecOk(dag, guarded, front);
        ExecKnown(dag, guarded, front);
        StepExactly(dag, guarded, Exec(dag, guarded, front), steps[n], k);
      }
    }
  }

  lemma CachedPrefix(dag: Dag, guarded: bool, steps: seq<Step>, n: nat, m: nat, k: Key)
    requires m <= n <= |steps|
    ensures CachedAfter(dag, guarded, steps[..n], m, k) <==> CachedAfter(dag, guarded, steps, m, k)
  {
    assert steps[..n][..m] == steps[..m];
  }

  lemma PrefixesCached(dag: Dag, guarded: bool, steps: seq<Step>, k: Key)
    requires steps != []
    ensures AlwaysCached(dag, guarded, steps, k) <==>
      AlwaysCached(dag, guarded, steps[..|steps| - 1], k) && CacheAt(dag, Exec(dag, guarded, steps).store, k)
  {
    var n := |steps| - 1;
    var front := steps[..n];
    assert CachedAfter(dag, guarded, steps, n + 1, k) <==> CacheAt(dag, Exec(dag, guarded, steps).store, k) by {
      assert steps[..n + 1] == steps;
    }
    if AlwaysCached(dag, guarded, steps, k) {
      forall m: nat | m <= n ensures CachedAfter(dag, guarded, front, m, k) {
        assert CachedAfter(dag, guarded, steps, m, k);
        CachedPrefix(dag, guarded, steps, n, m, k);
      }
    }
    if AlwaysCached(dag, guarded, front, k) && CachedAfter(dag, guarded, steps, n + 1, k) {
      forall m: nat | m <= n + 1 ensures CachedAfter(dag, guarded, steps, m, k) {
        if m <= n {
          assert CachedAfter(dag, guarded, front, m, k);
          CachedPrefix(dag, guarded, steps, n, m, k);
        }
      }
    }
  }

  lemma PrefixesUndisturbed(dag: Dag, guarded: bool, steps: seq<Step>, k: Key)
    requires steps != []
    ensures var n := |steps| - 1;
      NeverDisturbed(dag, guarded, steps, k) <==>
      NeverDisturbed(dag, guarded, steps[..n], k) && Undisturbed(dag, Exec(dag, guarded, steps[..n]), steps[n], k)
  {
    var n := |steps| - 1;
    var front := steps[..n];
    forall m: nat | m < n ensures UndisturbedAt(dag, guarded, front, m, k) <==>
      UndisturbedAt(dag, guarded, steps, m, k) {
      assert front[..m] == steps[..m];
    }
    assert UndisturbedAt(dag, guarded, steps, n, k) <==> Undisturbed(dag, Exec(dag, guarded, front), steps[n], k);
    if NeverDisturbed(dag, guarded, steps, k) {
      forall m: nat | m < n ensures UndisturbedAt(dag, guarded, front, m, k) {
        assert UndisturbedAt(dag, guarded, steps, m, k);
      }
    }
    if NeverDisturbed(dag, guarded, front, k) && UndisturbedAt(dag, guarded, steps, n, k) {
      forall m: nat | m <= n ensures UndisturbedAt(dag, guarded, steps, m, k) {
        assert m < n ==> UndisturbedAt(dag, guarded, front, m, k);
      }
    }
  }

  // ---- The state of a key at any time ----

  /** The step commits something for the key. */
  ghost predicate Touches(dag: Dag, sys: System, step: Step, k: Key) {
    match step
    case CommitTombs(j) => TombsReady(dag, sys, j) && TombIds(dag(sys.jobs[j].id).tombs, k) != {}
    case CommitElems(j) => ElemsReady(dag, sys, j) && HasKey(dag(sys.jobs[j].id).elements, k)
    case _ => false
  }

  /** The commit leaves the right entry for the key, whatever it was before. */
  ghost predicate LeavesRight(dag: Dag, sys: System, step: Step, k: Key)
    requires Touches(dag, sys, step, k)
  {
    if step.CommitTombs? then TombsUndisturbed(dag, sys.store, sys.jobs[step.j], k)
      else ElemsRight(dag, sys.store, sys.jobs[step.j], k)
  }

  /** The last commit that touched the key, if there was one, left the right entry. */
  ghost predicate LastLeftRight(dag: Dag, guarded: bool, steps: seq<Step>, k: Key) {
    steps == [] ||
    var n := |steps| - 1;
    var sys := Exec(dag, guarded, steps[..n]);
    if Touches(dag, sys, steps[n], k) then LeavesRight(dag, sys, steps[n], k)
      else LastLeftRight(dag, guarded, steps[..n], k)
  }

  lemma ElemCommitElsewhere(dag: Dag, guarded: bool, sys: System, j: nat, k: Key)
    requires SysOk(dag, guarded, sys) && ElemsReady(dag, sys, j) && !HasKey(dag(sys.jobs[j].id).elements, k)
    ensures CacheAt(dag, DoCommitElems(sys, j).store, k) <==> CacheAt(dag, sys.store, k)
  {
    var job, s := sys.jobs[j], sys.store;
    ElemBatch(dag, sys, j, k);
    CommitAt(s, job.batch, k);
    LiveAfterCommit(s, job.batch, job.id, k, false);
    assert LiveIds(Commit(s, job.batch), k) == LiveIds(s, k);
  }

  lemma UntouchedTombs(dag: Dag, guarded: bool, sys: System, j: nat, k: Key)
    requires SysOk(dag, guarded, sys) && TameSys(dag, sys) && !Touches(dag, sys, CommitTombs(j), k)
    ensures CacheAt(dag, Apply(dag, guarded, sys, CommitTombs(j)).store, k) <==> CacheAt(dag, sys.store, k)
  {
    if TombsReady(dag, sys, j) {
      TombCommitExactly(dag, guarded, sys, j, k);
    }
  }

  lemma UntouchedElems(dag: Dag, guarded: bool, sys: System, j: nat, k: Key)
    requires SysOk(dag, guarded, sys) && !Touches(dag, sys, CommitElems(j), k)
    ensures CacheAt(dag, Apply(dag, guarded, sys, CommitElems(j)).store, k) <==> CacheAt(dag, sys.store, k)
  {
    if ElemsReady(dag, sys, j) {
      ElemCommitElsewhere(dag, guarded, sys, j, k);
    }
  }

  lemma PruneTouchesNothing(dag: Dag, guarded: bool, sys: System, rows: set<(Key, Id)>, k: Key)
    ensures CacheAt(dag, Apply(dag, guarded, sys, Prune(rows)).store, k) <==> CacheAt(dag, sys.store, k)
  {
    if rows <= sys.store.tombs {
      PruneKeeps(dag, sys.store, rows, k);
    }
  }

  lemma UntouchedKeeps(dag: Dag, guarded: bool, sys: System, step: Step, k: Key)
    requires SysOk(dag, guarded, sys) && TameSys(dag, sys) && !Touches(dag, sys, step, k)
    ensures CacheAt(dag, Apply(dag, guarded, sys, step).store, k) <==> CacheAt(dag, sys.store, k)
  {
    match step
    case CommitTombs(j) => UntouchedTombs(dag, guarded, sys, j, k);
    case CommitElems(j) => UntouchedElems(dag, guarded, sys, j, k);
    case Prune(rows) => PruneTouchesNothing(dag, guarded, sys, rows, k);
    case _ => ReadKeepsStore(dag, guarded, sys, step);
  }

  lemma TouchedExactly(dag: Dag, guarded: bool, sys: System, step: Step, k: Key)
    requires SysOk(dag, guarded, sys) && TameSys(dag, sys) && Touches(dag, sys, step, k)
    ensures CacheAt(dag, Apply(dag, guarded, sys, step).store, k) <==> LeavesRight(dag, sys, step, k)
  {
    if step.CommitTombs? {
      TombCommitExactly(dag, guarded, sys, step.j, k);
    } else {
      ElemCommitAnyway(dag, guarded, sys, step.j, k);
    }
  }

  /** After every interleaving, the entry of a key is right if and only if the last commit that touched the key
      left it right; earlier damage does not matter. */
  lemma {:induction false} KeyRightExactly(dag: Dag, guarded: bool, steps: seq<Step>, k: Key)
    requires TameSteps(dag, steps)
    ensures CacheAt(dag, Exec(dag, guarded, steps).store, k) <==> LastLeftRight(dag, guarded, steps, k)
  {
    if steps == [] {
      assert LiveIds(EMPTY, k) == {};
      BestOfNone(dag, k);
    } else {
      var n := |steps| - 1;
      var sys := Exec(dag, guarded, steps[..n]);
      KeyRightExactly(dag, guarded, steps[..n], k);
      ExecOk(dag, guarded, steps[..n]);
      ExecKnown(dag, guarded, steps[..n]);
      if Touches(dag, sys, steps[n], k) {
        TouchedExactly(dag, guarded, sys, steps[n], k);
      } else {
        UntouchedKeeps(dag, guarded, sys, steps[n], k);
      }
    }
  }

  // ---- When all merges are done ----

  ghost predicate AllFinished(jobs: seq<Job>) {
    forall j :: 0 <= j < |jobs| ==> jobs[j].phase.Finished?
  }

  function JobIds(jobs: seq<Job>): (ids: seq<Id>)
    ensures |ids| == |jobs| && forall j :: 0 <= j < |jobs| ==> ids[j] == jobs[j].id
  {
    seq(|jobs|, j requires 0 <= j < |jobs| => jobs[j].id)
  }

  lemma FinishedFrom(dag: Dag, jobs: seq<Job>, k: Key, x: Id)
    requires AllFinished(jobs)
    ensures ElementFrom(dag, jobs, k, x) <==> (k, x) in Run(dag, JobIds(jobs)).elems
    ensures TombFrom(dag, jobs, k, x) <==> (k, x) in Run(dag, JobIds(jobs)).tombs
  {
    var ids := JobIds(jobs);
    RunRows(dag, ids, k, x);
    if x in ids {
      var j :| 0 <= j < |ids| && ids[j] == x;
      assert jobs[j].phase.Finished? && jobs[j].id == x;
    }
    if j :| 0 <= j < |jobs| && jobs[j].phase.Finished? && jobs[j].id == x && HasKey(dag(x).elements, k) {
      assert ids[j] == x;
    }
    if j :| 0 <= j < |jobs| && TombsIn(jobs[j]) && x in TombIds(dag(jobs[j].id).tombs, k) {
      assert ids[j] == jobs[j].id;
    }
    if j :| 0 <= j < |ids| && x in TombIds(dag(ids[j]).tombs, k) {
      assert jobs[j].phase.Finished? && ids[j] == jobs[j].id;
    }
  }

  /** However merges overlap, the rows end up as if they had come one after the other, but for the pruned ones. */
  lemma FinishedRows(dag: Dag, guarded: bool, steps: seq<Step>)
    requires AllFinished(Exec(dag, guarded, steps).jobs)
    ensures var sys := Exec(dag, guarded, steps);
      var run := Run(dag, JobIds(sys.jobs));
      && sys.store.elems <= run.elems <= sys.store.elems + sys.pruned
      && sys.store.tombs + sys.pruned == run.tombs
  {
    var sys := Exec(dag, guarded, steps);
    var run := Run(dag, JobIds(sys.jobs));
    ExecOk(dag, guarded, steps);
    forall e: (Key, Id)
      ensures e in sys.store.elems ==> e in run.elems
      ensures e in run.elems ==> e in sys.store.elems + sys.pruned
      ensures e in sys.store.tombs + sys.pruned <==> e in run.tombs
    {
      assert e == (e.0, e.1);
      FinishedFrom(dag, sys.jobs, e.0, e.1);
    }
  }

  lemma JobIdsTame(dag: Dag, jobs: seq<Job>)
    requires TameJobs(dag, jobs)
    ensures AllTame(dag, JobIds(jobs))
  {
  }

  /** A pruned element of the key is alive. */
  ghost predicate Returned(sys: System, k: Key) {
    exists x :: (k, x) in sys.pruned && x in LiveIds(sys.store, k)
  }

  // ---- Pruned elements that are alive again ----

  ghost predicate AddsRow(dag: Dag, sys: System, step: Step, e: (Key, Id)) {
    step.CommitElems? && ElemsReady(dag, sys, step.j) && sys.jobs[step.j].id == e.1 && HasKey(dag(e.1).elements, e.0)
  }

  ghost predicate TombsRow(dag: Dag, sys: System, step: Step, e: (Key, Id)) {
    step.CommitTombs? && TombsReady(dag, sys, step.j) && e.1 in TombIds(dag(sys.jobs[step.j].id).tombs, e.0)
  }

  ghost predicate PrunesRow(guarded: bool, sys: System, step: Step, e: (Key, Id)) {
    step.Prune? && step.rows <= sys.store.tombs && (guarded ==> sys.lock.None?) && e in step.rows
  }

  lemma RowStep(dag: Dag, guarded: bool, sys: System, step: Step, e: (Key, Id))
    requires SysOk(dag, guarded, sys)
    ensures var sys' := Apply(dag, guarded, sys, step);
      && (e in sys'.store.elems <==>
        !PrunesRow(guarded, sys, step, e) && (AddsRow(dag, sys, step, e) || e in sys.store.elems))
      && (e in sys'.store.tombs <==>
        !PrunesRow(guarded, sys, step, e) && (TombsRow(dag, sys, step, e) || e in sys.store.tombs))
      && (e in sys'.pruned <==> PrunesRow(guarded, sys, step, e) || e in sys.pruned)
  {
    assert e == (e.0, e.1);
    if step.CommitTombs? {
      if TombsReady(dag, sys, step.j) {
        var ts := dag(sys.jobs[step.j].id).tombs;
        assert JobOk(dag, sys.store, sys.pruned, sys.jobs[step.j]) && ts[..|ts|] == ts;
      }
    } else if step.CommitElems? {
      if ElemsReady(dag, sys, step.j) {
        ElemBatch(dag, sys, step.j, e.0);
      }
    } else if !step.Prune? {
      ReadKeepsStore(dag, guarded, sys, step);
    }
  }

  /** The row has been pruned; after the latest pruning of it `added` says whether the element was committed, and
      `tombed` whether a tombstone was. */
  datatype RowHistory = RowHistory(pruned: bool, added: bool, tombed: bool)

  ghost function History(dag: Dag, guarded: bool, steps: seq<Step>, e: (Key, Id)): RowHistory {
    if steps == [] then RowHistory(false, false, false)
    else
      var n := |steps| - 1;
      var sys, h := Exec(dag, guarded, steps[..n]), History(dag, guarded, steps[..n], e);
      if PrunesRow(guarded, sys, steps[n], e) then RowHistory(true, false, false)
      else h.(added := h.added || AddsRow(dag, sys, steps[n], e), tombed := h.tombed || TombsRow(dag, sys, steps[n], e))
  }

  lemma {:induction false} RowsFromHistory(dag: Dag, guarded: bool, steps: seq<Step>, e: (Key, Id))
    ensures var sys := Exec(dag, guarded, steps);
      History(dag, guarded, steps, e) == RowHistory(e in sys.pruned, e in sys.store.elems, e in sys.store.tombs)
  {
    if steps != [] {
      var n := |steps| - 1;
      RowsFromHistory(dag, guarded, steps[..n], e);
      ExecOk(dag, guarded, steps[..n]);
      RowStep(dag, guarded, Exec(dag, guarded, steps[..n]), steps[n], e);
    }
  }

  /** A pruned element of the key is alive if and only if a merge has committed it after its latest pruning, and no
      merge has committed a tombstone for it since then. */
  lemma ReturnedExactly(dag: Dag, guarded: bool, steps: seq<Step>, k: Key)
    ensures Returned(Exec(dag, guarded, steps), k) <==>
      exists x :: History(dag, guarded, steps, (k, x)) == RowHistory(true, true, false)
  {
    var sys := Exec(dag, guarded, steps);
    forall x ensures
      History(dag, guarded, steps, (k, x)) == RowHistory(true, true, false) <==>
        (k, x) in sys.pruned && x in LiveIds(sys.store, k)
    {
      RowsFromHistory(dag, guarded, steps, (k, x));
      LiveMember(sys.store, k, x);
    }
  }

  // ---- Against a sequential run ----

  lemma FinishedLive(s: State, past: set<(Key, Id)>, run: State, k: Key)
    requires s.elems <= run.elems <= s.elems + past && s.tombs + past == run.tombs
    ensures forall x :: x in LiveIds(run, k) <==> x in LiveIds(s, k) && (k, x) !in past
  {
    forall x ensures x in LiveIds(run, k) <==> x in LiveIds(s, k) && (k, x) !in past {
      LiveMember(s, k, x);
      LiveMember(run, k, x);
    }
  }

  /** Once all merges are done, a key has the live elements and the entry of a sequential run of the same deltas if
      and only if no pruned element of the key is alive and the last commit that touched it left it right. */
  lemma FinishedAlikeExactly(dag: Dag, guarded: bool, steps: seq<Step>, k: Key)
    requires TameSteps(dag, steps) && AllFinished(Exec(dag, guarded, steps).jobs)
    ensures var sys := Exec(dag, guarded, steps);
      AlikeAt(sys.store, Run(dag, JobIds(sys.jobs)), k) <==> LastLeftRight(dag, guarded, steps, k) && !Returned(sys, k)
  {
    var sys := Exec(dag, guarded, steps);
    var run := Run(dag, JobIds(sys.jobs));
    FinishedRows(dag, guarded, steps);
    FinishedLive(sys.store, sys.pruned, run, k);
    KeyRightExactly(dag, guarded, steps, k);
    ExecTame(dag, guarded, steps);
    JobIdsTame(dag, sys.jobs);
    RunKeepsInv(dag, JobIds(sys.jobs));
    assert CacheAt(dag, run, k);
    AlikeFrom(dag, sys.store, run, k);
    assert Returned(sys, k) <==> LiveIds(sys.store, k) != LiveIds(run, k);
  }

  lemma AlikeFrom(dag: Dag, a: State, b: State, k: Key)
    requires CacheAt(dag, b, k)
    ensures AlikeAt(a, b, k) <==> CacheAt(dag, a, k) && LiveIds(a, k) == LiveIds(b, k)
  {
  }

  lemma AlikeEqual(a: State, b: State)
    requires a.elems == b.elems && a.tombs == b.tombs
    ensures a == b <==> Alike(a, b)
  {
    if Alike(a, b) {
      forall k ensures SameAt(a, b, k) {
        assert AlikeAt(a, b, k);
      }
      MapsDetermined(a, b);
    }
  }

  ghost predicate AllLeftRight(dag: Dag, guarded: bool, steps: seq<Step>) {
    forall k :: LastLeftRight(dag, guarded, steps, k)
  }

  lemma AlikeLeftRight(dag: Dag, guarded: bool, steps: seq<Step>)
    requires TameSteps(dag, steps) && AllFinished(Exec(dag, guarded, steps).jobs)
    requires Exec(dag, guarded, steps).pruned == {}
    ensures Alike(Exec(dag, guarded, steps).store, Run(dag, JobIds(Exec(dag, guarded, steps).jobs))) <==>
      AllLeftRight(dag, guarded, steps)
  {
    var sys := Exec(dag, guarded, steps);
    var run := Run(dag, JobIds(sys.jobs));
    if AllLeftRight(dag, guarded, steps) {
      forall k ensures AlikeAt(sys.store, run, k) {
        assert LastLeftRight(dag, guarded, steps, k);
        FinishedAlikeExactly(dag, guarded, steps, k);
      }
    }
    if Alike(sys.store, run) {
      forall k ensures LastLeftRight(dag, guarded, steps, k) {
        assert AlikeAt(sys.store, run, k);
        FinishedAlikeExactly(dag, guarded, steps, k);
      }
    }
  }

  /** Without pruning the stores are identical if and only if that holds for every key. */
  lemma FinishedAgreesExactly(dag: Dag, guarded: bool, steps: seq<Step>)
    requires TameSteps(dag, steps) && AllFinished(Exec(dag, guarded, steps).jobs)
    requires Exec(dag, guarded, steps).pruned == {}
    ensures var sys := Exec(dag, guarded, steps);
      sys.store == Run(dag, JobIds(sys.jobs)) <==> AllLeftRight(dag, guarded, steps)
  {
    FinishedRows(dag, guarded, steps);
    AlikeEqual(Exec(dag, guarded, steps).store, Run(dag, JobIds(Exec(dag, guarded, steps).jobs)));
    AlikeLeftRight(dag, guarded, steps);
  }

  /** The run ends with no merge under way, every entry right and no pruned element alive. */
  ghost predicate EndsWell(dag: Dag, guarded: bool, steps: seq<Step>) {
    && TameSteps(dag, steps) && AllFinished(Exec(dag, guarded, steps).jobs)
    && AllLeftRight(dag, guarded, steps) && forall k :: !Returned(Exec(dag, guarded, steps), k)
  }

  /** Replicas that end well with the same deltas show the same, whatever the interleavings on each of them; without
      pruning their stores are identical. */
  lemma GoodRunsConverge(dag: Dag, guarded: bool, a: seq<Step>, b: seq<Step>)
    requires EndsWell(dag, guarded, a) && EndsWell(dag, guarded, b)
    requires SameIds(JobIds(Exec(dag, guarded, a).jobs), JobIds(Exec(dag, guarded, b).jobs))
    ensures Alike(Exec(dag, guarded, a).store, Exec(dag, guarded, b).store)
    ensures Exec(dag, guarded, a).pruned == {} == Exec(dag, guarded, b).pruned ==>
      Exec(dag, guarded, a).store == Exec(dag, guarded, b).store
  {
    var s, t := Exec(dag, guarded, a), Exec(dag, guarded, b);
    ExecTame(dag, guarded, a);
    JobIdsTame(dag, s.jobs);
    Convergence(dag, JobIds(s.jobs), JobIds(t.jobs));
    forall k ensures AlikeAt(s.store, t.store, k) {
      assert LastLeftRight(dag, guarded, a, k) && LastLeftRight(dag, guarded, b, k) && !Returned(s, k) &&
        !Returned(t, k);
      FinishedAlikeExactly(dag, guarded, a, k);
      FinishedAlikeExactly(dag, guarded, b, k);
    }
    if s.pruned == {} == t.pruned {
      FinishedRows(dag, guarded, a);
      FinishedRows(dag, guarded, b);
      AlikeEqual(s.store, t.store);
    }
  }

  /** In particular replicas whose commits were not disturbed. */
  lemma UndisturbedConverge(dag: Dag, a: seq<Step>, b: seq<Step>)
    requires TameSteps(dag, a) && TameSteps(dag, b)
    requires forall k :: NeverDisturbed(dag, false, a, k) && NeverDisturbed(dag, false, b, k)
    requires AllFinished(Exec(dag, false, a).jobs) && AllFinished(Exec(dag, false, b).jobs)
    requires forall k :: !Returned(Exec(dag, false, a), k) && !Returned(Exec(dag, false, b), k)
    requires SameIds(JobIds(Exec(dag, false, a).jobs), JobIds(Exec(dag, false, b).jobs))
    ensures Alike(Exec(dag, false, a).store, Exec(dag, false, b).store)
    ensures Exec(dag, false, a).pruned == {} == Exec(dag, false, b).pruned ==>
      Exec(dag, false, a).store == Exec(dag, false, b).store
  {
    forall k ensures LastLeftRight(dag, false, a, k) && LastLeftRight(dag, false, b, k) {
      UndisturbedLeftRight(dag, false, a, k);
      UndisturbedLeftRight(dag, false, b, k);
    }
    GoodRunsConverge(dag, false, a, b);
  }

  lemma UndisturbedLeftRight(dag: Dag, guarded: bool, steps: seq<Step>, k: Key)
    requires TameSteps(dag, steps) && NeverDisturbed(dag, guarded, steps, k)
    ensures AlwaysCached(dag, guarded, steps, k) && LastLeftRight(dag, guarded, steps, k)
  {
    CacheRightExactly(dag, guarded, steps, k);
    assert CachedAfter(dag, guarded, steps, |steps|, k) && steps[..|steps|] == steps;
    KeyRightExactly(dag, guarded, steps, k);
  }
}
