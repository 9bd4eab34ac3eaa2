/** When merges cannot disturb each other: if their halves keep apart on a key, and so if `putTombs` and the pruning
    took the mutex as `putElems` does. */
module CrdtGuarded {
  import opened CrdtCompaction
  import opened CrdtConcurrent
  import opened CrdtConcurrentProofs
  import opened CrdtOverlap
  import opened CrdtProofs
  import opened CrdtSet
  import opened Options

  // ---- Schedules that keep apart ----

  /** The job is inside `putTombs`, with a tombstone for the key. */
  ghost predicate Removing(dag: Dag, job: Job, k: Key) {
    (job.phase.Tombing? || job.phase.Scanning?) && TombIds(dag(job.id).tombs, k) != {}
  }

  /** The job is inside `putTombs` or `putElems`, with something for the key. */
  ghost predicate Busy(dag: Dag, job: Job, k: Key) {
    Removing(dag, job, k) || (job.phase.Adding? && HasKey(dag(job.id).elements, k))
  }

  /** A job removing something of the key is alone on the key. */
  ghost predicate ApartNow(dag: Dag, sys: System, k: Key) {
    forall i, j :: 0 <= i < |sys.jobs| && 0 <= j < |sys.jobs| && i != j && Removing(dag, sys.jobs[i], k) ==>
      !Busy(dag, sys.jobs[j], k)
  }

  /** No row of the key is pruned while a job is busy with the key. */
  ghost predicate PrunesApart(dag: Dag, guarded: bool, sys: System, step: Step, k: Key) {
    step.Prune? && (guarded ==> sys.lock.None?) && (exists x :: (k, x) in step.rows) ==>
      forall j :: 0 <= j < |sys.jobs| ==> !Busy(dag, sys.jobs[j], k)
  }

  ghost predicate ApartAt(dag: Dag, guarded: bool, steps: seq<Step>, n: nat, k: Key)
    requires n < |steps|
  {
    var sys := Exec(dag, guarded, steps[..n]);
    ApartNow(dag, sys, k) && PrunesApart(dag, guarded, sys, steps[n], k)
  }

  /** Throughout the run removals keep apart from everything else on the key, and prunings too. */
  ghost predicate ApartRun(dag: Dag, guarded: bool, steps: seq<Step>, k: Key) {
    forall n {:trigger ApartAt(dag, guarded, steps, n, k)} :: 0 <= n < |steps| ==> ApartAt(dag, guarded, steps, n, k)
  }

  // ---- What a job knows about the key is up to date ----

  ghost predicate UpToDate(dag: Dag, s: State, job: Job, k: Key) {
    var d := dag(job.id);
    match job.phase
    case Tombing(i) => i <= |d.tombs| ==> ScansFresh(s, job, k, TombIds(d.tombs[..i], k))
    case Scanning(i, queried, todo, found) =>
      i < |d.tombs| ==>
        && ScansFresh(s, job, k, TombIds(d.tombs[..i], k))
        && (d.tombs[i].key == k ==> ScanFresh(s, k, TombIds(d.tombs[..i + 1], k), queried, todo, found))
    case Adding(i, look) =>
      i <= |d.elements| ==>
        && TakenFresh(s, job, d, k, i)
        && (i < |d.elements| && d.elements[i].key == k ==> LookFresh(s, job.id, d, k, look))
    case _ => true
  }

  ghost predicate ScansFresh(s: State, job: Job, k: Key, gone: set<Id>) {
    gone != {} ==> k in job.scans && job.scans[k].found == LiveIds(s, k) - gone
  }

  ghost predicate ScanFresh(s: State, k: Key, gone: set<Id>, queried: set<Id>, todo: set<Id>, found: set<Id>) {
    queried == ElemIds(s, k) - gone && forall x :: x in found <==> x in queried && x !in todo && (k, x) !in s.tombs
  }

  ghost predicate TakenFresh(s: State, job: Job, d: Delta, k: Key, i: nat)
    requires i <= |d.elements|
  {
    var v := if (k, job.id) in s.tombs then None else LastAbove(d.elements[..i], k, d.priority, Current(s, k));
    if v.None? then k !in job.batch.entries
      else k in job.batch.entries && job.batch.entries[k] == Some(Rank(d.priority, v.value))
  }

  ghost predicate LookFresh(s: State, id: Id, d: Delta, k: Key, look: Look) {
    && (!look.Unread? ==> (k, id) !in s.tombs)
    && (look.Priced? ==> Current(s, k).priority == d.priority)
  }

  /** The stores say the same about the key. */
  ghost predicate SameKey(s: State, s': State, k: Key) {
    && (forall x :: (k, x) in s.elems <==> (k, x) in s'.elems)
    && (forall x :: (k, x) in s.tombs <==> (k, x) in s'.tombs)
    && SameAt(s, s', k)
  }

  lemma SameKeySets(s: State, s': State, k: Key)
    requires SameKey(s, s', k)
    ensures LiveIds(s, k) == LiveIds(s', k) && ElemIds(s, k) == ElemIds(s', k)
  {
    forall x ensures (x in LiveIds(s, k) <==> x in LiveIds(s', k)) && (x in ElemIds(s, k) <==> x in ElemIds(s', k)) {
      LiveMember(s, k, x);
      LiveMember(s', k, x);
      ElemMember(s, k, x);
      ElemMember(s', k, x);
    }
  }

  lemma UpToDateSame(dag: Dag, s: State, s': State, job: Job, k: Key)
    requires UpToDate(dag, s, job, k) && SameKey(s, s', k)
    ensures UpToDate(dag, s', job, k)
  {
    SameKeySets(s, s', k);
  }

  /** A job that has nothing for the key cannot be out of date. */
  lemma IdleUpToDate(dag: Dag, s: State, past: set<(Key, Id)>, s': State, job: Job, k: Key)
    requires JobOk(dag, s, past, job) && !Busy(dag, job, k)
    ensures UpToDate(dag, s', job, k)
  {
    var d := dag(job.id);
    if job.phase.Tombing? || job.phase.Scanning? {
      FewerTombs(d.tombs, job.phase.i, k);
      if job.phase.Scanning? {
        assert d.tombs[job.phase.i].id in TombIds(d.tombs, d.tombs[job.phase.i].key);
      }
    } else if job.phase.Adding? {
      var i := job.phase.i;
      FewerElements(d.elements, i, k);
      LastAboveHasKey(d.elements[..i], k, d.priority, Current(s', k));
      NothingTaken(dag, job, k, if job.phase.look.Unread? then i else i + 1);
    }
  }

  lemma FewerTombs(ts: seq<Tomb>, i: nat, k: Key)
    requires i <= |ts| && TombIds(ts, k) == {}
    ensures TombIds(ts[..i], k) == {}
  {
    forall x ensures x !in TombIds(ts[..i], k) {
      if j :| 0 <= j < |ts[..i]| && ts[..i][j].key == k && ts[..i][j].id == x {
        assert ts[j].id in TombIds(ts, k);
      }
    }
  }

  lemma FewerElements(es: seq<Element>, i: nat, k: Key)
    requires i <= |es| && !HasKey(es, k)
    ensures !HasKey(es[..i], k) && (i < |es| ==> es[i].key != k)
  {
  }

  lemma NothingTaken(dag: Dag, job: Job, k: Key, i: nat)
    requires i <= |dag(job.id).elements| && ElemsDone(dag, job, i) && !HasKey(dag(job.id).elements, k)
    ensures k !in job.batch.entries
  {
    var d := dag(job.id);
    assert ElemDone(d, job.batch, k);
    if k in job.batch.entries {
      TakenBounded(d, k, job.batch.entries[k].value.value);
    }
  }

  // ---- Reads keep a job up to date ----

  lemma FreshFound(s: State, k: Key, gone: set<Id>, queried: set<Id>, found: set<Id>)
    requires ScanFresh(s, k, gone, queried, {}, found)
    ensures found == LiveIds(s, k) - gone
  {
    forall x ensures x in found <==> x in LiveIds(s, k) - gone {
      LiveMember(s, k, x);
      ElemMember(s, k, x);
    }
  }

  lemma DecideFresh(dag: Dag, s: State, job: Job, k: Key)
    requires UpToDate(dag, s, job, k) && job.phase.Scanning? && job.phase.i < |dag(job.id).tombs|
    requires job.phase.todo == {}
    ensures UpToDate(dag, s, DoDecide(dag, job), k)
  {
    var p, ts := job.phase, dag(job.id).tombs;
    TombIdsNext(ts, p.i);
    if ts[p.i].key == k {
      FreshFound(s, k, TombIds(ts[..p.i + 1], k), p.queried, p.found);
    } else {
      assert TombIds(ts[..p.i + 1], k) == TombIds(ts[..p.i], k);
    }
  }

  lemma LastAboveNext(es: seq<Element>, i: nat, k: Key, prio: nat, cur: Rank)
    requires i < |es|
    ensures LastAbove(es[..i + 1], k, prio, cur) ==
      if es[i].key == k && Below(cur, Rank(prio, es[i].value)) then Some(es[i].value)
        else LastAbove(es[..i], k, prio, cur)
  {
    assert es[..i + 1][..i] == es[..i];
  }

  lemma SkipFresh(dag: Dag, s: State, job: Job, k: Key)
    requires job.phase.Adding? && job.phase.i < |dag(job.id).elements|
    requires TakenFresh(s, job, dag(job.id), k, job.phase.i)
    requires var e := dag(job.id).elements[job.phase.i];
      e.key == k ==> (k, job.id) in s.tombs || !Below(Current(s, k), Rank(dag(job.id).priority, e.value))
    ensures UpToDate(dag, s, Skip(job), k)
  {
    LastAboveNext(dag(job.id).elements, job.phase.i, k, dag(job.id).priority, Current(s, k));
  }

  lemma TakeFresh(dag: Dag, s: State, job: Job, k: Key)
    requires job.phase.Adding? && job.phase.i < |dag(job.id).elements|
    requires TakenFresh(s, job, dag(job.id), k, job.phase.i)
    requires var e := dag(job.id).elements[job.phase.i];
      e.key == k ==> (k, job.id) !in s.tombs && Below(Current(s, k), Rank(dag(job.id).priority, e.value))
    ensures var e := dag(job.id).elements[job.phase.i];
      UpToDate(dag, s, Take(job, e.key, Rank(dag(job.id).priority, e.value)), k)
  {
    LastAboveNext(dag(job.id).elements, job.phase.i, k, dag(job.id).priority, Current(s, k));
  }

  lemma LookTombFresh(dag: Dag, s: State, job: Job, k: Key)
    requires UpToDate(dag, s, job, k) && job.phase.Adding? && job.phase.i < |dag(job.id).elements|
    ensures UpToDate(dag, s, DoLookTomb(dag, s, job), k)
  {
    var e := dag(job.id).elements[job.phase.i];
    var job' := job.(batch := job.batch.(elems := job.batch.elems + {(e.key, job.id)}));
    if (e.key, job.id) in s.tombs {
      SkipFresh(dag, s, job', k);
    }
  }

  lemma LookPriorityFresh(dag: Dag, s: State, job: Job, k: Key)
    requires UpToDate(dag, s, job, k) && job.phase.Adding? && job.phase.look.Alive?
    requires job.phase.i < |dag(job.id).elements|
    ensures UpToDate(dag, s, DoLookPriority(dag, s, job), k)
  {
    var e, prio := dag(job.id).elements[job.phase.i], dag(job.id).priority;
    var cur := Current(s, e.key).priority;
    if prio < cur {
      SkipFresh(dag, s, job, k);
    } else if prio > cur {
      TakeFresh(dag, s, job, k);
    }
  }

  lemma LookValueFresh(dag: Dag, s: State, job: Job, k: Key)
    requires UpToDate(dag, s, job, k) && job.phase.Adding? && job.phase.look.Priced?
    requires job.phase.i < |dag(job.id).elements|
    ensures UpToDate(dag, s, DoLookValue(dag, s, job), k)
  {
    var e := dag(job.id).elements[job.phase.i];
    if Less(Current(s, e.key).value, e.value) {
      TakeFresh(dag, s, job, k);
    } else {
      SkipFresh(dag, s, job, k);
    }
  }

  lemma BeginFresh(dag: Dag, s: State, job: Job, k: Key)
    requires job.batch == NOTHING
    ensures UpToDate(dag, s, job.(phase := Tombing(0)), k) && UpToDate(dag, s, job.(phase := Adding(0, Unread)), k)
  {
    assert dag(job.id).tombs[..0] == [] && dag(job.id).elements[..0] == [];
    NoTombs(k);
  }

  lemma ReadFresh(dag: Dag, s: State, past: set<(Key, Id)>, job: Job, step: Step, k: Key)
    requires JobOk(dag, s, past, job) && UpToDate(dag, s, job, k) && IsRead(step) && CanRead(dag, job, step)
    ensures UpToDate(dag, s, AfterRead(dag, s, job, step), k)
  {
    match step
    case BeginTombs(_) => BeginFresh(dag, s, job, k);
    case BeginElems(_) => BeginFresh(dag, s, job, k);
    case Decide(_) => DecideFresh(dag, s, job, k);
    case LookTomb(_) => LookTombFresh(dag, s, job, k);
    case LookPriority(_) => LookPriorityFresh(dag, s, job, k);
    case LookValue(_) => LookValueFresh(dag, s, job, k);
    case _ =>
  }

  // ---- Commits of jobs that are up to date ----

  lemma FreshTombs(dag: Dag, sys: System, j: nat, k: Key)
    requires JobsOk(dag, sys.store, sys.pruned, sys.jobs) && TombsReady(dag, sys, j)
    requires UpToDate(dag, sys.store, sys.jobs[j], k)
    ensures TombsUndisturbed(dag, sys.store, sys.jobs[j], k)
  {
    var ts := dag(sys.jobs[j].id).tombs;
    assert ts[..|ts|] == ts;
    var gone := TombIds(ts, k);
    if gone != {} {
      var found := sys.jobs[j].scans[k].found;
      assert found !! gone;
      StillBest(dag, sys.store, k, gone, found);
    }
  }

  lemma FreshElems(dag: Dag, sys: System, j: nat, k: Key)
    requires ElemsReady(dag, sys, j) && UpToDate(dag, sys.store, sys.jobs[j], k) && Tame(dag(sys.jobs[j].id))
    ensures ElemsUndisturbed(dag, sys.store, sys.jobs[j], k)
  {
    var job := sys.jobs[j];
    var d := dag(job.id);
    assert d.elements[..|d.elements|] == d.elements && TameAt(d, k);
    if HasKey(d.elements, k) {
      TameEntry(d, k, Current(sys.store, k));
    }
  }

  ghost predicate AllUpToDate(dag: Dag, sys: System, k: Key) {
    forall j {:trigger UpToDate(dag, sys.store, sys.jobs[j], k)} :: 0 <= j < |sys.jobs| ==>
      UpToDate(dag, sys.store, sys.jobs[j], k)
  }

  /** The commit changes nothing about the key, or nobody else is busy with it. */
  lemma OthersUpToDate(dag: Dag, guarded: bool, sys: System, s': State, j: nat, i: nat, k: Key)
    requires SysOk(dag, guarded, sys) && AllUpToDate(dag, sys, k) && i < |sys.jobs| && i != j
    requires SameKey(sys.store, s', k) || !Busy(dag, sys.jobs[i], k)
    ensures UpToDate(dag, s', sys.jobs[i], k)
  {
    assert UpToDate(dag, sys.store, sys.jobs[i], k) && JobOk(dag, sys.store, sys.pruned, sys.jobs[i]);
    if SameKey(sys.store, s', k) {
      UpToDateSame(dag, sys.store, s', sys.jobs[i], k);
    } else {
      IdleUpToDate(dag, sys.store, sys.pruned, s', sys.jobs[i], k);
    }
  }

  lemma TombsElsewhere(dag: Dag, sys: System, j: nat, k: Key)
    requires JobsOk(dag, sys.store, sys.pruned, sys.jobs) && TombsReady(dag, sys, j)
    requires TombIds(dag(sys.jobs[j].id).tombs, k) == {}
    ensures SameKey(sys.store, Commit(sys.store, sys.jobs[j].batch), k)
  {
    var job := sys.jobs[j];
    var ts := dag(job.id).tombs;
    assert JobOk(dag, sys.store, sys.pruned, job) && ts[..|ts|] == ts;
    assert TombDone(dag, sys.store, sys.pruned, job, k, TombIds(ts, k));
    CommitAt(sys.store, job.batch, k);
  }

  lemma ElemsElsewhereKey(dag: Dag, sys: System, j: nat, k: Key)
    requires JobsOk(dag, sys.store, sys.pruned, sys.jobs) && ElemsReady(dag, sys, j)
    requires !HasKey(dag(sys.jobs[j].id).elements, k)
    ensures SameKey(sys.store, Commit(sys.store, sys.jobs[j].batch), k)
  {
    ElemBatch(dag, sys, j, k);
    CommitAt(sys.store, sys.jobs[j].batch, k);
  }

  lemma CommitTombsFresh(dag: Dag, guarded: bool, sys: System, j: nat, k: Key)
    requires SysOk(dag, guarded, sys) && AllUpToDate(dag, sys, k) && ApartNow(dag, sys, k) && TombsReady(dag, sys, j)
    ensures AllUpToDate(dag, DoCommitTombs(guarded, sys, j), k)
  {
    var sys' := DoCommitTombs(guarded, sys, j);
    if TombIds(dag(sys.jobs[j].id).tombs, k) == {} {
      TombsElsewhere(dag, sys, j, k);
    }
    forall i | 0 <= i < |sys'.jobs| ensures UpToDate(dag, sys'.store, sys'.jobs[i], k) {
      if i != j {
        assert TombIds(dag(sys.jobs[j].id).tombs, k) != {} ==>
          Removing(dag, sys.jobs[j], k) && !Busy(dag, sys.jobs[i], k);
        OthersUpToDate(dag, guarded, sys, sys'.store, j, i, k);
      }
    }
  }

  lemma CommitElemsFresh(dag: Dag, guarded: bool, sys: System, j: nat, k: Key)
    requires SysOk(dag, guarded, sys) && AllUpToDate(dag, sys, k) && ApartNow(dag, sys, k) && ElemsReady(dag, sys, j)
    ensures AllUpToDate(dag, DoCommitElems(sys, j), k)
  {
    var sys' := DoCommitElems(sys, j);
    if !HasKey(dag(sys.jobs[j].id).elements, k) {
      ElemsElsewhereKey(dag, sys, j, k);
    }
    assert Inside(guarded, sys.jobs[j]) && sys.lock == Some(j);
    forall i | 0 <= i < |sys'.jobs| ensures UpToDate(dag, sys'.store, sys'.jobs[i], k) {
      if i != j {
        assert !Inside(guarded, sys.jobs[i]);
        assert HasKey(dag(sys.jobs[j].id).elements, k) ==> Busy(dag, sys.jobs[j], k) && !Busy(dag, sys.jobs[i], k);
        OthersUpToDate(dag, guarded, sys, sys'.store, j, i, k);
      }
    }
  }

  lemma PruneFresh(dag: Dag, guarded: bool, sys: System, rows: set<(Key, Id)>, k: Key)
    requires SysOk(dag, guarded, sys) && AllUpToDate(dag, sys, k) && rows <= sys.store.tombs
    requires guarded ==> sys.lock.None?
    requires PrunesApart(dag, guarded, sys, Prune(rows), k)
    ensures AllUpToDate(dag, sys.(store := Compact(sys.store, rows), pruned := sys.pruned + rows), k)
  {
    var s' := Compact(sys.store, rows);
    forall i | 0 <= i < |sys.jobs| ensures UpToDate(dag, s', sys.jobs[i], k) {
      assert (forall x :: (k, x) !in rows) ==> SameKey(sys.store, s', k);
      OthersUpToDate(dag, guarded, sys, s', |sys.jobs|, i, k);
    }
  }

  lemma LocalFresh(dag: Dag, sys: System, j: nat, job': Job, lock: Option<nat>, k: Key)
    requires AllUpToDate(dag, sys, k) && j < |sys.jobs| && UpToDate(dag, sys.store, job', k)
    ensures AllUpToDate(dag, sys.(jobs := sys.jobs[j := job'], lock := lock), k)
  {
    var jobs' := sys.jobs[j := job'];
    forall i | 0 <= i < |jobs'| ensures UpToDate(dag, sys.store, jobs'[i], k) {
      assert i != j ==> UpToDate(dag, sys.store, sys.jobs[i], k);
    }
  }

  lemma StartFresh(dag: Dag, guarded: bool, sys: System, id: Id, k: Key)
    requires AllUpToDate(dag, sys, k)
    ensures AllUpToDate(dag, Apply(dag, guarded, sys, Start(id)), k)
  {
    var sys' := Apply(dag, guarded, sys, Start(id));
    forall i | 0 <= i < |sys'.jobs| ensures UpToDate(dag, sys'.store, sys'.jobs[i], k) {
      assert i < |sys.jobs| ==> UpToDate(dag, sys.store, sys.jobs[i], k);
    }
  }

  lemma ReadAllFresh(dag: Dag, guarded: bool, sys: System, step: Step, k: Key)
    requires SysOk(dag, guarded, sys) && AllUpToDate(dag, sys, k) && IsRead(step)
    ensures AllUpToDate(dag, Apply(dag, guarded, sys, step), k)
  {
    var sys' := Apply(dag, guarded, sys, step);
    if sys' != sys {
      assert JobOk(dag, sys.store, sys.pruned, sys.jobs[step.j]) && UpToDate(dag, sys.store, sys.jobs[step.j], k);
      ReadFresh(dag, sys.store, sys.pruned, sys.jobs[step.j], step, k);
      LocalFresh(dag, sys, step.j, AfterRead(dag, sys.store, sys.jobs[step.j], step), sys'.lock, k);
    }
  }

  lemma ApartStep(dag: Dag, guarded: bool, sys: System, step: Step, k: Key)
    requires SysOk(dag, guarded, sys) && TameJobs(dag, sys.jobs) && AllUpToDate(dag, sys, k)
    requires ApartNow(dag, sys, k) && PrunesApart(dag, guarded, sys, step, k)
    ensures Undisturbed(dag, sys, step, k) && AllUpToDate(dag, Apply(dag, guarded, sys, step), k)
  {
    if step.CommitTombs? {
      if TombsReady(dag, sys, step.j) {
        assert UpToDate(dag, sys.store, sys.jobs[step.j], k);
        FreshTombs(dag, sys, step.j, k);
        CommitTombsFresh(dag, guarded, sys, step.j, k);
      }
    } else if step.CommitElems? {
      if ElemsReady(dag, sys, step.j) {
        assert UpToDate(dag, sys.store, sys.jobs[step.j], k);
        FreshElems(dag, sys, step.j, k);
        CommitElemsFresh(dag, guarded, sys, step.j, k);
      }
    } else if step.Prune? {
      if step.rows <= sys.store.tombs && (guarded ==> sys.lock.None?) {
        PruneFresh(dag, guarded, sys, step.rows, k);
      }
    } else if step.Start? {
      StartFresh(dag, guarded, sys, step.id, k);
    } else {
      ReadAllFresh(dag, guarded, sys, step, k);
    }
  }

  lemma ApartPrefix(dag: Dag, guarded: bool, steps: seq<Step>, n: nat, k: Key)
    requires n <= |steps| && ApartRun(dag, guarded, steps, k) && TameSteps(dag, steps)
    ensures ApartRun(dag, guarded, steps[..n], k) && TameSteps(dag, steps[..n])
  {
    forall m: nat | m < n ensures ApartAt(dag, guarded, steps[..n], m, k) {
      assert ApartAt(dag, guarded, steps, m, k) && steps[..n][..m] == steps[..m];
    }
  }

  lemma {:induction false} ApartFresh(dag: Dag, guarded: bool, steps: seq<Step>, k: Key)
    requires TameSteps(dag, steps) && ApartRun(dag, guarded, steps, k)
    ensures AllUpToDate(dag, Exec(dag, guarded, steps), k)
  {
    if steps != [] {
      var n := |steps| - 1;
      ApartPrefix(dag, guarded, steps, n, k);
      ApartFresh(dag, guarded, steps[..n], k);
      ApartNext(dag, guarded, steps, n, k);
    }
  }

  lemma ApartNext(dag: Dag, guarded: bool, steps: seq<Step>, n: nat, k: Key)
    requires n < |steps| && TameSteps(dag, steps[..n]) && ApartAt(dag, guarded, steps, n, k)
    requires AllUpToDate(dag, Exec(dag, guarded, steps[..n]), k)
    ensures UndisturbedAt(dag, guarded, steps, n, k)
    ensures AllUpToDate(dag, Apply(dag, guarded, Exec(dag, guarded, steps[..n]), steps[n]), k)
  {
    ExecOk(dag, guarded, steps[..n]);
    ExecTame(dag, guarded, steps[..n]);
    ApartStep(dag, guarded, Exec(dag, guarded, steps[..n]), steps[n], k);
  }

  /** A schedule in which removals and prunings keep apart on a key does not disturb any commit on that key. */
  lemma ApartNeverDisturbed(dag: Dag, guarded: bool, steps: seq<Step>, k: Key)
    requires TameSteps(dag, steps) && ApartRun(dag, guarded, steps, k)
    ensures NeverDisturbed(dag, guarded, steps, k)
  {
    forall n: nat | n < |steps| ensures UndisturbedAt(dag, guarded, steps, n, k) {
      ApartPrefix(dag, guarded, steps, n, k);
      ApartFresh(dag, guarded, steps[..n], k);
      assert ApartAt(dag, guarded, steps, n, k);
      ApartNext(dag, guarded, steps, n, k);
    }
  }

  // ---- One mutex for all three ----

  lemma GuardedApart(dag: Dag, steps: seq<Step>, k: Key)
    ensures ApartRun(dag, true, steps, k)
  {
    forall n: nat | n < |steps| ensures ApartAt(dag, true, steps, n, k) {
      ExecOk(dag, true, steps[..n]);
      BusyInside(dag, Exec(dag, true, steps[..n]), k);
    }
  }

  lemma BusyInside(dag: Dag, sys: System, k: Key)
    requires LockOk(true, sys)
    ensures forall j :: 0 <= j < |sys.jobs| && Busy(dag, sys.jobs[j], k) ==> sys.lock == Some(j)
  {
    forall j | 0 <= j < |sys.jobs| && Busy(dag, sys.jobs[j], k) ensures sys.lock == Some(j) {
      assert Inside(true, sys.jobs[j]);
    }
  }

  /** With the mutex around both halves of a merge and around the pruning, the cache is right in every interleaving,
      at all times. */
  lemma GuardedKeepsRight(dag: Dag, steps: seq<Step>, k: Key)
    requires TameSteps(dag, steps)
    ensures AlwaysCached(dag, true, steps, k) && LastLeftRight(dag, true, steps, k)
  {
    GuardedApart(dag, steps, k);
    ApartNeverDisturbed(dag, true, steps, k);
    UndisturbedLeftRight(dag, true, steps, k);
  }

  lemma GuardedKeepsInv(dag: Dag, steps: seq<Step>)
    requires TameSteps(dag, steps)
    ensures Inv(dag, Exec(dag, true, steps).store)
  {
    ExecOk(dag, true, steps);
    ExecTame(dag, true, steps);
    RowsKnown(dag, Exec(dag, true, steps));
    forall k ensures CacheAt(dag, Exec(dag, true, steps).store, k) {
      GuardedKeepsRight(dag, steps, k);
      KeyRightExactly(dag, true, steps, k);
    }
  }

  /** So replicas that have merged the same deltas show the same, however their merges and prunings interleave, as
      long as no pruned element is alive; without pruning their stores are identical. */
  lemma GuardedConverge(dag: Dag, a: seq<Step>, b: seq<Step>)
    requires TameSteps(dag, a) && TameSteps(dag, b)
    requires AllFinished(Exec(dag, true, a).jobs) && AllFinished(Exec(dag, true, b).jobs)
    requires forall k :: !Returned(Exec(dag, true, a), k) && !Returned(Exec(dag, true, b), k)
    requires SameIds(JobIds(Exec(dag, true, a).jobs), JobIds(Exec(dag, true, b).jobs))
    ensures Alike(Exec(dag, true, a).store, Exec(dag, true, b).store)
    ensures Exec(dag, true, a).pruned == {} == Exec(dag, true, b).pruned ==>
      Exec(dag, true, a).store == Exec(dag, true, b).store
  {
    forall k ensures LastLeftRight(dag, true, a, k) && LastLeftRight(dag, true, b, k) {
      GuardedKeepsRight(dag, a, k);
      GuardedKeepsRight(dag, b, k);
    }
    GoodRunsConverge(dag, true, a, b);
  }
}
