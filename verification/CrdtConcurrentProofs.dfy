/** The invariant of overlapping merges: it holds in every interleaving, with or without a mutex around `putTombs`. */
module CrdtConcurrentProofs {
  import opened CrdtConcurrent
  import opened CrdtProofs
  import opened CrdtSet
  import opened Options

  /** No tombstone is lost but by pruning. */
  ghost predicate Older(s: State, past: set<(Key, Id)>, s': State, past': set<(Key, Id)>) {
    past <= past' && s.tombs <= s'.tombs + past'
  }

  lemma CommitEntry(s: State, b: Batch, k: Key, o: Option<Rank>)
    ensures Commit(s, b.(entries := b.entries[k := o])) ==
      if o.None? then WithoutRank(Commit(s, b), k) else WithRank(Commit(s, b), k, o.value)
  {
    var w, v := Commit(s, b.(entries := b.entries[k := o])), Commit(s, b);
    var u := if o.None? then WithoutRank(v, k) else WithRank(v, k, o.value);
    forall x ensures SameAt(w, u, x) {
      CommitAt(s, b.(entries := b.entries[k := o]), x);
      CommitAt(s, b, x);
    }
    MapsDetermined(w, u);
  }

  lemma CommitNothing(s: State)
    ensures Commit(s, NOTHING) == s
  {
    var w := Commit(s, NOTHING);
    assert w.value == s.value && w.priority == s.priority;
  }

  lemma ElemMember(s: State, k: Key, x: Id)
    ensures x in ElemIds(s, k) <==> (k, x) in s.elems
  {
    if (k, x) in s.elems {
      assert (k, x).0 == k && (k, x).1 == x;
    }
  }

  lemma TombsDoneGrow(dag: Dag, s: State, past: set<(Key, Id)>, s': State, past': set<(Key, Id)>, job: Job,
    ts: seq<Tomb>)
    requires Older(s, past, s', past') && TombsDone(dag, s, past, job, ts)
    ensures TombsDone(dag, s', past', job, ts)
  {
    forall k ensures TombDone(dag, s', past', job, k, TombIds(ts, k)) {
      assert TombDone(dag, s, past, job, k, TombIds(ts, k));
    }
  }

  /** A job does not mind what others commit or prune. */
  lemma JobGrows(dag: Dag, s: State, past: set<(Key, Id)>, s': State, past': set<(Key, Id)>, job: Job)
    requires Older(s, past, s', past') && JobOk(dag, s, past, job)
    ensures JobOk(dag, s', past', job)
  {
    if job.phase.Tombing? || job.phase.Scanning? {
      TombsDoneGrow(dag, s, past, s', past', job, dag(job.id).tombs[..job.phase.i]);
    }
  }

  // ---- Steps inside putTombs ----

  lemma NoTombs(k: Key)
    ensures TombIds([], k) == {}
  {
  }

  lemma QueryOk(dag: Dag, s: State, past: set<(Key, Id)>, job: Job)
    requires JobOk(dag, s, past, job) && job.phase.Tombing? && job.phase.i < |dag(job.id).tombs|
    ensures JobOk(dag, s, past, DoQuery(dag, s, job))
  {
    var i, ts := job.phase.i, dag(job.id).tombs;
    TombsDoneSame(dag, s, past, job, DoQuery(dag, s, job), ts[..i]);
  }

  lemma TombsDoneSame(dag: Dag, s: State, past: set<(Key, Id)>, job: Job, job': Job, ts: seq<Tomb>)
    requires TombsDone(dag, s, past, job, ts) && job'.batch == job.batch && job'.scans == job.scans
    ensures TombsDone(dag, s, past, job', ts)
  {
    forall k ensures TombDone(dag, s, past, job', k, TombIds(ts, k)) {
      assert TombDone(dag, s, past, job, k, TombIds(ts, k));
    }
  }

  lemma LookUpOk(dag: Dag, s: State, past: set<(Key, Id)>, job: Job, x: Id)
    requires JobOk(dag, s, past, job) && job.phase.Scanning? && job.phase.i < |dag(job.id).tombs| && x in job.phase.todo
    ensures JobOk(dag, s, past, DoLookUp(dag, s, job, x))
  {
    TombsDoneSame(dag, s, past, job, DoLookUp(dag, s, job, x), dag(job.id).tombs[..job.phase.i]);
  }

  lemma DecideOk(dag: Dag, s: State, past: set<(Key, Id)>, job: Job)
    requires JobOk(dag, s, past, job) && job.phase.Scanning? && job.phase.todo == {}
    ensures JobOk(dag, s, past, DoDecide(dag, job))
  {
    var p, ts, job' := job.phase, dag(job.id).tombs, DoDecide(dag, job);
    var i, t := p.i, ts[p.i];
    TombIdsNext(ts, i);
    forall k, x ensures (k, x) in job'.batch.tombs <==> x in TombIds(ts[..i + 1], k) {
      assert x in TombIds(ts[..i + 1], k) <==> x in TombIds(ts[..i], k) || (t.key == k && t.id == x);
    }
    var done := ts[..i + 1];
    forall k ensures TombDone(dag, s, past, job', k, TombIds(done, k)) {
      assert TombDone(dag, s, past, job, k, TombIds(ts[..i], k));
      if k == t.key {
        assert t.id in TombIds(done, k);
      } else {
        assert TombIds(done, k) == TombIds(ts[..i], k);
      }
    }
  }

  // ---- Steps inside putElems ----

  lemma HasKeyNext(es: seq<Element>, i: nat, k: Key)
    requires i < |es|
    ensures HasKey(es[..i + 1], k) <==> HasKey(es[..i], k) || es[i].key == k
  {
    HasKeySnoc(es[..i + 1], k);
    assert es[..i + 1][..i] == es[..i];
  }

  lemma LookTombOk(dag: Dag, s: State, past: set<(Key, Id)>, job: Job)
    requires JobOk(dag, s, past, job) && job.phase.Adding? && job.phase.look.Unread?
    requires job.phase.i < |dag(job.id).elements|
    ensures JobOk(dag, s, past, DoLookTomb(dag, s, job))
  {
    var d, i, job' := dag(job.id), job.phase.i, DoLookTomb(dag, s, job);
    forall k, x ensures (k, x) in job'.batch.elems <==> x == job.id && HasKey(d.elements[..i + 1], k) {
      HasKeyNext(d.elements, i, k);
    }
    forall k ensures ElemDone(d, job'.batch, k) {
      assert ElemDone(d, job.batch, k);
    }
    assert ElemsDone(dag, job', i + 1);
  }

  lemma SkipOk(dag: Dag, s: State, past: set<(Key, Id)>, job: Job)
    requires JobOk(dag, s, past, job) && job.phase.Adding? && !job.phase.look.Unread?
    ensures JobOk(dag, s, past, Skip(job))
  {
    var d, i := dag(job.id), job.phase.i;
    assert ElemsDone(dag, job, i + 1);
    forall k ensures ElemDone(d, Skip(job).batch, k) {
      assert ElemDone(d, job.batch, k);
    }
  }

  lemma TakeOk(dag: Dag, s: State, past: set<(Key, Id)>, job: Job)
    requires JobOk(dag, s, past, job) && job.phase.Adding? && !job.phase.look.Unread?
    ensures var e := dag(job.id).elements[job.phase.i];
      JobOk(dag, s, past, Take(job, e.key, Rank(dag(job.id).priority, e.value)))
  {
    var d, i := dag(job.id), job.phase.i;
    var e := d.elements[i];
    var job' := Take(job, e.key, Rank(d.priority, e.value));
    assert ElemsDone(dag, job, i + 1);
    forall k ensures ElemDone(d, job'.batch, k) {
      assert ElemDone(d, job.batch, k);
      assert d.elements[i] == Element(e.key, e.value);
    }
    assert ElemsDone(dag, job', i + 1);
  }

  lemma LookPriorityOk(dag: Dag, s: State, past: set<(Key, Id)>, job: Job)
    requires JobOk(dag, s, past, job) && job.phase.Adding? && job.phase.look.Alive?
    ensures JobOk(dag, s, past, DoLookPriority(dag, s, job))
  {
    SkipOk(dag, s, past, job);
    TakeOk(dag, s, past, job);
    var d, i := dag(job.id), job.phase.i;
    var job' := job.(phase := Adding(i, Priced(Current(s, d.elements[i].key).priority)));
    assert ElemsDone(dag, job, i + 1);
    forall k ensures ElemDone(d, job'.batch, k) {
      assert ElemDone(d, job.batch, k);
    }
    assert ElemsDone(dag, job', i + 1);
  }

  lemma LookValueOk(dag: Dag, s: State, past: set<(Key, Id)>, job: Job)
    requires JobOk(dag, s, past, job) && job.phase.Adding? && job.phase.look.Priced?
    ensures JobOk(dag, s, past, DoLookValue(dag, s, job))
  {
    SkipOk(dag, s, past, job);
    TakeOk(dag, s, past, job);
  }

  lemma BeginTombsOk(dag: Dag, s: State, past: set<(Key, Id)>, job: Job)
    requires job.batch == NOTHING
    ensures JobOk(dag, s, past, job.(phase := Tombing(0)))
  {
    assert dag(job.id).tombs[..0] == [];
    forall k ensures TombIds([], k) == {} {
      NoTombs(k);
    }
  }

  lemma BeginElemsOk(dag: Dag, s: State, past: set<(Key, Id)>, job: Job)
    requires job.batch == NOTHING
    ensures JobOk(dag, s, past, job.(phase := Adding(0, Unread)))
  {
    assert dag(job.id).elements[..0] == [];
    assert ElemsDone(dag, job.(phase := Adding(0, Unread)), 0);
  }

  lemma AfterReadOk(dag: Dag, s: State, past: set<(Key, Id)>, job: Job, step: Step)
    requires JobOk(dag, s, past, job) && IsRead(step) && CanRead(dag, job, step)
    ensures JobOk(dag, s, past, AfterRead(dag, s, job, step))
  {
    match step
    case BeginTombs(_) => BeginTombsOk(dag, s, past, job);
    case Query(_) => QueryOk(dag, s, past, job);
    case LookUp(_, x) => LookUpOk(dag, s, past, job, x);
    case Decide(_) => DecideOk(dag, s, past, job);
    case BeginElems(_) => BeginElemsOk(dag, s, past, job);
    case LookTomb(_) => LookTombOk(dag, s, past, job);
    case LookPriority(_) => LookPriorityOk(dag, s, past, job);
    case LookValue(_) => LookValueOk(dag, s, past, job);
  }

  // ---- Rows ----

  lemma FromSame(dag: Dag, jobs: seq<Job>, j: nat, job': Job, k: Key, x: Id)
    requires j < |jobs| && job'.id == jobs[j].id
    requires TombsIn(job') == TombsIn(jobs[j]) && job'.phase.Finished? == jobs[j].phase.Finished?
    ensures ElementFrom(dag, jobs[j := job'], k, x) <==> ElementFrom(dag, jobs, k, x)
    ensures TombFrom(dag, jobs[j := job'], k, x) <==> TombFrom(dag, jobs, k, x)
  {
    var jobs' := jobs[j := job'];
    if i :| 0 <= i < |jobs| && jobs[i].phase.Finished? && jobs[i].id == x && HasKey(dag(x).elements, k) {
      assert jobs'[i].phase.Finished? && jobs'[i].id == x;
    }
    if i :| 0 <= i < |jobs'| && jobs'[i].phase.Finished? && jobs'[i].id == x && HasKey(dag(x).elements, k) {
      assert jobs[i].phase.Finished? && jobs[i].id == x;
    }
    if i :| 0 <= i < |jobs| && TombsIn(jobs[i]) && x in TombIds(dag(jobs[i].id).tombs, k) {
      assert TombsIn(jobs'[i]) && jobs'[i].id == jobs[i].id;
    }
    if i :| 0 <= i < |jobs'| && TombsIn(jobs'[i]) && x in TombIds(dag(jobs'[i].id).tombs, k) {
      assert TombsIn(jobs[i]) && jobs[i].id == jobs'[i].id;
    }
  }

  lemma RowsSame(dag: Dag, sys: System, j: nat, job': Job, lock: Option<nat>)
    requires RowsOk(dag, sys) && j < |sys.jobs| && job'.id == sys.jobs[j].id
    requires TombsIn(job') == TombsIn(sys.jobs[j]) && job'.phase.Finished? == sys.jobs[j].phase.Finished?
    ensures RowsOk(dag, sys.(jobs := sys.jobs[j := job'], lock := lock))
  {
    forall k, x
      ensures ElementFrom(dag, sys.jobs[j := job'], k, x) <==> ElementFrom(dag, sys.jobs, k, x)
      ensures TombFrom(dag, sys.jobs[j := job'], k, x) <==> TombFrom(dag, sys.jobs, k, x)
    {
      FromSame(dag, sys.jobs, j, job', k, x);
    }
  }

  lemma JobsSame(dag: Dag, sys: System, s': State, past': set<(Key, Id)>, j: nat, job': Job)
    requires JobsOk(dag, sys.store, sys.pruned, sys.jobs) && Older(sys.store, sys.pruned, s', past')
    requires j < |sys.jobs| && JobOk(dag, s', past', job')
    ensures JobsOk(dag, s', past', sys.jobs[j := job'])
  {
    var jobs' := sys.jobs[j := job'];
    forall i | 0 <= i < |jobs'| ensures JobOk(dag, s', past', jobs'[i]) {
      if i != j {
        assert JobOk(dag, sys.store, sys.pruned, sys.jobs[i]);
        JobGrows(dag, sys.store, sys.pruned, s', past', sys.jobs[i]);
      }
    }
  }

  /** A read changes its job only, and perhaps takes the free mutex. */
  lemma ReadStep(dag: Dag, guarded: bool, sys: System, step: Step)
    requires SysOk(dag, guarded, sys) && IsRead(step) && step.j < |sys.jobs| && CanRead(dag, sys.jobs[step.j], step)
    requires TakesLock(guarded, step) ==> sys.lock.None?
    ensures SysOk(dag, guarded, DoRead(dag, guarded, sys, step))
  {
    var j, job := step.j, sys.jobs[step.j];
    var job' := AfterRead(dag, sys.store, job, step);
    assert JobOk(dag, sys.store, sys.pruned, job);
    AfterReadOk(dag, sys.store, sys.pruned, job, step);
    JobsSame(dag, sys, sys.store, sys.pruned, j, job');
    RoleAfterRead(dag, guarded, sys.store, job, step);
    RowsSame(dag, sys, j, job', if TakesLock(guarded, step) then Some(j) else sys.lock);
  }

  lemma RoleAfterRead(dag: Dag, guarded: bool, s: State, job: Job, step: Step)
    requires IsRead(step) && CanRead(dag, job, step)
    ensures var job' := AfterRead(dag, s, job, step);
      && job'.id == job.id && TombsIn(job') == TombsIn(job) && !job.phase.Finished? && !job'.phase.Finished?
      && Inside(guarded, job') == (Inside(guarded, job) || TakesLock(guarded, step))
      && (TakesLock(guarded, step) ==> !Inside(guarded, job))
  {
  }

  lemma StartStep(dag: Dag, guarded: bool, sys: System, id: Id)
    requires SysOk(dag, guarded, sys)
    ensures SysOk(dag, guarded, Apply(dag, guarded, sys, Start(id)))
  {
    var job := Job(id, Queued, NOTHING, map[]);
    var jobs' := sys.jobs + [job];
    forall i | 0 <= i < |jobs'| ensures JobOk(dag, sys.store, sys.pruned, jobs'[i]) {
      assert i < |sys.jobs| ==> JobOk(dag, sys.store, sys.pruned, sys.jobs[i]);
    }
    forall k, x
      ensures ElementFrom(dag, jobs', k, x) <==> ElementFrom(dag, sys.jobs, k, x)
      ensures TombFrom(dag, jobs', k, x) <==> TombFrom(dag, sys.jobs, k, x)
    {
      FromMore(dag, sys.jobs, job, k, x);
    }
  }

  lemma FromMore(dag: Dag, jobs: seq<Job>, job: Job, k: Key, x: Id)
    requires job.phase.Queued?
    ensures ElementFrom(dag, jobs + [job], k, x) <==> ElementFrom(dag, jobs, k, x)
    ensures TombFrom(dag, jobs + [job], k, x) <==> TombFrom(dag, jobs, k, x)
  {
    var jobs' := jobs + [job];
    if i :| 0 <= i < |jobs| && jobs[i].phase.Finished? && jobs[i].id == x && HasKey(dag(x).elements, k) {
      assert jobs'[i] == jobs[i];
    }
    if i :| 0 <= i < |jobs| && TombsIn(jobs[i]) && x in TombIds(dag(jobs[i].id).tombs, k) {
      assert jobs'[i] == jobs[i];
    }
  }

  // ---- Commits ----

  lemma CommitTombsRows(dag: Dag, sys: System, j: nat, job': Job, k: Key, x: Id)
    requires RowsOk(dag, sys) && j < |sys.jobs| && !TombsIn(sys.jobs[j]) && job'.id == sys.jobs[j].id
    requires job'.phase.Between?
    ensures ElementFrom(dag, sys.jobs[j := job'], k, x) <==> ElementFrom(dag, sys.jobs, k, x)
    ensures TombFrom(dag, sys.jobs[j := job'], k, x) <==>
      TombFrom(dag, sys.jobs, k, x) || x in TombIds(dag(job'.id).tombs, k)
  {
    var jobs, jobs' := sys.jobs, sys.jobs[j := job'];
    if i :| 0 <= i < |jobs| && jobs[i].phase.Finished? && jobs[i].id == x && HasKey(dag(x).elements, k) {
      assert jobs'[i] == jobs[i];
    }
    if i :| 0 <= i < |jobs'| && jobs'[i].phase.Finished? && jobs'[i].id == x && HasKey(dag(x).elements, k) {
      assert jobs'[i] == jobs[i];
    }
    if i :| 0 <= i < |jobs| && TombsIn(jobs[i]) && x in TombIds(dag(jobs[i].id).tombs, k) {
      assert jobs'[i] == jobs[i];
    }
    if i :| 0 <= i < |jobs'| && TombsIn(jobs'[i]) && x in TombIds(dag(jobs'[i].id).tombs, k) {
      assert i != j ==> jobs'[i] == jobs[i];
    }
    assert jobs'[j] == job';
  }

  lemma CommitTombsStep(dag: Dag, guarded: bool, sys: System, j: nat)
    requires SysOk(dag, guarded, sys) && TombsReady(dag, sys, j)
    ensures SysOk(dag, guarded, DoCommitTombs(guarded, sys, j))
  {
    var job, sys' := sys.jobs[j], DoCommitTombs(guarded, sys, j);
    var ts := dag(job.id).tombs;
    assert JobOk(dag, sys.store, sys.pruned, job) && ts[..|ts|] == ts;
    JobsSame(dag, sys, sys'.store, sys.pruned, j, sys'.jobs[j]);
    forall k, x
      ensures ElementFrom(dag, sys'.jobs, k, x) <==> ElementFrom(dag, sys.jobs, k, x)
      ensures (k, x) in sys'.store.tombs || (k, x) in sys'.pruned <==> TombFrom(dag, sys'.jobs, k, x)
    {
      CommitTombsRows(dag, sys, j, sys'.jobs[j], k, x);
    }
  }

  lemma CommitElemsRows(dag: Dag, sys: System, j: nat, job': Job, k: Key, x: Id)
    requires RowsOk(dag, sys) && j < |sys.jobs| && sys.jobs[j].phase.Adding? && job'.id == sys.jobs[j].id
    requires job'.phase.Finished?
    ensures ElementFrom(dag, sys.jobs[j := job'], k, x) <==>
      ElementFrom(dag, sys.jobs, k, x) || (x == job'.id && HasKey(dag(x).elements, k))
    ensures TombFrom(dag, sys.jobs[j := job'], k, x) <==> TombFrom(dag, sys.jobs, k, x)
  {
    var jobs, jobs' := sys.jobs, sys.jobs[j := job'];
    if i :| 0 <= i < |jobs| && jobs[i].phase.Finished? && jobs[i].id == x && HasKey(dag(x).elements, k) {
      assert jobs'[i] == jobs[i];
    }
    if i :| 0 <= i < |jobs'| && jobs'[i].phase.Finished? && jobs'[i].id == x && HasKey(dag(x).elements, k) {
      assert i != j ==> jobs'[i] == jobs[i];
    }
    if i :| 0 <= i < |jobs| && TombsIn(jobs[i]) && x in TombIds(dag(jobs[i].id).tombs, k) {
      assert jobs'[i].id == jobs[i].id && TombsIn(jobs'[i]);
    }
    if i :| 0 <= i < |jobs'| && TombsIn(jobs'[i]) && x in TombIds(dag(jobs'[i].id).tombs, k) {
      assert jobs'[i].id == jobs[i].id && TombsIn(jobs[i]);
    }
    assert jobs'[j] == job';
  }

  lemma CommitElemsStep(dag: Dag, guarded: bool, sys: System, j: nat)
    requires SysOk(dag, guarded, sys) && ElemsReady(dag, sys, j)
    ensures SysOk(dag, guarded, DoCommitElems(sys, j))
  {
    var job, sys' := sys.jobs[j], DoCommitElems(sys, j);
    var es := dag(job.id).elements;
    assert JobOk(dag, sys.store, sys.pruned, job) && es[..|es|] == es;
    JobsSame(dag, sys, sys'.store, sys.pruned, j, sys'.jobs[j]);
    assert sys.lock == Some(j);
    forall k, x
      ensures (k, x) in sys'.store.elems <==> (k, x) in sys.store.elems || (x == job.id && HasKey(dag(x).elements, k))
      ensures ElementFrom(dag, sys'.jobs, k, x) <==>
        ElementFrom(dag, sys.jobs, k, x) || (x == job.id && HasKey(dag(x).elements, k))
      ensures TombFrom(dag, sys'.jobs, k, x) <==> TombFrom(dag, sys.jobs, k, x)
    {
      CommitElemsRows(dag, sys, j, sys'.jobs[j], k, x);
    }
  }

  lemma PruneStep(dag: Dag, guarded: bool, sys: System, rows: set<(Key, Id)>)
    requires SysOk(dag, guarded, sys) && rows <= sys.store.tombs
    ensures SysOk(dag, guarded, sys.(store := Compact(sys.store, rows), pruned := sys.pruned + rows))
  {
    var s', past' := Compact(sys.store, rows), sys.pruned + rows;
    forall i | 0 <= i < |sys.jobs| ensures JobOk(dag, s', past', sys.jobs[i]) {
      assert JobOk(dag, sys.store, sys.pruned, sys.jobs[i]);
      JobGrows(dag, sys.store, sys.pruned, s', past', sys.jobs[i]);
    }
  }

  // ---- All steps ----

  lemma StepOk(dag: Dag, guarded: bool, sys: System, step: Step)
    requires SysOk(dag, guarded, sys)
    ensures SysOk(dag, guarded, Apply(dag, guarded, sys, step))
  {
    if Apply(dag, guarded, sys, step) != sys {
      match step
      case Start(id) => StartStep(dag, guarded, sys, id);
      case CommitTombs(j) => CommitTombsStep(dag, guarded, sys, j);
      case CommitElems(j) => CommitElemsStep(dag, guarded, sys, j);
      case Prune(rows) => PruneStep(dag, guarded, sys, rows);
      case _ => ReadStep(dag, guarded, sys, step);
    }
  }

  /** The rows of the store, the scans of the jobs and the mutex are right in every interleaving. */
  lemma {:induction false} ExecOk(dag: Dag, guarded: bool, steps: seq<Step>)
    ensures SysOk(dag, guarded, Exec(dag, guarded, steps))
  {
    if steps != [] {
      var n := |steps| - 1;
      ExecOk(dag, guarded, steps[..n]);
      StepOk(dag, guarded, Exec(dag, guarded, steps[..n]), steps[n]);
    }
  }
}
