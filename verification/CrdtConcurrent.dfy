/** Merges of the replicated set that overlap. src/internal/protocol/go-ds-crdt/crdt.go runs `Merge` on several
    workers at once, and the mutex of set.go covers `putElems` only: the reads of `putTombs` and its commit are
    apart, and others may commit in between. A merge becomes a job whose reads and commits are single steps. Beside
    the merges src/internal/protocol/tombstone_compactor.go prunes old tombstones at any time. */
module CrdtConcurrent {
  import opened CrdtProofs
  import opened CrdtSet
  import opened Options

  // ---- Batches ----

  /** The pending writes of a job; an entry without a rank deletes the cached value and priority. */
  datatype Batch = Batch(elems: set<(Key, Id)>, tombs: set<(Key, Id)>, entries: map<Key, Option<Rank>>)

  const NOTHING := Batch({}, {}, map[])

  function Stored(entries: map<Key, Option<Rank>>): set<Key> {
    set k | k in entries && entries[k].Some?
  }

  function Commit(s: State, b: Batch): State {
    State(s.elems + b.elems, s.tombs + b.tombs,
          (s.value - b.entries.Keys) + (map k | k in Stored(b.entries) :: b.entries[k].value.value),
          (s.priority - b.entries.Keys) + (map k | k in Stored(b.entries) :: b.entries[k].value.priority))
  }

  lemma CommitAt(s: State, b: Batch, k: Key)
    ensures k !in b.entries ==> SameAt(Commit(s, b), s, k)
    ensures k in b.entries ==>
      if b.entries[k].None? then Absent(Commit(s, b), k) else HoldsAt(Commit(s, b), k, b.entries[k].value)
  {
  }

  /** What `putTombs` writes for the best rank it has found. */
  function EntryFor(best: Rank): Option<Rank> {
    if best.value == [] then None else Some(best)
  }

  // ---- Jobs ----

  /** What `setValue` has read for the element at hand. */
  datatype Look = Unread | Alive | Priced(priority: nat)

  /** Where a merge stands: inside `findBestValue` it has ids still to look up and ids found alive. */
  datatype Phase =
    | Queued
    | Tombing(i: nat)
    | Scanning(i: nat, queried: set<Id>, todo: set<Id>, found: set<Id>)
    | Between
    | Adding(i: nat, look: Look)
    | Finished

  /** The ids of the query of one `findBestValue`, and those it found alive. */
  datatype Scan = Scan(queried: set<Id>, found: set<Id>)

  /** A merge, with the latest scan for every key as history. */
  datatype Job = Job(id: Id, phase: Phase, batch: Batch, scans: map<Key, Scan>)

  /** The store, the merges, the holder of the mutex, and all rows that were ever pruned. */
  datatype System = System(store: State, jobs: seq<Job>, lock: Option<nat>, pruned: set<(Key, Id)>)

  const IDLE := System(EMPTY, [], None, {})

  datatype Step =
    | Start(id: Id)
    | BeginTombs(j: nat)
    | Query(j: nat)
    | LookUp(j: nat, x: Id)
    | Decide(j: nat)
    | CommitTombs(j: nat)
    | BeginElems(j: nat)
    | LookTomb(j: nat)
    | LookPriority(j: nat)
    | LookValue(j: nat)
    | CommitElems(j: nat)
    | Prune(rows: set<(Key, Id)>)

  function WithJob(sys: System, j: nat, job: Job): System
    requires j < |sys.jobs|
  {
    sys.(jobs := sys.jobs[j := job])
  }

  /** The ids that a query for the elements of a key returns. */
  function ElemIds(s: State, k: Key): set<Id> {
    set e | e in s.elems && e.0 == k :: e.1
  }

  /** `findBestValue`: the query, without the ids about to be tombstoned. */
  function DoQuery(dag: Dag, s: State, job: Job): Job
    requires job.phase.Tombing? && job.phase.i < |dag(job.id).tombs|
  {
    var i, ts := job.phase.i, dag(job.id).tombs;
    var ids := ElemIds(s, ts[i].key) - TombIds(ts[..i + 1], ts[i].key);
    job.(phase := Scanning(i, ids, ids, {}))
  }

  /** `findBestValue`: one lookup among the tombstones. */
  function DoLookUp(dag: Dag, s: State, job: Job, x: Id): Job
    requires job.phase.Scanning? && job.phase.i < |dag(job.id).tombs|
  {
    var p := job.phase;
    var found := if (dag(job.id).tombs[p.i].key, x) in s.tombs then p.found else p.found + {x};
    job.(phase := p.(todo := p.todo - {x}, found := found))
  }

  /** `putTombs`: the writes for one tombstone. */
  ghost function DoDecide(dag: Dag, job: Job): Job
    requires job.phase.Scanning? && job.phase.i < |dag(job.id).tombs|
  {
    var p, t := job.phase, dag(job.id).tombs[job.phase.i];
    job.(phase := Tombing(p.i + 1),
         batch := job.batch.(tombs := job.batch.tombs + {(t.key, t.id)},
                             entries := job.batch.entries[t.key := EntryFor(Best(dag, t.key, p.found))]),
         scans := job.scans[t.key := Scan(p.queried, p.found)])
  }

  function Skip(job: Job): Job
    requires job.phase.Adding?
  {
    job.(phase := Adding(job.phase.i + 1, Unread))
  }

  function Take(job: Job, k: Key, r: Rank): Job
    requires job.phase.Adding?
  {
    Skip(job).(batch := job.batch.(entries := job.batch.entries[k := Some(r)]))
  }

  /** `putElems` and `setValue`: the element row, and the lookup among the tombstones. */
  function DoLookTomb(dag: Dag, s: State, job: Job): Job
    requires job.phase.Adding? && job.phase.i < |dag(job.id).elements|
  {
    var k := dag(job.id).elements[job.phase.i].key;
    var job' := job.(batch := job.batch.(elems := job.batch.elems + {(k, job.id)}));
    if (k, job.id) in s.tombs then Skip(job') else job'.(phase := Adding(job.phase.i, Alive))
  }

  /** `setValue`: the cached priority. */
  function DoLookPriority(dag: Dag, s: State, job: Job): Job
    requires job.phase.Adding? && job.phase.i < |dag(job.id).elements|
  {
    var e, prio := dag(job.id).elements[job.phase.i], dag(job.id).priority;
    var cur := Current(s, e.key).priority;
    if prio < cur then Skip(job)
    else if prio > cur then Take(job, e.key, Rank(prio, e.value))
    else job.(phase := Adding(job.phase.i, Priced(cur)))
  }

  /** `setValue`: the cached value, read for equal priorities only. */
  function DoLookValue(dag: Dag, s: State, job: Job): Job
    requires job.phase.Adding? && job.phase.i < |dag(job.id).elements|
  {
    var e, prio := dag(job.id).elements[job.phase.i], dag(job.id).priority;
    if Less(Current(s, e.key).value, e.value) then Take(job, e.key, Rank(prio, e.value)) else Skip(job)
  }

  /** A step by which a job begins a half of its merge or reads something. */
  predicate IsRead(step: Step) {
    !step.Start? && !step.CommitTombs? && !step.CommitElems? && !step.Prune?
  }

  /** The job has come to this step. */
  predicate CanRead(dag: Dag, job: Job, step: Step)
    requires IsRead(step)
  {
    var p, d := job.phase, dag(job.id);
    match step
    case BeginTombs(_) => p.Queued?
    case Query(_) => p.Tombing? && p.i < |d.tombs|
    case LookUp(_, x) => p.Scanning? && p.i < |d.tombs| && x in p.todo
    case Decide(_) => p.Scanning? && p.i < |d.tombs| && p.todo == {}
    case BeginElems(_) => p.Between?
    case LookTomb(_) => p.Adding? && p.look.Unread? && p.i < |d.elements|
    case LookPriority(_) => p.Adding? && p.look.Alive? && p.i < |d.elements|
    case LookValue(_) => p.Adding? && p.look.Priced? && p.i < |d.elements|
  }

  ghost function AfterRead(dag: Dag, s: State, job: Job, step: Step): Job
    requires IsRead(step) && CanRead(dag, job, step)
  {
    match step
    case BeginTombs(_) => job.(phase := Tombing(0))
    case Query(_) => DoQuery(dag, s, job)
    case LookUp(_, x) => DoLookUp(dag, s, job, x)
    case Decide(_) => DoDecide(dag, job)
    case BeginElems(_) => job.(phase := Adding(0, Unread))
    case LookTomb(_) => DoLookTomb(dag, s, job)
    case LookPriority(_) => DoLookPriority(dag, s, job)
    case LookValue(_) => DoLookValue(dag, s, job)
  }

  /** With `guarded`, `putTombs` and the pruning take the mutex as `putElems` does. */
  predicate TakesLock(guarded: bool, step: Step) {
    step.BeginElems? || (guarded && step.BeginTombs?)
  }

  /** One step; a step that is not possible changes nothing. */
  ghost function Apply(dag: Dag, guarded: bool, sys: System, step: Step): System {
    match step
    case Start(id) => sys.(jobs := sys.jobs + [Job(id, Queued, NOTHING, map[])])
    case CommitTombs(j) => if TombsReady(dag, sys, j) then DoCommitTombs(guarded, sys, j) else sys
    case CommitElems(j) => if ElemsReady(dag, sys, j) then DoCommitElems(sys, j) else sys
    case Prune(rows) =>
      if rows <= sys.store.tombs && (guarded ==> sys.lock.None?)
      then sys.(store := Compact(sys.store, rows), pruned := sys.pruned + rows) else sys
    case _ =>
      if step.j < |sys.jobs| && CanRead(dag, sys.jobs[step.j], step) && (TakesLock(guarded, step) ==> sys.lock.None?)
      then DoRead(dag, guarded, sys, step) else sys
  }

  ghost function DoRead(dag: Dag, guarded: bool, sys: System, step: Step): System
    requires IsRead(step) && step.j < |sys.jobs| && CanRead(dag, sys.jobs[step.j], step)
  {
    WithJob(sys, step.j, AfterRead(dag, sys.store, sys.jobs[step.j], step))
      .(lock := if TakesLock(guarded, step) then Some(step.j) else sys.lock)
  }

  predicate TombsReady(dag: Dag, sys: System, j: nat) {
    j < |sys.jobs| && sys.jobs[j].phase == Tombing(|dag(sys.jobs[j].id).tombs|)
  }

  predicate ElemsReady(dag: Dag, sys: System, j: nat) {
    j < |sys.jobs| && sys.jobs[j].phase == Adding(|dag(sys.jobs[j].id).elements|, Unread)
  }

  function DoCommitTombs(guarded: bool, sys: System, j: nat): System
    requires j < |sys.jobs|
  {
    var job := sys.jobs[j];
    System(Commit(sys.store, job.batch), sys.jobs[j := job.(phase := Between, batch := NOTHING)],
           if guarded then None else sys.lock, sys.pruned)
  }

  function DoCommitElems(sys: System, j: nat): System
    requires j < |sys.jobs|
  {
    var job := sys.jobs[j];
    System(Commit(sys.store, job.batch), sys.jobs[j := job.(phase := Finished, batch := NOTHING)], None, sys.pruned)
  }

  ghost function Exec(dag: Dag, guarded: bool, steps: seq<Step>): System {
    if steps == [] then IDLE else Apply(dag, guarded, Exec(dag, guarded, steps[..|steps| - 1]), steps[|steps| - 1])
  }

  // ---- What holds in every interleaving ----

  /** The pending rows of a job are those it has gone through, and its decisions rest on its scans. `past` holds
      the rows pruned so far. */
  ghost predicate JobOk(dag: Dag, s: State, past: set<(Key, Id)>, job: Job) {
    var d := dag(job.id);
    match job.phase
    case Tombing(i) => i <= |d.tombs| && TombsDone(dag, s, past, job, d.tombs[..i])
    case Scanning(i, queried, todo, found) =>
      && i < |d.tombs| && TombsDone(dag, s, past, job, d.tombs[..i])
      && ScanOk(s, past, d.tombs[i].key, TombIds(d.tombs[..i + 1], d.tombs[i].key), queried, todo, found)
    case Adding(i, look) =>
      && i <= |d.elements| && (look.Unread? || i < |d.elements|)
      && job.batch.tombs == {} && ElemsDone(dag, job, if look.Unread? then i else i + 1)
    case _ => job.batch == NOTHING
  }

  ghost predicate TombsDone(dag: Dag, s: State, past: set<(Key, Id)>, job: Job, ts: seq<Tomb>) {
    && job.batch.elems == {}
    && (forall k, x :: (k, x) in job.batch.tombs <==> x in TombIds(ts, k))
    && forall k {:trigger TombDone(dag, s, past, job, k, TombIds(ts, k))} ::
      TombDone(dag, s, past, job, k, TombIds(ts, k))
  }

  /** For a key with tombstones there is an entry, the best of what the latest scan has found. */
  ghost predicate TombDone(dag: Dag, s: State, past: set<(Key, Id)>, job: Job, k: Key, gone: set<Id>) {
    if gone == {} then k !in job.batch.entries
    else
      && k in job.batch.entries && k in job.scans
      && job.batch.entries[k] == EntryFor(Best(dag, k, job.scans[k].found))
      && ScanOk(s, past, k, gone, job.scans[k].queried, {}, job.scans[k].found)
  }

  /** A scan leaves out what is about to be tombstoned. What it has queried and not found is still to be looked up,
      or tombstoned, or was pruned. */
  ghost predicate ScanOk(s: State, past: set<(Key, Id)>, k: Key, gone: set<Id>, queried: set<Id>, todo: set<Id>,
    found: set<Id>) {
    && todo <= queried && found <= queried && queried !! gone
    && forall x :: x in queried ==> x in todo || x in found || (k, x) in s.tombs || (k, x) in past
  }

  ghost predicate ElemsDone(dag: Dag, job: Job, i: nat)
    requires i <= |dag(job.id).elements|
  {
    var d := dag(job.id);
    && (forall k, x :: (k, x) in job.batch.elems <==> x == job.id && HasKey(d.elements[..i], k))
    && forall k {:trigger ElemDone(d, job.batch, k)} :: ElemDone(d, job.batch, k)
  }

  /** A taken value is one of the delta's values for the key. */
  ghost predicate ElemDone(d: Delta, b: Batch, k: Key) {
    k in b.entries ==>
      b.entries[k].Some? && b.entries[k].value.priority == d.priority &&
        HasElement(d.elements, k, b.entries[k].value.value)
  }

  ghost predicate HasElement(es: seq<Element>, k: Key, v: Value) {
    exists i :: 0 <= i < |es| && es[i] == Element(k, v)
  }

  /** The mutex belongs to the job inside `putElems`, or inside `putTombs` when that is guarded. */
  ghost predicate LockOk(guarded: bool, sys: System) {
    && (sys.lock.Some? ==> sys.lock.value < |sys.jobs|)
    && forall j :: 0 <= j < |sys.jobs| ==> (Inside(guarded, sys.jobs[j]) <==> sys.lock == Some(j))
  }

  predicate Inside(guarded: bool, job: Job) {
    job.phase.Adding? || (guarded && (job.phase.Tombing? || job.phase.Scanning?))
  }

  predicate TombsIn(job: Job) {
    job.phase.Between? || job.phase.Adding? || job.phase.Finished?
  }

  /** A finished job has stored an element for the key. */
  ghost predicate ElementFrom(dag: Dag, jobs: seq<Job>, k: Key, x: Id) {
    exists j :: 0 <= j < |jobs| && jobs[j].phase.Finished? && jobs[j].id == x && HasKey(dag(x).elements, k)
  }

  ghost predicate TombFrom(dag: Dag, jobs: seq<Job>, k: Key, x: Id) {
    exists j :: 0 <= j < |jobs| && TombsIn(jobs[j]) && x in TombIds(dag(jobs[j].id).tombs, k)
  }

  /** The rows of the store are those of the commits made so far, but for the pruned ones, which were
      tombstoned. */
  ghost predicate RowsOk(dag: Dag, sys: System) {
    && (forall k, x :: (k, x) in sys.store.elems ==> ElementFrom(dag, sys.jobs, k, x))
    && (forall k, x :: ElementFrom(dag, sys.jobs, k, x) ==> (k, x) in sys.store.elems || (k, x) in sys.pruned)
    && (forall k, x :: (k, x) in sys.store.tombs || (k, x) in sys.pruned <==> TombFrom(dag, sys.jobs, k, x))
  }

  ghost predicate JobsOk(dag: Dag, s: State, past: set<(Key, Id)>, jobs: seq<Job>) {
    forall j {:trigger JobOk(dag, s, past, jobs[j])} :: 0 <= j < |jobs| ==> JobOk(dag, s, past, jobs[j])
  }

  ghost predicate SysOk(dag: Dag, guarded: bool, sys: System) {
    JobsOk(dag, sys.store, sys.pruned, sys.jobs) && LockOk(guarded, sys) && RowsOk(dag, sys)
  }
}
