/** Interleavings of tame deltas that leave a wrong cache, with the code as it is. */
module CrdtRaces {
  import opened CrdtConcurrent
  import opened CrdtConcurrentProofs
  import opened CrdtOverlap
  import opened CrdtProofs
  import opened CrdtSet
  import opened Options

  ghost function ExecFrom(dag: Dag, sys: System, steps: seq<Step>): System
    decreases |steps|
  {
    if steps == [] then sys else ExecFrom(dag, Apply(dag, false, sys, steps[0]), steps[1..])
  }

  lemma {:induction false} ExecConcat(dag: Dag, a: seq<Step>, b: seq<Step>)
    ensures Exec(dag, false, a + b) == ExecFrom(dag, Exec(dag, false, a), b)
    decreases |b|
  {
    if b == [] {
      assert a + b == a;
    } else {
      var a' := a + [b[0]];
      assert a'[..|a|] == a && a'[|a|] == b[0];
      assert a' + b[1..] == a + b;
      ExecConcat(dag, a', b[1..]);
    }
  }

  lemma FromStart(dag: Dag, steps: seq<Step>)
    ensures Exec(dag, false, steps) == ExecFrom(dag, IDLE, steps)
  {
    assert [] + steps == steps;
    ExecConcat(dag, [], steps);
  }

  lemma ExecTwo(dag: Dag, sys: System, a: seq<Step>, b: seq<Step>)
    ensures ExecFrom(dag, sys, a + b) == ExecFrom(dag, ExecFrom(dag, sys, a), b)
    decreases |a|
  {
    if a == [] {
      assert a + b == b;
    } else {
      assert (a + b)[1..] == a[1..] + b;
      ExecTwo(dag, Apply(dag, false, sys, a[0]), a[1..], b);
    }
  }

  lemma ExecCons(dag: Dag, sys: System, step: Step, rest: seq<Step>)
    ensures ExecFrom(dag, sys, [step] + rest) == ExecFrom(dag, Apply(dag, false, sys, step), rest)
  {
    assert ([step] + rest)[1..] == rest;
  }

  // ---- A merge of one element that runs alone ----

  /** A delta with one element and no tombstones. */
  predicate Puts(dag: Dag, id: Id, k: Key, r: Rank) {
    dag(id) == Delta([Element(k, r.value)], [], r.priority)
  }

  function SoloPut(id: Id, j: nat): seq<Step> {
    [Start(id), BeginTombs(j), CommitTombs(j), BeginElems(j), LookTomb(j), LookPriority(j), CommitElems(j)]
  }

  function Done(id: Id): Job {
    Job(id, Finished, NOTHING, map[])
  }

  function WithElement(s: State, k: Key, id: Id, r: Rank): State {
    WithRank(s.(elems := s.elems + {(k, id)}), k, r)
  }

  lemma CommitOne(s: State, k: Key, id: Id, r: Rank)
    ensures Commit(s, Batch({(k, id)}, {}, map[k := Some(r)])) == WithElement(s, k, id, r)
  {
    var b := Batch({(k, id)}, {}, map[]);
    CommitNothing(s);
    CommitEntry(s, b, k, Some(r));
    assert Commit(s, b) == s.(elems := s.elems + {(k, id)});
    assert map[][k := Some(r)] == map[k := Some(r)];
  }

  lemma Begins(dag: Dag, sys: System, id: Id)
    ensures var sys1 := System(sys.store, sys.jobs + [Job(id, Queued, NOTHING, map[])], sys.lock, sys.pruned);
      && Apply(dag, false, sys, Start(id)) == sys1
      && Apply(dag, false, sys1, BeginTombs(|sys.jobs|)) ==
         System(sys.store, sys.jobs + [Job(id, Tombing(0), NOTHING, map[])], sys.lock, sys.pruned)
  {
    LastJob(sys.jobs, Job(id, Queued, NOTHING, map[]), Job(id, Tombing(0), NOTHING, map[]));
  }

  /** A merge without tombstones reaches `putElems`. */
  lemma SoloBegins(dag: Dag, sys: System, id: Id)
    requires sys.lock.None? && dag(id).tombs == []
    ensures var j := |sys.jobs|;
      ExecFrom(dag, sys, [Start(id), BeginTombs(j), CommitTombs(j), BeginElems(j)]) ==
      System(sys.store, sys.jobs + [Adds(id, 0, Unread, NOTHING)], Some(j), sys.pruned)
  {
    var j, s := |sys.jobs|, sys.store;
    var job := Job(id, Tombing(0), NOTHING, map[]);
    var job', job'' := job.(phase := Between), Adds(id, 0, Unread, NOTHING);
    Begins(dag, sys, id);
    CommitNothing(s);
    LastJob(sys.jobs, job, job');
    assert Apply(dag, false, System(s, sys.jobs + [job], None, sys.pruned), CommitTombs(j)) ==
      System(s, sys.jobs + [job'], None, sys.pruned);
    LastJob(sys.jobs, job', job'');
    FourSteps(dag, sys, Start(id), BeginTombs(j), CommitTombs(j), BeginElems(j));
  }

  lemma FourSteps(dag: Dag, sys: System, a: Step, b: Step, c: Step, d: Step)
    ensures ExecFrom(dag, sys, [a, b, c, d]) ==
      Apply(dag, false, Apply(dag, false, Apply(dag, false, Apply(dag, false, sys, a), b), c), d)
  {
    var s1 := Apply(dag, false, sys, a);
    var s2 := Apply(dag, false, s1, b);
    var s3 := Apply(dag, false, s2, c);
    assert [a, b, c, d] == [a] + [b, c, d] && [b, c, d] == [b] + [c, d] && [c, d] == [c] + [d] && [d] == [d] + [];
    ExecCons(dag, sys, a, [b, c, d]);
    ExecCons(dag, s1, b, [c, d]);
    ExecCons(dag, s2, c, [d]);
    ExecCons(dag, s3, d, []);
  }

  lemma ThreeSteps(dag: Dag, sys: System, b: Step, c: Step, d: Step)
    ensures ExecFrom(dag, sys, [b, c, d]) == Apply(dag, false, Apply(dag, false, Apply(dag, false, sys, b), c), d)
  {
    var s1 := Apply(dag, false, sys, b);
    var s2 := Apply(dag, false, s1, c);
    assert [b, c, d] == [b] + [c, d] && [c, d] == [c] + [d] && [d] == [d] + [];
    ExecCons(dag, sys, b, [c, d]);
    ExecCons(dag, s1, c, [d]);
    ExecCons(dag, s2, d, []);
  }

  lemma LastJob(jobs: seq<Job>, job: Job, job': Job)
    ensures (jobs + [job])[|jobs|] == job && (jobs + [job])[|jobs| := job'] == jobs + [job']
  {
  }

  /** A read of the last job. */
  lemma LastStep(dag: Dag, s: State, jobs: seq<Job>, job: Job, lock: Option<nat>, past: set<(Key, Id)>, step: Step,
    job': Job)
    requires IsRead(step) && !step.BeginElems? && step.j == |jobs| && CanRead(dag, job, step)
    requires job' == AfterRead(dag, s, job, step)
    ensures Apply(dag, false, System(s, jobs + [job], lock, past), step) == System(s, jobs + [job'], lock, past)
  {
    LastJob(jobs, job, job');
  }

  function Adds(id: Id, i: nat, look: Look, batch: Batch): Job {
    Job(id, Adding(i, look), batch, map[])
  }

  function RowOnly(k: Key, id: Id): Batch {
    Batch({(k, id)}, {}, map[])
  }

  function Taken(k: Key, id: Id, r: Rank): Batch {
    Batch({(k, id)}, {}, map[k := Some(r)])
  }

  lemma ReadsTomb(dag: Dag, s: State, id: Id, k: Key, r: Rank)
    requires Puts(dag, id, k, r) && (k, id) !in s.tombs
    ensures DoLookTomb(dag, s, Adds(id, 0, Unread, NOTHING)) == Adds(id, 0, Alive, RowOnly(k, id))
  {
    assert {} + {(k, id)} == {(k, id)};
  }

  lemma ReadsPriority(dag: Dag, s: State, id: Id, k: Key, r: Rank)
    requires Puts(dag, id, k, r)
    ensures var cur, job := Current(s, k).priority, DoLookPriority(dag, s, Adds(id, 0, Alive, RowOnly(k, id)));
      && (cur < r.priority ==> job == Adds(id, 1, Unread, Taken(k, id, r)))
      && (cur > r.priority ==> job == Adds(id, 1, Unread, RowOnly(k, id)))
  {
    assert map[][k := Some(r)] == map[k := Some(r)];
  }

  /** The element is looked at, and taken or not. */
  lemma SoloReads(dag: Dag, jobs: seq<Job>, s: State, past: set<(Key, Id)>, id: Id, k: Key, r: Rank, batch: Batch)
    requires Puts(dag, id, k, r) && (k, id) !in s.tombs && Current(s, k).priority != r.priority
    requires batch == if Current(s, k).priority < r.priority then Taken(k, id, r) else RowOnly(k, id)
    ensures var j := |jobs|;
      Apply(dag, false, Apply(dag, false, System(s, jobs + [Adds(id, 0, Unread, NOTHING)], Some(j), past), LookTomb(j)),
        LookPriority(j)) ==
      System(s, jobs + [Adds(id, 1, Unread, batch)], Some(j), past)
  {
    var j := |jobs|;
    ReadsTomb(dag, s, id, k, r);
    ReadsPriority(dag, s, id, k, r);
    LastStep(dag, s, jobs, Adds(id, 0, Unread, NOTHING), Some(j), past, LookTomb(j),
      Adds(id, 0, Alive, RowOnly(k, id)));
    LastStep(dag, s, jobs, Adds(id, 0, Alive, RowOnly(k, id)), Some(j), past, LookPriority(j),
      Adds(id, 1, Unread, batch));
  }

  lemma SoloCommits(dag: Dag, jobs: seq<Job>, s: State, past: set<(Key, Id)>, id: Id, k: Key, r: Rank)
    requires Puts(dag, id, k, r)
    ensures Apply(dag, false, System(s, jobs + [Adds(id, 1, Unread, Taken(k, id, r))], Some(|jobs|), past),
      CommitElems(|jobs|)) ==
      System(WithElement(s, k, id, r), jobs + [Done(id)], None, past)
  {
    CommitOne(s, k, id, r);
    LastJob(jobs, Adds(id, 1, Unread, Taken(k, id, r)), Done(id));
  }

  lemma SoloTakes(dag: Dag, jobs: seq<Job>, s: State, past: set<(Key, Id)>, id: Id, k: Key, r: Rank)
    requires Puts(dag, id, k, r) && (k, id) !in s.tombs && Current(s, k).priority < r.priority
    ensures var j := |jobs|;
      ExecFrom(dag, System(s, jobs + [Adds(id, 0, Unread, NOTHING)], Some(j), past),
        [LookTomb(j), LookPriority(j), CommitElems(j)]) ==
      System(WithElement(s, k, id, r), jobs + [Done(id)], None, past)
  {
    var j := |jobs|;
    SoloReads(dag, jobs, s, past, id, k, r, Taken(k, id, r));
    SoloCommits(dag, jobs, s, past, id, k, r);
    ThreeSteps(dag, System(s, jobs + [Adds(id, 0, Unread, NOTHING)], Some(j), past), LookTomb(j), LookPriority(j),
      CommitElems(j));
  }

  /** Undisturbed, the element is stored and its rank is what a reader finds. */
  lemma SoloPutRuns(dag: Dag, sys: System, id: Id, k: Key, r: Rank)
    requires Puts(dag, id, k, r) && sys.lock.None? && (k, id) !in sys.store.tombs
    requires Current(sys.store, k).priority < r.priority
    ensures ExecFrom(dag, sys, SoloPut(id, |sys.jobs|)) ==
      System(WithElement(sys.store, k, id, r), sys.jobs + [Done(id)], None, sys.pruned)
  {
    var j := |sys.jobs|;
    SoloBegins(dag, sys, id);
    SoloTakes(dag, sys.jobs, sys.store, sys.pruned, id, k, r);
    ExecTwo(dag, sys, [Start(id), BeginTombs(j), CommitTombs(j), BeginElems(j)],
      [LookTomb(j), LookPriority(j), CommitElems(j)]);
    assert SoloPut(id, j) ==
      [Start(id), BeginTombs(j), CommitTombs(j), BeginElems(j)] + [LookTomb(j), LookPriority(j), CommitElems(j)];
  }

  // ---- A scan of putTombs ----

  predicate Removes(dag: Dag, id: Id, k: Key, x: Id) {
    dag(id).elements == [] && dag(id).tombs == [Tomb(k, x)]
  }

  lemma OneId(dag: Dag, k: Key, z: Id)
    ensures Best(dag, k, {z}) == RankOf(dag, k, z)
  {
    BestOfNone(dag, k);
    BestWith(dag, k, {}, z);
    BottomLeast(RankOf(dag, k, z));
    assert {} + {z} == {z};
  }

  /** The job after it has gone through its one tombstone. */
  ghost function Scanned(dag: Dag, t: Id, k: Key, x: Id, ids: set<Id>): Job {
    Job(t, Tombing(1), Batch({}, {(k, x)}, map[k := EntryFor(Best(dag, k, ids))]), map[k := Scan(ids, ids)])
  }

  lemma ScanBegins(dag: Dag, sys: System, t: Id, k: Key, x: Id, ids: set<Id>)
    requires Removes(dag, t, k, x) && ElemIds(sys.store, k) - {x} == ids
    ensures var j := |sys.jobs|;
      ExecFrom(dag, sys, [Start(t), BeginTombs(j), Query(j)]) ==
      System(sys.store, sys.jobs + [Job(t, Scanning(0, ids, ids, {}), NOTHING, map[])], sys.lock, sys.pruned)
  {
    var j := |sys.jobs|;
    var job, job' := Job(t, Tombing(0), NOTHING, map[]), Job(t, Scanning(0, ids, ids, {}), NOTHING, map[]);
    Begins(dag, sys, t);
    QueryOne(dag, sys.store, job, k, x, ids, job');
    LastStep(dag, sys.store, sys.jobs, job, sys.lock, sys.pruned, Query(j), job');
    ThreeSteps(dag, sys, Start(t), BeginTombs(j), Query(j));
  }

  lemma QueryOne(dag: Dag, s: State, job: Job, k: Key, x: Id, ids: set<Id>, job': Job)
    requires Removes(dag, job.id, k, x) && ElemIds(s, k) - {x} == ids && job.phase == Tombing(0)
    requires job' == job.(phase := Scanning(0, ids, ids, {}))
    ensures DoQuery(dag, s, job) == job'
  {
    var ts := dag(job.id).tombs;
    OneTomb(ts, k, x, k);
    assert ts[..1] == ts;
  }

  lemma ScanDecides(dag: Dag, s: State, jobs: seq<Job>, lock: Option<nat>, past: set<(Key, Id)>, t: Id, k: Key, x: Id,
    ids: set<Id>)
    requires Removes(dag, t, k, x)
    ensures Apply(dag, false, System(s, jobs + [Job(t, Scanning(0, ids, {}, ids), NOTHING, map[])], lock, past),
      Decide(|jobs|)) ==
      System(s, jobs + [Scanned(dag, t, k, x, ids)], lock, past)
  {
    var job := Job(t, Scanning(0, ids, {}, ids), NOTHING, map[]);
    assert {} + {(k, x)} == {(k, x)};
    assert DoDecide(dag, job) == Scanned(dag, t, k, x, ids);
    LastStep(dag, s, jobs, job, lock, past, Decide(|jobs|), Scanned(dag, t, k, x, ids));
  }

  function ScanOne(t: Id, j: nat, z: Id): seq<Step> {
    [Start(t), BeginTombs(j), Query(j)] + [LookUp(j, z), Decide(j)]
  }

  /** A scan that finds the one element left, `z`. */
  lemma ScanOneRuns(dag: Dag, sys: System, t: Id, k: Key, x: Id, z: Id)
    requires Removes(dag, t, k, x) && ElemIds(sys.store, k) - {x} == {z} && (k, z) !in sys.store.tombs
    ensures ExecFrom(dag, sys, ScanOne(t, |sys.jobs|, z)) ==
      System(sys.store, sys.jobs + [Scanned(dag, t, k, x, {z})], sys.lock, sys.pruned)
  {
    var j, s := |sys.jobs|, sys.store;
    ScanBegins(dag, sys, t, k, x, {z});
    var job := Job(t, Scanning(0, {z}, {z}, {}), NOTHING, map[]);
    var job' := Job(t, Scanning(0, {z}, {}, {z}), NOTHING, map[]);
    assert {z} - {z} == {} && {} + {z} == {z};
    LastStep(dag, s, sys.jobs, job, sys.lock, sys.pruned, LookUp(j, z), job');
    ScanDecides(dag, s, sys.jobs, sys.lock, sys.pruned, t, k, x, {z});
    var sys1, sys2 := System(s, sys.jobs + [job], sys.lock, sys.pruned),
      System(s, sys.jobs + [job'], sys.lock, sys.pruned);
    assert [LookUp(j, z), Decide(j)] == [LookUp(j, z)] + [Decide(j)] && [Decide(j)] == [Decide(j)] + [];
    ExecCons(dag, sys1, LookUp(j, z), [Decide(j)]);
    ExecCons(dag, sys2, Decide(j), []);
    ExecTwo(dag, sys, [Start(t), BeginTombs(j), Query(j)], [LookUp(j, z), Decide(j)]);
  }

  /** A scan that finds nothing left. */
  lemma ScanNoneRuns(dag: Dag, sys: System, t: Id, k: Key, x: Id)
    requires Removes(dag, t, k, x) && ElemIds(sys.store, k) - {x} == {}
    ensures var j := |sys.jobs|;
      ExecFrom(dag, sys, [Start(t), BeginTombs(j), Query(j)] + [Decide(j)]) ==
      System(sys.store, sys.jobs + [Scanned(dag, t, k, x, {})], sys.lock, sys.pruned)
  {
    var j := |sys.jobs|;
    ScanBegins(dag, sys, t, k, x, {});
    ScanDecides(dag, sys.store, sys.jobs, sys.lock, sys.pruned, t, k, x, {});
    var sys1 := System(sys.store, sys.jobs + [Job(t, Scanning(0, {}, {}, {}), NOTHING, map[])], sys.lock, sys.pruned);
    assert [Decide(j)] == [Decide(j)] + [];
    ExecCons(dag, sys1, Decide(j), []);
    ExecTwo(dag, sys, [Start(t), BeginTombs(j), Query(j)], [Decide(j)]);
  }

  /** The rest of a removal: its commit, and a `putElems` with nothing to put. */
  function Close(j: nat): seq<Step> {
    [CommitTombs(j), BeginElems(j), CommitElems(j)]
  }

  lemma CloseRuns(dag: Dag, sys: System, j: nat, t: Id, k: Key, x: Id, ids: set<Id>)
    requires Removes(dag, t, k, x) && j < |sys.jobs| && sys.jobs[j] == Scanned(dag, t, k, x, ids) && sys.lock.None?
    ensures var sys' := ExecFrom(dag, sys, Close(j));
      && sys'.store == Commit(sys.store, sys.jobs[j].batch) && sys'.lock.None? && sys'.pruned == sys.pruned
      && |sys'.jobs| == |sys.jobs|
      && sys'.jobs[j].phase.Finished? && sys'.jobs[j].id == t
      && forall i :: 0 <= i < |sys.jobs| && i != j ==> sys'.jobs[i] == sys.jobs[i]
  {
    var s' := Commit(sys.store, sys.jobs[j].batch);
    var sys1 := Apply(dag, false, sys, CommitTombs(j));
    assert sys1 == System(s', sys.jobs[j := sys.jobs[j].(phase := Between, batch := NOTHING)], None, sys.pruned);
    var sys2 := Apply(dag, false, sys1, BeginElems(j));
    assert sys2 == System(s', sys1.jobs[j := sys1.jobs[j].(phase := Adding(0, Unread))], Some(j), sys.pruned);
    CommitNothing(s');
    ThreeSteps(dag, sys, CommitTombs(j), BeginElems(j), CommitElems(j));
  }

  // ---- The races ----

  lemma FirstElement(dag: Dag, y: Id, k: Key, r: Rank)
    requires Puts(dag, y, k, r) && r.priority > 0
    ensures ExecFrom(dag, IDLE, SoloPut(y, 0)) == System(WithElement(EMPTY, k, y, r), [Done(y)], None, {})
    ensures ElemIds(WithElement(EMPTY, k, y, r), k) == {y}
  {
    SoloPutRuns(dag, IDLE, y, k, r);
    assert [] + [Done(y)] == [Done(y)];
    var s := WithElement(EMPTY, k, y, r);
    forall z ensures z in ElemIds(s, k) <==> z == y {
      ElemMember(s, k, z);
    }
  }

  lemma PutRank(dag: Dag, id: Id, k: Key, r: Rank)
    requires Puts(dag, id, k, r)
    ensures RankOf(dag, k, id) == r && HasKey(dag(id).elements, k) && (r.value != [] ==> Tame(dag(id)))
  {
    var es := dag(id).elements;
    assert es[0] == Element(k, r.value) && es[..0] == [];
    assert Greatest(es[..0], k) == [];
    LessTotal([], r.value);
    if r.value != [] {
      PlainIsTame(dag(id));
    }
  }

  lemma PlainTame(dag: Dag, t: Id, k: Key, x: Id)
    requires Removes(dag, t, k, x)
    ensures Tame(dag(t))
  {
    PlainIsTame(dag(t));
  }

  /** From the first element on: the removal scans, the newer element is merged, the removal commits. */
  lemma NewerOverlaps(dag: Dag, s: State, y: Id, b: Id, t: Id, x: Id, k: Key, r: Rank)
    requires Puts(dag, b, k, r) && Removes(dag, t, k, x) && x != y && ElemIds(s, k) == {y} && s.tombs == {}
    requires Current(s, k).priority < r.priority
    ensures var sys1 := ExecFrom(dag, System(s, [Done(y)], None, {}), ScanOne(t, 1, y));
      var sys := ExecFrom(dag, ExecFrom(dag, sys1, SoloPut(b, 2)), Close(1));
      && |sys.jobs| == 3 && sys.jobs[0] == Done(y) && sys.jobs[1].phase.Finished? && sys.jobs[1].id == t
      && sys.jobs[2] == Done(b)
      && sys.store == Commit(WithElement(s, k, b, r), Scanned(dag, t, k, x, {y}).batch)
  {
    var scanned := Scanned(dag, t, k, x, {y});
    var sys2 := System(s, [Done(y)] + [scanned], None, {});
    assert {y} - {x} == {y};
    ScanOneRuns(dag, System(s, [Done(y)], None, {}), t, k, x, y);
    SoloPutRuns(dag, sys2, b, k, r);
    CloseRuns(dag, System(WithElement(s, k, b, r), [Done(y)] + [scanned] + [Done(b)], None, {}), 1, t, k, x, {y});
  }

  lemma ThreeJobs(jobs: seq<Job>, a: Id, b: Id, c: Id)
    requires |jobs| == 3 && jobs[0].id == a && jobs[1].id == b && jobs[2].id == c
    requires jobs[0].phase.Finished? && jobs[1].phase.Finished? && jobs[2].phase.Finished?
    ensures AllFinished(jobs) && JobIds(jobs) == [a, b, c]
  {
  }

  lemma NewerRuns(dag: Dag, y: Id, b: Id, t: Id, x: Id, k: Key, r1: Rank, r2: Rank) returns (steps: seq<Step>, s: State)
    requires Puts(dag, y, k, r1) && Puts(dag, b, k, r2) && Removes(dag, t, k, x) && x != y
    requires 0 < r1.priority < r2.priority
    ensures var sys := Exec(dag, false, steps);
      && AllFinished(sys.jobs) && JobIds(sys.jobs) == [y, t, b]
      && sys.store == Commit(s, Scanned(dag, t, k, x, {y}).batch)
    ensures (k, b) in s.elems && s.tombs == {}
  {
    var s1 := WithElement(EMPTY, k, y, r1);
    steps, s := SoloPut(y, 0) + ScanOne(t, 1, y) + SoloPut(b, 2) + Close(1), WithElement(s1, k, b, r2);
    FirstElement(dag, y, k, r1);
    NewerOverlaps(dag, s1, y, b, t, x, k, r2);
    Chain(dag, SoloPut(y, 0), ScanOne(t, 1, y), SoloPut(b, 2), Close(1), System(s1, [Done(y)], None, {}));
    ThreeJobs(Exec(dag, false, steps).jobs, y, t, b);
  }

  /** The value of a newer element is lost: the best value was read before it was committed, and written after. */
  lemma NewerValueLost(dag: Dag, y: Id, b: Id, t: Id, x: Id, k: Key, r1: Rank, r2: Rank) returns (steps: seq<Step>)
    requires Puts(dag, y, k, r1) && Puts(dag, b, k, r2) && Removes(dag, t, k, x) && x != y && x != b
    requires 0 < r1.priority < r2.priority && r1.value != [] && r2.value != []
    ensures var sys := Exec(dag, false, steps);
      && AllFinished(sys.jobs) && JobIds(sys.jobs) == [y, t, b] && AllTame(dag, [y, t, b])
      && Current(sys.store, k) == r1 && b in LiveIds(sys.store, k) && RankOf(dag, k, b) == r2
      && !CacheAt(dag, sys.store, k) && sys.store != Run(dag, [y, t, b])
  {
    var s;
    steps, s := NewerRuns(dag, y, b, t, x, k, r1, r2);
    var store := Exec(dag, false, steps).store;
    PutRank(dag, y, k, r1);
    PutRank(dag, b, k, r2);
    PlainTame(dag, t, k, x);
    OneId(dag, k, y);
    CommitAt(s, Scanned(dag, t, k, x, {y}).batch, k);
    LiveMember(store, k, b);
    WrongCache(dag, store, k, b, r2, [y, t, b]);
  }

  lemma ExecFourParts(dag: Dag, sys: System, a: seq<Step>, b: seq<Step>, c: seq<Step>, d: seq<Step>)
    ensures ExecFrom(dag, sys, a + b + c + d) ==
      ExecFrom(dag, ExecFrom(dag, ExecFrom(dag, ExecFrom(dag, sys, a), b), c), d)
  {
    ExecTwo(dag, sys, a + b + c, d);
    ExecTwo(dag, sys, a + b, c);
    ExecTwo(dag, sys, a, b);
  }

  /** A live element that outranks the entry shows a wrong cache, which no sequential run has. */
  lemma WrongCache(dag: Dag, s: State, k: Key, id: Id, r: Rank, ids: seq<Id>)
    requires id in LiveIds(s, k) && RankOf(dag, k, id) == r && Below(Current(s, k), r) && AllTame(dag, ids)
    ensures !CacheAt(dag, s, k) && s != Run(dag, ids)
  {
    BelowTotal(Current(s, k), r);
    assert !IsBest(dag, k, LiveIds(s, k), Current(s, k));
    RunKeepsInv(dag, ids);
    assert CacheAt(dag, Run(dag, ids), k);
  }

  // ---- A removed value that stays ----

  lemma TwoElements(dag: Dag, y1: Id, y2: Id, k: Key, r1: Rank, r2: Rank)
    requires Puts(dag, y1, k, r1) && Puts(dag, y2, k, r2) && y1 != y2 && 0 < r1.priority < r2.priority
    ensures var s := WithElement(WithElement(EMPTY, k, y1, r1), k, y2, r2);
      && ExecFrom(dag, IDLE, SoloPut(y1, 0) + SoloPut(y2, 1)) == System(s, [Done(y1)] + [Done(y2)], None, {})
      && ElemIds(s, k) == {y1, y2} && s.tombs == {}
  {
    var s1 := WithElement(EMPTY, k, y1, r1);
    var s := WithElement(s1, k, y2, r2);
    FirstElement(dag, y1, k, r1);
    SoloPutRuns(dag, System(s1, [Done(y1)], None, {}), y2, k, r2);
    ExecTwo(dag, IDLE, SoloPut(y1, 0), SoloPut(y2, 1));
    forall z ensures z in ElemIds(s, k) <==> z == y1 || z == y2 {
      ElemMember(s, k, z);
    }
  }

  lemma SecondRemoval(dag: Dag, sys: System, t: Id, k: Key, x: Id, z: Id)
    requires Removes(dag, t, k, x) && ElemIds(sys.store, k) - {x} == {z} && (k, z) !in sys.store.tombs && sys.lock.None?
    ensures var sys' := ExecFrom(dag, sys, ScanOne(t, |sys.jobs|, z) + Close(|sys.jobs|));
      && sys'.store == Commit(sys.store, Scanned(dag, t, k, x, {z}).batch) && sys'.lock.None?
      && sys'.pruned == sys.pruned && |sys'.jobs| == |sys.jobs| + 1
      && sys'.jobs[|sys.jobs|].phase.Finished? && sys'.jobs[|sys.jobs|].id == t
      && forall i :: 0 <= i < |sys.jobs| ==> sys'.jobs[i] == sys.jobs[i]
  {
    var j := |sys.jobs|;
    var sys1 := System(sys.store, sys.jobs + [Scanned(dag, t, k, x, {z})], sys.lock, sys.pruned);
    ScanOneRuns(dag, sys, t, k, x, z);
    CloseRuns(dag, sys1, j, t, k, x, {z});
    ExecTwo(dag, sys, ScanOne(t, j, z), Close(j));
  }

  lemma Chain(dag: Dag, a: seq<Step>, b: seq<Step>, c: seq<Step>, d: seq<Step>, sys: System)
    requires ExecFrom(dag, IDLE, a) == sys
    ensures Exec(dag, false, a + b + c + d) == ExecFrom(dag, ExecFrom(dag, ExecFrom(dag, sys, b), c), d)
  {
    ExecFourParts(dag, IDLE, a, b, c, d);
    FromStart(dag, a + b + c + d);
  }

  lemma FourJobs(jobs: seq<Job>, a: Id, b: Id, c: Id, d: Id)
    requires |jobs| == 4 && jobs[0].id == a && jobs[1].id == b && jobs[2].id == c && jobs[3].id == d
    requires jobs[0].phase.Finished? && jobs[1].phase.Finished? && jobs[2].phase.Finished? && jobs[3].phase.Finished?
    ensures AllFinished(jobs) && JobIds(jobs) == [a, b, c, d]
  {
  }

  /** From two elements on: the first removal scans, the second runs, the first commits. */
  lemma RemovalsOverlap(dag: Dag, s: State, y1: Id, y2: Id, t1: Id, t2: Id, k: Key)
    requires Removes(dag, t1, k, y1) && Removes(dag, t2, k, y2) && y1 != y2 && ElemIds(s, k) == {y1, y2}
    requires s.tombs == {}
    ensures var sys1 := ExecFrom(dag, System(s, [Done(y1)] + [Done(y2)], None, {}), ScanOne(t2, 2, y1));
      var sys := ExecFrom(dag, ExecFrom(dag, sys1, ScanOne(t1, 3, y2) + Close(3)), Close(2));
      && |sys.jobs| == 4 && sys.jobs[0] == Done(y1) && sys.jobs[1] == Done(y2)
      && sys.jobs[2].phase.Finished? && sys.jobs[2].id == t2 && sys.jobs[3].phase.Finished? && sys.jobs[3].id == t1
      && sys.store == Commit(Commit(s, Scanned(dag, t1, k, y1, {y2}).batch), Scanned(dag, t2, k, y2, {y1}).batch)
  {
    var jobs, scanned := [Done(y1)] + [Done(y2)], Scanned(dag, t2, k, y2, {y1});
    assert {y1, y2} - {y2} == {y1} && {y1, y2} - {y1} == {y2};
    ScanOneRuns(dag, System(s, jobs, None, {}), t2, k, y2, y1);
    var sys2 := System(s, jobs + [scanned], None, {});
    SecondRemoval(dag, sys2, t1, k, y1, y2);
    CloseRuns(dag, ExecFrom(dag, sys2, ScanOne(t1, 3, y2) + Close(3)), 2, t2, k, y2, {y1});
  }

  lemma RemovalRuns(dag: Dag, y1: Id, y2: Id, t1: Id, t2: Id, k: Key, r1: Rank, r2: Rank)
    returns (steps: seq<Step>, s: State)
    requires Puts(dag, y1, k, r1) && Puts(dag, y2, k, r2) && Removes(dag, t1, k, y1) && Removes(dag, t2, k, y2)
    requires y1 != y2 && 0 < r1.priority < r2.priority
    ensures var sys := Exec(dag, false, steps);
      && AllFinished(sys.jobs) && JobIds(sys.jobs) == [y1, y2, t2, t1]
      && sys.store == Commit(Commit(s, Scanned(dag, t1, k, y1, {y2}).batch), Scanned(dag, t2, k, y2, {y1}).batch)
    ensures ElemIds(s, k) == {y1, y2}
  {
    s := WithElement(WithElement(EMPTY, k, y1, r1), k, y2, r2);
    steps := (SoloPut(y1, 0) + SoloPut(y2, 1)) + ScanOne(t2, 2, y1) + (ScanOne(t1, 3, y2) + Close(3)) + Close(2);
    TwoElements(dag, y1, y2, k, r1, r2);
    RemovalsOverlap(dag, s, y1, y2, t1, t2, k);
    Chain(dag, SoloPut(y1, 0) + SoloPut(y2, 1), ScanOne(t2, 2, y1), ScanOne(t1, 3, y2) + Close(3),
      Close(2), System(s, [Done(y1)] + [Done(y2)], None, {}));
    FourJobs(Exec(dag, false, steps).jobs, y1, y2, t2, t1);
  }

  lemma BothDead(s: State, b1: Batch, b2: Batch, k: Key, y1: Id, y2: Id)
    requires ElemIds(s, k) == {y1, y2} && b1.elems == {} && b2.elems == {} && (k, y1) in b1.tombs && (k, y2) in b2.tombs
    ensures LiveIds(Commit(Commit(s, b1), b2), k) == {}
  {
    var store := Commit(Commit(s, b1), b2);
    forall x ensures x !in LiveIds(store, k) {
      LiveMember(store, k, x);
      ElemMember(s, k, x);
    }
  }

  /** Two removals, one for each value of a key, leave a removed value in the store. */
  lemma RemovedValueStays(dag: Dag, y1: Id, y2: Id, t1: Id, t2: Id, k: Key, r1: Rank, r2: Rank)
    returns (steps: seq<Step>)
    requires Puts(dag, y1, k, r1) && Puts(dag, y2, k, r2) && Removes(dag, t1, k, y1) && Removes(dag, t2, k, y2)
    requires y1 != y2 && 0 < r1.priority < r2.priority && r1.value != [] && r2.value != []
    ensures var sys := Exec(dag, false, steps);
      && AllFinished(sys.jobs) && JobIds(sys.jobs) == [y1, y2, t2, t1] && AllTame(dag, [y1, y2, t2, t1])
      && LiveIds(sys.store, k) == {} && HoldsAt(sys.store, k, r1) && !CacheAt(dag, sys.store, k)
  {
    var s;
    steps, s := RemovalRuns(dag, y1, y2, t1, t2, k, r1, r2);
    PutRank(dag, y1, k, r1);
    RemovalTame(dag, y1, y2, t2, t1, k, y2, y1, r1, r2);
    RemovalLeaves(dag, s, y1, y2, t1, t2, k);
  }

  lemma RemovalTame(dag: Dag, y1: Id, y2: Id, t1: Id, t2: Id, k: Key, x1: Id, x2: Id, r1: Rank, r2: Rank)
    requires Puts(dag, y1, k, r1) && Puts(dag, y2, k, r2) && Removes(dag, t1, k, x1) && Removes(dag, t2, k, x2)
    requires r1.value != [] && r2.value != []
    ensures AllTame(dag, [y1, y2, t1, t2])
  {
    PutRank(dag, y1, k, r1);
    PutRank(dag, y2, k, r2);
    PlainTame(dag, t1, k, x1);
    PlainTame(dag, t2, k, x2);
  }

  lemma RemovalLeaves(dag: Dag, s: State, y1: Id, y2: Id, t1: Id, t2: Id, k: Key)
    requires ElemIds(s, k) == {y1, y2} && RankOf(dag, k, y1).value != []
    ensures var store := Commit(Commit(s, Scanned(dag, t1, k, y1, {y2}).batch), Scanned(dag, t2, k, y2, {y1}).batch);
      LiveIds(store, k) == {} && HoldsAt(store, k, RankOf(dag, k, y1)) && !CacheAt(dag, store, k)
  {
    var b1, b2 := Scanned(dag, t1, k, y1, {y2}).batch, Scanned(dag, t2, k, y2, {y1}).batch;
    OneId(dag, k, y1);
    CommitAt(Commit(s, b1), b2, k);
    BothDead(s, b1, b2, k, y1, y2);
    BestOfNone(dag, k);
  }

  // ---- A live value that is not shown ----

  lemma OutrankedReads(dag: Dag, sys: System, b: Id, k: Key, r: Rank)
    requires Puts(dag, b, k, r) && sys.lock.None? && (k, b) !in sys.store.tombs
    requires Current(sys.store, k).priority > r.priority
    ensures var j := |sys.jobs|;
      ExecFrom(dag, sys, [Start(b), BeginTombs(j), CommitTombs(j), BeginElems(j)] + [LookTomb(j), LookPriority(j)]) ==
      System(sys.store, sys.jobs + [Adds(b, 1, Unread, RowOnly(k, b))], Some(j), sys.pruned)
  {
    var j := |sys.jobs|;
    var sys1 := System(sys.store, sys.jobs + [Adds(b, 0, Unread, NOTHING)], Some(j), sys.pruned);
    SoloBegins(dag, sys, b);
    SoloReads(dag, sys.jobs, sys.store, sys.pruned, b, k, r, RowOnly(k, b));
    ExecTwo(dag, sys, [Start(b), BeginTombs(j), CommitTombs(j), BeginElems(j)], [LookTomb(j), LookPriority(j)]);
    assert [LookTomb(j), LookPriority(j)] == [LookTomb(j)] + [LookPriority(j)] &&
      [LookPriority(j)] == [LookPriority(j)] + [];
    ExecCons(dag, sys1, LookTomb(j), [LookPriority(j)]);
    ExecCons(dag, Apply(dag, false, sys1, LookTomb(j)), LookPriority(j), []);
  }

  lemma HiddenCommits(dag: Dag, s: State, y: Id, b: Id, t: Id, k: Key, r: Rank, closed: Job)
    requires Puts(dag, b, k, r) && Removes(dag, t, k, y)
    requires closed == Scanned(dag, t, k, y, {}).(phase := Between, batch := NOTHING)
    ensures var sys := System(s, [Done(y), Adds(b, 1, Unread, RowOnly(k, b)), Scanned(dag, t, k, y, {})], Some(1), {});
      Apply(dag, false, Apply(dag, false, sys, CommitTombs(2)), CommitElems(1)) ==
      System(Commit(Commit(s, Scanned(dag, t, k, y, {}).batch), RowOnly(k, b)), [Done(y), Done(b), closed], None, {})
  {
    var job1, job2 := Adds(b, 1, Unread, RowOnly(k, b)), Scanned(dag, t, k, y, {});
    var jobs := [Done(y), job1, job2];
    assert jobs[2 := closed] == [Done(y), job1, closed];
    assert [Done(y), job1, closed][1 := Done(b)] == [Done(y), Done(b), closed];
    assert Apply(dag, false, System(s, jobs, Some(1), {}), CommitTombs(2)) ==
      System(Commit(s, job2.batch), [Done(y), job1, closed], Some(1), {});
  }

  lemma HiddenCloses(dag: Dag, s: State, y: Id, b: Id, t: Id, k: Key, closed: Job)
    requires Removes(dag, t, k, y) && closed.id == t && closed.phase.Between? && closed.batch == NOTHING
    ensures var begun := Apply(dag, false, System(s, [Done(y), Done(b), closed], None, {}), BeginElems(2));
      var sys := Apply(dag, false, begun, CommitElems(2));
      sys.store == s && AllFinished(sys.jobs) && JobIds(sys.jobs) == [y, b, t]
  {
    var sys := System(s, [Done(y), Done(b), closed], None, {});
    assert Apply(dag, false, sys, BeginElems(2)) ==
      System(s, sys.jobs[2 := closed.(phase := Adding(0, Unread))], Some(2), sys.pruned);
    CommitNothing(s);
  }

  /** The end of the race, from the moment both batches are ready. */
  lemma HiddenEnds(dag: Dag, s: State, y: Id, b: Id, t: Id, k: Key, r: Rank)
    requires Puts(dag, b, k, r) && Removes(dag, t, k, y)
    ensures var sys := System(s, [Done(y), Adds(b, 1, Unread, RowOnly(k, b)), Scanned(dag, t, k, y, {})], Some(1), {});
      var sys' := ExecFrom(dag, sys, [CommitTombs(2), CommitElems(1), BeginElems(2), CommitElems(2)]);
      && sys'.store == Commit(Commit(s, Scanned(dag, t, k, y, {}).batch), RowOnly(k, b))
      && AllFinished(sys'.jobs) && JobIds(sys'.jobs) == [y, b, t]
  {
    var job2 := Scanned(dag, t, k, y, {});
    var closed := job2.(phase := Between, batch := NOTHING);
    HiddenCommits(dag, s, y, b, t, k, r, closed);
    HiddenCloses(dag, Commit(Commit(s, job2.batch), RowOnly(k, b)), y, b, t, k, closed);
    FourSteps(dag, System(s, [Done(y), Adds(b, 1, Unread, RowOnly(k, b)), job2], Some(1), {}), CommitTombs(2),
      CommitElems(1), BeginElems(2), CommitElems(2));
  }

  lemma HiddenRuns(dag: Dag, y: Id, b: Id, t: Id, k: Key, r1: Rank, r2: Rank) returns (steps: seq<Step>)
    requires Puts(dag, y, k, r2) && Puts(dag, b, k, r1) && Removes(dag, t, k, y) && 0 < r1.priority < r2.priority
    ensures var sys := Exec(dag, false, steps);
      && AllFinished(sys.jobs) && JobIds(sys.jobs) == [y, b, t]
      && sys.store == Commit(Commit(WithElement(EMPTY, k, y, r2), Scanned(dag, t, k, y, {}).batch), RowOnly(k, b))
  {
    steps := SoloPut(y, 0)
      + ([Start(b), BeginTombs(1), CommitTombs(1), BeginElems(1)] + [LookTomb(1), LookPriority(1)])
      + ([Start(t), BeginTombs(2), Query(2)] + [Decide(2)])
      + [CommitTombs(2), CommitElems(1), BeginElems(2), CommitElems(2)];
    var s := WithElement(EMPTY, k, y, r2);
    var job1, job2 := Adds(b, 1, Unread, RowOnly(k, b)), Scanned(dag, t, k, y, {});
    FirstElement(dag, y, k, r2);
    OutrankedReads(dag, System(s, [Done(y)], None, {}), b, k, r1);
    assert {y} - {y} == {};
    ScanNoneRuns(dag, System(s, [Done(y)] + [job1], Some(1), {}), t, k, y);
    assert [Done(y)] + [job1] + [job2] == [Done(y), job1, job2];
    HiddenEnds(dag, s, y, b, t, k, r1);
    Chain(dag, SoloPut(y, 0),
                  [Start(b), BeginTombs(1), CommitTombs(1), BeginElems(1)] + [LookTomb(1), LookPriority(1)],
                  [Start(t), BeginTombs(2), Query(2)] + [Decide(2)],
                  [CommitTombs(2), CommitElems(1), BeginElems(2), CommitElems(2)], System(s, [Done(y)], None, {}));
  }

  /** An element that lost against a value which is removed before the element is committed is never shown. */
  lemma LiveValueHidden(dag: Dag, y: Id, b: Id, t: Id, k: Key, r1: Rank, r2: Rank) returns (steps: seq<Step>)
    requires Puts(dag, y, k, r2) && Puts(dag, b, k, r1) && Removes(dag, t, k, y) && y != b
    requires 0 < r1.priority < r2.priority && r1.value != [] && r2.value != []
    ensures var sys := Exec(dag, false, steps);
      && AllFinished(sys.jobs) && JobIds(sys.jobs) == [y, b, t] && AllTame(dag, [y, b, t])
      && b in LiveIds(sys.store, k) && RankOf(dag, k, b) == r1 && Absent(sys.store, k)
      && !CacheAt(dag, sys.store, k) && sys.store != Run(dag, [y, b, t])
  {
    var s, batch := WithElement(EMPTY, k, y, r2), Scanned(dag, t, k, y, {}).batch;
    var store := Commit(Commit(s, batch), RowOnly(k, b));
    steps := HiddenRuns(dag, y, b, t, k, r1, r2);
    PutRank(dag, y, k, r2);
    PutRank(dag, b, k, r1);
    PlainTame(dag, t, k, y);
    BestOfNone(dag, k);
    CommitAt(s, batch, k);
    CommitAt(Commit(s, batch), RowOnly(k, b), k);
    LiveMember(store, k, b);
    WrongCache(dag, store, k, b, r1, [y, b, t]);
  }

  // ---- A removed value that a pruning brings back ----

  /** Between the query and the lookup the tombstone is pruned: the lookup takes the dead element for alive. */
  lemma PrunedInScan(dag: Dag, sys: System, t: Id, k: Key, x: Id, z: Id, jobs: seq<Job>)
    requires Removes(dag, t, k, x) && (k, z) in sys.store.tombs
    requires sys.jobs == jobs + [Job(t, Scanning(0, {z}, {z}, {}), NOTHING, map[])]
    ensures ExecFrom(dag, sys, [Prune({(k, z)}), LookUp(|jobs|, z), Decide(|jobs|)]) ==
      System(Compact(sys.store, {(k, z)}), jobs + [Scanned(dag, t, k, x, {z})], sys.lock, sys.pruned + {(k, z)})
  {
    var j, rows := |jobs|, {(k, z)};
    var s, past := Compact(sys.store, rows), sys.pruned + rows;
    var job, job' := Job(t, Scanning(0, {z}, {z}, {}), NOTHING, map[]),
      Job(t, Scanning(0, {z}, {}, {z}), NOTHING, map[]);
    assert {z} - {z} == {} && {} + {z} == {z};
    assert Apply(dag, false, sys, Prune(rows)) == System(s, jobs + [job], sys.lock, past);
    LastStep(dag, s, jobs, job, sys.lock, past, LookUp(j, z), job');
    ScanDecides(dag, s, jobs, sys.lock, past, t, k, x, {z});
    ThreeSteps(dag, sys, Prune(rows), LookUp(j, z), Decide(j));
  }

  /** From the moment the first element is tombstoned. */
  lemma PrunedOverlaps(dag: Dag, sys: System, y1: Id, y2: Id, t: Id, k: Key)
    requires Removes(dag, t, k, y2) && ElemIds(sys.store, k) == {y1, y2} && y1 != y2 && (k, y1) in sys.store.tombs
    requires sys.lock.None?
    ensures var j := |sys.jobs|;
      var mid := ExecFrom(dag, sys, [Start(t), BeginTombs(j), Query(j)]);
      var end := ExecFrom(dag, mid, [Prune({(k, y1)}), LookUp(j, y1), Decide(j)] + Close(j));
      && end.store == Commit(Compact(sys.store, {(k, y1)}), Scanned(dag, t, k, y2, {y1}).batch) && |end.jobs| == j + 1
      && end.jobs[j].phase.Finished? && end.jobs[j].id == t && forall i :: 0 <= i < j ==> end.jobs[i] == sys.jobs[i]
  {
    var j := |sys.jobs|;
    assert {y1, y2} - {y2} == {y1};
    ScanBegins(dag, sys, t, k, y2, {y1});
    var mid := ExecFrom(dag, sys, [Start(t), BeginTombs(j), Query(j)]);
    PrunedInScan(dag, mid, t, k, y2, y1, sys.jobs);
    var c := ExecFrom(dag, mid, [Prune({(k, y1)}), LookUp(j, y1), Decide(j)]);
    CloseRuns(dag, c, j, t, k, y2, {y1});
    ExecTwo(dag, mid, [Prune({(k, y1)}), LookUp(j, y1), Decide(j)], Close(j));
  }

  lemma PrunedRuns(dag: Dag, y1: Id, y2: Id, t1: Id, t2: Id, k: Key, r1: Rank, r2: Rank)
    returns (steps: seq<Step>, s: State)
    requires Puts(dag, y1, k, r1) && Puts(dag, y2, k, r2) && Removes(dag, t1, k, y1) && Removes(dag, t2, k, y2)
    requires y1 != y2 && 0 < r1.priority < r2.priority
    ensures var sys := Exec(dag, false, steps);
      && AllFinished(sys.jobs) && JobIds(sys.jobs) == [y1, y2, t1, t2]
      && sys.store == Commit(Compact(s, {(k, y1)}), Scanned(dag, t2, k, y2, {y1}).batch)
    ensures ElemIds(s, k) == {y1, y2}
  {
    var s0 := WithElement(WithElement(EMPTY, k, y1, r1), k, y2, r2);
    var sys0 := System(s0, [Done(y1)] + [Done(y2)], None, {});
    TwoElements(dag, y1, y2, k, r1, r2);
    assert {y1, y2} - {y1} == {y2};
    SecondRemoval(dag, sys0, t1, k, y1, y2);
    var sys1 := ExecFrom(dag, sys0, ScanOne(t1, 2, y2) + Close(2));
    s := sys1.store;
    SameElemIds(s0, Scanned(dag, t1, k, y1, {y2}).batch, k);
    PrunedOverlaps(dag, sys1, y1, y2, t2, k);
    steps := (SoloPut(y1, 0) + SoloPut(y2, 1)) + (ScanOne(t1, 2, y2) + Close(2)) + [Start(t2), BeginTombs(3), Query(3)]
      + ([Prune({(k, y1)}), LookUp(3, y1), Decide(3)] + Close(3));
    Chain(dag, SoloPut(y1, 0) + SoloPut(y2, 1), ScanOne(t1, 2, y2) + Close(2), [Start(t2), BeginTombs(3), Query(3)],
          [Prune({(k, y1)}), LookUp(3, y1), Decide(3)] + Close(3), sys0);
    FourJobs(Exec(dag, false, steps).jobs, y1, y2, t1, t2);
  }

  lemma SameElemIds(s: State, b: Batch, k: Key)
    requires b.elems == {}
    ensures ElemIds(Commit(s, b), k) == ElemIds(s, k)
  {
    forall x ensures x in ElemIds(Commit(s, b), k) <==> x in ElemIds(s, k) {
      ElemMember(s, k, x);
      ElemMember(Commit(s, b), k, x);
    }
  }

  lemma PrunedLeaves(dag: Dag, s: State, y1: Id, y2: Id, t2: Id, k: Key)
    requires ElemIds(s, k) == {y1, y2} && RankOf(dag, k, y1).value != []
    ensures var store := Commit(Compact(s, {(k, y1)}), Scanned(dag, t2, k, y2, {y1}).batch);
      LiveIds(store, k) == {} && HoldsAt(store, k, RankOf(dag, k, y1)) && !CacheAt(dag, store, k)
  {
    var c, b := Compact(s, {(k, y1)}), Scanned(dag, t2, k, y2, {y1}).batch;
    var store := Commit(c, b);
    OneId(dag, k, y1);
    CommitAt(c, b, k);
    forall x ensures x !in LiveIds(store, k) {
      LiveMember(store, k, x);
      ElemMember(s, k, x);
    }
    BestOfNone(dag, k);
  }

  /** All elements of a key are removed, and yet the oldest value is read again: its tombstone was pruned inside the
      scan of the last removal. Merged one after the other, the same deltas leave nothing. */
  lemma PrunedValueReturns(dag: Dag, y1: Id, y2: Id, t1: Id, t2: Id, k: Key, r1: Rank, r2: Rank)
    returns (steps: seq<Step>)
    requires Puts(dag, y1, k, r1) && Puts(dag, y2, k, r2) && Removes(dag, t1, k, y1) && Removes(dag, t2, k, y2)
    requires y1 != y2 && 0 < r1.priority < r2.priority && r1.value != [] && r2.value != []
    ensures var sys := Exec(dag, false, steps);
      && AllFinished(sys.jobs) && JobIds(sys.jobs) == [y1, y2, t1, t2] && AllTame(dag, [y1, y2, t1, t2])
      && LiveIds(sys.store, k) == {} && HoldsAt(sys.store, k, r1) && !CacheAt(dag, sys.store, k)
      && Absent(Run(dag, [y1, y2, t1, t2]), k)
  {
    var s;
    steps, s := PrunedRuns(dag, y1, y2, t1, t2, k, r1, r2);
    PutRank(dag, y1, k, r1);
    RemovalTame(dag, y1, y2, t1, t2, k, y1, y2, r1, r2);
    PrunedLeaves(dag, s, y1, y2, t2, k);
    NothingLeft(dag, steps, [y1, y2, t1, t2], k);
  }

  lemma NothingLeft(dag: Dag, steps: seq<Step>, ids: seq<Id>, k: Key)
    requires AllFinished(Exec(dag, false, steps).jobs) && JobIds(Exec(dag, false, steps).jobs) == ids
    requires AllTame(dag, ids)
    requires LiveIds(Exec(dag, false, steps).store, k) == {}
    ensures Absent(Run(dag, ids), k)
  {
    var sys := Exec(dag, false, steps);
    FinishedRows(dag, false, steps);
    FinishedLive(sys.store, sys.pruned, Run(dag, ids), k);
    assert LiveIds(Run(dag, ids), k) == {};
    RunKeepsInv(dag, ids);
    assert CacheAt(dag, Run(dag, ids), k);
    BestOfNone(dag, k);
  }
}
