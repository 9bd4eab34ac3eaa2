/** Where the clock offsets of the published results come from, and what the sightings of a record were taken from:
    both are followed through every run back to the steps that measured them. */
module ConvergenceClocks {
  import opened Convergence
  import opened ConvergenceProofs
  import opened ConvergenceSafety
  import opened Options

  /** The offsets that the tasks have measured, by task. */
  datatype Clocks = Clocks(start: map<nat, int>, end: map<nat, int>)

  /** A step that measures an offset. */
  function Measured(c: Config, s: State, step: Step, cl: Clocks): Clocks
    requires |s.tasks| == c.n
  {
    match step
    case SendStart(i, o) =>
      if 0 < i < c.n && s.tasks[i].phase == Greeted then cl.(start := cl.start[i := o]) else cl
    case Ready(o, _) =>
      if s.pc == Accepting && |s.db.observers| >= c.n - 1 then cl.(start := cl.start[0 := o]) else cl
    case Finish(i, o) => if 0 < i < c.n && s.tasks[i].phase == Stopped then cl.(end := cl.end[i := o]) else cl
    case StopAll(o) => if s.pc == Writing(|c.writers|) then cl.(end := cl.end[0 := o]) else cl
    case _ => cl
  }

  /** All measurements of a run. */
  function Readings(c: Config, steps: seq<Step>): Clocks
    requires ValidConfig(c)
  {
    if steps == [] then Clocks(map[], map[])
    else
      var n := |steps| - 1;
      Measured(c, Exec(c, steps[..n]), steps[n], Readings(c, steps[..n]))
  }

  /** The offset was measured by a task on this host. */
  ghost predicate ReadOn(c: Config, readings: map<nat, int>, host: string, o: int) {
    exists i :: 0 <= i < |c.hosts| && c.hosts[i] == host && i in readings && readings[i] == o
  }

  ghost predicate AllReadOn(c: Config, readings: map<nat, int>, offsets: map<string, int>) {
    forall h :: h in offsets ==> ReadOn(c, readings, h, offsets[h])
  }

  /** A task sends what it has measured, and measures each offset once. */
  ghost predicate SendsReadings(cl: Clocks, i: nat, t: Task) {
    && (forall a :: 0 <= a < |t.sent| && t.sent[a].ChronyStart? ==> i in cl.start && cl.start[i] == t.sent[a].offsetNs)
    && (forall a :: 0 <= a < |t.sent| && t.sent[a].ChronyEnd? ==> i in cl.end && cl.end[i] == t.sent[a].offsetNs)
    && (t.phase.Idle? || t.phase.Greeted? ==> i !in cl.start)
    && (!t.phase.Ended? ==> i !in cl.end)
  }

  ghost predicate AllSend(cl: Clocks, tasks: seq<Task>) {
    forall i {:trigger SendsReadings(cl, i, tasks[i])} :: 0 < i < |tasks| ==> SendsReadings(cl, i, tasks[i])
  }

  ghost predicate OwnReadings(cl: Clocks, pc: Pc) {
    (pc.Accepting? ==> 0 !in cl.start) && (!pc.Draining? && !pc.Done? ==> 0 !in cl.end)
  }

  ghost predicate ClockInv(c: Config, cl: Clocks, s: State)
    requires |s.tasks| == c.n
  {
    && AllSend(cl, s.tasks) && OwnReadings(cl, s.pc)
    && AllReadOn(c, cl.start, s.db.chronyStart) && AllReadOn(c, cl.end, s.db.chronyEnd)
    && (s.pc.Done? ==> AllReadOn(c, cl.start, s.pc.results.start) && AllReadOn(c, cl.end, s.pc.results.end))
  }

  // ---- Steps ----

  lemma ReadOnMore(c: Config, readings: map<nat, int>, offsets: map<string, int>, i: nat, o: int)
    requires AllReadOn(c, readings, offsets) && i !in readings
    ensures AllReadOn(c, readings[i := o], offsets)
  {
    forall h | h in offsets ensures ReadOn(c, readings[i := o], h, offsets[h]) {
      var j :| 0 <= j < |c.hosts| && c.hosts[j] == h && j in readings && readings[j] == offsets[h];
      assert j != i;
    }
  }

  lemma ReadOnOwn(c: Config, readings: map<nat, int>, offsets: map<string, int>, i: nat)
    requires AllReadOn(c, readings, offsets) && i < |c.hosts| && i in readings
    ensures AllReadOn(c, readings, offsets[c.hosts[i] := readings[i]])
  {
  }

  /** One task sends or does something, and nothing else changes. */
  lemma TaskClock(c: Config, cl: Clocks, s: State, i: nat, t: Task)
    requires |s.tasks| == c.n && ClockInv(c, cl, s) && i < c.n && (i > 0 ==> SendsReadings(cl, i, t))
    ensures ClockInv(c, cl, WithTask(s, i, t))
  {
    ReplaceSends(cl, s.tasks, i, t);
  }

  lemma ReplaceSends(cl: Clocks, tasks: seq<Task>, i: nat, t: Task)
    requires i < |tasks| && (i > 0 ==> SendsReadings(cl, i, t))
    requires forall j {:trigger SendsReadings(cl, j, tasks[j])} :: 0 < j < |tasks| && j != i ==>
      SendsReadings(cl, j, tasks[j])
    ensures AllSend(cl, tasks[i := t])
  {
    var tasks' := tasks[i := t];
    forall j | 0 < j < |tasks'| ensures SendsReadings(cl, j, tasks'[j]) {
      assert j != i ==> SendsReadings(cl, j, tasks[j]);
    }
  }

  lemma OthersSend(cl: Clocks, cl': Clocks, tasks: seq<Task>, i: nat)
    requires cl'.start - {i} == cl.start - {i} && cl'.end - {i} == cl.end - {i} && AllSend(cl, tasks)
    ensures forall j {:trigger SendsReadings(cl', j, tasks[j])} :: 0 < j < |tasks| && j != i ==>
      SendsReadings(cl', j, tasks[j])
  {
    forall j | 0 < j < |tasks| && j != i ensures SendsReadings(cl', j, tasks[j]) {
      assert SendsReadings(cl, j, tasks[j]);
      assert j in cl.start <==> j in cl'.start - {i};
      assert j in cl.end <==> j in cl'.end - {i};
      assert j in cl.start ==> (cl.start - {i})[j] == cl.start[j] && (cl'.start - {i})[j] == cl'.start[j];
      assert j in cl.end ==> (cl.end - {i})[j] == cl.end[j] && (cl'.end - {i})[j] == cl'.end[j];
    }
  }

  lemma SendStartClock(c: Config, cl: Clocks, s: State, i: nat, o: int)
    requires ValidConfig(c) && |s.tasks| == c.n && ClockInv(c, cl, s) && 0 < i < c.n && s.tasks[i].phase == Greeted
    ensures ClockInv(c, cl.(start := cl.start[i := o]), Apply(c, s, SendStart(i, o)))
  {
    var cl' := cl.(start := cl.start[i := o]);
    var t := s.tasks[i];
    var t' := t.(phase := Running, sent := t.sent + [ChronyStart(o)]);
    assert SendsReadings(cl, i, t);
    OthersSend(cl, cl', s.tasks, i);
    ReadOnMore(c, cl.start, s.db.chronyStart, i, o);
    if s.pc.Done? {
      ReadOnMore(c, cl.start, s.pc.results.start, i, o);
    }
    assert SendsReadings(cl', i, t');
    ReplaceSends(cl', s.tasks, i, t');
  }

  lemma FinishClock(c: Config, cl: Clocks, s: State, i: nat, o: int)
    requires ValidConfig(c) && |s.tasks| == c.n && ClockInv(c, cl, s) && 0 < i < c.n && s.tasks[i].phase == Stopped
    ensures ClockInv(c, cl.(end := cl.end[i := o]), Apply(c, s, Finish(i, o)))
  {
    var cl' := cl.(end := cl.end[i := o]);
    var t := s.tasks[i];
    var t' := t.(phase := Ended, sent := t.sent + [ChronyEnd(o), Bye]);
    assert SendsReadings(cl, i, t);
    OthersSend(cl, cl', s.tasks, i);
    ReadOnMore(c, cl.end, s.db.chronyEnd, i, o);
    if s.pc.Done? {
      ReadOnMore(c, cl.end, s.pc.results.end, i, o);
    }
    assert SendsReadings(cl', i, t');
    ReplaceSends(cl', s.tasks, i, t');
  }

  lemma ReadyClock(c: Config, cl: Clocks, s: State, o: int, outcome: Option<int>)
    requires ValidConfig(c) && |s.tasks| == c.n && ClockInv(c, cl, s) && s.pc == Accepting
    ensures ClockInv(c, cl.(start := cl.start[0 := o]), DoReady(c, s, o, outcome))
  {
    var cl' := cl.(start := cl.start[0 := o]);
    var s' := DoReady(c, s, o, outcome);
    OthersSend(cl, cl', s.tasks, 0);
    ReplaceSends(cl', s.tasks, 0, s'.tasks[0]);
    assert s'.tasks == s.tasks[0 := s'.tasks[0]];
    ReadOnMore(c, cl.start, s.db.chronyStart, 0, o);
    ReadOnOwn(c, cl'.start, s.db.chronyStart, 0);
  }

  lemma StopSends(cl: Clocks, tasks: seq<Task>, observers: map<nat, string>)
    requires AllSend(cl, tasks)
    ensures AllSend(cl, StopEveryone(tasks, observers))
  {
    var tasks' := StopEveryone(tasks, observers);
    forall j | 0 < j < |tasks'| ensures SendsReadings(cl, j, tasks'[j]) {
      assert SendsReadings(cl, j, tasks[j]);
    }
  }

  lemma StopClock(c: Config, cl: Clocks, s: State, o: int)
    requires ValidConfig(c) && |s.tasks| == c.n && ClockInv(c, cl, s) && s.pc == Writing(|c.writers|)
    ensures ClockInv(c, cl.(end := cl.end[0 := o]), DoStop(c, s, o))
  {
    var cl' := cl.(end := cl.end[0 := o]);
    OthersSend(cl, cl', s.tasks, 0);
    StopSends(cl', s.tasks, s.db.observers);
    ReadOnMore(c, cl.end, s.db.chronyEnd, 0, o);
    ReadOnOwn(c, cl'.end, s.db.chronyEnd, 0);
  }

  lemma HandledClock(c: Config, cl: Clocks, db: Db, i: nat, t: Task)
    requires i < |c.hosts| && SendsReadings(cl, i, t) && t.read < |t.sent|
    requires AllReadOn(c, cl.start, db.chronyStart) && AllReadOn(c, cl.end, db.chronyEnd)
    ensures var db' := Handled(db, i, c.hosts[i], t.sent[t.read]);
      AllReadOn(c, cl.start, db'.chronyStart) && AllReadOn(c, cl.end, db'.chronyEnd)
  {
    if t.sent[t.read].ChronyStart? {
      ReadOnOwn(c, cl.start, db.chronyStart, i);
    } else if t.sent[t.read].ChronyEnd? {
      ReadOnOwn(c, cl.end, db.chronyEnd, i);
    }
  }

  lemma DrainClock(c: Config, cl: Clocks, s: State, i: nat)
    requires |s.tasks| == c.n == |c.hosts| && ClockInv(c, cl, s) && 0 < i < c.n && i in s.db.observers
    requires s.tasks[i].read < |s.tasks[i].sent| && s.db.observers[i] == c.hosts[i]
    ensures ClockInv(c, cl, DoDrain(s, i))
  {
    var t := s.tasks[i];
    assert SendsReadings(cl, i, t);
    ReplaceSends(cl, s.tasks, i, t.(read := t.read + 1));
    HandledClock(c, cl, s.db, i, t);
  }

  /** A step of a task that measures nothing. */
  lemma QuietTask(c: Config, cl: Clocks, s: State, step: Step)
    requires ValidConfig(c) && |s.tasks| == c.n && ClockInv(c, cl, s) && Apply(c, s, step) != s
    requires step.Greet? || step.PollTable? || step.Obey? || step.Accept? || step.Enter?
    ensures ClockInv(c, cl, Apply(c, s, step))
  {
    var s' := Apply(c, s, step);
    var i := if step.Enter? then 0 else step.i;
    assert i > 0 ==> SendsReadings(cl, i, s.tasks[i]);
    ReplaceSends(cl, s.tasks, i, s'.tasks[i]);
    assert s'.tasks == s.tasks[i := s'.tasks[i]];
  }

  lemma BeginClock(c: Config, cl: Clocks, s: State, k: nat, outcome: Option<int>)
    requires ValidConfig(c) && |s.tasks| == c.n && ClockInv(c, cl, s) && s.pc == Writing(k) && k < |c.writers|
    ensures ClockInv(c, cl, DoBeginWrite(c, s, k, outcome))
  {
    var s' := DoBeginWrite(c, s, k, outcome);
    var w := c.writers[k];
    assert w > 0 ==> SendsReadings(cl, w, s.tasks[w]);
    ReplaceSends(cl, s.tasks, w, s'.tasks[w]);
    assert s'.tasks == s.tasks[w := s'.tasks[w]];
  }

  /** A step of the coordinator that measures nothing. */
  lemma QuietMain(c: Config, cl: Clocks, s: State, step: Step)
    requires ValidConfig(c) && |s.tasks| == c.n && ClockInv(c, cl, s) && Apply(c, s, step) != s
    requires step.GiveUp? || step.Stabilize? || step.Ack? || step.NoAck? || step.Collect? || step.Publish?
    ensures ClockInv(c, cl, Apply(c, s, step))
  {
    assert Apply(c, s, step).tasks == s.tasks;
  }

  lemma StepClock(c: Config, cl: Clocks, s: State, step: Step)
    requires Inv(c, s) && ClockInv(c, cl, s)
    ensures ClockInv(c, Measured(c, s, step, cl), Apply(c, s, step))
  {
    match step
    case SendStart(i, o) =>
      if 0 < i < c.n && s.tasks[i].phase == Greeted {
        SendStartClock(c, cl, s, i, o);
      }
    case Finish(i, o) =>
      if 0 < i < c.n && s.tasks[i].phase == Stopped {
        FinishClock(c, cl, s, i, o);
      }
    case Ready(o, outcome) =>
      if s.pc == Accepting && |s.db.observers| >= c.n - 1 {
        ReadyClock(c, cl, s, o, outcome);
      }
    case StopAll(o) =>
      if s.pc == Writing(|c.writers|) {
        StopClock(c, cl, s, o);
      }
    case DrainOne(i) =>
      if 0 < i < c.n && i in s.db.observers && s.tasks[i].read < |s.tasks[i].sent| {
        TaskOf(c, s, i);
        DrainClock(c, cl, s, i);
      }
    case _ => QuietClock(c, cl, s, step);
  }

  lemma QuietClock(c: Config, cl: Clocks, s: State, step: Step)
    requires ValidConfig(c) && |s.tasks| == c.n && ClockInv(c, cl, s)
    requires !step.SendStart? && !step.Finish? && !step.Ready? && !step.StopAll? && !step.DrainOne?
    ensures ClockInv(c, cl, Apply(c, s, step))
  {
    if Apply(c, s, step) != s {
      if step.Greet? || step.PollTable? || step.Obey? || step.Accept? || step.Enter? {
        QuietTask(c, cl, s, step);
      } else if step.BeginWrite? {
        BeginClock(c, cl, s, s.pc.k, step.outcome);
      } else {
        QuietMain(c, cl, s, step);
      }
    }
  }

  lemma {:induction false} ExecClock(c: Config, steps: seq<Step>)
    requires ValidConfig(c)
    ensures ClockInv(c, Readings(c, steps), Exec(c, steps))
  {
    if steps == [] {
      var s := Init(c);
      forall i | 0 < i < c.n ensures SendsReadings(Readings(c, steps), i, s.tasks[i]) {
        assert s.tasks[i] == IDLE_TASK;
      }
    } else {
      var n := |steps| - 1;
      ExecClock(c, steps[..n]);
      ExecInv(c, steps[..n]);
      StepClock(c, Readings(c, steps[..n]), Exec(c, steps[..n]), steps[n]);
    }
  }

  // ---- What this means ----

  /** Over every run, each offset in the coordinator's tables was measured by a task on that host, and so was each
      offset that is published. */
  lemma OffsetsAreReadings(c: Config, steps: seq<Step>)
    requires ValidConfig(c)
    ensures var s, cl := Exec(c, steps), Readings(c, steps);
      && AllReadOn(c, cl.start, s.db.chronyStart) && AllReadOn(c, cl.end, s.db.chronyEnd)
      && (s.pc.Done? ==> AllReadOn(c, cl.start, s.pc.results.start) && AllReadOn(c, cl.end, s.pc.results.end))
  {
    ExecClock(c, steps);
  }

  ghost predicate DistinctHosts(c: Config) {
    forall i, j :: 0 <= i < j < |c.hosts| ==> c.hosts[i] != c.hosts[j]
  }

  /** With one task per host, a published offset is the one which the task of that host has measured. */
  lemma OwnOffset(c: Config, readings: map<nat, int>, offsets: map<string, int>, i: nat)
    requires DistinctHosts(c) && AllReadOn(c, readings, offsets) && i < |c.hosts| && c.hosts[i] in offsets
    ensures i in readings && offsets[c.hosts[i]] == readings[i]
  {
    assert ReadOn(c, readings, c.hosts[i], offsets[c.hosts[i]]);
  }

  // ---- Sightings of a record ----

  /** The record of round `k` as it is made from the table: a time for everyone whose sighting is there, and TIMEOUT
      only for those without one. */
  ghost predicate CollectedFrom(c: Config, db: Db, r: Record) {
    && (forall o: nat :: o in r.seen <==> (o < c.n && o != r.writer) || SeenAt(db, r.name, o).Some?)
    && forall o :: o in r.seen ==>
      r.seen[o] == if SeenAt(db, r.name, o).Some? then At(SeenAt(db, r.name, o).value) else TimedOut
  }

  ghost predicate CollectedAt(c: Config, steps: seq<Step>, n: nat, k: nat, r: Record)
    requires ValidConfig(c) && n < |steps|
  {
    var s := Exec(c, steps[..n]);
    steps[n] == Collect && s.pc.AwaitSeen? && s.pc.k == k && r.tWrite == Some(s.pc.tWrite) && CollectedFrom(c, s.db, r)
  }

  lemma CollectedExactly(c: Config, db: Db, r: Record)
    requires r.seen == Collected(c, db, r.writer, r.name)
    ensures CollectedFrom(c, db, r)
  {
    forall o: nat ensures o in r.seen <==> (o < c.n && o != r.writer) || SeenAt(db, r.name, o).Some? {
      assert o in Others(c, r.writer) <==> o < c.n && o != r.writer;
    }
  }

  lemma CollectNow(c: Config, s: State) returns (r: Record)
    requires ValidConfig(c) && |s.tasks| == c.n && s.pc.AwaitSeen? && s.pc.k < |c.writers|
    ensures Apply(c, s, Collect).records == s.records + [r]
    ensures r.tWrite == Some(s.pc.tWrite) && CollectedFrom(c, s.db, r)
  {
    var k := s.pc.k;
    var w, name := c.writers[k], WriteName(c, k);
    r := Record(k, w, name, Some(s.pc.tWrite), Collected(c, s.db, w, name));
    CollectedExactly(c, s.db, r);
  }

  lemma RecordsAppend(c: Config, s: State, step: Step)
    requires ValidConfig(c) && |s.tasks| == c.n
    ensures s.records <= Apply(c, s, step).records
    ensures |Apply(c, s, step).records| <= |s.records| + 1
    ensures |s.records| < |Apply(c, s, step).records| && Apply(c, s, step).records[|s.records|].tWrite.Some? ==>
      step == Collect && s.pc.AwaitSeen? && s.pc.k < |c.writers|
  {
  }

  lemma CollectedEarlier(c: Config, steps: seq<Step>, m: nat, n: nat, k: nat, r: Record)
    requires ValidConfig(c) && n < m <= |steps| && CollectedAt(c, steps[..m], n, k, r)
    ensures CollectedAt(c, steps, n, k, r)
  {
    assert steps[..m][..n] == steps[..n];
  }

  /** A record that is new after a step. */
  lemma NewRecord(c: Config, s: State, step: Step, k: nat)
    requires ValidConfig(c) && |s.tasks| == c.n && (s.pc.AwaitSeen? ==> |s.records| == s.pc.k)
    requires |s.records| <= k < |Apply(c, s, step).records| && Apply(c, s, step).records[k].tWrite.Some?
    ensures var r := Apply(c, s, step).records[k];
      step == Collect && s.pc.AwaitSeen? && s.pc.k == k && r.tWrite == Some(s.pc.tWrite) && CollectedFrom(c, s.db, r)
  {
    RecordsAppend(c, s, step);
    var r := CollectNow(c, s);
    assert Apply(c, s, step).records[k] == r;
  }

  /** Every record with a time, at any moment of any run, was collected from the table of its own round. */
  lemma {:induction false} RecordsCollected(c: Config, steps: seq<Step>, k: nat) returns (n: nat)
    requires ValidConfig(c) && k < |Exec(c, steps).records| && Exec(c, steps).records[k].tWrite.Some?
    ensures n < |steps| && CollectedAt(c, steps, n, k, Exec(c, steps).records[k])
  {
    var m := |steps| - 1;
    var s := Exec(c, steps[..m]);
    if k < |s.records| {
      RecordsAppend(c, s, steps[m]);
      n := RecordsCollected(c, steps[..m], k);
      CollectedEarlier(c, steps, m, n, k, s.records[k]);
    } else {
      ExecInv(c, steps[..m]);
      n := m;
      NewRecord(c, s, steps[m], k);
    }
  }

  // ---- The published results ----

  lemma DoneStays(c: Config, s: State, step: Step)
    requires ValidConfig(c) && |s.tasks| == c.n && s.pc.Done?
    ensures Apply(c, s, step).pc == s.pc && Apply(c, s, step).records == s.records
  {
  }

  lemma BecomesDone(c: Config, s: State, step: Step)
    requires ValidConfig(c) && |s.tasks| == c.n && !s.pc.Done? && Apply(c, s, step).pc.Done?
    ensures step == Publish && s.pc == Draining
    ensures var r := Apply(c, s, step).pc.results;
      && r.start == s.db.chronyStart && r.end == s.db.chronyEnd && r.writes == s.records
      && r.flags == DriftFlags(r.start, r.end) && Apply(c, s, step).records == s.records
  {
  }

  /** The results are the tables and the records as they stood when they were published. */
  lemma {:induction false} PublishedFrom(c: Config, steps: seq<Step>, r: Results) returns (n: nat)
    requires ValidConfig(c) && Exec(c, steps).pc == Done(r)
    ensures n < |steps| && steps[n] == Publish && Exec(c, steps[..n]).pc == Draining
    ensures var s := Exec(c, steps[..n]);
      r.start == s.db.chronyStart && r.end == s.db.chronyEnd && r.writes == s.records == Exec(c, steps).records
  {
    n := |steps| - 1;
    var s := Exec(c, steps[..n]);
    if s.pc.Done? {
      DoneStays(c, s, steps[n]);
      var m := PublishedFrom(c, steps[..n], r);
      assert steps[..n][..m] == steps[..m];
      n := m;
    } else {
      BecomesDone(c, s, steps[n]);
    }
  }

  /** So the published records were collected as above. */
  lemma PublishedCollected(c: Config, steps: seq<Step>, r: Results, k: nat) returns (n: nat)
    requires ValidConfig(c) && Exec(c, steps).pc == Done(r) && k < |r.writes| && r.writes[k].tWrite.Some?
    ensures n < |steps| && CollectedAt(c, steps, n, k, r.writes[k])
  {
    var m := PublishedFrom(c, steps, r);
    n := RecordsCollected(c, steps, k);
  }
}
