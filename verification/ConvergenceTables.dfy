/** Nothing that was received is lost: every message that the coordinator has read is in its tables, and in the end
    everyone is told to stop. */
module ConvergenceTables {
  import opened Convergence
  import opened ConvergenceProofs
  import opened ConvergenceSafety
  import Decimal
  import opened Options

  /** The message has left its trace in the tables. */
  ghost predicate Kept(c: Config, i: nat, m: Msg, db: Db)
    requires i < |c.hosts|
  {
    && (m.ChronyStart? ==> c.hosts[i] in db.chronyStart)
    && (m.ChronyEnd? ==> c.hosts[i] in db.chronyEnd)
    && (m.WriterDone? ==> (i, m.seqNo) in db.writerDone)
    && (m.WriterError? ==> (i, m.seqNo) in db.writerError)
  }

  /** What was read from a task is kept, and the errors are those that it reported. */
  ghost predicate StreamKept(c: Config, i: nat, t: Task, db: Db)
    requires i < |c.hosts| && t.read <= |t.sent|
  {
    && (forall a :: 0 <= a < t.read ==> Kept(c, i, t.sent[a], db))
    && (forall k :: (i, k) in db.writerError ==> WriterError(k) in t.sent[..t.read])
  }

  ghost predicate ToldToStop(t: Task) {
    Stop in t.inbox || t.phase.Stopped? || t.phase.Ended?
  }

  ghost predicate Closing(pc: Pc) {
    pc.Draining? || pc.Done?
  }

  ghost predicate TaskKept(c: Config, i: nat, t: Task, db: Db, closing: bool)
    requires i < |c.hosts|
  {
    t.read <= |t.sent| && StreamKept(c, i, t, db) && (closing ==> ToldToStop(t))
  }

  ghost predicate TablesOk(c: Config, s: State)
    requires ValidConfig(c) && |s.tasks| == c.n
  {
    && (Closing(s.pc) ==> c.hosts[0] in s.db.chronyEnd)
    && forall i {:trigger TaskKept(c, i, s.tasks[i], s.db, Closing(s.pc))} :: 0 < i < c.n ==>
      TaskKept(c, i, s.tasks[i], s.db, Closing(s.pc))
  }

  // ---- Frames ----

  /** The tables have only grown, and the errors of task `i` are the same. */
  ghost predicate Extends(db: Db, db': Db, i: nat) {
    && db.chronyStart.Keys <= db'.chronyStart.Keys && db.chronyEnd.Keys <= db'.chronyEnd.Keys
    && db.writerDone.Keys <= db'.writerDone.Keys
    && forall k :: (i, k) in db'.writerError <==> (i, k) in db.writerError
  }

  lemma KeptStays(c: Config, i: nat, t: Task, db: Db, t': Task, db': Db, closing: bool)
    requires i < |c.hosts| && TaskKept(c, i, t, db, closing) && Extends(db, db', i)
    requires t'.read == t.read && t.sent <= t'.sent && (closing ==> ToldToStop(t'))
    ensures TaskKept(c, i, t', db', closing)
  {
    assert t'.sent[..t'.read] == t.sent[..t.read];
    forall a | 0 <= a < t'.read ensures Kept(c, i, t'.sent[a], db') {
      assert t'.sent[a] == t.sent[a] && Kept(c, i, t.sent[a], db);
    }
  }

  lemma HandledKept(c: Config, i: nat, m: Msg, db: Db, x: Msg)
    requires i < |c.hosts|
    ensures var db' := Handled(db, i, c.hosts[i], m); Kept(c, i, m, db') && (Kept(c, i, x, db) ==> Kept(c, i, x, db'))
  {
  }

  lemma HandledErrors(i: nat, host: string, m: Msg, db: Db, k: nat)
    ensures (i, k) in Handled(db, i, host, m).writerError <==> (i, k) in db.writerError || m == WriterError(k)
  {
  }

  lemma DrainKeeps(c: Config, i: nat, t: Task, db: Db, closing: bool)
    requires i < |c.hosts| && TaskKept(c, i, t, db, closing) && t.read < |t.sent|
    ensures TaskKept(c, i, t.(read := t.read + 1), Handled(db, i, c.hosts[i], t.sent[t.read]), closing)
  {
    var m := t.sent[t.read];
    var db' := Handled(db, i, c.hosts[i], m);
    assert t.sent[..t.read + 1] == t.sent[..t.read] + [m];
    forall a | 0 <= a < t.read + 1 ensures Kept(c, i, t.sent[a], db') {
      assert a < t.read ==> Kept(c, i, t.sent[a], db);
      HandledKept(c, i, m, db, t.sent[a]);
    }
    forall k | (i, k) in db'.writerError ensures WriterError(k) in t.sent[..t.read + 1] {
      HandledErrors(i, c.hosts[i], m, db, k);
    }
  }

  lemma DrainExtends(db: Db, j: nat, host: string, m: Msg, i: nat)
    requires i != j
    ensures Extends(db, Handled(db, j, host, m), i)
  {
  }

  lemma AcceptKeeps(c: Config, i: nat, t: Task, db: Db, db': Db, closing: bool)
    requires i < |c.hosts| && TaskKept(c, i, t, db, closing) && t.read == 0 && t.sent != [] && t.sent[0].Hello?
    requires Extends(db, db', i)
    ensures TaskKept(c, i, t.(read := 1), db', closing)
  {
    assert t.sent[..t.read] == [];
    assert forall k :: (i, k) !in db.writerError;
  }

  // ---- Steps ----

  /** A step that changes one task and the tables. */
  lemma OneTask(c: Config, s: State, s': State, j: nat)
    requires ValidConfig(c) && |s.tasks| == |s'.tasks| == c.n && TablesOk(c, s) && j < c.n
    requires s'.tasks == s.tasks[j := s'.tasks[j]] && Closing(s'.pc) == Closing(s.pc)
    requires j > 0 ==> TaskKept(c, j, s'.tasks[j], s'.db, Closing(s.pc))
    requires forall i {:trigger Extends(s.db, s'.db, i)} :: 0 < i < c.n && i != j ==> Extends(s.db, s'.db, i)
    requires s.db.chronyEnd.Keys <= s'.db.chronyEnd.Keys
    ensures TablesOk(c, s')
  {
    forall i | 0 < i < c.n ensures TaskKept(c, i, s'.tasks[i], s'.db, Closing(s'.pc)) {
      if i != j {
        assert TaskKept(c, i, s.tasks[i], s.db, Closing(s.pc)) && Extends(s.db, s'.db, i);
        KeptStays(c, i, s.tasks[i], s.db, s.tasks[i], s'.db, Closing(s.pc));
      }
    }
  }

  /** A step by which a task sends, polls or obeys. */
  lemma TaskStep(c: Config, s: State, step: Step)
    requires Inv(c, s) && TablesOk(c, s) && Apply(c, s, step) != s
    requires step.Greet? || step.SendStart? || step.PollTable? || step.Obey? || step.Finish?
    ensures TablesOk(c, Apply(c, s, step))
  {
    var s', i := Apply(c, s, step), step.i;
    var t, t' := s.tasks[i], s'.tasks[i];
    assert s'.tasks == s.tasks[i := t'] && s'.db == s.db && s'.pc == s.pc;
    if i > 0 {
      assert TaskKept(c, i, t, s.db, Closing(s.pc));
      assert t'.read == t.read && t.sent <= t'.sent;
      StopStays(c, s, step);
      KeptStays(c, i, t, s.db, t', s.db, Closing(s.pc));
    }
    OneTask(c, s, s', i);
  }

  lemma StopStays(c: Config, s: State, step: Step)
    requires ValidConfig(c) && |s.tasks| == c.n && Apply(c, s, step) != s
    requires step.Greet? || step.SendStart? || step.PollTable? || step.Obey? || step.Finish?
    requires 0 < step.i < c.n
    ensures ToldToStop(s.tasks[step.i]) ==> ToldToStop(Apply(c, s, step).tasks[step.i])
  {
    var t, t' := s.tasks[step.i], Apply(c, s, step).tasks[step.i];
    if step.Obey? {
      assert t.inbox == [t.inbox[0]] + t.inbox[1..] && t'.inbox == t.inbox[1..];
    }
  }

  lemma DrainStepKeeps(c: Config, s: State, i: nat)
    requires Inv(c, s) && TablesOk(c, s) && 0 < i < c.n && i in s.db.observers && s.tasks[i].read < |s.tasks[i].sent|
    ensures TablesOk(c, DoDrain(s, i))
  {
    var t := s.tasks[i];
    TaskOf(c, s, i);
    assert TaskKept(c, i, t, s.db, Closing(s.pc));
    DrainKeeps(c, i, t, s.db, Closing(s.pc));
    forall j | 0 < j < c.n && j != i ensures Extends(s.db, DoDrain(s, i).db, j) {
      DrainExtends(s.db, i, c.hosts[i], t.sent[t.read], j);
    }
    OneTask(c, s, DoDrain(s, i), i);
  }

  lemma AcceptStepKeeps(c: Config, s: State, i: nat)
    requires Inv(c, s) && TablesOk(c, s) && 0 < i < c.n && s.tasks[i].read == 0 && s.tasks[i].sent != []
    ensures TablesOk(c, DoAccept(s, i))
  {
    TaskOf(c, s, i);
    assert TaskKept(c, i, s.tasks[i], s.db, Closing(s.pc));
    AcceptKeeps(c, i, s.tasks[i], s.db, DoAccept(s, i).db, Closing(s.pc));
    OneTask(c, s, DoAccept(s, i), i);
  }

  lemma StopKeeps(c: Config, s: State, o: int)
    requires Inv(c, s) && TablesOk(c, s) && s.pc == Writing(|c.writers|)
    ensures TablesOk(c, DoStop(c, s, o))
  {
    var s' := DoStop(c, s, o);
    forall i | 0 < i < c.n ensures TaskKept(c, i, s'.tasks[i], s'.db, true) {
      assert i in s.db.observers && TaskKept(c, i, s.tasks[i], s.db, Closing(s.pc));
      assert s'.tasks[i].inbox[|s.tasks[i].inbox|] == Stop;
      KeptStays(c, i, s.tasks[i], s.db, s'.tasks[i], s'.db, false);
    }
  }

  /** The coordinator's other steps. */
  lemma MainStep(c: Config, s: State, step: Step)
    requires ValidConfig(c) && |s.tasks| == c.n && TablesOk(c, s) && Apply(c, s, step) != s
    requires step.GiveUp? || step.Stabilize? || step.Ack? || step.NoAck? || step.Collect? || step.Publish?
    ensures TablesOk(c, Apply(c, s, step))
  {
    var s' := Apply(c, s, step);
    assert s'.tasks == s.tasks && s'.db == s.db && Closing(s'.pc) == Closing(s.pc);
  }

  lemma ReadyKeeps(c: Config, s: State, o: int, outcome: Option<int>)
    requires ValidConfig(c) && |s.tasks| == c.n && TablesOk(c, s) && s.pc == Accepting
    ensures TablesOk(c, DoReady(c, s, o, outcome))
  {
    var s' := DoReady(c, s, o, outcome);
    assert s'.tasks == s.tasks[0 := s'.tasks[0]];
    OneTask(c, s, s', 0);
  }

  lemma BeginKeeps(c: Config, s: State, k: nat, outcome: Option<int>)
    requires ValidConfig(c) && |s.tasks| == c.n && TablesOk(c, s) && s.pc == Writing(k) && k < |c.writers|
    ensures TablesOk(c, DoBeginWrite(c, s, k, outcome))
  {
    var s', w := DoBeginWrite(c, s, k, outcome), c.writers[k];
    assert s'.tasks == s.tasks[w := s'.tasks[w]] && s'.db == s.db;
    if w > 0 {
      assert TaskKept(c, w, s.tasks[w], s.db, Closing(s.pc));
      KeptStays(c, w, s.tasks[w], s.db, s'.tasks[w], s.db, false);
    }
    OneTask(c, s, s', w);
  }

  lemma EnterKeeps(c: Config, s: State)
    requires ValidConfig(c) && |s.tasks| == c.n && TablesOk(c, s) && s.tasks[0].pending != []
    ensures TablesOk(c, DoEnter(s))
  {
    assert DoEnter(s).tasks == s.tasks[0 := DoEnter(s).tasks[0]];
    OneTask(c, s, DoEnter(s), 0);
  }

  lemma StepKeeps(c: Config, s: State, step: Step)
    requires Inv(c, s) && TablesOk(c, s)
    ensures TablesOk(c, Apply(c, s, step))
  {
    if Apply(c, s, step) != s {
      match step
      case DrainOne(i) => DrainStepKeeps(c, s, i);
      case Accept(i) => AcceptStepKeeps(c, s, i);
      case StopAll(o) => StopKeeps(c, s, o);
      case Ready(o, outcome) => ReadyKeeps(c, s, o, outcome);
      case BeginWrite(outcome) => BeginKeeps(c, s, s.pc.k, outcome);
      case Enter => EnterKeeps(c, s);
      case _ =>
        if step.Greet? || step.SendStart? || step.PollTable? || step.Obey? || step.Finish? {
          TaskStep(c, s, step);
        } else {
          MainStep(c, s, step);
        }
    }
  }

  lemma {:induction false} ExecKeeps(c: Config, steps: seq<Step>)
    requires ValidConfig(c)
    ensures TablesOk(c, Exec(c, steps))
  {
    if steps == [] {
      forall i | 0 < i < c.n ensures TaskKept(c, i, Init(c).tasks[i], EMPTY_DB, false) {
        assert Init(c).tasks[i] == IDLE_TASK;
      }
    } else {
      var n := |steps| - 1;
      ExecKeeps(c, steps[..n]);
      ExecInv(c, steps[..n]);
      StepKeeps(c, Exec(c, steps[..n]), steps[n]);
    }
  }

  // ---- What this means ----

  /** Over every run: whatever the coordinator has read from a task is in its tables. */
  lemma NothingReadIsLost(c: Config, steps: seq<Step>, i: nat, a: nat)
    requires ValidConfig(c) && 0 < i < c.n && a < Exec(c, steps).tasks[i].read
    ensures a < |Exec(c, steps).tasks[i].sent| && Kept(c, i, Exec(c, steps).tasks[i].sent[a], Exec(c, steps).db)
  {
    ExecKeeps(c, steps);
    assert TaskKept(c, i, Exec(c, steps).tasks[i], Exec(c, steps).db, Closing(Exec(c, steps).pc));
  }

  /** An error in the table was reported by that task, and no error is there that it did not report. */
  lemma ErrorsAreReports(c: Config, steps: seq<Step>, i: nat, k: nat)
    requires ValidConfig(c) && 0 < i < c.n
    ensures var t := Exec(c, steps).tasks[i];
      t.read <= |t.sent| && ((i, k) in Exec(c, steps).db.writerError <==> WriterError(k) in t.sent[..t.read])
  {
    ExecKeeps(c, steps);
    var t, db := Exec(c, steps).tasks[i], Exec(c, steps).db;
    assert TaskKept(c, i, t, db, Closing(Exec(c, steps).pc));
    if a :| 0 <= a < t.read && t.sent[a] == WriterError(k) {
      assert Kept(c, i, t.sent[a], db);
    }
  }

  /** Once the write loop is over, every observer has been told to stop, and the coordinator has measured its own
      offset again. */
  lemma EveryoneIsStopped(c: Config, steps: seq<Step>, i: nat)
    requires ValidConfig(c) && 0 < i < c.n && Closing(Exec(c, steps).pc)
    ensures ToldToStop(Exec(c, steps).tasks[i]) && c.hosts[0] in Exec(c, steps).db.chronyEnd
  {
    ExecKeeps(c, steps);
    assert TaskKept(c, i, Exec(c, steps).tasks[i], Exec(c, steps).db, true);
  }

  /** `FirstPoll` is the start of the first poll that shows the name. */
  lemma {:induction false} FirstPollExactly(polls: seq<Poll>, name: string, t: int)
    ensures FirstPoll(polls, name) == Some(t) <==>
      exists i :: 0 <= i < |polls| && name in polls[i].names && polls[i].t0 == t && NotShownBefore(polls, i, name)
  {
    if polls != [] {
      var n := |polls| - 1;
      var front := polls[..n];
      FirstPollExactly(front, name, t);
      NeverShown(front, name);
      if i :| 0 <= i < |polls| && name in polls[i].names && polls[i].t0 == t && NotShownBefore(polls, i, name) {
        if i < n {
          assert front[i] == polls[i] && NotShownBefore(front, i, name);
        } else {
          assert forall j :: 0 <= j < n ==> front[j] == polls[j];
        }
      }
      if i :| 0 <= i < |front| && name in front[i].names && front[i].t0 == t && NotShownBefore(front, i, name) {
        assert polls[i] == front[i] && NotShownBefore(polls, i, name);
      }
      if FirstPoll(front, name).None? {
        assert NotShownBefore(polls, n, name);
      }
    }
  }

  predicate NotShownBefore(polls: seq<Poll>, i: nat, name: string)
    requires i <= |polls|
  {
    forall j :: 0 <= j < i ==> name !in polls[j].names
  }

  lemma {:induction false} NeverShown(polls: seq<Poll>, name: string)
    ensures FirstPoll(polls, name).None? <==> forall j :: 0 <= j < |polls| ==> name !in polls[j].names
  {
    if polls != [] {
      var n := |polls| - 1;
      NeverShown(polls[..n], name);
      assert forall j :: 0 <= j < n ==> polls[..n][j] == polls[j];
    }
  }

  /** The names that are watched, and the names that are written. */
  lemma NamesExactly(name: string, runId: string, suffix: string)
    ensures Watched(name) <==> exists rest :: name == "convbench-w" + rest
    ensures WarmupName(runId, suffix) == "convbench-warmup-" + runId + "-" + suffix
    ensures NameFor("r", 10, 2) == "convbench-w-r-s10-2"
  {
    if Watched(name) {
      assert name == "convbench-w" + name[11..];
    }
    ExampleNumerals();
  }

  lemma ExampleNumerals()
    ensures Decimal.Dec(10) == "10" && Decimal.Dec(2) == "2"
  {
    assert Decimal.Dec(1) == "1";
  }
}
