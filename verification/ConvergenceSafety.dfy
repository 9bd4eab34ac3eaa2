/** The invariant of the whole convergence benchmark and what it means for the published results. */
module ConvergenceSafety {
  import opened Convergence
  import opened ConvergenceProofs
  import opened Counting
  import opened Options

  /** How many rounds of the write loop have started. */
  function Issued(c: Config, pc: Pc): nat {
    match pc
    case Writing(k) => k
    case AwaitAck(k) => k + 1
    case AwaitSeen(k, _) => k + 1
    case Draining => |c.writers|
    case Done(_) => |c.writers|
    case _ => 0
  }

  predicate Stable(pc: Pc) {
    pc.Writing? || pc.AwaitAck? || pc.AwaitSeen? || pc.Draining? || pc.Done?
  }

  /** The writer of round `k` registered the name of round `k` at time `t`. */
  ghost predicate RegisteredAs(c: Config, tasks: seq<Task>, k: nat, t: int) {
    && k < |c.writers| && c.writers[k] < |tasks|
    && WriteName(c, k) in tasks[c.writers[k]].registered
    && tasks[c.writers[k]].registered[WriteName(c, k)] == t
  }

  /** Everyone but the writer has an entry, and an entry with a time is the first poll of the name. */
  ghost predicate SightingsOk(c: Config, tasks: seq<Task>, r: Record)
    requires |tasks| == c.n
  {
    && Others(c, r.writer) <= r.seen.Keys <= Below(c.n)
    && forall x :: x in r.seen && r.seen[x].At? ==> FirstPoll(tasks[x].polls, r.name) == Some(r.seen[x].ns)
  }

  /** Entry `j` of `writes_record`: a failure without time and sightings, or the time at which its own
      writer registered its own name together with what every other task saw of that name. */
  ghost predicate RecordOk(c: Config, tasks: seq<Task>, j: nat, r: Record)
    requires |tasks| == c.n
  {
    && j < |c.writers| && r.seqNo == j && r.writer == c.writers[j] && r.name == WriteName(c, j)
    && (r.tWrite.None? ==> r.seen == map[])
    && (r.tWrite.Some? ==> RegisteredAs(c, tasks, j, r.tWrite.value) && SightingsOk(c, tasks, r))
  }

  ghost predicate RecordsOk(c: Config, tasks: seq<Task>, records: seq<Record>)
    requires |tasks| == c.n
  {
    forall j {:trigger RecordOk(c, tasks, j, records[j])} :: 0 <= j < |records| ==> RecordOk(c, tasks, j, records[j])
  }

  /** What aggregation relies on: the manifest lists every task once, every host has a start offset, and
      there is one good record per round, in order. */
  ghost predicate ResultsOk(c: Config, tasks: seq<Task>, r: Results)
    requires |tasks| == c.n == |c.hosts|
  {
    && |r.nodes| == c.n && (forall i :: 0 <= i < c.n ==> r.nodes[i] == Node(i, c.hosts[i]))
    && (forall i :: 0 <= i < c.n ==> c.hosts[i] in r.start)
    && |r.writes| == |c.writers| && RecordsOk(c, tasks, r.writes)
    && r.flags == DriftFlags(r.start, r.end)
  }

  ghost predicate PcOk(c: Config, s: State)
    requires ValidConfig(c) && |s.tasks| == c.n
  {
    match s.pc
    case Accepting => s.records == []
    case Stabilizing => s.records == []
    case Writing(k) => |s.records| == k <= |c.writers|
    case AwaitAck(k) => |s.records| == k < |c.writers| && c.writers[k] != 0
    case AwaitSeen(k, t) => |s.records| == k < |c.writers| && RegisteredAs(c, s.tasks, k, t)
    case Draining => |s.records| == |c.writers|
    case Done(r) => ResultsOk(c, s.tasks, r)
    case Failed => s.records == []
    case Crashed => false
  }

  /** The table has rows for tasks only. */
  ghost predicate RowsOk(c: Config, db: Db) {
    forall x, j: nat :: SeenAt(db, x, j).Some? ==> j < c.n
  }

  ghost predicate PeersOk(c: Config, s: State)
    requires ValidConfig(c)
  {
    && (forall i :: i in s.db.observers ==> 0 < i < c.n)
    && RowsOk(c, s.db)
    && (Polls(s.pc) ==> (forall i :: 0 < i < c.n ==> i in s.db.observers) && c.hosts[0] in s.db.chronyStart)
    && (Stable(s.pc) ==> forall i :: 0 <= i < c.n ==> c.hosts[i] in s.db.chronyStart)
  }

  ghost predicate TasksOk(c: Config, issued: nat, tasks: seq<Task>, db: Db)
    requires ValidConfig(c) && |tasks| == c.n
  {
    && (forall i {:trigger TaskInv(c, i, issued, tasks[i], db)} :: 0 < i < c.n ==> TaskInv(c, i, issued, tasks[i], db))
    && SelfLink(tasks[0], db)
    && AckOk(c, 0, issued, tasks[0])
  }

  ghost predicate Inv(c: Config, s: State) {
    && ValidConfig(c) && |s.tasks| == c.n
    && TasksOk(c, Issued(c, s.pc), s.tasks, s.db)
    && PeersOk(c, s)
    && PcOk(c, s)
    && RecordsOk(c, s.tasks, s.records)
  }

  // ---- Histories only grow ----

  ghost predicate Grows(t: Task, t': Task) {
    && (forall x :: FirstPoll(t.polls, x).Some? ==> FirstPoll(t'.polls, x) == FirstPoll(t.polls, x))
    && (forall x :: x in t.registered ==> x in t'.registered && t'.registered[x] == t.registered[x])
  }

  ghost predicate AllGrow(tasks: seq<Task>, tasks': seq<Task>)
    requires |tasks| == |tasks'|
  {
    forall i :: 0 <= i < |tasks| ==> Grows(tasks[i], tasks'[i])
  }

  lemma RecordGrows(c: Config, tasks: seq<Task>, tasks': seq<Task>, j: nat, r: Record)
    requires |tasks| == |tasks'| == c.n && AllGrow(tasks, tasks') && RecordOk(c, tasks, j, r)
    ensures RecordOk(c, tasks', j, r)
  {
    if r.tWrite.Some? {
      assert Grows(tasks[c.writers[j]], tasks'[c.writers[j]]);
      forall x | x in r.seen && r.seen[x].At? ensures FirstPoll(tasks'[x].polls, r.name) == Some(r.seen[x].ns) {
        assert Grows(tasks[x], tasks'[x]);
      }
    }
  }

  lemma RecordsGrow(c: Config, tasks: seq<Task>, tasks': seq<Task>, records: seq<Record>)
    requires |tasks| == |tasks'| == c.n && AllGrow(tasks, tasks') && RecordsOk(c, tasks, records)
    ensures RecordsOk(c, tasks', records)
  {
    forall j | 0 <= j < |records| ensures RecordOk(c, tasks', j, records[j]) {
      RecordGrows(c, tasks, tasks', j, records[j]);
    }
  }

  lemma PcGrows(c: Config, s: State, s': State)
    requires ValidConfig(c) && |s.tasks| == |s'.tasks| == c.n && PcOk(c, s)
    requires s'.pc == s.pc && s'.records == s.records && AllGrow(s.tasks, s'.tasks)
    ensures PcOk(c, s')
  {
    match s.pc
    case AwaitSeen(k, t) => assert Grows(s.tasks[c.writers[k]], s'.tasks[c.writers[k]]);
    case Done(r) => RecordsGrow(c, s.tasks, s'.tasks, r.writes);
    case _ =>
  }

  lemma GrowsOne(tasks: seq<Task>, i: nat, t: Task)
    requires i < |tasks| && Grows(tasks[i], t)
    ensures AllGrow(tasks, tasks[i := t])
  {
  }

  // ---- Steps of one observer ----

  /** A step that changes one observer and nothing else. */
  lemma ObserverStep(c: Config, s: State, i: nat, t: Task)
    requires Inv(c, s) && 0 < i < c.n && Grows(s.tasks[i], t) && TaskInv(c, i, Issued(c, s.pc), t, s.db)
    ensures Inv(c, WithTask(s, i, t))
  {
    var s' := WithTask(s, i, t);
    GrowsOne(s.tasks, i, t);
    RecordsGrow(c, s.tasks, s'.tasks, s.records);
    PcGrows(c, s, s');
  }

  lemma GreetStep(c: Config, s: State, i: nat)
    requires Inv(c, s) && 0 < i < c.n && s.tasks[i].phase == Idle
    ensures Inv(c, WithTask(s, i, DoGreet(c, s.tasks[i], i, c.hosts[i])))
  {
    var t := s.tasks[i];
    TaskOf(c, s, i);
    var t' := DoGreet(c, t, i, c.hosts[i]);
    assert t.sent + [Hello(i, c.hosts[i])] == [Hello(i, c.hosts[i])];
    SendKeepsTask(c, i, Issued(c, s.pc), t, Hello(i, c.hosts[i]), t', s.db);
    ObserverStep(c, s, i, t');
  }

  lemma StartStep(c: Config, s: State, i: nat, o: int)
    requires Inv(c, s) && 0 < i < c.n && s.tasks[i].phase == Greeted
    ensures Inv(c, WithTask(s, i, s.tasks[i].(phase := Running, sent := s.tasks[i].sent + [ChronyStart(o)])))
  {
    var t := s.tasks[i];
    var t' := t.(phase := Running, sent := t.sent + [ChronyStart(o)]);
    SendKeepsTask(c, i, Issued(c, s.pc), t, ChronyStart(o), t', s.db);
    ObserverStep(c, s, i, t');
  }

  lemma PollGrows(t: Task, t': Task, p: Poll)
    requires t'.polls == t.polls + [p] && t'.registered == t.registered
    ensures Grows(t, t')
  {
    forall x | FirstPoll(t.polls, x).Some? ensures FirstPoll(t'.polls, x) == FirstPoll(t.polls, x) {
      FirstPollSnoc(t.polls, p, x);
    }
  }

  lemma PollStep(c: Config, s: State, i: nat, t0: int, names: seq<string>)
    requires Inv(c, s) && 0 < i < c.n && s.tasks[i].phase != Idle && s.tasks[i].phase != Greeted
    ensures Inv(c, WithTask(s, i, DoPoll(s.tasks[i], t0, names)))
  {
    PollKeepsTask(c, i, Issued(c, s.pc), s.tasks[i], t0, names, s.db);
    PollGrows(s.tasks[i], DoPoll(s.tasks[i], t0, names), Poll(t0, names));
    ObserverStep(c, s, i, DoPoll(s.tasks[i], t0, names));
  }

  lemma ObeyStep(c: Config, s: State, i: nat, outcome: Option<int>)
    requires Inv(c, s) && 0 < i < c.n && s.tasks[i].phase == Running && s.tasks[i].inbox != []
    ensures Inv(c, WithTask(s, i, DoObey(s.tasks[i], outcome)))
  {
    var t := s.tasks[i];
    ObeyKeepsTask(c, i, Issued(c, s.pc), t, outcome, s.db);
    assert CommandOk(c, i, Issued(c, s.pc), t.registered, t.inbox[0]);
    ObserverStep(c, s, i, DoObey(t, outcome));
  }

  lemma FinishStep(c: Config, s: State, i: nat, o: int)
    requires Inv(c, s) && 0 < i < c.n && s.tasks[i].phase == Stopped
    ensures Inv(c, WithTask(s, i, s.tasks[i].(phase := Ended, sent := s.tasks[i].sent + [ChronyEnd(o), Bye])))
  {
    var t := s.tasks[i];
    var t' := t.(phase := Ended, sent := t.sent + [ChronyEnd(o)]);
    var t'' := t.(phase := Ended, sent := t.sent + [ChronyEnd(o), Bye]);
    assert t.sent + [ChronyEnd(o), Bye] == t.sent + [ChronyEnd(o)] + [Bye];
    SendKeepsTask(c, i, Issued(c, s.pc), t, ChronyEnd(o), t', s.db);
    SendKeepsTask(c, i, Issued(c, s.pc), t', Bye, t'', s.db);
    ObserverStep(c, s, i, t'');
  }

  // ---- Steps that change the table ----

  /** One task and the table change together; the table says the same about all other tasks. */
  lemma TasksTable(c: Config, issued: nat, tasks: seq<Task>, db: Db, i: nat, t: Task, db': Db)
    requires ValidConfig(c) && |tasks| == c.n && TasksOk(c, issued, tasks, db) && i < c.n
    requires i > 0 ==> TaskInv(c, i, issued, t, db')
    requires i == 0 ==> SelfLink(t, db') && AckOk(c, 0, issued, t)
    requires forall j :: 0 <= j < c.n && j != i ==> SameFor(db, db', j)
    ensures TasksOk(c, issued, tasks[i := t], db')
  {
    var tasks' := tasks[i := t];
    forall j | 0 < j < c.n ensures TaskInv(c, j, issued, tasks'[j], db') {
      if j != i {
        TaskFrame(c, j, issued, issued, tasks[j], db, db');
      }
    }
    if i != 0 {
      assert SameFor(db, db', 0);
    }
  }

  /** A step that leaves the main thread where it is. */
  lemma SideStep(c: Config, s: State, tasks: seq<Task>, db: Db)
    requires Inv(c, s) && |tasks| == c.n && AllGrow(s.tasks, tasks)
    requires TasksOk(c, Issued(c, s.pc), tasks, db) && PeersOk(c, s.(db := db))
    ensures Inv(c, s.(tasks := tasks, db := db))
  {
    RecordsGrow(c, s.tasks, tasks, s.records);
    PcGrows(c, s, s.(tasks := tasks, db := db));
  }

  lemma AcceptOthers(db: Db, i: nat, host: string, j: nat)
    requires j != i
    ensures SameFor(db, db.(observers := db.observers[i := host]), j)
  {
    var db' := db.(observers := db.observers[i := host]);
    forall x ensures SeenAt(db', x, j) == SeenAt(db, x, j) {
    }
  }

  lemma AcceptPeers(c: Config, s: State, i: nat, db: Db)
    requires ValidConfig(c) && PeersOk(c, s) && 0 < i < c.n && db == s.db.(observers := s.db.observers[i := c.hosts[i]])
    ensures PeersOk(c, s.(db := db))
  {
    SameRows(c, s.db, db);
  }

  lemma AcceptTasks(c: Config, issued: nat, tasks: seq<Task>, db: Db, i: nat, db': Db)
    requires ValidConfig(c) && |tasks| == c.n && TasksOk(c, issued, tasks, db) && 0 < i < c.n
    requires tasks[i].read == 0 && tasks[i].sent != [] && db' == db.(observers := db.observers[i := c.hosts[i]])
    ensures tasks[i].sent[0] == Hello(i, c.hosts[i])
    ensures TasksOk(c, issued, tasks[i := tasks[i].(read := 1)], db')
  {
    assert TaskInv(c, i, issued, tasks[i], db);
    AcceptKeepsTask(c, i, issued, tasks[i], db);
    forall j | 0 <= j < c.n && j != i ensures SameFor(db, db', j) {
      AcceptOthers(db, i, c.hosts[i], j);
    }
    TasksTable(c, issued, tasks, db, i, tasks[i].(read := 1), db');
  }

  lemma AcceptStep(c: Config, s: State, i: nat)
    requires Inv(c, s) && 0 < i < c.n && s.tasks[i].read == 0 && s.tasks[i].sent != []
    ensures Inv(c, DoAccept(s, i))
  {
    var db := s.db.(observers := s.db.observers[i := c.hosts[i]]);
    var t := s.tasks[i].(read := 1);
    AcceptTasks(c, Issued(c, s.pc), s.tasks, s.db, i, db);
    AcceptPeers(c, s, i, db);
    GrowsOne(s.tasks, i, t);
    SideStep(c, s, s.tasks[i := t], db);
  }

  lemma RowsInRange(c: Config, db: Db, i: nat, host: string, m: Msg)
    requires i < c.n && (m.Seen? ==> DistinctEvents(m.events)) && RowsOk(c, db)
    ensures RowsOk(c, Handled(db, i, host, m))
  {
    forall x, j: nat | SeenAt(Handled(db, i, host, m), x, j).Some? ensures j < c.n {
      if j != i {
        DrainSameFor(db, i, host, m, j);
      }
    }
  }

  lemma SameRows(c: Config, db: Db, db': Db)
    requires RowsOk(c, db) && db'.seen == db.seen
    ensures RowsOk(c, db')
  {
    forall x, j: nat | SeenAt(db', x, j).Some? ensures j < c.n {
      assert SeenAt(db', x, j) == SeenAt(db, x, j);
    }
  }

  /** Everything `_drain_observer` may do to the table. */
  lemma DrainTable(c: Config, db: Db, i: nat, host: string, m: Msg)
    requires i < c.n && (m.Seen? ==> DistinctEvents(m.events)) && RowsOk(c, db)
    ensures var db' := Handled(db, i, host, m);
      && RowsOk(c, db') && db'.observers == db.observers && db.chronyStart.Keys <= db'.chronyStart.Keys
      && forall j :: 0 <= j < c.n && j != i ==> SameFor(db, db', j)
  {
    RowsInRange(c, db, i, host, m);
    forall j | 0 <= j < c.n && j != i ensures SameFor(db, Handled(db, i, host, m), j) {
      DrainSameFor(db, i, host, m, j);
    }
  }

  lemma TablePeers(c: Config, s: State, db: Db)
    requires ValidConfig(c) && PeersOk(c, s) && RowsOk(c, db)
    requires db.observers == s.db.observers && s.db.chronyStart.Keys <= db.chronyStart.Keys
    ensures PeersOk(c, s.(db := db))
  {
  }

  lemma DrainTasks(c: Config, issued: nat, tasks: seq<Task>, db: Db, i: nat)
    requires ValidConfig(c) && |tasks| == c.n && TasksOk(c, issued, tasks, db) && RowsOk(c, db)
    requires 0 < i < c.n && i in db.observers && tasks[i].read < |tasks[i].sent|
    ensures var t := tasks[i]; var db' := Handled(db, i, db.observers[i], t.sent[t.read]);
      && TasksOk(c, issued, tasks[i := t.(read := t.read + 1)], db')
      && RowsOk(c, db') && db'.observers == db.observers && db.chronyStart.Keys <= db'.chronyStart.Keys
  {
    var t := tasks[i];
    assert TaskInv(c, i, issued, t, db);
    DrainKeepsTask(c, i, issued, t, db);
    assert ReportOk(t.sent[..t.read], t.sent[t.read], t.polls);
    DrainTable(c, db, i, c.hosts[i], t.sent[t.read]);
    TasksTable(c, issued, tasks, db, i, t.(read := t.read + 1), Handled(db, i, c.hosts[i], t.sent[t.read]));
  }

  lemma DrainStep(c: Config, s: State, i: nat)
    requires Inv(c, s) && 0 < i < c.n && i in s.db.observers && s.tasks[i].read < |s.tasks[i].sent|
    ensures Inv(c, DoDrain(s, i))
  {
    var s' := DoDrain(s, i);
    DrainTasks(c, Issued(c, s.pc), s.tasks, s.db, i);
    TablePeers(c, s, s'.db);
    GrowsOne(s.tasks, i, s'.tasks[i]);
    SideStep(c, s, s'.tasks, s'.db);
  }

  lemma SelfPollLink(t: Task, db: Db, t0: int, names: seq<string>)
    requires SelfLink(t, db) && t.pending == []
    ensures SelfLink(DoSelfPoll(t, t0, names), db)
  {
    var t', news := DoSelfPoll(t, t0, names), Fresh(names, t.known);
    PollKeepsKnown(t, t0, names, t');
    FreshDistinct(names, t.known);
    EventNames(news, t0);
    forall x ensures x in news ==> x !in t.known && FirstPoll(t'.polls, x) == Some(t0)
      ensures FirstPoll(t.polls, x).Some? ==> FirstPoll(t'.polls, x) == FirstPoll(t.polls, x)
    {
      FreshMembers(names, t.known, x);
      FirstPollSnoc(t.polls, Poll(t0, names), x);
    }
    forall j | 0 <= j < |t'.pending| ensures FirstPoll(t'.polls, t'.pending[j].name) == Some(t'.pending[j].seenNs) {
      assert news[j] in news;
    }
  }

  lemma SelfPollStep(c: Config, s: State, t0: int, names: seq<string>)
    requires Inv(c, s) && s.tasks[0].pending == []
    ensures Inv(c, WithTask(s, 0, DoSelfPoll(s.tasks[0], t0, names)))
  {
    var t := s.tasks[0];
    var t' := DoSelfPoll(t, t0, names);
    SelfPollLink(t, s.db, t0, names);
    TasksReplace(c, Issued(c, s.pc), s.tasks, 0, t', s.db);
    PollGrows(t, t', Poll(t0, names));
    GrowsOne(s.tasks, 0, t');
    SideStep(c, s, s.tasks[0 := t'], s.db);
  }

  /** The names still to be entered after the first. */
  lemma PendingTail(p: seq<SeenEvent>)
    requires p != [] && DistinctEvents(p)
    ensures DistinctEvents(p[1..]) && NamesOf(Seen([p[0]])) == {p[0].name}
    ensures NamesOf(Seen(p)) == {p[0].name} + NamesOf(Seen(p[1..])) && p[0].name !in NamesOf(Seen(p[1..]))
  {
    var rest := p[1..];
    forall x ensures x in NamesOf(Seen(p)) <==> x == p[0].name || x in NamesOf(Seen(rest)) {
      if x in NamesOf(Seen(p)) {
        var e :| e in p && e.name == x;
        assert e == p[0] || e in rest;
      }
      assert p[0] in p;
    }
    forall e | e in rest ensures e.name != p[0].name {
      var j :| 0 <= j < |rest| && rest[j] == e;
      assert p[j + 1] == e;
    }
    assert p[0] in [p[0]];
  }

  lemma EnterLink(t: Task, db: Db)
    requires SelfLink(t, db) && t.pending != []
    ensures SelfLink(t.(pending := t.pending[1..]), db.(seen := PutAll(db.seen, [t.pending[0]], 0)))
  {
    var p, db' := t.pending, db.(seen := PutAll(db.seen, [t.pending[0]], 0));
    PendingTail(p);
    assert forall j :: 0 <= j < |p[1..]| ==> p[1..][j] == p[j + 1];
    assert p[0] in p;
    forall x
      ensures SeenAt(db', x, 0).Some? <==> x in t.known && x !in NamesOf(Seen(p[1..]))
      ensures SeenAt(db', x, 0).Some? ==> SeenAt(db', x, 0) == FirstPoll(t.polls, x)
    {
      PutReport(db, [p[0]], 0, x, 0);
      assert p[0].name in NamesOf(Seen(p));
    }
  }

  lemma EnterStep(c: Config, s: State)
    requires Inv(c, s) && s.tasks[0].pending != []
    ensures Inv(c, DoEnter(s))
  {
    var t, s' := s.tasks[0], DoEnter(s);
    EnterLink(t, s.db);
    DrainTable(c, s.db, 0, "", Seen([t.pending[0]]));
    TasksTable(c, Issued(c, s.pc), s.tasks, s.db, 0, s'.tasks[0], s'.db);
    TablePeers(c, s, s'.db);
    GrowsOne(s.tasks, 0, s'.tasks[0]);
    SideStep(c, s, s'.tasks, s'.db);
  }

  // ---- Steps of the coordinator's main thread ----

  lemma TasksIssue(c: Config, issued: nat, issued': nat, tasks: seq<Task>, db: Db, db': Db)
    requires ValidConfig(c) && |tasks| == c.n && TasksOk(c, issued, tasks, db) && issued <= issued'
    requires forall j :: 0 <= j < c.n ==> SameFor(db, db', j)
    ensures TasksOk(c, issued', tasks, db')
  {
    forall j | 0 < j < c.n ensures TaskInv(c, j, issued', tasks[j], db') {
      TaskFrame(c, j, issued, issued', tasks[j], db, db');
    }
    AckGrows(c, 0, issued, issued', tasks[0]);
    assert SameFor(db, db', 0);
  }

  /** With all n - 1 connections accepted, every observer is known: there is no room for a gap. */
  lemma Pigeonhole(c: Config, observers: map<nat, string>)
    requires ValidConfig(c) && |observers| >= c.n - 1 && forall i :: i in observers ==> 0 < i < c.n
    ensures forall i :: 0 < i < c.n ==> i in observers
  {
    var all := Below(c.n) - {0};
    BelowSize(c.n);
    assert 0 in Below(c.n);
    assert |all| == c.n - 1;
    assert observers.Keys <= all;
    assert |observers.Keys| == |observers|;
    SubsetSize(observers.Keys, all);
    forall i | 0 < i < c.n ensures i in observers {
      assert i in all;
    }
  }

  /** A new task list, with one task replaced. */
  lemma TasksReplace(c: Config, issued: nat, tasks: seq<Task>, i: nat, t: Task, db: Db)
    requires ValidConfig(c) && |tasks| == c.n && TasksOk(c, issued, tasks, db) && i < c.n
    requires i > 0 ==> TaskInv(c, i, issued, t, db)
    requires i == 0 ==> SelfLink(t, db) && AckOk(c, 0, issued, t)
    ensures TasksOk(c, issued, tasks[i := t], db)
  {
  }

  /** The coordinator's own start offset. */
  lemma OwnStart(c: Config, s: State, o: int)
    requires Inv(c, s) && s.pc == Accepting && |s.db.observers| >= c.n - 1
    ensures var db := s.db.(chronyStart := s.db.chronyStart[c.hosts[0] := o]);
      && TasksOk(c, 0, s.tasks, db) && RowsOk(c, db) && (forall i :: i in db.observers ==> 0 < i < c.n)
      && (forall i :: 0 < i < c.n ==> i in db.observers) && c.hosts[0] in db.chronyStart
  {
    var db := s.db.(chronyStart := s.db.chronyStart[c.hosts[0] := o]);
    SameRows(c, s.db, db);
    forall j | 0 <= j < c.n ensures SameFor(s.db, db, j) {
      StartSame(s.db, c.hosts[0], o, j);
    }
    TasksIssue(c, 0, 0, s.tasks, s.db, db);
    Pigeonhole(c, s.db.observers);
  }

  lemma StartSame(db: Db, host: string, o: int, j: nat)
    ensures SameFor(db, db.(chronyStart := db.chronyStart[host := o]), j)
  {
    var db' := db.(chronyStart := db.chronyStart[host := o]);
    forall x ensures SeenAt(db', x, j) == SeenAt(db, x, j) {
    }
  }

  lemma ReadyStep(c: Config, s: State, o: int, outcome: Option<int>)
    requires Inv(c, s) && s.pc == Accepting && |s.db.observers| >= c.n - 1
    ensures Inv(c, DoReady(c, s, o, outcome))
  {
    var db := s.db.(chronyStart := s.db.chronyStart[c.hosts[0] := o]);
    OwnStart(c, s, o);
    if outcome.Some? {
      var t := s.tasks[0].(registered := s.tasks[0].registered[c.warmup := outcome.value]);
      WarmupAck(c, s.tasks[0], t, outcome.value);
      TasksReplace(c, 0, s.tasks, 0, t, db);
    }
  }

  lemma WarmupAck(c: Config, t: Task, t': Task, tw: int)
    requires AckOk(c, 0, 0, t) && t' == t.(registered := t.registered[c.warmup := tw])
    ensures AckOk(c, 0, 0, t')
  {
    forall a | 0 <= a < |t.inbox| ensures !t.inbox[a].Write? {
      assert CommandOk(c, 0, 0, t.registered, t.inbox[a]);
    }
    forall a | 0 <= a < |t.sent| ensures !t.sent[a].WriterDone? {
      assert t.sent[a].WriterDone? ==> DoneOk(c, 0, 0, t.registered, t.sent[a]);
    }
    forall x | x in t'.registered ensures IssuedName(c, 0, 0, x) {
      assert x == c.warmup || x in t.registered;
    }
  }

  /** A task that has reported anything has had its start offset stored: hello and chrony_start come first. */
  lemma ReportImpliesStart(c: Config, i: nat, issued: nat, t: Task, db: Db, x: string)
    requires i < |c.hosts| && TaskInv(c, i, issued, t, db) && SeenAt(db, x, i).Some?
    ensures c.hosts[i] in db.chronyStart
  {
    if t.read == 1 {
      assert t.sent[..1] == [] + [t.sent[0]];
      NamesInSnoc([], t.sent[0]);
    }
  }

  lemma StabilizeStep(c: Config, s: State)
    requires Inv(c, s) && s.pc == Stabilizing
    requires forall i :: i in s.db.observers ==> SeenAt(s.db, c.warmup, i).Some?
    ensures Inv(c, s.(pc := Writing(0)))
  {
    forall i | 0 <= i < c.n ensures c.hosts[i] in s.db.chronyStart {
      if i > 0 {
        ReportImpliesStart(c, i, 0, s.tasks[i], s.db, c.warmup);
      }
    }
  }

  lemma NotYetRegistered(c: Config, k: nat, t: Task)
    requires NamesOk(c) && k < |c.writers| && AckOk(c, c.writers[k], k, t)
    ensures WriteName(c, k) !in t.registered
    ensures forall a :: 0 <= a < |t.inbox| && t.inbox[a].Write? ==> t.inbox[a].seqNo < k
  {
    assert !IssuedName(c, c.writers[k], k, WriteName(c, k)) by {
      assert WriteName(c, k) != c.warmup;
    }
    forall a | 0 <= a < |t.inbox| && t.inbox[a].Write? ensures t.inbox[a].seqNo < k {
      assert CommandOk(c, c.writers[k], k, t.registered, t.inbox[a]);
    }
  }

  lemma SendWriteAck(c: Config, k: nat, t: Task)
    requires NamesOk(c) && k < |c.writers| && AckOk(c, c.writers[k], k, t)
    ensures AckOk(c, c.writers[k], k + 1, t.(inbox := t.inbox + [Write(k, WriteName(c, k))]))
  {
    NotYetRegistered(c, k, t);
    AckGrows(c, c.writers[k], k, k + 1, t);
    var t' := t.(inbox := t.inbox + [Write(k, WriteName(c, k))]);
    forall a | 0 <= a < |t'.inbox| ensures CommandOk(c, c.writers[k], k + 1, t'.registered, t'.inbox[a]) {
      if a < |t.inbox| {
        assert CommandOk(c, c.writers[k], k + 1, t.registered, t.inbox[a]);
      }
    }
  }

  lemma SelfWriteAck(c: Config, k: nat, t: Task, tw: int)
    requires NamesOk(c) && k < |c.writers| && c.writers[k] == 0 && AckOk(c, 0, k, t)
    ensures AckOk(c, 0, k + 1, t.(registered := t.registered[WriteName(c, k) := tw]))
    ensures Grows(t, t.(registered := t.registered[WriteName(c, k) := tw]))
  {
    NotYetRegistered(c, k, t);
    AckGrows(c, 0, k, k + 1, t);
    var t' := t.(registered := t.registered[WriteName(c, k) := tw]);
    forall a | 0 <= a < |t.inbox| ensures CommandOk(c, 0, k + 1, t'.registered, t'.inbox[a]) {
      assert CommandOk(c, 0, k, t.registered, t.inbox[a]);
      if t.inbox[a].Write? {
        NamesDiffer(c, k, t.inbox[a].seqNo);
      }
    }
    forall a | 0 <= a < |t.sent| && t.sent[a].WriterDone? ensures DoneOk(c, 0, k + 1, t'.registered, t'.sent[a]) {
      assert DoneOk(c, 0, k, t.registered, t.sent[a]);
    }
    forall x | x in t'.registered ensures IssuedName(c, 0, k + 1, x) {
      assert x == WriteName(c, k) || IssuedName(c, 0, k + 1, x);
    }
  }

  lemma FailStep(c: Config, s: State, k: nat)
    requires Inv(c, s) && (s.pc == Writing(k) || s.pc == AwaitAck(k)) && k < |c.writers|
    ensures Inv(c, s.(records := s.records + [FailedRecord(c, k)], pc := Writing(k + 1)))
  {
    RecordAdded(c, s, k, FailedRecord(c, k));
  }

  lemma SelfWriteTasks(c: Config, k: nat, tasks: seq<Task>, db: Db, tw: int)
    requires ValidConfig(c) && |tasks| == c.n && k < |c.writers| && c.writers[k] == 0 && TasksOk(c, k, tasks, db)
    ensures var t := tasks[0].(registered := tasks[0].registered[WriteName(c, k) := tw]);
      TasksOk(c, k + 1, tasks[0 := t], db) && AllGrow(tasks, tasks[0 := t])
  {
    TasksIssue(c, k, k + 1, tasks, db, db);
    SelfWriteAck(c, k, tasks[0], tw);
    TasksReplace(c, k + 1, tasks, 0, tasks[0].(registered := tasks[0].registered[WriteName(c, k) := tw]), db);
  }

  lemma SelfWriteStep(c: Config, s: State, k: nat, tw: int)
    requires Inv(c, s) && s.pc == Writing(k) && k < |c.writers| && c.writers[k] == 0
    ensures Inv(c, DoBeginWrite(c, s, k, Some(tw)))
  {
    var t := s.tasks[0].(registered := s.tasks[0].registered[WriteName(c, k) := tw]);
    SelfWriteTasks(c, k, s.tasks, s.db, tw);
    LoopStep(c, s, s.tasks[0 := t], AwaitSeen(k, tw));
  }

  /** A step of the write loop that leaves the table and the records alone. */
  lemma LoopStep(c: Config, s: State, tasks: seq<Task>, pc: Pc)
    requires Inv(c, s) && Stable(s.pc) && Stable(pc) && |tasks| == c.n && AllGrow(s.tasks, tasks)
    requires TasksOk(c, Issued(c, pc), tasks, s.db) && PcOk(c, State(tasks, s.db, pc, s.records))
    ensures Inv(c, State(tasks, s.db, pc, s.records))
  {
    RecordsGrow(c, s.tasks, tasks, s.records);
  }

  lemma SendWriteTasks(c: Config, k: nat, tasks: seq<Task>, db: Db, t: Task)
    requires ValidConfig(c) && |tasks| == c.n && k < |c.writers| && c.writers[k] != 0 && TasksOk(c, k, tasks, db)
    requires t == tasks[c.writers[k]].(inbox := tasks[c.writers[k]].inbox + [Write(k, WriteName(c, k))])
    ensures TasksOk(c, k + 1, tasks[c.writers[k] := t], db)
  {
    var w := c.writers[k];
    TasksIssue(c, k, k + 1, tasks, db, db);
    assert TaskInv(c, w, k, tasks[w], db) && TaskInv(c, w, k + 1, tasks[w], db);
    SendWriteAck(c, k, tasks[w]);
    InboxKeepsTask(c, w, k + 1, tasks[w], t, db);
    TasksReplace(c, k + 1, tasks, w, t, db);
  }

  lemma SendWriteStep(c: Config, s: State, k: nat, outcome: Option<int>)
    requires Inv(c, s) && s.pc == Writing(k) && k < |c.writers| && c.writers[k] != 0
    ensures Inv(c, DoBeginWrite(c, s, k, outcome))
  {
    var w := c.writers[k];
    var t := s.tasks[w].(inbox := s.tasks[w].inbox + [Write(k, WriteName(c, k))]);
    assert w in s.db.observers;
    SendWriteTasks(c, k, s.tasks, s.db, t);
    GrowsOne(s.tasks, w, t);
    LoopStep(c, s, s.tasks[w := t], AwaitAck(k));
  }

  lemma AckPc(c: Config, s: State, k: nat, t: int)
    requires ValidConfig(c) && |s.tasks| == c.n && PcOk(c, s) && s.pc == AwaitAck(k) && RegisteredAs(c, s.tasks, k, t)
    ensures PcOk(c, s.(pc := AwaitSeen(k, t)))
  {
  }

  lemma AckRegistered(c: Config, s: State, k: nat)
    requires Inv(c, s) && s.pc == AwaitAck(k) && k < |c.writers| && (c.writers[k], k) in s.db.writerDone
    ensures RegisteredAs(c, s.tasks, k, s.db.writerDone[(c.writers[k], k)])
  {
    var w := c.writers[k];
    TaskOf(c, s, w);
    AckIsRegistration(c, w, k + 1, s.tasks[w], s.db, k);
  }

  lemma AckStep(c: Config, s: State, k: nat)
    requires Inv(c, s) && s.pc == AwaitAck(k) && k < |c.writers| && (c.writers[k], k) in s.db.writerDone
    ensures Inv(c, s.(pc := AwaitSeen(k, s.db.writerDone[(c.writers[k], k)])))
  {
    var t := s.db.writerDone[(c.writers[k], k)];
    AckRegistered(c, s, k);
    AckPc(c, s, k, t);
    PcChange(c, s, AwaitSeen(k, t));
  }

  lemma TaskOf(c: Config, s: State, i: nat)
    requires Inv(c, s) && 0 < i < c.n
    ensures TaskInv(c, i, Issued(c, s.pc), s.tasks[i], s.db)
  {
  }

  lemma PcChange(c: Config, s: State, pc: Pc)
    requires Inv(c, s) && Issued(c, pc) == Issued(c, s.pc) && Polls(pc) == Polls(s.pc) && Stable(pc) == Stable(s.pc)
    requires PcOk(c, s.(pc := pc))
    ensures Inv(c, s.(pc := pc))
  {
  }

  lemma RowIsFirstPoll(c: Config, s: State, x: string, i: nat)
    requires Inv(c, s) && SeenAt(s.db, x, i).Some?
    ensures i < c.n && SeenAt(s.db, x, i) == FirstPoll(s.tasks[i].polls, x)
  {
    assert i < c.n;
    if i > 0 {
      TaskOf(c, s, i);
    }
  }

  lemma CollectedOk(c: Config, s: State, k: nat, r: Record)
    requires Inv(c, s) && k < |c.writers|
    requires r.writer == c.writers[k] && r.name == WriteName(c, k) && r.seen == Collected(c, s.db, r.writer, r.name)
    ensures SightingsOk(c, s.tasks, r)
  {
    forall x | x in r.seen
      ensures x < c.n && (r.seen[x].At? ==> FirstPoll(s.tasks[x].polls, r.name) == Some(r.seen[x].ns)) {
      if r.seen[x].At? {
        assert SeenAt(s.db, r.name, x) == Some(r.seen[x].ns);
        RowIsFirstPoll(c, s, r.name, x);
      }
    }
  }

  lemma CollectStep(c: Config, s: State, k: nat, tw: int)
    requires Inv(c, s) && s.pc == AwaitSeen(k, tw) && k < |c.writers|
    ensures Inv(c, DoCollect(c, s, k, tw))
  {
    var s' := DoCollect(c, s, k, tw);
    CollectedOk(c, s, k, s'.records[k]);
    RecordAdded(c, s, k, s'.records[k]);
  }

  /** One more good record ends the round. */
  lemma RecordAdded(c: Config, s: State, k: nat, r: Record)
    requires Inv(c, s) && Stable(s.pc) && |s.records| == k < |c.writers| && RecordOk(c, s.tasks, k, r)
    requires Issued(c, s.pc) <= k + 1
    ensures Inv(c, s.(records := s.records + [r], pc := Writing(k + 1)))
  {
    TasksIssue(c, Issued(c, s.pc), k + 1, s.tasks, s.db, s.db);
  }

  lemma StopAck(c: Config, i: nat, issued: nat, t: Task)
    requires AckOk(c, i, issued, t)
    ensures AckOk(c, i, issued, t.(inbox := t.inbox + [Stop]))
  {
    var t' := t.(inbox := t.inbox + [Stop]);
    forall a | 0 <= a < |t'.inbox| ensures CommandOk(c, i, issued, t'.registered, t'.inbox[a]) {
      if a < |t.inbox| {
        assert CommandOk(c, i, issued, t.registered, t.inbox[a]);
      }
    }
  }

  lemma StopTasks(c: Config, issued: nat, tasks: seq<Task>, db: Db)
    requires ValidConfig(c) && |tasks| == c.n && TasksOk(c, issued, tasks, db) && 0 !in db.observers
    ensures TasksOk(c, issued, StopEveryone(tasks, db.observers), db)
    ensures AllGrow(tasks, StopEveryone(tasks, db.observers))
  {
    var tasks' := StopEveryone(tasks, db.observers);
    forall i | 0 < i < c.n ensures TaskInv(c, i, issued, tasks'[i], db) {
      assert TaskInv(c, i, issued, tasks[i], db);
      StopAck(c, i, issued, tasks[i]);
      InboxKeepsTask(c, i, issued, tasks[i], tasks'[i], db);
    }
  }

  lemma StopStep(c: Config, s: State, o: int)
    requires Inv(c, s) && s.pc == Writing(|c.writers|)
    ensures Inv(c, DoStop(c, s, o))
  {
    var n := |c.writers|;
    var tasks, db := StopEveryone(s.tasks, s.db.observers), s.db.(chronyEnd := s.db.chronyEnd[c.hosts[0] := o]);
    StopTasks(c, n, s.tasks, s.db);
    TasksIssue(c, n, n, tasks, s.db, db);
    RecordsGrow(c, s.tasks, tasks, s.records);
    SameRows(c, s.db, db);
    TablePeers(c, s, db);
    InvOf(c, State(tasks, db, Draining, s.records));
  }

  lemma InvOf(c: Config, s: State)
    requires ValidConfig(c) && |s.tasks| == c.n && TasksOk(c, Issued(c, s.pc), s.tasks, s.db)
    requires PeersOk(c, s) && PcOk(c, s) && RecordsOk(c, s.tasks, s.records)
    ensures Inv(c, s)
  {
  }

  lemma {:induction false} NodesInOrder(c: Config, observers: map<nat, string>, m: nat)
    requires ValidConfig(c) && m <= c.n && 0 !in observers
    requires forall i :: 0 < i < c.n ==> i in observers && observers[i] == c.hosts[i]
    ensures var r := ObserverNodes(observers, m);
      |r| == (if m == 0 then 0 else m - 1) && forall i :: 0 <= i < |r| ==> r[i] == Node(i + 1, c.hosts[i + 1])
  {
    if m > 0 {
      NodesInOrder(c, observers, m - 1);
    }
  }

  lemma ObserverHosts(c: Config, s: State, i: nat)
    requires Inv(c, s) && Polls(s.pc) && 0 < i < c.n
    ensures i in s.db.observers && s.db.observers[i] == c.hosts[i]
  {
    TaskOf(c, s, i);
  }

  lemma NodesOk(c: Config, observers: map<nat, string>)
    requires ValidConfig(c) && 0 !in observers
    requires forall i :: 0 < i < c.n ==> i in observers && observers[i] == c.hosts[i]
    ensures var nodes := [Node(0, c.hosts[0])] + ObserverNodes(observers, c.n);
      |nodes| == c.n && forall i :: 0 <= i < c.n ==> nodes[i] == Node(i, c.hosts[i])
  {
    NodesInOrder(c, observers, c.n);
  }

  lemma PublishStep(c: Config, s: State)
    requires Inv(c, s) && s.pc == Draining
    ensures Inv(c, s.(pc := Done(ResultsOf(c, s))))
  {
    forall i | 0 < i < c.n ensures i in s.db.observers && s.db.observers[i] == c.hosts[i] {
      ObserverHosts(c, s, i);
    }
    NodesOk(c, s.db.observers);
    PcChange(c, s, Done(ResultsOf(c, s)));
  }

  // ---- All steps, all runs ----

  lemma InitInv(c: Config)
    requires ValidConfig(c)
    ensures Inv(c, Init(c))
  {
    var s := Init(c);
    forall i | 0 < i < c.n ensures TaskInv(c, i, 0, s.tasks[i], s.db) {
      assert s.tasks[i] == IDLE_TASK;
      assert IDLE_TASK.sent[..0] == [];
    }
  }

  lemma TaskStepInv(c: Config, s: State, step: Step)
    requires Inv(c, s)
    requires step.Greet? || step.SendStart? || step.PollTable? || step.Obey? || step.Finish? || step.Accept? ||
      step.DrainOne?
    ensures Inv(c, Apply(c, s, step))
  {
    if Apply(c, s, step) != s {
      match step
      case Greet(i) => GreetStep(c, s, i);
      case SendStart(i, o) => StartStep(c, s, i, o);
      case PollTable(i, t0, names) =>
        if i == 0 {
          SelfPollStep(c, s, t0, names);
        } else {
          PollStep(c, s, i, t0, names);
        }
      case Obey(i, outcome) => ObeyStep(c, s, i, outcome);
      case Finish(i, o) => FinishStep(c, s, i, o);
      case Accept(i) => AcceptStep(c, s, i);
      case DrainOne(i) => DrainStep(c, s, i);
    }
  }

  lemma LoopStepInv(c: Config, s: State, step: Step)
    requires Inv(c, s) && (step.BeginWrite? || step.Ack? || step.NoAck? || step.Collect?)
    ensures Inv(c, Apply(c, s, step))
  {
    if Apply(c, s, step) != s {
      var k := s.pc.k;
      match step
      case BeginWrite(outcome) =>
        if c.writers[k] != 0 {
          SendWriteStep(c, s, k, outcome);
        } else if outcome.Some? {
          SelfWriteStep(c, s, k, outcome.value);
        } else {
          FailStep(c, s, k);
        }
      case Ack => AckStep(c, s, k);
      case NoAck => FailStep(c, s, k);
      case Collect => CollectStep(c, s, k, s.pc.tWrite);
    }
  }

  lemma MainStepInv(c: Config, s: State, step: Step)
    requires Inv(c, s) && (step.Ready? || step.GiveUp? || step.Stabilize? || step.StopAll? || step.Publish?)
    ensures Inv(c, Apply(c, s, step))
  {
    if Apply(c, s, step) != s {
      match step
      case Ready(o, outcome) => ReadyStep(c, s, o, outcome);
      case GiveUp =>
      case Stabilize => StabilizeStep(c, s);
      case StopAll(o) => StopStep(c, s, o);
      case Publish => PublishStep(c, s);
    }
  }

  lemma StepInv(c: Config, s: State, step: Step)
    requires Inv(c, s)
    ensures Inv(c, Apply(c, s, step))
  {
    match step
    case Greet(_) => TaskStepInv(c, s, step);
    case SendStart(_, _) => TaskStepInv(c, s, step);
    case PollTable(_, _, _) => TaskStepInv(c, s, step);
    case Enter =>
      if s.tasks[0].pending != [] {
        EnterStep(c, s);
      }
    case Obey(_, _) => TaskStepInv(c, s, step);
    case Finish(_, _) => TaskStepInv(c, s, step);
    case Accept(_) => TaskStepInv(c, s, step);
    case DrainOne(_) => TaskStepInv(c, s, step);
    case BeginWrite(_) => LoopStepInv(c, s, step);
    case Ack => LoopStepInv(c, s, step);
    case NoAck => LoopStepInv(c, s, step);
    case Collect => LoopStepInv(c, s, step);
    case _ => MainStepInv(c, s, step);
  }

  /** The invariant holds after every list of steps. */
  lemma {:induction false} ExecInv(c: Config, steps: seq<Step>)
    requires ValidConfig(c)
    ensures Inv(c, Exec(c, steps))
  {
    if steps == [] {
      InitInv(c);
    } else {
      var before, step := steps[..|steps| - 1], steps[|steps| - 1];
      ExecInv(c, before);
      StepInv(c, Exec(c, before), step);
    }
  }

  // ---- What this means ----

  /** The coordinator never looks up an observer that it does not know. */
  lemma NeverCrashes(c: Config, steps: seq<Step>)
    requires ValidConfig(c)
    ensures !Exec(c, steps).pc.Crashed?
  {
    ExecInv(c, steps);
  }

  /** Once stabilization has succeeded, every task's host has a start offset. */
  lemma EveryHostHasStart(c: Config, steps: seq<Step>, i: nat)
    requires ValidConfig(c) && i < c.n && Stable(Exec(c, steps).pc)
    ensures c.hosts[i] in Exec(c, steps).db.chronyStart
    ensures i > 0 ==> i in Exec(c, steps).db.observers && Exec(c, steps).db.observers[i] == c.hosts[i]
  {
    ExecInv(c, steps);
    if i > 0 {
      ObserverHosts(c, Exec(c, steps), i);
    }
  }

  /** A stored sighting is the start of that task's first successful poll that showed the name. */
  lemma SightingsAreFirstPolls(c: Config, steps: seq<Step>, x: string, i: nat)
    requires ValidConfig(c) && SeenAt(Exec(c, steps).db, x, i).Some?
    ensures i < c.n && SeenAt(Exec(c, steps).db, x, i) == FirstPoll(Exec(c, steps).tasks[i].polls, x)
  {
    ExecInv(c, steps);
    RowIsFirstPoll(c, Exec(c, steps), x, i);
  }

  lemma DrainKeepsSighting(c: Config, issued: nat, t: Task, db: Db, j: nat, host: string, x: string, i: nat)
    requires j < |c.hosts| && TaskInv(c, j, issued, t, db) && 1 <= t.read < |t.sent| && SeenAt(db, x, i).Some?
    ensures SeenAt(Handled(db, j, host, t.sent[t.read]), x, i) == SeenAt(db, x, i)
  {
    var m := t.sent[t.read];
    assert ReportOk(t.sent[..t.read], m, t.polls);
    if m.Seen? {
      PutReport(db, m.events, j, x, i);
    }
  }

  lemma EnterKeepsSighting(c: Config, s: State, x: string, i: nat)
    requires Inv(c, s) && s.tasks[0].pending != [] && SeenAt(s.db, x, i).Some?
    ensures SeenAt(DoEnter(s).db, x, i) == SeenAt(s.db, x, i)
  {
    var p := s.tasks[0].pending;
    PendingTail(p);
    PutReport(s.db, [p[0]], 0, x, i);
  }

  /** Only reading a report and entering an own sighting write to the table of sightings. */
  lemma OtherStepsKeepSeen(c: Config, s: State, step: Step)
    requires ValidConfig(c) && |s.tasks| == c.n && !step.DrainOne? && !step.Enter?
    ensures Apply(c, s, step).db.seen == s.db.seen
  {
  }

  lemma StepKeepsSighting(c: Config, s: State, step: Step, x: string, i: nat)
    requires Inv(c, s) && SeenAt(s.db, x, i).Some?
    ensures SeenAt(Apply(c, s, step).db, x, i) == SeenAt(s.db, x, i)
  {
    if step.DrainOne? {
      var j := step.i;
      if 0 < j < c.n && j in s.db.observers && s.tasks[j].read < |s.tasks[j].sent| {
        TaskOf(c, s, j);
        DrainKeepsSighting(c, Issued(c, s.pc), s.tasks[j], s.db, j, s.db.observers[j], x, i);
      }
    } else if step.Enter? {
      if s.tasks[0].pending != [] {
        EnterKeepsSighting(c, s, x, i);
      }
    } else {
      OtherStepsKeepSeen(c, s, step);
    }
  }

  /** A stored sighting never changes, whatever happens next. */
  lemma SightingsNeverChange(c: Config, steps: seq<Step>, step: Step, x: string, i: nat)
    requires ValidConfig(c) && SeenAt(Exec(c, steps).db, x, i).Some?
    ensures SeenAt(Apply(c, Exec(c, steps), step).db, x, i) == SeenAt(Exec(c, steps).db, x, i)
  {
    ExecInv(c, steps);
    StepKeepsSighting(c, Exec(c, steps), step, x, i);
  }

  lemma ExecSnoc(c: Config, steps: seq<Step>, step: Step)
    requires ValidConfig(c)
    ensures Exec(c, steps + [step]) == Apply(c, Exec(c, steps), step)
  {
    assert (steps + [step])[..|steps|] == steps;
  }

  /** The sighting `v` is stored after these steps. */
  ghost predicate Stored(c: Config, steps: seq<Step>, x: string, i: nat, v: int) {
    ValidConfig(c) && SeenAt(Exec(c, steps).db, x, i) == Some(v)
  }

  lemma StoredNext(c: Config, steps: seq<Step>, step: Step, after: seq<Step>, x: string, i: nat, v: int)
    requires Stored(c, steps, x, i, v) && after == steps + [step]
    ensures Stored(c, after, x, i, v)
  {
    SightingsNeverChange(c, steps, step, x, i);
    ExecSnoc(c, steps, step);
  }

  lemma StepsSplit(steps: seq<Step>, more: seq<Step>)
    requires more != []
    ensures steps + more == (steps + more[..|more| - 1]) + [more[|more| - 1]]
  {
  }

  /** Nor does it over the whole rest of the run. */
  lemma {:induction false} SightingsStay(c: Config, steps: seq<Step>, more: seq<Step>, x: string, i: nat, v: int)
    requires Stored(c, steps, x, i, v)
    ensures Stored(c, steps + more, x, i, v)
  {
    if more == [] {
      assert steps + more == steps;
    } else {
      var m := |more| - 1;
      SightingsStay(c, steps, more[..m], x, i, v);
      StepsSplit(steps, more);
      StoredNext(c, steps + more[..m], more[m], steps + more, x, i, v);
    }
  }

  /** A report that the coordinator is about to read never names an entry that exists. */
  lemma EntriesWrittenOnce(c: Config, steps: seq<Step>, i: nat, x: string)
    requires ValidConfig(c) && 0 < i < c.n && i in Exec(c, steps).db.observers
    requires var t := Exec(c, steps).tasks[i]; t.read < |t.sent| && x in NamesOf(t.sent[t.read])
    ensures SeenAt(Exec(c, steps).db, x, i) == None
  {
    ExecInv(c, steps);
    var s := Exec(c, steps);
    TaskOf(c, s, i);
    ReportNamesNew(c, i, Issued(c, s.pc), s.tasks[i], s.db, x);
  }

  /** A stored acknowledgement is the time at which that task registered the name of that round. */
  lemma AcksAreRegistrations(c: Config, steps: seq<Step>, i: nat, k: nat)
    requires ValidConfig(c) && 0 < i < c.n && (i, k) in Exec(c, steps).db.writerDone
    ensures var s := Exec(c, steps);
      && k < |c.writers| && WriteName(c, k) in s.tasks[i].registered
      && s.tasks[i].registered[WriteName(c, k)] == s.db.writerDone[(i, k)]
  {
    ExecInv(c, steps);
    var s := Exec(c, steps);
    TaskOf(c, s, i);
    AckIsRegistration(c, i, Issued(c, s.pc), s.tasks[i], s.db, k);
  }

  /** The published results are fit for aggregation. */
  lemma PublishedResultsOk(c: Config, steps: seq<Step>)
    requires ValidConfig(c) && Exec(c, steps).pc.Done?
    ensures ResultsOk(c, Exec(c, steps).tasks, Exec(c, steps).pc.results)
  {
    ExecInv(c, steps);
  }

  /** At every moment there is one record per finished round, in order, each drawn from its own name. */
  lemma RecordsInOrder(c: Config, steps: seq<Step>, j: nat)
    requires ValidConfig(c) && j < |Exec(c, steps).records|
    ensures RecordOk(c, Exec(c, steps).tasks, j, Exec(c, steps).records[j])
    ensures |Exec(c, steps).records| <= |c.writers|
  {
    ExecInv(c, steps);
    assert RecordOk(c, Exec(c, steps).tasks, |Exec(c, steps).records| - 1,
      Exec(c, steps).records[|Exec(c, steps).records| - 1]);
  }
}
