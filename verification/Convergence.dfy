/** The convergence benchmark of contrib/benchmark_convergence: a coordinator (task 0) and observers
    (tasks 1 .. n-1) that talk over one first-in-first-out stream in each direction. The threads of
    coordinator.py and observer.py become atomic steps that may interleave in any order; deadlines become
    steps that may be taken at any time. */
module Convergence {
  import opened Counting
  import opened Decimal
  import opened Options

  const PREFIX := "convbench-w"

  predicate Watched(name: string) {
    PREFIX <= name
  }

  function WarmupName(runId: string, suffix: string): string {
    "convbench-warmup-" + runId + "-" + suffix
  }

  function NameFor(runId: string, seqNo: nat, writer: nat): string {
    "convbench-w-" + runId + "-s" + Dec(seqNo) + "-" + Dec(writer)
  }

  /** One cell of the benchmark: the hosts of the tasks, the warmup name, and for every round of the write
      loop the writer and the name to be written. */
  datatype Config = Config(n: nat, hosts: seq<string>, warmup: string, writers: seq<nat>, names: seq<string>)

  /** The cell for a run id, a random tail of the warmup name and a choice of writers. */
  function MakeConfig(hosts: seq<string>, runId: string, suffix: string, writers: seq<nat>): Config {
    Config(|hosts|, hosts, WarmupName(runId, suffix), writers,
           seq(|writers|, k requires 0 <= k < |writers| => NameFor(runId, k, writers[k])))
  }

  function WriteName(c: Config, k: nat): string {
    if k < |c.names| then c.names[k] else ""
  }

  ghost predicate NamesOk(c: Config) {
    && |c.names| == |c.writers|
    && Watched(c.warmup)
    && (forall k :: 0 <= k < |c.names| ==> Watched(c.names[k]) && c.names[k] != c.warmup)
    && (forall j, k :: 0 <= j < k < |c.names| ==> c.names[j] != c.names[k])
  }

  ghost predicate ValidConfig(c: Config) {
    && 1 <= c.n == |c.hosts|
    && (forall k :: 0 <= k < |c.writers| ==> c.writers[k] < c.n)
    && NamesOk(c)
  }

  // ---- Messages ----

  datatype SeenEvent = SeenEvent(name: string, seenNs: int)

  datatype Msg =
    | Hello(task: nat, host: string)
    | ChronyStart(offsetNs: int)
    | ChronyEnd(offsetNs: int)
    | Seen(events: seq<SeenEvent>)
    | WriterDone(seqNo: nat, tWriteNs: int)
    | WriterError(seqNo: nat)
    | Bye

  datatype Cmd = Write(seqNo: nat, name: string) | Stop

  // ---- The coordinator's `_State` ----

  type SeenTable = map<string, map<nat, int>>

  datatype Db = Db(observers: map<nat, string>, chronyStart: map<string, int>, chronyEnd: map<string, int>,
                   seen: SeenTable, writerDone: map<(nat, nat), int>, writerError: set<(nat, nat)>)

  const EMPTY_DB := Db(map[], map[], map[], map[], map[], {})

  /** `seen.setdefault(name, {})[task] = t`. */
  function PutSeen(seen: SeenTable, name: string, task: nat, t: int): SeenTable {
    seen[name := (if name in seen then seen[name] else map[])[task := t]]
  }

  function PutAll(seen: SeenTable, events: seq<SeenEvent>, task: nat): SeenTable
    decreases |events|
  {
    if events == [] then seen
    else PutAll(PutSeen(seen, events[0].name, task, events[0].seenNs), events[1..], task)
  }

  /** What one message does to the state. */
  function Handled(db: Db, task: nat, host: string, m: Msg): Db {
    match m
    case ChronyStart(o) => db.(chronyStart := db.chronyStart[host := o])
    case ChronyEnd(o) => db.(chronyEnd := db.chronyEnd[host := o])
    case Seen(events) => db.(seen := PutAll(db.seen, events, task))
    case WriterDone(k, t) => db.(writerDone := db.writerDone[(task, k) := t])
    case WriterError(k) => db.(writerError := db.writerError + {(task, k)})
    case _ => db
  }

  function SeenAt(db: Db, name: string, task: nat): Option<int> {
    if name in db.seen && task in db.seen[name] then Some(db.seen[name][task]) else None
  }

  class CoordinatorState {
    var observers: map<nat, string>
    var chronyStart: map<string, int>
    var chronyEnd: map<string, int>
    var seen: SeenTable
    var writerDone: map<(nat, nat), int>
    var writerError: set<(nat, nat)>

    function Contents(): Db
      reads this
    {
      Db(observers, chronyStart, chronyEnd, seen, writerDone, writerError)
    }

    constructor ()
      ensures Contents() == EMPTY_DB
    {
      observers, chronyStart, chronyEnd := map[], map[], map[];
      seen, writerDone, writerError := map[], map[], {};
    }

    /** The body of the loop of `_drain_observer`. */
    method Drain(task: nat, host: string, m: Msg)
      modifies this
      ensures Contents() == Handled(old(Contents()), task, host, m)
    {
      match m {
        case ChronyStart(o) => chronyStart := chronyStart[host := o];
        case ChronyEnd(o) => chronyEnd := chronyEnd[host := o];
        case Seen(events) =>
          for i := 0 to |events|
            invariant Contents() == old(Contents()).(seen := seen)
            invariant PutAll(seen, events[i..], task) == PutAll(old(seen), events, task)
          {
            assert events[i..][0] == events[i] && events[i..][1..] == events[i + 1..];
            MarkSeen(events[i].name, task, events[i].seenNs);
          }
        case WriterDone(k, t) => writerDone := writerDone[(task, k) := t];
        case WriterError(k) => writerError := writerError + {(task, k)};
        case Hello(_, _) =>
        case Bye =>
      }
    }

    method MarkSeen(name: string, task: nat, t: int)
      modifies this`seen
      ensures seen == PutSeen(old(seen), name, task, t)
    {
      if name !in seen {
        seen := seen[name := map[]];
      }
      var row: map<nat, int> := seen[name];
      row := row[task := t];
      seen := seen[name := row];
    }

    /** What `_wait_seen_by_all` returns once it stops waiting. */
    method Snapshot(name: string, expected: set<nat>) returns (sightings: map<nat, int>, missing: set<nat>)
      ensures forall i :: SeenAt(Contents(), name, i) == if i in sightings then Some(sightings[i]) else None
      ensures missing == set i | i in expected && SeenAt(Contents(), name, i).None?
    {
      sightings := if name in seen then seen[name] else map[];
      missing := expected - sightings.Keys;
    }
  }

  // ---- Polling ----

  /** One successful poll: when it started and the service names it showed, in order. */
  datatype Poll = Poll(t0: int, names: seq<string>)

  /** The start of the first poll that showed `name`. */
  function FirstPoll(polls: seq<Poll>, name: string): Option<int> {
    if polls == [] then None
    else
      var f := FirstPoll(polls[..|polls| - 1], name);
      var last := polls[|polls| - 1];
      if f.Some? then f else if name in last.names then Some(last.t0) else None
  }

  /** The watched names that are shown for the first time. */
  function Fresh(names: seq<string>, known: set<string>): seq<string> {
    if names == [] then []
    else if Watched(names[0]) && names[0] !in known then [names[0]] + Fresh(names[1..], known + {names[0]})
    else Fresh(names[1..], known)
  }

  function EventsAt(names: seq<string>, t0: int): (r: seq<SeenEvent>)
    ensures |r| == |names| && forall i :: 0 <= i < |r| ==> r[i] == SeenEvent(names[i], t0)
  {
    seq(|names|, i requires 0 <= i < |names| => SeenEvent(names[i], t0))
  }

  function NameSet(names: seq<string>): set<string> {
    set x | x in names
  }

  lemma FreshNext(names: seq<string>, i: nat, known: set<string>)
    requires i < |names|
    ensures var x, rest := names[i], names[i + 1..];
      Fresh(names[i..], known) ==
      if Watched(x) && x !in known then [x] + Fresh(rest, known + {x}) else Fresh(rest, known)
  {
    assert names[i..][0] == names[i] && names[i..][1..] == names[i + 1..];
  }

  lemma OneMoreName(done: seq<string>, x: string, t0: int)
    ensures EventsAt(done + [x], t0) == EventsAt(done, t0) + [SeenEvent(x, t0)]
    ensures NameSet(done + [x]) == NameSet(done) + {x}
  {
  }

  /** The first `i` names have been looked at: `done` are the new ones among them. */
  ghost predicate Scanned(names: seq<string>, i: nat, before: set<string>, t0: int, done: seq<string>,
    events: seq<SeenEvent>, known: set<string>)
    requires i <= |names|
  {
    && Fresh(names, before) == done + Fresh(names[i..], known)
    && events == EventsAt(done, t0) && known == before + NameSet(done)
  }

  lemma ScanNext(names: seq<string>, i: nat, before: set<string>, t0: int, done: seq<string>, events: seq<SeenEvent>,
    known: set<string>)
    requires i < |names| && Scanned(names, i, before, t0, done, events, known)
    ensures var x := names[i];
      if Watched(x) && x !in known
      then Scanned(names, i + 1, before, t0, done + [x], events + [SeenEvent(x, t0)], known + {x})
      else Scanned(names, i + 1, before, t0, done, events, known)
  {
    FreshNext(names, i, known);
    OneMoreName(done, names[i], t0);
    if Watched(names[i]) && names[i] !in known {
      var rest := Fresh(names[i + 1..], known + {names[i]});
      assert done + ([names[i]] + rest) == (done + [names[i]]) + rest;
    }
  }

  lemma ScanEnds(names: seq<string>, before: set<string>, t0: int, done: seq<string>, events: seq<SeenEvent>,
    known: set<string>)
    requires Scanned(names, |names|, before, t0, done, events, known)
    ensures events == EventsAt(Fresh(names, before), t0) && known == before + NameSet(Fresh(names, before))
  {
    assert names[|names|..] == [] && done + [] == done;
  }

  /** The loops over the table in `_poll_dnt_loop`. */
  method ScanTable(names: seq<string>, known: set<string>, t0: int)
    returns (events: seq<SeenEvent>, known': set<string>)
    ensures events == EventsAt(Fresh(names, known), t0)
    ensures known' == known + NameSet(Fresh(names, known))
  {
    events, known' := [], known;
    ghost var done := [];
    assert Scanned(names, 0, known, t0, done, events, known') by {
      assert names[0..] == names && [] + Fresh(names, known) == Fresh(names, known);
    }
    for i := 0 to |names|
      invariant Scanned(names, i, known, t0, done, events, known')
    {
      ScanNext(names, i, known, t0, done, events, known');
      var name := names[i];
      if PREFIX <= name && name !in known' {
        known' := known' + {name};
        events := events + [SeenEvent(name, t0)];
        done := done + [name];
      }
    }
    ScanEnds(names, known, t0, done, events, known');
  }

  // ---- Tasks and the whole system ----

  datatype Phase = Idle | Greeted | Running | Stopped | Ended

  /** A task: its thread state, the stream it has written and how much of it the coordinator has read,
      its pending commands, and the history of its polls and of its acknowledged registrations. The coordinator
      sends nothing; `pending` holds what its last poll has shown but not yet entered into the table. */
  datatype Task = Task(phase: Phase, known: set<string>, sent: seq<Msg>, read: nat, inbox: seq<Cmd>,
                       polls: seq<Poll>, registered: map<string, int>, pending: seq<SeenEvent>)

  datatype Sighting = At(ns: int) | TimedOut

  /** An entry of `writes_record`; no `tWrite` means that the write failed. */
  datatype Record = Record(seqNo: nat, writer: nat, name: string, tWrite: Option<int>, seen: map<nat, Sighting>)

  datatype Node = Node(task: nat, host: string)

  /** results.json. */
  datatype Results = Results(nodes: seq<Node>, start: map<string, int>, end: map<string, int>,
                             writes: seq<Record>, flags: seq<string>)

  /** Where the coordinator's main thread stands. */
  datatype Pc =
    | Accepting
    | Stabilizing
    | Writing(k: nat)
    | AwaitAck(k: nat)
    | AwaitSeen(k: nat, tWrite: int)
    | Draining
    | Done(results: Results)
    | Failed
    | Crashed

  datatype State = State(tasks: seq<Task>, db: Db, pc: Pc, records: seq<Record>)

  const IDLE_TASK := Task(Idle, {}, [], 0, [], [], map[], [])

  function Init(c: Config): State {
    State(seq(c.n, _ => IDLE_TASK), EMPTY_DB, Accepting, [])
  }

  datatype Step =
    | Greet(i: nat)
    | SendStart(i: nat, offset: int)
    | PollTable(i: nat, t0: int, names: seq<string>)
    | Enter
    | Obey(i: nat, outcome: Option<int>)
    | Finish(i: nat, offset: int)
    | Accept(i: nat)
    | DrainOne(i: nat)
    | Ready(offset: int, outcome: Option<int>)
    | GiveUp
    | Stabilize
    | BeginWrite(outcome: Option<int>)
    | Ack
    | NoAck
    | Collect
    | StopAll(offset: int)
    | Publish

  function WithTask(s: State, i: nat, t: Task): State
    requires i < |s.tasks|
  {
    s.(tasks := s.tasks[i := t])
  }

  /** observer.py, `main`: the first message. */
  function DoGreet(c: Config, t: Task, i: nat, host: string): Task {
    t.(phase := Greeted, sent := t.sent + [Hello(i, host)])
  }

  /** A poll of an observer: new names go out in one message. */
  function DoPoll(t: Task, t0: int, names: seq<string>): Task {
    var news := Fresh(names, t.known);
    t.(known := t.known + NameSet(news), polls := t.polls + [Poll(t0, names)],
       sent := if news == [] then t.sent else t.sent + [Seen(EventsAt(news, t0))])
  }

  /** A poll of the coordinator itself, `_self_poll_loop`: the new names are entered one by one. */
  function DoSelfPoll(t: Task, t0: int, names: seq<string>): Task {
    var news := Fresh(names, t.known);
    t.(known := t.known + NameSet(news), polls := t.polls + [Poll(t0, names)], pending := EventsAt(news, t0))
  }

  /** One name goes into the table, under the lock. */
  function DoEnter(s: State): State
    requires 0 < |s.tasks| && s.tasks[0].pending != []
  {
    var t := s.tasks[0];
    WithTask(s, 0, t.(pending := t.pending[1..])).(db := s.db.(seen := PutAll(s.db.seen, [t.pending[0]], 0)))
  }

  /** `_handle_writes`: the next command. */
  function DoObey(t: Task, outcome: Option<int>): Task
    requires t.inbox != []
  {
    var rest := t.(inbox := t.inbox[1..]);
    match t.inbox[0]
    case Stop => rest.(phase := Stopped)
    case Write(k, name) =>
      match outcome
      case None => rest.(sent := t.sent + [WriterError(k)])
      case Some(tw) => rest.(sent := t.sent + [WriterDone(k, tw)], registered := t.registered[name := tw])
  }

  /** `_accept_loop`: the first message of a connection. */
  function DoAccept(s: State, i: nat): State
    requires i < |s.tasks| && s.tasks[i].sent != []
  {
    match s.tasks[i].sent[0]
    case Hello(task, host) =>
      WithTask(s, i, s.tasks[i].(read := 1)).(db := s.db.(observers := s.db.observers[task := host]))
    case _ => s
  }

  /** `_drain_observer`: the next message of an accepted connection. */
  function DoDrain(s: State, i: nat): State
    requires i < |s.tasks| && s.tasks[i].read < |s.tasks[i].sent| && i in s.db.observers
  {
    var t := s.tasks[i];
    WithTask(s, i, t.(read := t.read + 1)).(db := Handled(s.db, i, s.db.observers[i], t.sent[t.read]))
  }

  /** `main` once everyone is connected: the own start offset, and the warmup write. */
  function DoReady(c: Config, s: State, offset: int, outcome: Option<int>): State
    requires 0 < |c.hosts| && 0 < |s.tasks|
  {
    var s' := s.(db := s.db.(chronyStart := s.db.chronyStart[c.hosts[0] := offset]));
    match outcome
    case None => s'.(pc := Failed)
    case Some(tw) =>
      WithTask(s', 0, s.tasks[0].(registered := s.tasks[0].registered[c.warmup := tw])).(pc := Stabilizing)
  }

  function FailedRecord(c: Config, k: nat): Record
    requires k < |c.writers|
  {
    Record(k, c.writers[k], WriteName(c, k), None, map[])
  }

  /** `main`, the start of one round of the write loop. */
  function DoBeginWrite(c: Config, s: State, k: nat, outcome: Option<int>): State
    requires k < |c.writers| && 0 < |s.tasks|
  {
    var w, name := c.writers[k], WriteName(c, k);
    if w == 0 then
      match outcome
      case None => s.(records := s.records + [FailedRecord(c, k)], pc := Writing(k + 1))
      case Some(tw) =>
        WithTask(s, 0, s.tasks[0].(registered := s.tasks[0].registered[name := tw])).(pc := AwaitSeen(k, tw))
    else if w !in s.db.observers || w >= |s.tasks| then s.(pc := Crashed)
    else WithTask(s, w, s.tasks[w].(inbox := s.tasks[w].inbox + [Write(k, name)])).(pc := AwaitAck(k))
  }

  function Others(c: Config, w: nat): set<nat> {
    Below(c.n) - {w}
  }

  /** The `seen` entry of a record: the table's row for the name, and TIMEOUT for everyone else expected. */
  function Collected(c: Config, db: Db, w: nat, name: string): map<nat, Sighting> {
    var row := if name in db.seen then db.seen[name] else map[];
    map i | i in row.Keys + Others(c, w) :: if i in row then At(row[i]) else TimedOut
  }

  function DoCollect(c: Config, s: State, k: nat, tw: int): State
    requires k < |c.writers|
  {
    var w, name := c.writers[k], WriteName(c, k);
    s.(records := s.records + [Record(k, w, name, Some(tw), Collected(c, s.db, w, name))], pc := Writing(k + 1))
  }

  function StopEveryone(tasks: seq<Task>, observers: map<nat, string>): (r: seq<Task>)
    ensures |r| == |tasks|
  {
    seq(|tasks|, i requires 0 <= i < |tasks| =>
      if i in observers then tasks[i].(inbox := tasks[i].inbox + [Stop]) else tasks[i])
  }

  /** `main` after the write loop: the own end offset, and a stop command for everyone. */
  function DoStop(c: Config, s: State, offset: int): State
    requires 0 < |c.hosts|
  {
    s.(tasks := StopEveryone(s.tasks, s.db.observers),
       db := s.db.(chronyEnd := s.db.chronyEnd[c.hosts[0] := offset]), pc := Draining)
  }

  /** The observers below `n` in order of task id. */
  function ObserverNodes(observers: map<nat, string>, n: nat): seq<Node> {
    if n == 0 then []
    else ObserverNodes(observers, n - 1) + if n - 1 in observers then [Node(n - 1, observers[n - 1])] else []
  }

  const DRIFT_LIMIT_NS := 5_000_000

  function Abs(x: int): nat {
    if x < 0 then -x else x
  }

  predicate Drifts(start: map<string, int>, end: map<string, int>, host: string) {
    host in start && host in end && Abs(end[host] - start[host]) > DRIFT_LIMIT_NS
  }

  function DriftFlags(start: map<string, int>, end: map<string, int>): seq<string> {
    if exists h :: h in start && Drifts(start, end, h) then ["clock_drift"] else []
  }

  function ResultsOf(c: Config, s: State): Results
    requires 0 < |c.hosts|
  {
    Results([Node(0, c.hosts[0])] + ObserverNodes(s.db.observers, c.n), s.db.chronyStart, s.db.chronyEnd,
            s.records, DriftFlags(s.db.chronyStart, s.db.chronyEnd))
  }

  predicate Polls(p: Pc) {
    !p.Accepting? && !p.Failed? && !p.Crashed?
  }

  /** One step of the system; a step that is not possible changes nothing. */
  function Apply(c: Config, s: State, step: Step): State
    requires ValidConfig(c) && |s.tasks| == c.n
  {
    match step
    case Greet(i) =>
      if 0 < i < c.n && s.tasks[i].phase == Idle then WithTask(s, i, DoGreet(c, s.tasks[i], i, c.hosts[i])) else s
    case SendStart(i, o) =>
      if 0 < i < c.n && s.tasks[i].phase == Greeted
      then WithTask(s, i, s.tasks[i].(phase := Running, sent := s.tasks[i].sent + [ChronyStart(o)])) else s
    case PollTable(i, t0, names) =>
      if i == 0 then
        if Polls(s.pc) && s.tasks[0].pending == [] then WithTask(s, 0, DoSelfPoll(s.tasks[0], t0, names)) else s
      else if i < c.n && s.tasks[i].phase != Idle && s.tasks[i].phase != Greeted
      then WithTask(s, i, DoPoll(s.tasks[i], t0, names)) else s
    case Enter => if s.tasks[0].pending != [] then DoEnter(s) else s
    case Obey(i, outcome) =>
      if 0 < i < c.n && s.tasks[i].phase == Running && s.tasks[i].inbox != []
      then WithTask(s, i, DoObey(s.tasks[i], outcome)) else s
    case Finish(i, o) =>
      if 0 < i < c.n && s.tasks[i].phase == Stopped
      then WithTask(s, i, s.tasks[i].(phase := Ended, sent := s.tasks[i].sent + [ChronyEnd(o), Bye])) else s
    case Accept(i) =>
      if 0 < i < c.n && |s.db.observers| < c.n - 1 && s.tasks[i].read == 0 && s.tasks[i].sent != []
      then DoAccept(s, i) else s
    case DrainOne(i) =>
      if 0 < i < c.n && i in s.db.observers && s.tasks[i].read < |s.tasks[i].sent| then DoDrain(s, i) else s
    case Ready(o, outcome) =>
      if s.pc == Accepting && |s.db.observers| >= c.n - 1 then DoReady(c, s, o, outcome) else s
    case GiveUp => if s.pc.Accepting? || s.pc.Stabilizing? then s.(pc := Failed) else s
    case Stabilize =>
      if s.pc == Stabilizing && forall i :: i in s.db.observers ==> SeenAt(s.db, c.warmup, i).Some?
      then s.(pc := Writing(0)) else s
    case BeginWrite(outcome) =>
      if s.pc.Writing? && s.pc.k < |c.writers| then DoBeginWrite(c, s, s.pc.k, outcome) else s
    case Ack =>
      if s.pc.AwaitAck? && s.pc.k < |c.writers| && (c.writers[s.pc.k], s.pc.k) in s.db.writerDone
      then s.(pc := AwaitSeen(s.pc.k, s.db.writerDone[(c.writers[s.pc.k], s.pc.k)])) else s
    case NoAck =>
      if s.pc.AwaitAck? && s.pc.k < |c.writers|
      then s.(records := s.records + [FailedRecord(c, s.pc.k)], pc := Writing(s.pc.k + 1)) else s
    case Collect =>
      if s.pc.AwaitSeen? && s.pc.k < |c.writers| then DoCollect(c, s, s.pc.k, s.pc.tWrite) else s
    case StopAll(o) =>
      if s.pc == Writing(|c.writers|) then DoStop(c, s, o) else s
    case Publish => if s.pc == Draining then s.(pc := Done(ResultsOf(c, s))) else s
  }

  lemma ApplyKeepsTasks(c: Config, s: State, step: Step)
    requires ValidConfig(c) && |s.tasks| == c.n
    ensures |Apply(c, s, step).tasks| == c.n
  {
  }

  /** The state after any list of steps, in any interleaving. */
  function Exec(c: Config, steps: seq<Step>): (s: State)
    requires ValidConfig(c)
    ensures |s.tasks| == c.n
  {
    if steps == [] then Init(c)
    else
      var s := Exec(c, steps[..|steps| - 1]);
      ApplyKeepsTasks(c, s, steps[|steps| - 1]);
      Apply(c, s, steps[|steps| - 1])
  }
}
