/** What holds in every state of the convergence benchmark, whatever the interleaving. */
module ConvergenceProofs {
  import opened Convergence
  import opened Counting
  import opened Decimal
  import opened Options

  // ---- Names ----

  lemma DashSplit(a: string, b: string, x: string, y: string)
    requires AllDigits(a) && AllDigits(x) && a + "-" + b == x + "-" + y
    ensures a == x && b == y
  {
    var s, t := a + "-" + b, x + "-" + y;
    assert s[|a|] == '-' && t[|x|] == '-';
    assert forall k :: 0 <= k < |x| ==> t[k] == x[k] && IsDigit(x[k]);
    assert forall k :: 0 <= k < |a| ==> s[k] == a[k] && IsDigit(a[k]);
    assert |a| == |x|;
    assert s[..|a|] == a && t[..|x|] == x;
    assert s[|a| + 1..] == b && t[|x| + 1..] == y;
  }

  /** Within one run a write name determines its sequence number and its writer. */
  lemma NamesInjective(runId: string, k: nat, w: nat, k': nat, w': nat)
    requires NameFor(runId, k, w) == NameFor(runId, k', w')
    ensures k == k' && w == w'
  {
    var p := "convbench-w-" + runId + "-s";
    assert NameFor(runId, k, w) == p + (Dec(k) + "-" + Dec(w));
    assert NameFor(runId, k', w') == p + (Dec(k') + "-" + Dec(w'));
    assert (p + (Dec(k) + "-" + Dec(w)))[|p|..] == Dec(k) + "-" + Dec(w);
    assert (p + (Dec(k') + "-" + Dec(w')))[|p|..] == Dec(k') + "-" + Dec(w');
    DashSplit(Dec(k), Dec(w), Dec(k'), Dec(w'));
    DecInjective(k, k');
    DecInjective(w, w');
  }

  /** Every name is watched, and no write shares the name of the warmup. */
  lemma NamesWatched(runId: string, suffix: string, k: nat, w: nat)
    ensures Watched(NameFor(runId, k, w)) && Watched(WarmupName(runId, suffix))
    ensures NameFor(runId, k, w) != WarmupName(runId, suffix)
  {
    var tail := runId + "-s" + Dec(k) + "-" + Dec(w);
    var rest := runId + "-" + suffix;
    assert NameFor(runId, k, w) == PREFIX + ("-" + tail);
    assert WarmupName(runId, suffix) == PREFIX + ("armup-" + rest);
    assert NameFor(runId, k, w)[11] == '-' && WarmupName(runId, suffix)[11] == 'a';
  }

  /** The names of a cell keep its rounds and its warmup apart. */
  lemma CellIsValid(hosts: seq<string>, runId: string, suffix: string, writers: seq<nat>)
    requires |hosts| >= 1 && forall k :: 0 <= k < |writers| ==> writers[k] < |hosts|
    ensures ValidConfig(MakeConfig(hosts, runId, suffix, writers))
  {
    var c := MakeConfig(hosts, runId, suffix, writers);
    NamesWatched(runId, suffix, 0, 0);
    forall k | 0 <= k < |c.names| ensures Watched(c.names[k]) && c.names[k] != c.warmup {
      NamesWatched(runId, suffix, k, writers[k]);
    }
    forall j, k | 0 <= j < k < |c.names| ensures c.names[j] != c.names[k] {
      if c.names[j] == c.names[k] {
        NamesInjective(runId, j, writers[j], k, writers[k]);
      }
    }
  }

  // ---- Polls ----

  lemma FirstPollSnoc(polls: seq<Poll>, p: Poll, x: string)
    ensures FirstPoll(polls + [p], x) ==
            if FirstPoll(polls, x).Some? then FirstPoll(polls, x) else if x in p.names then Some(p.t0) else None
  {
    assert (polls + [p])[..|polls|] == polls;
  }

  lemma {:induction false} FreshMembers(names: seq<string>, known: set<string>, x: string)
    ensures x in Fresh(names, known) <==> x in names && Watched(x) && x !in known
  {
    if names != [] {
      var y := names[0];
      if Watched(y) && y !in known {
        FreshMembers(names[1..], known + {y}, x);
      } else {
        FreshMembers(names[1..], known, x);
      }
    }
  }

  lemma {:induction false} FreshDistinct(names: seq<string>, known: set<string>)
    ensures Distinct(Fresh(names, known))
  {
    if names != [] {
      var y := names[0];
      if Watched(y) && y !in known {
        FreshDistinct(names[1..], known + {y});
        FreshMembers(names[1..], known + {y}, y);
      } else {
        FreshDistinct(names[1..], known);
      }
    }
  }

  /** A task's `seen` set holds exactly the watched names that some poll has shown. */
  ghost predicate KnownOk(t: Task) {
    forall x :: x in t.known <==> Watched(x) && FirstPoll(t.polls, x).Some?
  }

  lemma PollKeepsKnown(t: Task, t0: int, names: seq<string>, t': Task)
    requires KnownOk(t) && t'.polls == t.polls + [Poll(t0, names)]
    requires t'.known == t.known + NameSet(Fresh(names, t.known))
    ensures KnownOk(t')
  {
    forall x ensures x in t'.known <==> Watched(x) && FirstPoll(t'.polls, x).Some? {
      FirstPollSnoc(t.polls, Poll(t0, names), x);
      FreshMembers(names, t.known, x);
    }
  }

  // ---- Streams ----

  function NamesOf(m: Msg): set<string> {
    if m.Seen? then set e | e in m.events :: e.name else {}
  }

  /** The names reported by a stretch of a stream. */
  function NamesIn(msgs: seq<Msg>): set<string> {
    if msgs == [] then {} else NamesIn(msgs[..|msgs| - 1]) + NamesOf(msgs[|msgs| - 1])
  }

  lemma NamesInSnoc(msgs: seq<Msg>, m: Msg)
    ensures NamesIn(msgs + [m]) == NamesIn(msgs) + NamesOf(m)
  {
    assert (msgs + [m])[..|msgs|] == msgs;
  }

  ghost predicate DistinctEvents(events: seq<SeenEvent>) {
    forall i, j :: 0 <= i < j < |events| ==> events[i].name != events[j].name
  }

  /** A report gives each name once, with the start of the first poll that showed it, and repeats nothing
      that was reported before. */
  ghost predicate ReportOk(before: seq<Msg>, m: Msg, polls: seq<Poll>) {
    m.Seen? ==>
      && DistinctEvents(m.events)
      && NamesOf(m) !! NamesIn(before)
      && forall j :: 0 <= j < |m.events| ==> FirstPoll(polls, m.events[j].name) == Some(m.events[j].seenNs)
  }

  /** The message order of observer.py. */
  ghost predicate OrderOk(c: Config, i: nat, t: Task)
    requires i < |c.hosts|
  {
    && t.read <= |t.sent|
    && (t.phase.Idle? ==> |t.sent| == 0)
    && (t.phase.Greeted? ==> |t.sent| == 1)
    && (!t.phase.Idle? && !t.phase.Greeted? ==> |t.sent| >= 2)
    && (|t.sent| >= 1 ==> t.sent[0] == Hello(i, c.hosts[i]))
    && (|t.sent| >= 2 ==> t.sent[1].ChronyStart?)
  }

  ghost predicate StreamOk(t: Task) {
    && KnownOk(t)
    && NamesIn(t.sent) == t.known
    && forall k :: 0 <= k < |t.sent| ==> ReportOk(t.sent[..k], t.sent[k], t.polls)
  }

  lemma PollsKeepReport(before: seq<Msg>, m: Msg, polls: seq<Poll>, p: Poll)
    requires ReportOk(before, m, polls)
    ensures ReportOk(before, m, polls + [p])
  {
    if m.Seen? {
      forall j | 0 <= j < |m.events| ensures FirstPoll(polls + [p], m.events[j].name) == Some(m.events[j].seenNs) {
        FirstPollSnoc(polls, p, m.events[j].name);
      }
    }
  }

  lemma SendKeepsStream(t: Task, m: Msg, t': Task)
    requires StreamOk(t) && !m.Seen?
    requires t'.sent == t.sent + [m] && t'.known == t.known && t'.polls == t.polls
    ensures StreamOk(t')
  {
    NamesInSnoc(t.sent, m);
    forall k | 0 <= k < |t'.sent| ensures ReportOk(t'.sent[..k], t'.sent[k], t'.polls) {
      if k < |t.sent| {
        assert t'.sent[..k] == t.sent[..k];
      }
    }
  }

  lemma PollKeepsStream(t: Task, t0: int, names: seq<string>)
    requires StreamOk(t)
    ensures StreamOk(DoPoll(t, t0, names))
  {
    var t', news, p := DoPoll(t, t0, names), Fresh(names, t.known), Poll(t0, names);
    PollKeepsKnown(t, t0, names, t');
    var m := Seen(EventsAt(news, t0));
    NamesInSnoc(t.sent, m);
    EventNames(news, t0);
    forall k | 0 <= k < |t'.sent| ensures ReportOk(t'.sent[..k], t'.sent[k], t'.polls) {
      if k < |t.sent| {
        assert t'.sent[..k] == t.sent[..k];
        PollsKeepReport(t.sent[..k], t.sent[k], t.polls, p);
      } else {
        assert t'.sent[..k] == t.sent;
        NewReport(t, t0, names);
      }
    }
  }

  lemma EventNames(news: seq<string>, t0: int)
    ensures NamesOf(Seen(EventsAt(news, t0))) == NameSet(news)
  {
    var events := EventsAt(news, t0);
    forall x ensures x in NamesOf(Seen(events)) <==> x in news {
      if x in news {
        var i :| 0 <= i < |news| && news[i] == x;
        assert events[i] in events;
      }
    }
  }

  lemma NewReport(t: Task, t0: int, names: seq<string>)
    requires StreamOk(t)
    ensures ReportOk(t.sent, Seen(EventsAt(Fresh(names, t.known), t0)), t.polls + [Poll(t0, names)])
  {
    var news, p := Fresh(names, t.known), Poll(t0, names);
    var events := EventsAt(news, t0);
    FreshDistinct(names, t.known);
    EventNames(news, t0);
    forall x | x in news ensures x !in t.known && FirstPoll(t.polls + [p], x) == Some(t0) {
      FreshMembers(names, t.known, x);
      FirstPollSnoc(t.polls, p, x);
    }
    forall j | 0 <= j < |events| ensures FirstPoll(t.polls + [p], events[j].name) == Some(events[j].seenNs) {
      assert news[j] in news;
    }
  }

  // ---- The table against the streams ----

  /** What the coordinator has stored about task `i` is what it has read from the stream of `i`. */
  ghost predicate Link(c: Config, i: nat, t: Task, db: Db)
    requires i < |c.hosts| && t.read <= |t.sent|
  {
    && (i in db.observers <==> t.read >= 1)
    && (i in db.observers ==> db.observers[i] == c.hosts[i])
    && (t.read >= 2 ==> c.hosts[i] in db.chronyStart)
    && (forall x :: SeenAt(db, x, i).Some? <==> x in NamesIn(t.sent[..t.read]))
    && (forall x :: SeenAt(db, x, i).Some? ==> SeenAt(db, x, i) == FirstPoll(t.polls, x))
    && (forall k :: (i, k) in db.writerDone ==> WriterDone(k, db.writerDone[(i, k)]) in t.sent)
  }

  /** The coordinator's own row of the table is what its own polls have shown, but for the names pending. */
  ghost predicate SelfLink(t: Task, db: Db) {
    && KnownOk(t) && PendingOk(t.pending, t.known, t.polls)
    && (forall x :: SeenAt(db, x, 0).Some? <==> x in t.known && x !in NamesOf(Seen(t.pending)))
    && (forall x :: SeenAt(db, x, 0).Some? ==> SeenAt(db, x, 0) == FirstPoll(t.polls, x))
  }

  ghost predicate PendingOk(pending: seq<SeenEvent>, known: set<string>, polls: seq<Poll>) {
    && DistinctEvents(pending) && NamesOf(Seen(pending)) <= known
    && forall j :: 0 <= j < |pending| ==> FirstPoll(polls, pending[j].name) == Some(pending[j].seenNs)
  }

  /** `db'` says the same about task `j` as `db`. */
  ghost predicate SameFor(db: Db, db': Db, j: nat) {
    && (j in db'.observers <==> j in db.observers)
    && (j in db.observers ==> db'.observers[j] == db.observers[j])
    && db.chronyStart.Keys <= db'.chronyStart.Keys
    && (forall x :: SeenAt(db', x, j) == SeenAt(db, x, j))
    && (forall k :: (j, k) in db'.writerDone ==>
      (j, k) in db.writerDone && db'.writerDone[(j, k)] == db.writerDone[(j, k)])
  }

  lemma {:induction false} PutAllOther(seen: SeenTable, events: seq<SeenEvent>, i: nat, x: string, j: nat)
    requires j != i || forall k :: 0 <= k < |events| ==> events[k].name != x
    ensures var db := EMPTY_DB; SeenAt(db.(seen := PutAll(seen, events, i)), x, j) == SeenAt(db.(seen := seen), x, j)
    decreases |events|
  {
    if events != [] {
      PutAllOther(PutSeen(seen, events[0].name, i, events[0].seenNs), events[1..], i, x, j);
    }
  }

  lemma {:induction false} PutAllOwn(seen: SeenTable, events: seq<SeenEvent>, i: nat, k: nat)
    requires DistinctEvents(events) && k < |events|
    ensures SeenAt(EMPTY_DB.(seen := PutAll(seen, events, i)), events[k].name, i) == Some(events[k].seenNs)
    decreases |events|
  {
    var seen' := PutSeen(seen, events[0].name, i, events[0].seenNs);
    if k == 0 {
      assert forall j :: 0 <= j < |events[1..]| ==> events[1..][j] == events[j + 1];
      PutAllOther(seen', events[1..], i, events[0].name, i);
    } else {
      PutAllOwn(seen', events[1..], i, k - 1);
    }
  }

  /** Storing a report adds its names for the reporting task and nothing else. */
  lemma PutReport(db: Db, events: seq<SeenEvent>, i: nat, x: string, j: nat)
    requires DistinctEvents(events)
    ensures var db' := db.(seen := PutAll(db.seen, events, i));
      && (j != i || x !in NamesOf(Seen(events)) ==> SeenAt(db', x, j) == SeenAt(db, x, j))
      && (j == i && x in NamesOf(Seen(events)) ==>
            exists k :: 0 <= k < |events| && events[k].name == x && SeenAt(db', x, i) == Some(events[k].seenNs))
  {
    if j == i && x in NamesOf(Seen(events)) {
      var e :| e in events && e.name == x;
      var k :| 0 <= k < |events| && events[k] == e;
      PutAllOwn(db.seen, events, i, k);
    } else {
      forall k | 0 <= k < |events| ensures j != i || events[k].name != x {
        assert events[k] in events;
      }
      PutAllOther(db.seen, events, i, x, j);
    }
  }

  // ---- Commands, acknowledgements and registrations ----

  ghost predicate CommandOk(c: Config, i: nat, issued: nat, registered: map<string, int>, cmd: Cmd) {
    cmd.Write? ==>
      && cmd.seqNo < issued && cmd.seqNo < |c.writers| && c.writers[cmd.seqNo] == i
      && cmd.name == WriteName(c, cmd.seqNo) && cmd.name !in registered
  }

  /** Commands reach their writer once; an acknowledgement carries the time of the registration of just
      that name; nothing but issued names is registered. */
  ghost predicate AckOk(c: Config, i: nat, issued: nat, t: Task) {
    && (forall a :: 0 <= a < |t.inbox| ==> CommandOk(c, i, issued, t.registered, t.inbox[a]))
    && (forall a, b :: 0 <= a < b < |t.inbox| && t.inbox[a].Write? && t.inbox[b].Write? ==>
      t.inbox[a].seqNo != t.inbox[b].seqNo)
    && (forall a :: 0 <= a < |t.sent| && t.sent[a].WriterDone? ==> DoneOk(c, i, issued, t.registered, t.sent[a]))
    && (forall x :: x in t.registered ==> IssuedName(c, i, issued, x))
  }

  ghost predicate DoneOk(c: Config, i: nat, issued: nat, registered: map<string, int>, m: Msg)
    requires m.WriterDone?
  {
    && m.seqNo < issued && m.seqNo < |c.writers| && c.writers[m.seqNo] == i
    && WriteName(c, m.seqNo) in registered && registered[WriteName(c, m.seqNo)] == m.tWriteNs
  }

  ghost predicate IssuedName(c: Config, i: nat, issued: nat, x: string) {
    || (i == 0 && x == c.warmup)
    || exists k :: 0 <= k < issued && k < |c.writers| && c.writers[k] == i && x == WriteName(c, k)
  }

  // ---- One task ----

  ghost predicate TaskInv(c: Config, i: nat, issued: nat, t: Task, db: Db)
    requires i < |c.hosts|
  {
    OrderOk(c, i, t) && StreamOk(t) && Link(c, i, t, db) && AckOk(c, i, issued, t)
  }

  lemma InboxKeepsTask(c: Config, i: nat, issued: nat, t: Task, t': Task, db: Db)
    requires i < |c.hosts| && TaskInv(c, i, issued, t, db) && t' == t.(inbox := t'.inbox) && AckOk(c, i, issued, t')
    ensures TaskInv(c, i, issued, t', db)
  {
  }

  /** An acknowledgement that the coordinator has stored carries the time of the registration. */
  lemma AckIsRegistration(c: Config, i: nat, issued: nat, t: Task, db: Db, k: nat)
    requires i < |c.hosts| && TaskInv(c, i, issued, t, db) && (i, k) in db.writerDone
    ensures k < |c.writers| && WriteName(c, k) in t.registered && t.registered[WriteName(c, k)] == db.writerDone[(i, k)]
  {
    var m := WriterDone(k, db.writerDone[(i, k)]);
    var a :| 0 <= a < |t.sent| && t.sent[a] == m;
    assert DoneOk(c, i, issued, t.registered, t.sent[a]);
  }

  /** A task is not disturbed by what happens elsewhere. */
  lemma TaskFrame(c: Config, i: nat, issued: nat, issued': nat, t: Task, db: Db, db': Db)
    requires i < |c.hosts| && TaskInv(c, i, issued, t, db) && SameFor(db, db', i) && issued <= issued'
    ensures TaskInv(c, i, issued', t, db')
  {
    AckGrows(c, i, issued, issued', t);
  }

  lemma AckGrows(c: Config, i: nat, issued: nat, issued': nat, t: Task)
    requires AckOk(c, i, issued, t) && issued <= issued'
    ensures AckOk(c, i, issued', t)
  {
    forall a | 0 <= a < |t.inbox| ensures CommandOk(c, i, issued', t.registered, t.inbox[a]) {
      assert CommandOk(c, i, issued, t.registered, t.inbox[a]);
    }
    forall a | 0 <= a < |t.sent| && t.sent[a].WriterDone? ensures DoneOk(c, i, issued', t.registered, t.sent[a]) {
      assert DoneOk(c, i, issued, t.registered, t.sent[a]);
    }
    forall x | x in t.registered ensures IssuedName(c, i, issued', x) {
      assert IssuedName(c, i, issued, x);
    }
  }

  /** Sending leaves the link alone: the coordinator has not read the new message yet. */
  lemma SendKeepsLink(c: Config, i: nat, t: Task, t': Task, db: Db)
    requires i < |c.hosts| && t.read <= |t.sent| && Link(c, i, t, db)
    requires t.sent <= t'.sent && t'.read == t.read
    requires forall x :: FirstPoll(t.polls, x).Some? ==> FirstPoll(t'.polls, x) == FirstPoll(t.polls, x)
    ensures Link(c, i, t', db)
  {
    assert t'.sent[..t.read] == t.sent[..t.read];
    forall k | (i, k) in db.writerDone ensures WriterDone(k, db.writerDone[(i, k)]) in t'.sent {
      var m := WriterDone(k, db.writerDone[(i, k)]);
      var a :| 0 <= a < |t.sent| && t.sent[a] == m;
      assert t'.sent[a] == m;
    }
  }

  /** Sending anything but an acknowledgement leaves the bookkeeping of writes alone. */
  lemma SendKeepsAck(c: Config, i: nat, issued: nat, t: Task, m: Msg, t': Task)
    requires AckOk(c, i, issued, t) && !m.WriterDone?
    requires t'.sent == t.sent + [m] && t'.inbox == t.inbox && t'.registered == t.registered
    ensures AckOk(c, i, issued, t')
  {
    forall a | 0 <= a < |t'.sent| && t'.sent[a].WriterDone? ensures DoneOk(c, i, issued, t'.registered, t'.sent[a]) {
      assert t.sent[a].WriterDone?;
    }
  }

  lemma SendKeepsTask(c: Config, i: nat, issued: nat, t: Task, m: Msg, t': Task, db: Db)
    requires i < |c.hosts| && TaskInv(c, i, issued, t, db) && !m.Seen? && !m.WriterDone?
    requires t'.sent == t.sent + [m] && t'.inbox == t.inbox && t'.registered == t.registered
    requires t'.known == t.known && t'.polls == t.polls && t'.read == t.read && OrderOk(c, i, t')
    ensures TaskInv(c, i, issued, t', db)
  {
    SendKeepsStream(t, m, t');
    SendKeepsLink(c, i, t, t', db);
    SendKeepsAck(c, i, issued, t, m, t');
  }

  lemma PollKeepsTask(c: Config, i: nat, issued: nat, t: Task, t0: int, names: seq<string>, db: Db)
    requires i < |c.hosts| && TaskInv(c, i, issued, t, db) && !t.phase.Idle? && !t.phase.Greeted?
    ensures TaskInv(c, i, issued, DoPoll(t, t0, names), db)
  {
    var t' := DoPoll(t, t0, names);
    PollKeepsStream(t, t0, names);
    forall x | FirstPoll(t.polls, x).Some? ensures FirstPoll(t'.polls, x) == FirstPoll(t.polls, x) {
      FirstPollSnoc(t.polls, Poll(t0, names), x);
    }
    SendKeepsLink(c, i, t, t', db);
    if t'.sent != t.sent {
      SendKeepsAck(c, i, issued, t, t'.sent[|t.sent|], t');
    }
  }

  lemma TailCommands(c: Config, i: nat, issued: nat, t: Task)
    requires AckOk(c, i, issued, t) && t.inbox != []
    ensures AckOk(c, i, issued, t.(inbox := t.inbox[1..]))
  {
    var r := t.inbox[1..];
    assert forall a :: 0 <= a < |r| ==> r[a] == t.inbox[a + 1];
  }

  lemma NamesDiffer(c: Config, j: nat, k: nat)
    requires NamesOk(c) && j < |c.writers| && k < |c.writers| && j != k
    ensures WriteName(c, j) != WriteName(c, k)
  {
  }

  lemma ObeyWrite(c: Config, i: nat, issued: nat, t: Task, tw: int)
    requires NamesOk(c) && AckOk(c, i, issued, t) && t.inbox != [] && t.inbox[0].Write?
    ensures AckOk(c, i, issued, DoObey(t, Some(tw)))
  {
    var cmd, t' := t.inbox[0], DoObey(t, Some(tw));
    assert CommandOk(c, i, issued, t.registered, cmd);
    forall a | 0 <= a < |t'.inbox| ensures CommandOk(c, i, issued, t'.registered, t'.inbox[a]) {
      assert t'.inbox[a] == t.inbox[a + 1];
      assert CommandOk(c, i, issued, t.registered, t.inbox[a + 1]);
      if t'.inbox[a].Write? {
        NamesDiffer(c, cmd.seqNo, t'.inbox[a].seqNo);
      }
    }
    forall a, b | 0 <= a < b < |t'.inbox| && t'.inbox[a].Write? && t'.inbox[b].Write?
      ensures t'.inbox[a].seqNo != t'.inbox[b].seqNo {
      assert t'.inbox[a] == t.inbox[a + 1] && t'.inbox[b] == t.inbox[b + 1];
    }
    forall a | 0 <= a < |t'.sent| && t'.sent[a].WriterDone? ensures DoneOk(c, i, issued, t'.registered, t'.sent[a]) {
      if a < |t.sent| {
        assert DoneOk(c, i, issued, t.registered, t.sent[a]);
      }
    }
    forall x | x in t'.registered ensures IssuedName(c, i, issued, x) {
      assert x in t.registered || x == cmd.name;
    }
  }

  lemma ObeyKeepsTask(c: Config, i: nat, issued: nat, t: Task, outcome: Option<int>, db: Db)
    requires NamesOk(c) && i < |c.hosts| && TaskInv(c, i, issued, t, db) && t.phase == Running && t.inbox != []
    ensures TaskInv(c, i, issued, DoObey(t, outcome), db)
  {
    var r, t' := t.(inbox := t.inbox[1..]), DoObey(t, outcome);
    TailCommands(c, i, issued, t);
    if t.inbox[0].Write? {
      SendKeepsStream(t, t'.sent[|t.sent|], t');
      SendKeepsLink(c, i, t, t', db);
      match outcome
      case None => SendKeepsAck(c, i, issued, r, WriterError(t.inbox[0].seqNo), t');
      case Some(tw) => ObeyWrite(c, i, issued, t, tw);
    }
  }

  /** Accepting a connection starts the link. */
  lemma AcceptKeepsTask(c: Config, i: nat, issued: nat, t: Task, db: Db)
    requires i < |c.hosts| && TaskInv(c, i, issued, t, db) && t.read == 0 && t.sent != []
    ensures TaskInv(c, i, issued, t.(read := 1), db.(observers := db.observers[i := c.hosts[i]]))
  {
    assert t.sent[..1] == [] + [t.sent[0]];
    NamesInSnoc([], t.sent[0]);
    assert t.sent[..0] == [];
  }

  lemma ReportKeepsLink(c: Config, i: nat, t: Task, db: Db, events: seq<SeenEvent>)
    requires i < |c.hosts| && 2 <= t.read < |t.sent| && Link(c, i, t, db) && t.sent[t.read] == Seen(events)
    requires ReportOk(t.sent[..t.read], t.sent[t.read], t.polls)
    ensures Link(c, i, t.(read := t.read + 1), db.(seen := PutAll(db.seen, events, i)))
  {
    var db', before := db.(seen := PutAll(db.seen, events, i)), t.sent[..t.read];
    assert t.sent[..t.read + 1] == before + [t.sent[t.read]];
    NamesInSnoc(before, t.sent[t.read]);
    forall x
      ensures SeenAt(db', x, i).Some? <==> x in NamesIn(t.sent[..t.read + 1])
      ensures SeenAt(db', x, i).Some? ==> SeenAt(db', x, i) == FirstPoll(t.polls, x)
    {
      PutReport(db, events, i, x, i);
    }
  }

  lemma LinkAdvances(c: Config, i: nat, t: Task, t': Task, db: Db, db': Db)
    requires i < |c.hosts| && 1 <= t.read < |t.sent| && Link(c, i, t, db) && t' == t.(read := t.read + 1)
    requires NamesIn(t'.sent[..t'.read]) == NamesIn(t.sent[..t.read]) && db'.seen == db.seen
    requires db'.observers == db.observers && c.hosts[i] in db'.chronyStart
    requires forall k :: (i, k) in db'.writerDone ==> WriterDone(k, db'.writerDone[(i, k)]) in t.sent
    ensures Link(c, i, t', db')
  {
    forall x ensures SeenAt(db', x, i) == SeenAt(db, x, i) {
    }
  }

  /** A message that is not a report leaves the sightings and the connections alone. */
  lemma HandledOther(db: Db, i: nat, host: string, m: Msg, sent: seq<Msg>)
    requires !m.Seen? && m in sent && forall k :: (i, k) in db.writerDone ==>
      WriterDone(k, db.writerDone[(i, k)]) in sent
    ensures var db' := Handled(db, i, host, m);
      && db'.seen == db.seen && db'.observers == db.observers
      && db.chronyStart.Keys <= db'.chronyStart.Keys && (m.ChronyStart? ==> host in db'.chronyStart)
      && forall k :: (i, k) in db'.writerDone ==> WriterDone(k, db'.writerDone[(i, k)]) in sent
  {
  }

  /** Reading a message keeps the link. */
  lemma DrainKeepsTask(c: Config, i: nat, issued: nat, t: Task, db: Db)
    requires i < |c.hosts| && TaskInv(c, i, issued, t, db) && 1 <= t.read < |t.sent|
    ensures TaskInv(c, i, issued, t.(read := t.read + 1), Handled(db, i, c.hosts[i], t.sent[t.read]))
  {
    var t' := t.(read := t.read + 1);
    assert AckOk(c, i, issued, t');
    assert StreamOk(t');
    if t.sent[t.read].Seen? {
      assert ReportOk(t.sent[..t.read], t.sent[t.read], t.polls);
      ReportKeepsLink(c, i, t, db, t.sent[t.read].events);
    } else {
      HandledOther(db, i, c.hosts[i], t.sent[t.read], t.sent);
      assert t.sent[..t.read + 1] == t.sent[..t.read] + [t.sent[t.read]];
      NamesInSnoc(t.sent[..t.read], t.sent[t.read]);
      LinkAdvances(c, i, t, t', db, Handled(db, i, c.hosts[i], t.sent[t.read]));
    }
  }

  /** Each report writes new entries only: a task's entry for a name is never overwritten. */
  lemma ReportNamesNew(c: Config, i: nat, issued: nat, t: Task, db: Db, x: string)
    requires i < |c.hosts| && TaskInv(c, i, issued, t, db) && 1 <= t.read < |t.sent|
    requires x in NamesOf(t.sent[t.read])
    ensures SeenAt(db, x, i) == None
  {
    assert ReportOk(t.sent[..t.read], t.sent[t.read], t.polls);
  }

  lemma DrainSameFor(db: Db, i: nat, host: string, m: Msg, j: nat)
    requires j != i && (m.Seen? ==> DistinctEvents(m.events))
    ensures SameFor(db, Handled(db, i, host, m), j)
  {
    if m.Seen? {
      forall x ensures SeenAt(Handled(db, i, host, m), x, j) == SeenAt(db, x, j) {
        PutReport(db, m.events, i, x, j);
      }
    }
  }
}
