/** contrib/benchmark_convergence/benchmark_convergence/aggregate.py: one row per write and observer, with
    the latency corrected by the clock offsets; and the drift check of coordinator.py. */
module Aggregation {
  import opened Convergence
  import opened ConvergenceClocks
  import opened ConvergenceSafety
  import opened Counting
  import opened Options

  datatype Row = Row(seqNo: nat, writer: nat, observer: nat, writerHost: string, observerHost: string,
                     tWrite: int, tSeen: Option<int>, writerOffset: int, observerOffset: int,
                     latency: Option<int>, flags: seq<string>)

  /** `Failure` stands for the KeyError or TypeError that ends the aggregation. */
  datatype Outcome = Rows(rows: seq<Row>) | Failure

  /** The host of the first manifest entry with this task id. */
  function HostOf(nodes: seq<Node>, task: nat): Option<string> {
    if nodes == [] then None
    else if nodes[0].task == task then Some(nodes[0].host)
    else HostOf(nodes[1..], task)
  }

  method HostForTask(nodes: seq<Node>, task: nat) returns (host: Option<string>)
    ensures host == HostOf(nodes, task)
  {
    for i := 0 to |nodes|
      invariant HostOf(nodes, task) == HostOf(nodes[i..], task)
    {
      if nodes[i].task == task {
        return Some(nodes[i].host);
      }
    }
    return None;
  }

  /** The row for write `w` and observer `o`, if nothing it needs is missing. */
  function RowOf(r: Results, w: Record, o: nat): Option<Row>
    requires o in w.seen
  {
    var wh, oh := HostOf(r.nodes, w.writer), HostOf(r.nodes, o);
    if wh.None? || oh.None? || wh.value !in r.start || oh.value !in r.start || w.tWrite.None? then None
    else
      var ow, oo, tw := r.start[wh.value], r.start[oh.value], w.tWrite.value;
      match w.seen[o]
      case TimedOut => Some(Row(w.seqNo, w.writer, o, wh.value, oh.value, tw, None, ow, oo, None, r.flags))
      case At(t) => Some(Row(w.seqNo, w.writer, o, wh.value, oh.value, tw, Some(t), ow, oo, Some(t - tw - (oo - ow)),
        r.flags))
  }

  /** The write can be aggregated. */
  predicate Usable(r: Results, w: Record) {
    && HostOf(r.nodes, w.writer).Some?
    && forall o :: o in w.seen && o != w.writer ==> RowOf(r, w, o).Some?
  }

  /** The (write, observer) pairs of the first `m` writes, self-observations excluded. */
  function Pairs(writes: seq<Record>, m: nat): set<(nat, nat)>
    requires m <= |writes|
  {
    set k: nat, o | k < m && o in Entries(writes[k]) :: (k, o)
  }

  function PairsOf(w: Record, k: nat): set<(nat, nat)> {
    Tag(Entries(w), k)
  }

  function Tag(os: set<nat>, k: nat): (r: set<(nat, nat)>)
    ensures forall p :: p in r <==> p.0 == k && p.1 in os
  {
    set o | o in os :: (k, o)
  }

  function Entries(w: Record): set<nat> {
    set o | o in w.seen && o != w.writer
  }

  /** The number of entries of the first `m` writes, self-observations excluded. */
  function EntryCount(writes: seq<Record>, m: nat): nat
    requires m <= |writes|
  {
    if m == 0 then 0 else EntryCount(writes, m - 1) + |Entries(writes[m - 1])|
  }

  /** How many of the first `m` writes were acknowledged. */
  function Acknowledged(writes: seq<Record>, m: nat): nat
    requires m <= |writes|
  {
    if m == 0 then 0 else Acknowledged(writes, m - 1) + if writes[m - 1].tWrite.Some? then 1 else 0
  }

  /** `rows[i]` is the row for the pair `from[i]`, and every pair in `pairs` has exactly one row. */
  ghost predicate RowsFor(r: Results, pairs: set<(nat, nat)>, rows: seq<Row>, from: seq<(nat, nat)>) {
    && |rows| == |from|
    && (forall i, j :: 0 <= i < j < |from| ==> from[i] != from[j])
    && (forall p {:trigger p in pairs} :: p in from <==> p in pairs)
    && forall i {:trigger RowAt(r, from[i], rows[i])} :: 0 <= i < |from| ==> RowAt(r, from[i], rows[i])
  }

  ghost predicate RowAt(r: Results, p: (nat, nat), row: Row) {
    p.0 < |r.writes| && p.1 in r.writes[p.0].seen && RowOf(r, r.writes[p.0], p.1) == Some(row)
  }

  lemma RowsSnoc(r: Results, pairs: set<(nat, nat)>, rows: seq<Row>, from: seq<(nat, nat)>, p: (nat, nat), row: Row)
    requires RowsFor(r, pairs, rows, from) && p !in pairs
    requires RowAt(r, p, row)
    ensures RowsFor(r, pairs + {p}, rows + [row], from + [p])
  {
    var from', rows' := from + [p], rows + [row];
    forall i | 0 <= i < |from'| ensures RowAt(r, from'[i], rows'[i]) {
      assert i < |from| ==> RowAt(r, from[i], rows[i]);
    }
    forall q ensures q in from' <==> q in pairs + {p} {
      if q in from {
        var i :| 0 <= i < |from| && from[i] == q;
        assert from'[i] == q;
      }
      assert from'[|from|] == p;
    }
    assert forall i :: 0 <= i < |from| ==> from[i] in from;
  }

  /** The row for one entry, from the lookups and the correction in the inner loop. */
  method MakeRow(r: Results, w: Record, o: nat, writerHost: string) returns (row: Option<Row>)
    requires o in w.seen && HostOf(r.nodes, w.writer) == Some(writerHost)
    ensures row == RowOf(r, w, o)
  {
    var observerHost := HostForTask(r.nodes, o);
    if observerHost.None? || writerHost !in r.start || observerHost.value !in r.start || w.tWrite.None? {
      return None;
    }
    var ow, oo := r.start[writerHost], r.start[observerHost.value];
    var tSeen, latency := None, None;
    match w.seen[o] {
      case TimedOut =>
      case At(t) => tSeen, latency := Some(t), Some(t - w.tWrite.value - (oo - ow));
    }
    row := Some(Row(w.seqNo, w.writer, o, writerHost, observerHost.value, w.tWrite.value, tSeen, ow, oo, latency,
      r.flags));
  }

  lemma TagGrows(before: set<(nat, nat)>, os: set<nat>, os': set<nat>, k: nat, o: nat)
    requires os' == os + {o}
    ensures before + Tag(os', k) == before + Tag(os, k) + {(k, o)}
  {
  }

  lemma AddRow(r: Results, before: set<(nat, nat)>, done: set<nat>, k: nat, o: nat, rows: seq<Row>,
    from: seq<(nat, nat)>, row: Row)
    requires RowsFor(r, before + Tag(done, k), rows, from) && (forall p :: p in before ==> p.0 < k) && o !in done
    requires RowAt(r, (k, o), row)
    ensures RowsFor(r, before + Tag(done + {o}, k), rows + [row], from + [(k, o)]) && |done + {o}| == |done| + 1
  {
    TagGrows(before, done, done + {o}, k, o);
    RowsSnoc(r, before + Tag(done, k), rows, from, (k, o), row);
  }

  /** One turn of the inner loop, for a task other than the writer. */
  method AddEntry(r: Results, k: nat, o: nat, writerHost: string, rows: seq<Row>, ghost before: set<(nat, nat)>,
    ghost done: set<nat>, ghost from: seq<(nat, nat)>)
    returns (out: Outcome, ghost from': seq<(nat, nat)>)
    requires k < |r.writes| && o in r.writes[k].seen && HostOf(r.nodes, r.writes[k].writer) == Some(writerHost)
    requires RowsFor(r, before + Tag(done, k), rows, from) && (forall p :: p in before ==> p.0 < k) && o !in done
    ensures out.Rows? <==> RowOf(r, r.writes[k], o).Some?
    ensures out.Rows? ==> RowsFor(r, before + Tag(done + {o}, k), out.rows, from') && |out.rows| == |rows| + 1
  {
    var row := MakeRow(r, r.writes[k], o, writerHost);
    if row.None? {
      return Failure, from;
    }
    AddRow(r, before, done, k, o, rows, from, row.value);
    return Rows(rows + [row.value]), from + [(k, o)];
  }

  /** The inner loop of `aggregate_cell`; the entries may come in any order. */
  method AggregateWrite(r: Results, k: nat, writerHost: string, ghost before: set<(nat, nat)>, rows: seq<Row>,
    ghost from: seq<(nat, nat)>)
    returns (out: Outcome, ghost from': seq<(nat, nat)>)
    requires k < |r.writes| && RowsFor(r, before, rows, from) && forall p :: p in before ==> p.0 < k
    requires HostOf(r.nodes, r.writes[k].writer) == Some(writerHost)
    ensures out.Rows? <==> Usable(r, r.writes[k])
    ensures out.Rows? ==> RowsFor(r, before + PairsOf(r.writes[k], k), out.rows, from')
    ensures out.Rows? ==> |out.rows| == |rows| + |Entries(r.writes[k])|
  {
    var w := r.writes[k];
    var todo := w.seen.Keys;
    out, from' := Rows(rows), from;
    ghost var done: set<nat> := {};
    assert before + Tag({}, k) == before;
    while todo != {}
      invariant todo <= w.seen.Keys && done == Entries(w) - todo && out.Rows?
      invariant forall o :: o in done ==> RowOf(r, w, o).Some?
      invariant RowsFor(r, before + Tag(done, k), out.rows, from') && |out.rows| == |rows| + |done|
      decreases todo
    {
      var o :| o in todo;
      todo := todo - {o};
      if o != w.writer {
        out, from' := AddEntry(r, k, o, writerHost, out.rows, before, done, from');
        if out.Failure? {
          return;
        }
        assert |done + {o}| == |done| + 1;
        done := done + {o};
      }
    }
    assert done == Entries(w);
  }

  /** `aggregate_cell`: it succeeds just when every write is usable, and then has one row for every write
      and every other task in its `seen` entry. */
  method AggregateCell(r: Results) returns (out: Outcome, ghost from: seq<(nat, nat)>)
    ensures out.Rows? <==> forall k :: 0 <= k < |r.writes| ==> Usable(r, r.writes[k])
    ensures out.Rows? ==> RowsFor(r, Pairs(r.writes, |r.writes|), out.rows, from)
    ensures out.Rows? ==> |out.rows| == EntryCount(r.writes, |r.writes|)
  {
    var rows := [];
    from := [];
    for k := 0 to |r.writes|
      invariant forall j :: 0 <= j < k ==> Usable(r, r.writes[j])
      invariant RowsFor(r, Pairs(r.writes, k), rows, from)
      invariant |rows| == EntryCount(r.writes, k)
    {
      var writerHost := HostForTask(r.nodes, r.writes[k].writer);
      if writerHost.None? {
        return Failure, from;
      }
      PairsStep(r.writes, k);
      var part, from' := AggregateWrite(r, k, writerHost.value, Pairs(r.writes, k), rows, from);
      if part.Failure? {
        return Failure, from;
      }
      rows, from := part.rows, from';
    }
    out := Rows(rows);
  }

  lemma PairsStep(writes: seq<Record>, m: nat)
    requires m < |writes|
    ensures Pairs(writes, m + 1) == Pairs(writes, m) + PairsOf(writes[m], m)
    ensures Pairs(writes, m) !! PairsOf(writes[m], m)
  {
    forall p ensures p in Pairs(writes, m + 1) <==> p in Pairs(writes, m) || p in PairsOf(writes[m], m) {
      if p in Pairs(writes, m + 1) {
        assert p.0 < m + 1 && p.1 in Entries(writes[p.0]);
      }
    }
  }

  // ---- Published results ----

  lemma {:induction false} HostInManifest(c: Config, nodes: seq<Node>, m: nat, task: nat)
    requires m <= task < |c.hosts| && |nodes| == |c.hosts| - m
    requires forall i :: 0 <= i < |nodes| ==> nodes[i] == Node(m + i, c.hosts[m + i])
    ensures HostOf(nodes, task) == Some(c.hosts[task])
  {
    if m < task {
      HostInManifest(c, nodes[1..], m + 1, task);
    }
  }

  lemma RecordShape(c: Config, tasks: seq<Task>, k: nat, w: Record)
    requires ValidConfig(c) && |tasks| == c.n && RecordOk(c, tasks, k, w)
    ensures w.writer < c.n && (forall o :: o in w.seen ==> o < c.n) && (w.seen != map[] ==> w.tWrite.Some?)
  {
    forall o | o in w.seen ensures o < c.n {
      assert o in Below(c.n);
    }
  }

  /** The manifest lists every task, with a start offset for its host. */
  ghost predicate ManifestOk(c: Config, r: Results) {
    |r.nodes| == |c.hosts| && forall i :: 0 <= i < |c.hosts| ==>
      r.nodes[i] == Node(i, c.hosts[i]) && c.hosts[i] in r.start
  }

  lemma ManifestHost(c: Config, r: Results, i: nat)
    requires ManifestOk(c, r) && i < |c.hosts|
    ensures HostOf(r.nodes, i) == Some(c.hosts[i]) && c.hosts[i] in r.start
  {
    HostInManifest(c, r.nodes, 0, i);
  }

  lemma UsableRecord(c: Config, r: Results, w: Record)
    requires ManifestOk(c, r)
    requires w.writer < |c.hosts| && (forall o :: o in w.seen ==> o < |c.hosts|) && (w.seen != map[] ==> w.tWrite.Some?)
    ensures Usable(r, w)
  {
    ManifestHost(c, r, w.writer);
    forall o | o in w.seen && o != w.writer ensures RowOf(r, w, o).Some? {
      ManifestHost(c, r, o);
      RowPresent(r, w, o, c.hosts[w.writer], c.hosts[o]);
    }
  }

  lemma RowPresent(r: Results, w: Record, o: nat, writerHost: string, observerHost: string)
    requires o in w.seen && HostOf(r.nodes, w.writer) == Some(writerHost) && HostOf(r.nodes, o) == Some(observerHost)
    requires writerHost in r.start && observerHost in r.start && w.tWrite.Some?
    ensures RowOf(r, w, o).Some?
  {
  }

  lemma ResultsFit(c: Config, tasks: seq<Task>, r: Results, k: nat)
    requires ValidConfig(c) && |tasks| == c.n && ResultsOk(c, tasks, r) && k < |r.writes|
    ensures ManifestOk(c, r) && RecordOk(c, tasks, k, r.writes[k])
  {
  }

  /** No lookup of aggregation misses, and it never reads a missing time. */
  lemma PublishedUsable(c: Config, tasks: seq<Task>, r: Results, k: nat)
    requires ValidConfig(c) && |tasks| == c.n && ResultsOk(c, tasks, r) && k < |r.writes|
    ensures Usable(r, r.writes[k])
  {
    ResultsFit(c, tasks, r, k);
    RecordShape(c, tasks, k, r.writes[k]);
    UsableRecord(c, r, r.writes[k]);
  }

  /** A good record has an entry for every task but its writer, or none if the write failed. */
  lemma RecordEntries(c: Config, tasks: seq<Task>, k: nat, w: Record)
    requires ValidConfig(c) && |tasks| == c.n && RecordOk(c, tasks, k, w)
    ensures |Entries(w)| == if w.tWrite.Some? then c.n - 1 else 0
  {
    if w.tWrite.None? {
      assert Entries(w) == {};
    } else {
      assert Entries(w) == Others(c, w.writer);
      BelowSize(c.n);
      assert w.writer in Below(c.n);
      assert |Below(c.n) - {w.writer}| == c.n - 1;
    }
  }

  lemma {:induction false} CountRecords(c: Config, tasks: seq<Task>, writes: seq<Record>, m: nat)
    requires ValidConfig(c) && |tasks| == c.n && RecordsOk(c, tasks, writes) && m <= |writes|
    ensures EntryCount(writes, m) == Times(c.n - 1, Acknowledged(writes, m))
  {
    if m > 0 {
      CountRecords(c, tasks, writes, m - 1);
      assert RecordOk(c, tasks, m - 1, writes[m - 1]);
      RecordEntries(c, tasks, m - 1, writes[m - 1]);
    }
  }

  /** Aggregating a published cell gives n - 1 rows for every acknowledged write. */
  lemma PublishedRowCount(c: Config, tasks: seq<Task>, writes: seq<Record>)
    requires ValidConfig(c) && |tasks| == c.n && RecordsOk(c, tasks, writes)
    ensures EntryCount(writes, |writes|) == (c.n - 1) * Acknowledged(writes, |writes|)
  {
    CountRecords(c, tasks, writes, |writes|);
    TimesIsProduct(c.n - 1, Acknowledged(writes, |writes|));
  }

  lemma PublishedFit(c: Config, tasks: seq<Task>, r: Results)
    requires ValidConfig(c) && |tasks| == c.n && ResultsOk(c, tasks, r)
    ensures forall k :: 0 <= k < |r.writes| ==> Usable(r, r.writes[k])
    ensures RecordsOk(c, tasks, r.writes)
  {
    forall k | 0 <= k < |r.writes| ensures Usable(r, r.writes[k]) {
      PublishedUsable(c, tasks, r, k);
    }
  }

  /** The whole pipeline: any run that publishes can be aggregated, with n - 1 rows for every
      acknowledged write. */
  method AggregateRun(c: Config, ghost steps: seq<Step>, r: Results) returns (out: Outcome, ghost from: seq<(nat, nat)>)
    requires ValidConfig(c) && Exec(c, steps).pc == Done(r)
    ensures out.Rows? && |out.rows| == (c.n - 1) * Acknowledged(r.writes, |r.writes|)
    ensures RowsFor(r, Pairs(r.writes, |r.writes|), out.rows, from)
  {
    ghost var tasks := Exec(c, steps).tasks;
    PublishedResultsOk(c, steps);
    PublishedFit(c, tasks, r);
    out, from := AggregateCell(r);
    PublishedRowCount(c, tasks, r.writes);
  }

  // ---- Clocks ----

  /** The reference time behind a local time. */
  function Reference(local: int, offset: int): int {
    local - offset
  }

  /** The row for round `k` and task `o` says what happened: when the writer registered the name, by its own clock;
      when `o` first saw it, if it did; and the reference time from the one to the other. */
  ghost predicate RowExplained(c: Config, tasks: seq<Task>, k: nat, o: nat, row: Row, atWriter: int, atObserver: int)
    requires k < |c.writers| && |tasks| == |c.hosts| && o < |tasks| && c.writers[k] < |tasks|
  {
    var w, name := c.writers[k], WriteName(c, k);
    && row.seqNo == k && row.writer == w && row.observer == o
    && row.writerHost == c.hosts[w] && row.observerHost == c.hosts[o]
    && row.writerOffset == atWriter && row.observerOffset == atObserver
    && name in tasks[w].registered && row.tWrite == tasks[w].registered[name]
    && (row.latency.Some? <==> row.tSeen.Some?)
    && (row.latency.Some? ==>
          && row.tSeen == FirstPoll(tasks[o].polls, name)
          && row.latency.value == Reference(row.tSeen.value, atObserver) - Reference(row.tWrite, atWriter))
  }

  /** The row of a record, field by field. */
  ghost predicate RowFor(r: Results, w: Record, o: nat, row: Row, writerHost: string, observerHost: string)
    requires o in w.seen && w.tWrite.Some? && writerHost in r.start && observerHost in r.start
  {
    && row.seqNo == w.seqNo && row.writer == w.writer && row.observer == o
    && row.writerHost == writerHost && row.observerHost == observerHost && row.flags == r.flags
    && row.writerOffset == r.start[writerHost] && row.observerOffset == r.start[observerHost]
    && row.tWrite == w.tWrite.value && row.tSeen == (if w.seen[o].At? then Some(w.seen[o].ns) else None)
    && row.latency == if w.seen[o].At?
      then Some(w.seen[o].ns - w.tWrite.value - (r.start[observerHost] - r.start[writerHost])) else None
  }

  lemma RowFields(r: Results, w: Record, o: nat, writerHost: string, observerHost: string) returns (row: Row)
    requires o in w.seen && HostOf(r.nodes, w.writer) == Some(writerHost) && HostOf(r.nodes, o) == Some(observerHost)
    requires writerHost in r.start && observerHost in r.start && w.tWrite.Some?
    ensures RowOf(r, w, o) == Some(row) && RowFor(r, w, o, row, writerHost, observerHost)
  {
    row := RowOf(r, w, o).value;
  }

  lemma ExplainLatency(c: Config, tasks: seq<Task>, r: Results, k: nat, w: Record, o: nat, row: Row)
    requires ValidConfig(c) && |tasks| == c.n && RecordOk(c, tasks, k, w) && w.tWrite.Some? && o < c.n && o in w.seen
    requires c.hosts[w.writer] in r.start && c.hosts[o] in r.start
    requires RowFor(r, w, o, row, c.hosts[w.writer], c.hosts[o])
    ensures RowExplained(c, tasks, k, o, row, r.start[c.hosts[w.writer]], r.start[c.hosts[o]])
  {
  }

  lemma EntryPresent(c: Config, tasks: seq<Task>, k: nat, w: Record, o: nat)
    requires ValidConfig(c) && |tasks| == c.n && RecordOk(c, tasks, k, w) && w.tWrite.Some? && o < c.n && o != w.writer
    ensures o in w.seen && w.writer < c.n
  {
    assert o in Others(c, w.writer);
  }

  lemma RecordRow(c: Config, r: Results, w: Record, o: nat) returns (row: Row)
    requires ManifestOk(c, r) && w.tWrite.Some? && o < |c.hosts| && o in w.seen && w.writer < |c.hosts|
    ensures c.hosts[w.writer] in r.start && c.hosts[o] in r.start
    ensures RowOf(r, w, o) == Some(row) && RowFor(r, w, o, row, c.hosts[w.writer], c.hosts[o])
  {
    ManifestHost(c, r, w.writer);
    ManifestHost(c, r, o);
    row := RowFields(r, w, o, c.hosts[w.writer], c.hosts[o]);
  }

  lemma ResultLatency(c: Config, tasks: seq<Task>, r: Results, k: nat, w: Record, o: nat)
    requires ValidConfig(c) && |tasks| == c.n && ManifestOk(c, r) && RecordOk(c, tasks, k, w)
    requires w.tWrite.Some? && o < c.n && o != w.writer
    ensures o in w.seen && RowOf(r, w, o).Some? && (RowOf(r, w, o).value.latency.Some? <==> w.seen[o].At?)
    ensures RowOf(r, w, o).value.flags == r.flags
    ensures w.writer < c.n && c.hosts[w.writer] in r.start && c.hosts[o] in r.start
    ensures RowExplained(c, tasks, k, o, RowOf(r, w, o).value, r.start[c.hosts[w.writer]], r.start[c.hosts[o]])
  {
    EntryPresent(c, tasks, k, w, o);
    var row := RecordRow(c, r, w, o);
    ExplainLatency(c, tasks, r, k, w, o, row);
  }

  /** What a latency in the table of any published run means, when clocks keep the offsets at which they started: `a`
      and `b` are the tasks on the hosts of the writer and of the observer whose measurements were recorded. */
  lemma PublishedLatency(c: Config, steps: seq<Step>, r: Results, k: nat, o: nat) returns (a: nat, b: nat)
    requires ValidConfig(c) && Exec(c, steps).pc == Done(r)
    requires k < |r.writes| && r.writes[k].tWrite.Some? && o < c.n && o != r.writes[k].writer
    ensures k < |c.writers| && o in r.writes[k].seen && RowOf(r, r.writes[k], o).Some?
    ensures RowOf(r, r.writes[k], o).value.latency.Some? <==> r.writes[k].seen[o].At?
    ensures RowOf(r, r.writes[k], o).value.flags == r.flags
    ensures a < c.n && c.hosts[a] == c.hosts[c.writers[k]] && a in Readings(c, steps).start
    ensures b < c.n && c.hosts[b] == c.hosts[o] && b in Readings(c, steps).start
    ensures DistinctHosts(c) ==> a == c.writers[k] && b == o
    ensures RowExplained(c, Exec(c, steps).tasks, k, o, RowOf(r, r.writes[k], o).value,
                         Readings(c, steps).start[a], Readings(c, steps).start[b])
  {
    var start := Readings(c, steps).start;
    PublishedResultsOk(c, steps);
    ResultsFit(c, Exec(c, steps).tasks, r, k);
    ResultLatency(c, Exec(c, steps).tasks, r, k, r.writes[k], o);
    OffsetsAreReadings(c, steps);
    a := ReaderOn(c, start, r.start, c.hosts[c.writers[k]]);
    b := ReaderOn(c, start, r.start, c.hosts[o]);
  }

  lemma ReaderOn(c: Config, readings: map<nat, int>, offsets: map<string, int>, host: string) returns (i: nat)
    requires AllReadOn(c, readings, offsets) && host in offsets
    ensures i < |c.hosts| && c.hosts[i] == host && i in readings && readings[i] == offsets[host]
  {
    i :| 0 <= i < |c.hosts| && c.hosts[i] == host && i in readings && readings[i] == offsets[host];
  }

  /** With constant clock offsets the latency is the difference of the reference times. */
  lemma LatencyIsReferenceTime(r: Results, w: Record, o: nat, offset: map<string, int>, refWrite: int, refSeen: int)
    requires o in w.seen && RowOf(r, w, o).Some? && w.seen[o].At?
    requires var row := RowOf(r, w, o).value;
      && row.writerHost in offset && row.observerHost in offset
      && r.start[row.writerHost] == offset[row.writerHost] && r.start[row.observerHost] == offset[row.observerHost]
      && w.tWrite == Some(refWrite + offset[row.writerHost]) && w.seen[o].ns == refSeen + offset[row.observerHost]
    ensures RowOf(r, w, o).value.latency == Some(refSeen - refWrite)
  {
  }

  /** The results of the same run with each host's clock moved by `shift`. */
  function Shifted(r: Results, shift: map<string, int>): Results {
    r.(start := map h | h in r.start :: r.start[h] + (if h in shift then shift[h] else 0))
  }

  function ShiftFor(r: Results, shift: map<string, int>, task: nat): int {
    var h := HostOf(r.nodes, task);
    if h.Some? && h.value in shift then shift[h.value] else 0
  }

  function ShiftedWrite(r: Results, w: Record, shift: map<string, int>): Record {
    w.(tWrite := match w.tWrite case None => None case Some(t) => Some(t + ShiftFor(r, shift, w.writer)),
       seen := map o | o in w.seen ::
         match w.seen[o] case TimedOut => TimedOut case At(t) => At(t + ShiftFor(r, shift, o)))
  }

  /** Moving any clocks changes no latency. */
  lemma LatencyIgnoresShifts(r: Results, w: Record, o: nat, shift: map<string, int>)
    requires o in w.seen && RowOf(r, w, o).Some?
    ensures RowOf(Shifted(r, shift), ShiftedWrite(r, w, shift), o).Some?
    ensures RowOf(Shifted(r, shift), ShiftedWrite(r, w, shift), o).value.latency == RowOf(r, w, o).value.latency
  {
  }

  /** The loop of coordinator.py over the start offsets, which may come in any order. */
  method CheckDrift(start: map<string, int>, end: map<string, int>) returns (flags: seq<string>)
    ensures flags == DriftFlags(start, end)
    ensures flags == [] <==> forall h :: h in start && h in end ==> -5_000_000 <= end[h] - start[h] <= 5_000_000
  {
    var todo := start.Keys;
    while todo != {}
      invariant todo <= start.Keys
      invariant forall h :: h in start.Keys - todo ==> !Drifts(start, end, h)
      decreases |todo|
    {
      var h :| h in todo;
      if h in end && Abs(end[h] - start[h]) > DRIFT_LIMIT_NS {
        assert Drifts(start, end, h);
        return ["clock_drift"];
      }
      todo := todo - {h};
    }
    return [];
  }

  /** The flag is set just when some host with both readings moved by more than 5 ms. */
  lemma DriftFlagsExactly(start: map<string, int>, end: map<string, int>)
    ensures "clock_drift" in DriftFlags(start, end) <==>
      exists h :: h in start && h in end && !(-5_000_000 <= end[h] - start[h] <= 5_000_000)
  {
    if h :| h in start && h in end && !(-5_000_000 <= end[h] - start[h] <= 5_000_000) {
      assert Drifts(start, end, h);
    }
    if "clock_drift" in DriftFlags(start, end) {
      var h :| h in start && Drifts(start, end, h);
    }
  }

  predicate Between(x: int, a: int, b: int) {
    a <= x <= b || b <= x <= a
  }

  /** Without a drift flag, and with both readings of the two hosts recorded, a clock that stays between its
      readings puts the latency off by at most 10 ms. */
  lemma DriftBound(r: Results, w: Record, o: nat, refWrite: int, refSeen: int, atWrite: int, atSeen: int)
    requires o in w.seen && RowOf(r, w, o).Some? && w.seen[o].At? && r.flags == DriftFlags(r.start, r.end)
    requires "clock_drift" !in r.flags
    requires var row := RowOf(r, w, o).value;
      && row.writerHost in r.end && row.observerHost in r.end
      && Between(atWrite, r.start[row.writerHost], r.end[row.writerHost])
      && Between(atSeen, r.start[row.observerHost], r.end[row.observerHost])
      && w.tWrite == Some(refWrite + atWrite) && w.seen[o].ns == refSeen + atSeen
    ensures Abs(RowOf(r, w, o).value.latency.value - (refSeen - refWrite)) <= 10_000_000
  {
    var row := RowOf(r, w, o).value;
    assert !Drifts(r.start, r.end, row.writerHost) && !Drifts(r.start, r.end, row.observerHost);
  }

  /** The clocks of the writer of round `k` and of task `o` were at these offsets, between their two readings. */
  ghost predicate ClocksBetween(c: Config, r: Results, k: nat, o: nat, atWrite: int, atSeen: int) {
    && k < |c.writers| && c.writers[k] < |c.hosts| && o < |c.hosts|
    && var hw, ho := c.hosts[c.writers[k]], c.hosts[o];
    && hw in r.start && hw in r.end && ho in r.start && ho in r.end
    && Between(atWrite, r.start[hw], r.end[hw]) && Between(atSeen, r.start[ho], r.end[ho])
  }

  /** The task is on this host and has measured something. */
  predicate On(c: Config, readings: map<nat, int>, host: string, i: nat) {
    i in readings && i < |c.hosts| && c.hosts[i] == host
  }

  /** The clock of a host was at an offset between what its tasks measured at the start and at the end. */
  ghost predicate ClockWithin(c: Config, cl: Clocks, host: string, at: int) {
    forall a, b :: On(c, cl.start, host, a) && On(c, cl.end, host, b) ==> Between(at, cl.start[a], cl.end[b])
  }

  lemma WithinBetween(c: Config, cl: Clocks, start: map<string, int>, end: map<string, int>, host: string, at: int)
    requires AllReadOn(c, cl.start, start) && AllReadOn(c, cl.end, end) && host in start && host in end
    requires ClockWithin(c, cl, host, at)
    ensures Between(at, start[host], end[host])
  {
    var a := ReaderOn(c, cl.start, start, host);
    var b := ReaderOn(c, cl.end, end, host);
    assert Between(at, cl.start[a], cl.end[b]);
  }

  /** The row has a latency, within 10 ms of the reference time from registration to first poll. */
  ghost predicate LatencyClose(c: Config, tasks: seq<Task>, k: nat, o: nat, row: Row, atWrite: int, atSeen: int) {
    && k < |c.writers| && c.writers[k] < |tasks| && o < |tasks|
    && var w, name := tasks[c.writers[k]], WriteName(c, k);
    var seen := FirstPoll(tasks[o].polls, name);
    && name in w.registered && seen.Some? && row.latency.Some?
    && Abs(row.latency.value - (Reference(seen.value, atSeen) - Reference(w.registered[name], atWrite))) <= 10_000_000
  }

  /** The same for any published run without the flag, in terms of what the tasks measured. */
  lemma PublishedDrift(c: Config, steps: seq<Step>, r: Results, k: nat, o: nat, atWrite: int, atSeen: int)
    requires ValidConfig(c) && Exec(c, steps).pc == Done(r) && "clock_drift" !in r.flags
    requires k < |r.writes| && r.writes[k].tWrite.Some? && o < c.n && o != r.writes[k].writer
    requires o in r.writes[k].seen && r.writes[k].seen[o].At?
    requires r.writes[k].writer < c.n && c.hosts[r.writes[k].writer] in r.end && c.hosts[o] in r.end
    requires ClockWithin(c, Readings(c, steps), c.hosts[r.writes[k].writer], atWrite)
    requires ClockWithin(c, Readings(c, steps), c.hosts[o], atSeen)
    ensures RowOf(r, r.writes[k], o).Some?
    ensures LatencyClose(c, Exec(c, steps).tasks, k, o, RowOf(r, r.writes[k], o).value, atWrite, atSeen)
  {
    var cl := Readings(c, steps);
    PublishedResultsOk(c, steps);
    ResultsFit(c, Exec(c, steps).tasks, r, k);
    OffsetsAreReadings(c, steps);
    WithinBetween(c, cl, r.start, r.end, c.hosts[c.writers[k]], atWrite);
    WithinBetween(c, cl, r.start, r.end, c.hosts[o], atSeen);
    ResultDrift(c, Exec(c, steps).tasks, r, k, r.writes[k], o, atWrite, atSeen);
  }

  lemma ResultDrift(c: Config, tasks: seq<Task>, r: Results, k: nat, w: Record, o: nat, atWrite: int, atSeen: int)
    requires ValidConfig(c) && |tasks| == c.n && ManifestOk(c, r) && RecordOk(c, tasks, k, w)
    requires r.flags == DriftFlags(r.start, r.end)
    requires w.tWrite.Some? && o in w.seen && w.seen[o].At? && "clock_drift" !in r.flags
    requires ClocksBetween(c, r, k, o, atWrite, atSeen)
    ensures RowOf(r, w, o).Some? && LatencyClose(c, tasks, k, o, RowOf(r, w, o).value, atWrite, atSeen)
  {
    var row := RecordRow(c, r, w, o);
    ManifestHost(c, r, w.writer);
    ManifestHost(c, r, o);
    RowHosts(r, w, o, c.hosts[w.writer], c.hosts[o]);
    DriftBound(r, w, o, Reference(w.tWrite.value, atWrite), Reference(w.seen[o].ns, atSeen), atWrite, atSeen);
    CloseFrom(c, tasks, k, w, o, row, atWrite, atSeen);
  }

  lemma CloseFrom(c: Config, tasks: seq<Task>, k: nat, w: Record, o: nat, row: Row, atWrite: int, atSeen: int)
    requires ValidConfig(c) && |tasks| == c.n && RecordOk(c, tasks, k, w) && w.tWrite.Some? && o < c.n && o in w.seen
    requires w.seen[o].At?
    requires row.latency.Some?
    requires Abs(row.latency.value - (Reference(w.seen[o].ns, atSeen) - Reference(w.tWrite.value, atWrite)))
      <= 10_000_000
    ensures LatencyClose(c, tasks, k, o, row, atWrite, atSeen)
  {
  }

  lemma RowHosts(r: Results, w: Record, o: nat, writerHost: string, observerHost: string)
    requires o in w.seen && RowOf(r, w, o).Some?
    requires HostOf(r.nodes, w.writer) == Some(writerHost) && HostOf(r.nodes, o) == Some(observerHost)
    ensures RowOf(r, w, o).value.writerHost == writerHost && RowOf(r, w, o).value.observerHost == observerHost
  {
  }
}
