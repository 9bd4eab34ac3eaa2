/** contrib/serving-simulator/tools/reduce_trace.py: shrink a Chrome trace by merging decode events,
    dropping repeated BlockUsage samples and sorting the rest. */
module TraceReducer {
  import opened Options
  import opened Sorting

  /** `KeyError` stands for a subscript of a missing field, which ends the run. */
  datatype Result<+T> = Ok(value: T) | KeyError

  /** The `args` of an event: the entries the reducer reads, and all others as uninterpreted text. */
  datatype Args = Args(mergedSteps: Option<int>, tokens: Option<int>, total: Option<string>,
                       endTime: Option<string>, others: map<string, string>)

  const NO_ARGS := Args(None, None, None, None, map[])

  /** A trace event; a field that may be missing is an `Option`. Times are whole microseconds. */
  datatype Event = Event(name: Option<string>, cat: Option<string>, ph: Option<string>, pid: Option<string>,
                         ts: Option<int>, dur: Option<int>, args: Option<Args>, others: map<string, string>)

  const GAP_THRESHOLD := 5000

  predicate IsDecode(e: Event) {
    e.cat == Some("request.decode") && e.ph == Some("X")
  }

  predicate IsBlockUsage(e: Event) {
    !IsDecode(e) && e.name == Some("BlockUsage") && e.cat == Some("memory") && e.ph == Some("C")
  }

  predicate IsOther(e: Event) {
    !IsDecode(e) && !IsBlockUsage(e)
  }

  // ---- Sort keys ----

  function Time(e: Event): int {
    e.ts.GetOr(0)
  }

  predicate TimeLeq(x: Event, y: Event) {
    Time(x) <= Time(y)
  }

  /** Lexicographic order of strings by code point. */
  predicate StrLeq(a: string, b: string) {
    a == [] || (b != [] && (a[0] < b[0] || (a[0] == b[0] && StrLeq(a[1..], b[1..]))))
  }

  /** The order of the keys (pid, name, ts), missing ones read as "" and 0. */
  predicate KeyLeq(x: Event, y: Event) {
    var p, q := x.pid.GetOr(""), y.pid.GetOr("");
    var m, n := x.name.GetOr(""), y.name.GetOr("");
    if p != q then StrLeq(p, q) else if m != n then StrLeq(m, n) else Time(x) <= Time(y)
  }

  // ---- BlockUsage ----

  /** Keep the events of `s` whose args differ from those of the event kept last. */
  function DedupFrom(last: Event, s: seq<Event>): seq<Event>
    decreases |s|
  {
    if s == [] then []
    else if s[0].args == last.args then DedupFrom(last, s[1..])
    else [s[0]] + DedupFrom(s[0], s[1..])
  }

  function Dedup(s: seq<Event>): seq<Event> {
    if s == [] then [] else [s[0]] + DedupFrom(s[0], s[1..])
  }

  // ---- Decode ----

  predicate SameContext(x: Event, y: Event) {
    x.pid == y.pid && x.name == y.name
  }

  /** The first event of a block, with its step counter. */
  function Start(e: Event): Event {
    e.(args := Some(e.args.GetOr(NO_ARGS).(mergedSteps := Some(1))))
  }

  predicate Timed(e: Event) {
    e.ts.Some? && e.dur.Some?
  }

  function End(e: Event): int
    requires Timed(e)
  {
    e.ts.value + e.dur.value
  }

  predicate Joins(cur: Event, e: Event)
    requires Timed(cur) && e.ts.Some?
  {
    SameContext(e, cur) && e.ts.value - End(cur) <= GAP_THRESHOLD
  }

  /** The block `cur` extended by `e`. */
  function Absorb(cur: Event, e: Event): Event
    requires Timed(cur) && Timed(e)
  {
    var a, b := cur.args.GetOr(NO_ARGS), e.args.GetOr(NO_ARGS);
    cur.(dur := Some(End(e) - cur.ts.value),
         args := Some(a.(mergedSteps := Some(a.mergedSteps.GetOr(0) + 1),
                         tokens := Some(a.tokens.GetOr(0) + b.tokens.GetOr(0)),
                         total := if b.total.Some? then b.total else a.total,
                         endTime := if b.endTime.Some? then b.endTime else a.endTime)))
  }

  function Prepend(es: seq<Event>, r: Result<seq<Event>>): Result<seq<Event>> {
    match r
    case Ok(s) => Ok(es + s)
    case KeyError => KeyError
  }

  /** The blocks of `cur` followed by `s`. */
  function MergeFrom(cur: Event, s: seq<Event>): Result<seq<Event>>
    decreases |s|
  {
    if s == [] then Ok([cur])
    else if !Timed(cur) || s[0].ts.None? then KeyError
    else if !Joins(cur, s[0]) then Prepend([cur], MergeFrom(Start(s[0]), s[1..]))
    else if s[0].dur.None? then KeyError
    else MergeFrom(Absorb(cur, s[0]), s[1..])
  }

  function Merge(s: seq<Event>): Result<seq<Event>> {
    if s == [] then Ok([]) else MergeFrom(Start(s[0]), s[1..])
  }

  /** The whole reduction. */
  function Reduce(events: seq<Event>): Result<seq<Event>> {
    match Merge(Sort(Filter(events, IsDecode), KeyLeq))
    case KeyError => KeyError
    case Ok(blocks) =>
      Ok(Sort(Filter(events, IsOther) + blocks + Dedup(Sort(Filter(events, IsBlockUsage), TimeLeq)), TimeLeq))
  }

  lemma FilterSnoc(s: seq<Event>, i: nat, p: Event -> bool)
    requires i < |s|
    ensures Filter(s[..i + 1], p) == Filter(s[..i], p) + if p(s[i]) then [s[i]] else []
  {
    assert s[..i + 1] == s[..i] + [s[i]];
    FilterConcat(s[..i], [s[i]], p);
  }

  method Split(events: seq<Event>) returns (others: seq<Event>, decodes: seq<Event>, usages: seq<Event>)
    ensures others == Filter(events, IsOther)
    ensures decodes == Filter(events, IsDecode)
    ensures usages == Filter(events, IsBlockUsage)
  {
    others, decodes, usages := [], [], [];
    for i := 0 to |events|
      invariant others == Filter(events[..i], IsOther)
      invariant decodes == Filter(events[..i], IsDecode)
      invariant usages == Filter(events[..i], IsBlockUsage)
    {
      var event := events[i];
      FilterSnoc(events, i, IsOther);
      FilterSnoc(events, i, IsDecode);
      FilterSnoc(events, i, IsBlockUsage);
      if event.cat == Some("request.decode") && event.ph == Some("X") {
        decodes := decodes + [event];
      } else if event.name == Some("BlockUsage") && event.cat == Some("memory") && event.ph == Some("C") {
        usages := usages + [event];
      } else {
        others := others + [event];
      }
    }
    assert events[..|events|] == events;
  }

  method DropRepeats(usages: seq<Event>) returns (kept: seq<Event>)
    ensures kept == Dedup(usages)
  {
    kept := [];
    var last: Option<Event> := None;
    for i := 0 to |usages|
      invariant i == 0 ==> last == None && kept == []
      invariant i > 0 ==> last.Some? && kept + DedupFrom(last.value, usages[i..]) == Dedup(usages)
    {
      var event := usages[i];
      assert usages[i..][1..] == usages[i + 1..];
      match last {
        case None =>
          kept, last := [event], Some(event);
        case Some(l) =>
          if event.args != l.args {
            kept, last := kept + [event], Some(event);
          }
      }
    }
  }

  lemma PrependTwice(a: seq<Event>, b: seq<Event>, r: Result<seq<Event>>)
    ensures Prepend(a, Prepend(b, r)) == Prepend(a + b, r)
    ensures Prepend([], r) == r
  {
    if r.Ok? {
      assert a + (b + r.value) == (a + b) + r.value;
      assert [] + r.value == r.value;
    }
  }

  method MergeDecodes(decodes: seq<Event>) returns (r: Result<seq<Event>>)
    ensures r == Merge(decodes)
  {
    if decodes == [] {
      return Ok([]);
    }
    var blocks := [];
    var cur := Start(decodes[0]);
    PrependTwice([], [], Merge(decodes));
    for i := 1 to |decodes|
      invariant Merge(decodes) == Prepend(blocks, MergeFrom(cur, decodes[i..]))
    {
      var event := decodes[i];
      assert decodes[i..][0] == event && decodes[i..][1..] == decodes[i + 1..];
      if cur.ts.None? || cur.dur.None? || event.ts.None? {
        return KeyError;
      }
      var prevEnd := cur.ts.value + cur.dur.value;
      if event.pid == cur.pid && event.name == cur.name && event.ts.value - prevEnd <= GAP_THRESHOLD {
        if event.dur.None? {
          return KeyError;
        }
        cur := Absorb(cur, event);
      } else {
        PrependTwice(blocks, [cur], MergeFrom(Start(event), decodes[i + 1..]));
        blocks := blocks + [cur];
        cur := Start(event);
      }
    }
    r := Ok(blocks + [cur]);
  }

  /** `reduce_trace` between reading and writing the file. */
  method ReduceTrace(events: seq<Event>) returns (r: Result<seq<Event>>)
    ensures r == Reduce(events)
  {
    var others, decodes, usages := Split(events);
    usages := Sort(usages, TimeLeq);
    var keptUsages := DropRepeats(usages);
    decodes := Sort(decodes, KeyLeq);
    var merged := MergeDecodes(decodes);
    if merged.KeyError? {
      return KeyError;
    }
    r := Ok(Sort(others + merged.value + keptUsages, TimeLeq));
  }
}
