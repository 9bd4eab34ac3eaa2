/** What reducing a trace preserves: it is idempotent, loses no content, covers the merged intervals and
    keeps the memory counter readable at every time. */
module TraceProofs {
  import opened Options
  import opened Sorting
  import opened TraceReducer

  // ---- The two orders ----

  lemma {:induction false} StrTotal(a: string, b: string)
    ensures StrLeq(a, b) || StrLeq(b, a)
    ensures StrLeq(a, b) && StrLeq(b, a) ==> a == b
  {
    if a != [] && b != [] {
      StrTotal(a[1..], b[1..]);
      assert a == [a[0]] + a[1..] && b == [b[0]] + b[1..];
    }
  }

  /** The order of code points: a prefix comes first, and otherwise the first different character decides. */
  lemma {:induction false} StrLeqExactly(a: string, b: string)
    ensures StrLeq(a, b) <==> a <= b || exists i: nat :: SmallerAt(a, b, i)
  {
    if a != [] && b != [] {
      var a', b' := a[1..], b[1..];
      StrLeqExactly(a', b');
      assert a == [a[0]] + a' && b == [b[0]] + b';
      assert a[0] < b[0] ==> SmallerAt(a, b, 0);
      if a[0] == b[0] {
        if i: nat :| SmallerAt(a', b', i) {
          assert a[..i + 1] == [a[0]] + a'[..i] && b[..i + 1] == [b[0]] + b'[..i];
          assert SmallerAt(a, b, i + 1);
        }
        if i: nat :| SmallerAt(a, b, i) {
          assert a'[..i - 1] == a[..i][1..] && b'[..i - 1] == b[..i][1..];
          assert SmallerAt(a', b', i - 1);
        }
      }
    }
  }

  predicate SmallerAt(a: string, b: string, i: nat) {
    i < |a| && i < |b| && a[..i] == b[..i] && a[i] < b[i]
  }

  lemma {:induction false} StrTransitive(a: string, b: string, c: string)
    requires StrLeq(a, b) && StrLeq(b, c)
    ensures StrLeq(a, c)
  {
    if a != [] && a[0] == b[0] == c[0] {
      StrTransitive(a[1..], b[1..], c[1..]);
    }
  }

  lemma KeyTransitive(x: Event, y: Event, z: Event)
    requires KeyLeq(x, y) && KeyLeq(y, z)
    ensures KeyLeq(x, z)
  {
    var p, q, r := x.pid.GetOr(""), y.pid.GetOr(""), z.pid.GetOr("");
    var l, m, n := x.name.GetOr(""), y.name.GetOr(""), z.name.GetOr("");
    if StrLeq(p, q) && StrLeq(q, r) {
      StrTransitive(p, q, r);
    }
    StrTotal(p, q);
    StrTotal(q, r);
    if StrLeq(l, m) && StrLeq(m, n) {
      StrTransitive(l, m, n);
    }
    StrTotal(l, m);
    StrTotal(m, n);
  }

  lemma Orders()
    ensures TotalPreorder(TimeLeq) && TotalPreorder(KeyLeq)
  {
    forall x, y ensures KeyLeq(x, y) || KeyLeq(y, x) {
      StrTotal(x.pid.GetOr(""), y.pid.GetOr(""));
      StrTotal(x.name.GetOr(""), y.name.GetOr(""));
    }
    forall x, y, z | KeyLeq(x, y) && KeyLeq(y, z) ensures KeyLeq(x, z) {
      KeyTransitive(x, y, z);
    }
  }

  lemma TimeSorted(s: seq<Event>)
    ensures Sorted(Sort(s, TimeLeq), TimeLeq)
  {
    Orders();
    SortSorted(s, TimeLeq);
  }

  lemma KeySorted(s: seq<Event>)
    ensures Sorted(Sort(s, KeyLeq), KeyLeq)
  {
    Orders();
    SortSorted(s, KeyLeq);
  }

  lemma KeyCons(x: Event, s: seq<Event>)
    requires Sorted(s, KeyLeq) && s != [] && KeyLeq(x, s[0])
    ensures Sorted([x] + s, KeyLeq)
  {
    Orders();
    SortedCons(x, s, KeyLeq);
  }

  lemma TimeFilter(s: seq<Event>, p: Event -> bool)
    ensures Filter(Sort(s, TimeLeq), p) == Sort(Filter(s, p), TimeLeq)
  {
    Orders();
    SortFilter(s, TimeLeq, p);
  }

  lemma TimePresorted(a: seq<Event>, b: seq<Event>)
    ensures Sort(Sort(a, TimeLeq) + b, TimeLeq) == Sort(a + b, TimeLeq)
  {
    Orders();
    SortPresorted(a, b, TimeLeq);
  }

  /** Sorting by time and then by key brings back a list that was sorted by key. */
  lemma KeyTimeKey(s: seq<Event>)
    requires Sorted(s, KeyLeq)
    ensures Sort(Sort(s, TimeLeq), KeyLeq) == s
  {
    Orders();
    forall x, y | KeyLeq(x, y) && KeyLeq(y, x) ensures TimeLeq(x, y) {
      StrTotal(x.pid.GetOr(""), y.pid.GetOr(""));
      StrTotal(x.name.GetOr(""), y.name.GetOr(""));
    }
    SortBackAndForth(s, TimeLeq, KeyLeq);
  }

  // ---- The blocks ----

  predicate SameKey(x: Event, y: Event) {
    SameContext(x, y) && x.ts == y.ts
  }

  /** No block could be joined to the one before it, and asking so raises no error. */
  ghost predicate Apart(s: seq<Event>) {
    forall i, j :: 0 <= i < j < |s| && j == i + 1 ==> Breaks(s[i], s[j])
  }

  predicate Breaks(x: Event, y: Event) {
    Timed(x) && y.ts.Some? && !Joins(x, y)
  }

  lemma SortedReplaceHead(x: Event, y: Event, s: seq<Event>)
    requires Sorted([x] + s, KeyLeq) && SameKey(x, y)
    ensures Sorted([y] + s, KeyLeq)
  {
    var t, u := [x] + s, [y] + s;
    forall i, j | 0 <= i < j < |u| ensures KeyLeq(u[i], u[j]) {
      assert KeyLeq(t[i], t[j]);
    }
  }

  /** A block that `s[0]` does not join is complete, and the rest of the blocks follow it. */
  lemma NextBlock(cur: Event, s: seq<Event>, r: seq<Event>) returns (r': seq<Event>)
    requires MergeFrom(cur, s) == Ok(r) && s != [] && !Joins(cur, s[0])
    ensures r == [cur] + r' && MergeFrom(Start(s[0]), s[1..]) == Ok(r')
  {
    r' := MergeFrom(Start(s[0]), s[1..]).value;
  }

  /** The blocks are decode events, sorted by key, and apart. */
  lemma {:induction false} BlocksShape(cur: Event, s: seq<Event>, r: seq<Event>)
    requires MergeFrom(cur, s) == Ok(r) && Sorted([cur] + s, KeyLeq)
    requires IsDecode(cur) && forall e :: e in s ==> IsDecode(e)
    ensures r != [] && SameKey(r[0], cur) && Sorted(r, KeyLeq) && Apart(r)
    ensures forall e :: e in r ==> IsDecode(e)
    decreases |s|
  {
    if s != [] {
      SortedTail(cur, s, KeyLeq);
      assert s[0] in s;
      if Joins(cur, s[0]) {
        var cur' := Absorb(cur, s[0]);
        SortedReplaceHead(cur, cur', s[1..]);
        BlocksShape(cur', s[1..], r);
      } else {
        var r' := NextBlock(cur, s, r);
        SortedReplaceHead(s[0], Start(s[0]), s[1..]);
        BlocksShape(Start(s[0]), s[1..], r');
        assert KeyLeq(cur, r'[0]);
        KeyCons(cur, r');
      }
    }
  }

  lemma MergeShape(d: seq<Event>, r: seq<Event>)
    requires Merge(d) == Ok(r) && Sorted(d, KeyLeq) && forall e :: e in d ==> IsDecode(e)
    ensures Sorted(r, KeyLeq) && Apart(r) && forall e :: e in r ==> IsDecode(e)
  {
    if d != [] {
      assert d == [d[0]] + d[1..];
      assert d[0] in d;
      SortedReplaceHead(d[0], Start(d[0]), d[1..]);
      BlocksShape(Start(d[0]), d[1..], r);
    }
  }

  /** Blocks that are apart are not merged any further; only their step counters restart. */
  lemma {:induction false} ApartFrom(x: Event, s: seq<Event>)
    requires Apart([x] + s)
    ensures MergeFrom(Start(x), s) == Ok(Map([x] + s, Start))
    decreases |s|
  {
    var t := [x] + s;
    if s == [] {
      assert Map(t, Start) == [Start(x)];
    } else {
      assert Breaks(t[0], t[1]);
      assert s == [s[0]] + s[1..];
      assert Apart(s) by {
        forall i, j | 0 <= i < j < |s| && j == i + 1 ensures Breaks(s[i], s[j]) {
          assert s[i] == t[i + 1] && s[j] == t[j + 1];
        }
      }
      ApartFrom(s[0], s[1..]);
      assert [Start(x)] + Map(s, Start) == Map(t, Start);
    }
  }

  lemma MergeOfApart(s: seq<Event>)
    requires Apart(s)
    ensures Merge(s) == Ok(Map(s, Start))
  {
    if s != [] {
      assert s == [s[0]] + s[1..];
      ApartFrom(s[0], s[1..]);
    }
  }

  // ---- The counter samples ----

  lemma {:induction false} DedupSorted(last: Event, s: seq<Event>)
    requires Sorted([last] + s, TimeLeq)
    ensures Sorted([last] + DedupFrom(last, s), TimeLeq)
    ensures forall e :: e in DedupFrom(last, s) ==> e in s
    decreases |s|
  {
    if s != [] {
      SortedTail(last, s, TimeLeq);
      if s[0].args == last.args {
        DedupSorted(last, s[1..]);
      } else {
        DedupSorted(s[0], s[1..]);
        var r := [s[0]] + DedupFrom(s[0], s[1..]);
        forall i, j | 0 <= i < j < |[last] + r| ensures TimeLeq(([last] + r)[i], ([last] + r)[j]) {
          assert j > 1 ==> TimeLeq(r[0], r[j - 1]);
          assert i > 0 ==> TimeLeq(r[i - 1], r[j - 1]);
        }
      }
    }
  }

  lemma {:induction false} DedupFixed(last: Event, s: seq<Event>)
    ensures DedupFrom(last, DedupFrom(last, s)) == DedupFrom(last, s)
    decreases |s|
  {
    if s != [] {
      if s[0].args == last.args {
        DedupFixed(last, s[1..]);
      } else {
        DedupFixed(s[0], s[1..]);
      }
    }
  }

  lemma DedupShape(s: seq<Event>)
    requires Sorted(s, TimeLeq)
    ensures Sorted(Dedup(s), TimeLeq) && Dedup(Dedup(s)) == Dedup(s)
    ensures forall e :: e in Dedup(s) ==> e in s
  {
    if s != [] {
      assert s == [s[0]] + s[1..];
      DedupSorted(s[0], s[1..]);
      DedupFixed(s[0], s[1..]);
      assert Dedup(s)[1..] == DedupFrom(s[0], s[1..]);
    }
  }

  // ---- The parts of a reduced trace ----

  /** `events` reduces to `out` through these three lists. */
  ghost predicate Parts(events: seq<Event>, others: seq<Event>, blocks: seq<Event>, usages: seq<Event>,
    out: seq<Event>) {
    && others == Filter(events, IsOther)
    && Merge(Sort(Filter(events, IsDecode), KeyLeq)) == Ok(blocks)
    && usages == Dedup(Sort(Filter(events, IsBlockUsage), TimeLeq))
    && out == Sort(others + blocks + usages, TimeLeq)
  }

  lemma PartsOf(events: seq<Event>, out: seq<Event>)
    returns (others: seq<Event>, blocks: seq<Event>, usages: seq<Event>)
    requires Reduce(events) == Ok(out)
    ensures Parts(events, others, blocks, usages, out)
  {
    others := Filter(events, IsOther);
    blocks := Merge(Sort(Filter(events, IsDecode), KeyLeq)).value;
    usages := Dedup(Sort(Filter(events, IsBlockUsage), TimeLeq));
  }

  /** The middle list of each kind, and the shapes that make the second pass the identity. */
  lemma PartsShape(events: seq<Event>, others: seq<Event>, blocks: seq<Event>, usages: seq<Event>, out: seq<Event>)
    requires Parts(events, others, blocks, usages, out)
    ensures Sorted(blocks, KeyLeq) && Apart(blocks)
    ensures Sorted(usages, TimeLeq) && Dedup(usages) == usages
    ensures forall e :: e in blocks ==> IsDecode(e)
    ensures forall e :: e in usages ==> IsBlockUsage(e)
    ensures forall e :: e in others ==> IsOther(e)
  {
    var d, u := Filter(events, IsDecode), Filter(events, IsBlockUsage);
    KeySorted(d);
    SortElements(d, KeyLeq);
    MergeShape(Sort(d, KeyLeq), blocks);
    TimeSorted(u);
    SortElements(u, TimeLeq);
    DedupShape(Sort(u, TimeLeq));
  }

  lemma FilterThree(a: seq<Event>, b: seq<Event>, c: seq<Event>, p: Event -> bool)
    ensures Filter(Sort(a + b + c, TimeLeq), p) == Sort(Filter(a, p) + Filter(b, p) + Filter(c, p), TimeLeq)
  {
    TimeFilter(a + b + c, p);
    FilterConcat(a + b, c, p);
    FilterConcat(a, b, p);
  }

  lemma OnlyFirst(a: seq<Event>, b: seq<Event>, c: seq<Event>, p: Event -> bool)
    requires (forall e :: e in a ==> p(e)) && (forall e :: e in b ==> !p(e)) && (forall e :: e in c ==> !p(e))
    ensures Filter(Sort(a + b + c, TimeLeq), p) == Sort(a, TimeLeq)
  {
    FilterThree(a, b, c, p);
    FilterAll(a, p);
    FilterNone(b, p);
    FilterNone(c, p);
    assert a + [] + [] == a;
  }

  lemma OnlySecond(a: seq<Event>, b: seq<Event>, c: seq<Event>, p: Event -> bool)
    requires (forall e :: e in a ==> !p(e)) && (forall e :: e in b ==> p(e)) && (forall e :: e in c ==> !p(e))
    ensures Filter(Sort(a + b + c, TimeLeq), p) == Sort(b, TimeLeq)
  {
    FilterThree(a, b, c, p);
    FilterAll(b, p);
    FilterNone(a, p);
    FilterNone(c, p);
    assert [] + b + [] == b;
  }

  lemma OnlyThird(a: seq<Event>, b: seq<Event>, c: seq<Event>, p: Event -> bool)
    requires (forall e :: e in a ==> !p(e)) && (forall e :: e in b ==> !p(e)) && (forall e :: e in c ==> p(e))
    ensures Filter(Sort(a + b + c, TimeLeq), p) == Sort(c, TimeLeq)
  {
    FilterThree(a, b, c, p);
    FilterAll(c, p);
    FilterNone(a, p);
    FilterNone(b, p);
    assert [] + [] + c == c;
  }

  /** Splitting a reduced trace again gives back the three lists, up to order by time. */
  lemma SplitOfReduced(events: seq<Event>, others: seq<Event>, blocks: seq<Event>, usages: seq<Event>, out: seq<Event>)
    requires Parts(events, others, blocks, usages, out)
    ensures Filter(out, IsOther) == Sort(others, TimeLeq)
    ensures Filter(out, IsDecode) == Sort(blocks, TimeLeq)
    ensures Filter(out, IsBlockUsage) == usages
  {
    PartsShape(events, others, blocks, usages, out);
    OnlyFirst(others, blocks, usages, IsOther);
    OnlySecond(others, blocks, usages, IsDecode);
    OnlyThird(others, blocks, usages, IsBlockUsage);
    SortOfSorted(usages, TimeLeq);
  }

  // ---- Reducing twice ----

  /** A decode event whose step counter starts again. */
  function Restart(e: Event): Event {
    if IsDecode(e) then Start(e) else e
  }

  lemma MapThree(a: seq<Event>, b: seq<Event>, c: seq<Event>)
    requires forall e :: e in a || e in c ==> !IsDecode(e)
    requires forall e :: e in b ==> IsDecode(e)
    ensures Map(a + b + c, Restart) == a + Map(b, Start) + c
  {
    var s, t := a + b + c, a + Map(b, Start) + c;
    forall i | 0 <= i < |s| ensures Map(s, Restart)[i] == t[i] {
      if i < |a| {
        assert s[i] == a[i] && a[i] in a;
      } else if i < |a| + |b| {
        assert s[i] == b[i - |a|] && b[i - |a|] in b;
      } else {
        assert s[i] == c[i - |a| - |b|] && c[i - |a| - |b|] in c;
      }
    }
  }

  /** What the second pass makes of the three lists of the first. */
  lemma SecondPass(events: seq<Event>, others: seq<Event>, blocks: seq<Event>, usages: seq<Event>, out: seq<Event>)
    requires Parts(events, others, blocks, usages, out)
    ensures Parts(out, Sort(others, TimeLeq), Map(blocks, Start), usages,
                  Sort(Sort(others, TimeLeq) + Map(blocks, Start) + usages, TimeLeq))
  {
    PartsShape(events, others, blocks, usages, out);
    SplitOfReduced(events, others, blocks, usages, out);
    KeyTimeKey(blocks);
    MergeOfApart(blocks);
    SortOfSorted(usages, TimeLeq);
  }

  lemma RestartSorted(a: seq<Event>, b: seq<Event>, c: seq<Event>)
    requires forall e :: e in a || e in c ==> !IsDecode(e)
    requires forall e :: e in b ==> IsDecode(e)
    ensures Sort(Sort(a, TimeLeq) + Map(b, Start) + c, TimeLeq) == Map(Sort(a + b + c, TimeLeq), Restart)
  {
    var again := Map(b, Start);
    assert Sort(a, TimeLeq) + again + c == Sort(a, TimeLeq) + (again + c);
    TimePresorted(a, again + c);
    assert a + (again + c) == a + again + c;
    MapThree(a, b, c);
    RestartSorts(a + b + c);
  }

  lemma RestartSorts(s: seq<Event>)
    ensures Sort(Map(s, Restart), TimeLeq) == Map(Sort(s, TimeLeq), Restart)
  {
    assert KeepsOrder(s, Restart, TimeLeq, TimeLeq);
    SortMap(s, Restart, TimeLeq, TimeLeq);
  }

  lemma ReduceIs(events: seq<Event>, others: seq<Event>, blocks: seq<Event>, usages: seq<Event>, out: seq<Event>)
    requires Parts(events, others, blocks, usages, out)
    ensures Reduce(events) == Ok(out)
  {
  }

  /** A second pass returns the same events in the same order; only the step counters restart at 1. */
  lemma ReduceTwice(events: seq<Event>, out: seq<Event>)
    requires Reduce(events) == Ok(out)
    ensures Reduce(out) == Ok(Map(out, Restart))
  {
    var others, blocks, usages := PartsOf(events, out);
    PartsShape(events, others, blocks, usages, out);
    SecondPass(events, others, blocks, usages, out);
    RestartSorted(others, blocks, usages);
    ReduceIs(out, Sort(others, TimeLeq), Map(blocks, Start), usages, Map(out, Restart));
  }

  /** From the second pass on, the trace no longer changes at all. */
  lemma ReduceThrice(events: seq<Event>, out: seq<Event>, out2: seq<Event>)
    requires Reduce(events) == Ok(out) && Reduce(out) == Ok(out2)
    ensures Reduce(out2) == Ok(out2)
  {
    ReduceTwice(events, out);
    ReduceTwice(out, out2);
    RestartOnce(out);
  }

  lemma RestartOnce(s: seq<Event>)
    ensures Map(Map(s, Restart), Restart) == Map(s, Restart)
  {
  }

  // ---- Conservation ----

  function Sum(s: seq<Event>, f: Event -> int): int {
    if s == [] then 0 else f(s[0]) + Sum(s[1..], f)
  }

  lemma {:induction false} SumInsert(x: Event, s: seq<Event>, leq: (Event, Event) -> bool, f: Event -> int)
    ensures Sum(Insert(x, s, leq), f) == f(x) + Sum(s, f)
  {
    if s == [] {
    } else if leq(x, s[0]) {
      assert ([x] + s)[1..] == s;
    } else {
      SumInsert(x, s[1..], leq, f);
      assert ([s[0]] + Insert(x, s[1..], leq))[1..] == Insert(x, s[1..], leq);
    }
  }

  lemma {:induction false} SumSort(s: seq<Event>, leq: (Event, Event) -> bool, f: Event -> int)
    ensures Sum(Sort(s, leq), f) == Sum(s, f)
  {
    if s != [] {
      SumSort(s[1..], leq, f);
      SumInsert(s[0], Sort(s[1..], leq), leq, f);
    }
  }

  /** The tokens that `e` reports for one request on one engine. */
  function TokensFor(pid: Option<string>, name: Option<string>): Event -> int {
    (e: Event) => if e.pid == pid && e.name == name then e.args.GetOr(NO_ARGS).tokens.GetOr(0) else 0
  }

  function Steps(e: Event): int {
    e.args.GetOr(NO_ARGS).mergedSteps.GetOr(0)
  }

  lemma {:induction false} BlocksConserve(cur: Event, s: seq<Event>, r: seq<Event>, pid: Option<string>,
    name: Option<string>)
    requires MergeFrom(cur, s) == Ok(r)
    ensures Sum(r, TokensFor(pid, name)) == TokensFor(pid, name)(cur) + Sum(s, TokensFor(pid, name))
    ensures Sum(r, Steps) == Steps(cur) + |s|
    decreases |s|
  {
    if s == [] {
      assert r == [cur];
    } else if Joins(cur, s[0]) {
      BlocksConserve(Absorb(cur, s[0]), s[1..], r, pid, name);
    } else {
      var r' := NextBlock(cur, s, r);
      BlocksConserve(Start(s[0]), s[1..], r', pid, name);
    }
  }

  lemma MergeConserves(d: seq<Event>, blocks: seq<Event>, pid: Option<string>, name: Option<string>)
    requires Merge(d) == Ok(blocks)
    ensures Sum(blocks, TokensFor(pid, name)) == Sum(d, TokensFor(pid, name))
    ensures Sum(blocks, Steps) == |d|
  {
    if d != [] {
      BlocksConserve(Start(d[0]), d[1..], blocks, pid, name);
    }
  }

  /** Nothing is lost: per request and engine the emitted tokens add up as before, the step counters add
      up to the number of decode events merged, and every other event is still there. */
  lemma ReduceConserves(events: seq<Event>, out: seq<Event>, pid: Option<string>, name: Option<string>)
    requires Reduce(events) == Ok(out)
    ensures Sum(Filter(out, IsDecode), TokensFor(pid, name)) == Sum(Filter(events, IsDecode), TokensFor(pid, name))
    ensures Sum(Filter(out, IsDecode), Steps) == |Filter(events, IsDecode)|
    ensures multiset(Filter(out, IsOther)) == multiset(Filter(events, IsOther))
  {
    var others, blocks, usages := PartsOf(events, out);
    SplitOfReduced(events, others, blocks, usages, out);
    SortMultiset(others, TimeLeq);
    var raw, f := Filter(events, IsDecode), TokensFor(pid, name);
    MergeConserves(Sort(raw, KeyLeq), blocks, pid, name);
    SumSort(blocks, TimeLeq, f);
    SumSort(blocks, TimeLeq, Steps);
    SumSort(raw, KeyLeq, f);
  }

  // ---- What a block stands for ----

  function ArgsOf(e: Event): Args {
    e.args.GetOr(NO_ARGS)
  }

  function TotalField(a: Args): Option<string> {
    a.total
  }

  function EndTimeField(a: Args): Option<string> {
    a.endTime
  }

  /** The last value that is present. */
  function Latest(g: seq<Event>, field: Args -> Option<string>): Option<string> {
    if g == [] then None
    else
      var v := field(ArgsOf(g[|g| - 1]));
      if v.Some? then v else Latest(g[..|g| - 1], field)
  }

  function Tokens(e: Event): int {
    ArgsOf(e).tokens.GetOr(0)
  }

  /** `b` is the block for the run of events `g`: it starts with the first, ends with the last, counts the
      events, adds up their tokens and shows the latest totals; all else is taken from the first. */
  ghost predicate Summarizes(g: seq<Event>, b: Event) {
    && g != []
    && b == g[0].(dur := b.dur, args := b.args)
    && b.args.Some?
    && b.args.value.others == ArgsOf(g[0]).others
    && b.args.value.mergedSteps == Some(|g|)
    && b.args.value.total == Latest(g, TotalField)
    && b.args.value.endTime == Latest(g, EndTimeField)
    && Tokens(b) == Sum(g, Tokens)
    && (forall i :: 0 <= i < |g| ==> SameContext(g[i], b))
    && (|g| == 1 ==> b.dur == g[0].dur && b.args.value.tokens == ArgsOf(g[0]).tokens)
    && (|g| > 1 ==> Timed(b) && Timed(g[|g| - 1]) && End(b) == End(g[|g| - 1]) && b.args.value.tokens.Some?)
  }

  lemma {:induction false} SumSnoc(g: seq<Event>, e: Event, f: Event -> int)
    ensures Sum(g + [e], f) == Sum(g, f) + f(e)
  {
    if g != [] {
      assert (g + [e])[1..] == g[1..] + [e];
      SumSnoc(g[1..], e, f);
    } else {
      assert g + [e] == [e];
    }
  }

  lemma LatestSnoc(g: seq<Event>, e: Event, field: Args -> Option<string>)
    ensures Latest(g + [e], field) == if field(ArgsOf(e)).Some? then field(ArgsOf(e)) else Latest(g, field)
  {
    assert (g + [e])[..|g|] == g;
  }

  lemma StartSummarizes(e: Event)
    ensures Summarizes([e], Start(e))
  {
    assert [e] == [] + [e];
    LatestSnoc([], e, TotalField);
    LatestSnoc([], e, EndTimeField);
  }

  lemma AbsorbSummarizes(g: seq<Event>, b: Event, e: Event)
    requires Summarizes(g, b) && Timed(b) && Timed(e) && SameContext(e, b)
    ensures Summarizes(g + [e], Absorb(b, e))
  {
    LatestSnoc(g, e, TotalField);
    LatestSnoc(g, e, EndTimeField);
    SumSnoc(g, e, Tokens);
  }

  function Flatten(gs: seq<seq<Event>>): seq<Event> {
    if gs == [] then [] else gs[0] + Flatten(gs[1..])
  }

  /** `y` starts at most 5 ms after the end of `x`. */
  predicate Near(x: Event, y: Event) {
    Timed(x) && y.ts.Some? && y.ts.value - (x.ts.value + x.dur.value) <= 5000
  }

  /** Each event of the run starts soon after the end of the one before. */
  predicate CloseRun(g: seq<Event>) {
    forall j :: 0 < j < |g| ==> Near(g[j - 1], g[j])
  }

  /** Where a run ends, the request or the engine changes, or more than 5 ms pass. */
  predicate CutBetween(g: seq<Event>, h: seq<Event>) {
    && g != [] && h != [] && Timed(g[|g| - 1]) && h[0].ts.Some?
    && !(SameContext(g[|g| - 1], h[0]) && Near(g[|g| - 1], h[0]))
  }

  /** The blocks stand for consecutive runs of the events, in order. Each run is as long as it can be. */
  ghost predicate Grouping(gs: seq<seq<Event>>, d: seq<Event>, blocks: seq<Event>) {
    && Flatten(gs) == d
    && |gs| == |blocks|
    && (forall i :: 0 <= i < |gs| ==> Summarizes(gs[i], blocks[i]) && CloseRun(gs[i]))
    && forall i :: 0 < i < |gs| ==> CutBetween(gs[i - 1], gs[i])
  }

  lemma {:induction false} SummaryEnds(g: seq<Event>, b: Event)
    requires Summarizes(g, b) && Timed(b)
    ensures Timed(g[|g| - 1]) && End(g[|g| - 1]) == End(b) && SameContext(g[|g| - 1], b)
  {
  }

  lemma GroupCons(g: seq<Event>, b: Event, gs: seq<seq<Event>>, s: seq<Event>, r: seq<Event>)
    requires Summarizes(g, b) && CloseRun(g) && Grouping(gs, s, r) && |gs| > 0 && CutBetween(g, gs[0])
    ensures Grouping([g] + gs, g + s, [b] + r)
  {
    assert ([g] + gs)[1..] == gs;
  }

  lemma GroupOne(g: seq<Event>, b: Event)
    requires Summarizes(g, b) && CloseRun(g)
    ensures Grouping([g], g, [b])
  {
    assert Flatten([g]) == g + Flatten([g][1..]);
  }

  lemma CloseSnoc(g: seq<Event>, e: Event)
    requires CloseRun(g) && (g != [] ==> Near(g[|g| - 1], e))
    ensures CloseRun(g + [e])
  {
  }

  lemma {:induction false} BlocksGroup(g: seq<Event>, cur: Event, s: seq<Event>, r: seq<Event>)
    returns (gs: seq<seq<Event>>)
    requires MergeFrom(cur, s) == Ok(r) && Summarizes(g, cur) && CloseRun(g)
    ensures Grouping(gs, g + s, r) && |gs| > 0 && gs[0] != [] && gs[0][0] == g[0]
    decreases |s|
  {
    if s == [] {
      gs := [g];
      GroupOne(g, cur);
      assert g + s == g;
    } else if Joins(cur, s[0]) {
      SummaryEnds(g, cur);
      AbsorbSummarizes(g, cur, s[0]);
      CloseSnoc(g, s[0]);
      gs := BlocksGroup(g + [s[0]], Absorb(cur, s[0]), s[1..], r);
      assert g + [s[0]] + s[1..] == g + s;
    } else {
      var r' := NextBlock(cur, s, r);
      SummaryEnds(g, cur);
      StartSummarizes(s[0]);
      var rest := BlocksGroup([s[0]], Start(s[0]), s[1..], r');
      assert [s[0]] + s[1..] == s;
      GroupCons(g, cur, rest, s, r');
      gs := [g] + rest;
    }
  }

  /** Merging cuts the sorted decode events into runs and replaces each by its block. */
  lemma MergeGroups(d: seq<Event>, blocks: seq<Event>) returns (gs: seq<seq<Event>>)
    requires Merge(d) == Ok(blocks)
    ensures Grouping(gs, d, blocks)
  {
    if d == [] {
      gs := [];
    } else {
      StartSummarizes(d[0]);
      gs := BlocksGroup([d[0]], Start(d[0]), d[1..], blocks);
      assert [d[0]] + d[1..] == d;
    }
  }

  /** The same for a whole trace: the decode events of the output are the blocks, in the order of their times. */
  lemma ReduceGroups(events: seq<Event>, out: seq<Event>) returns (blocks: seq<Event>, gs: seq<seq<Event>>)
    requires Reduce(events) == Ok(out)
    ensures Grouping(gs, Sort(Filter(events, IsDecode), KeyLeq), blocks)
    ensures Filter(out, IsDecode) == Sort(blocks, TimeLeq)
  {
    var others, bs, usages := PartsOf(events, out);
    blocks := bs;
    SplitOfReduced(events, others, blocks, usages, out);
    gs := MergeGroups(Sort(Filter(events, IsDecode), KeyLeq), blocks);
  }

  /** What stands at one time, in order. */
  function AtTime(s: seq<Event>, t: int): seq<Event> {
    Filter(s, (e: Event) => Time(e) == t)
  }

  lemma SortAtTime(s: seq<Event>, t: int)
    ensures AtTime(Sort(s, TimeLeq), t) == AtTime(s, t)
  {
    TimeFilter(s, (e: Event) => Time(e) == t);
    var c := AtTime(s, t);
    forall i, j | 0 <= i < j < |c| ensures TimeLeq(c[i], c[j]) {
      assert c[i] in c && c[j] in c;
    }
    SortOfSorted(c, TimeLeq);
  }

  /** The order of the output: by time; at one time first the other events as they came, then the blocks by engine
      and request, then the samples as they came. */
  lemma ReduceOrder(events: seq<Event>, out: seq<Event>, t: int)
    requires Reduce(events) == Ok(out)
    ensures Sorted(out, TimeLeq)
    ensures AtTime(out, t) == AtTime(Filter(events, IsOther), t) + AtTime(Filter(out, IsDecode), t)
      + AtTime(Filter(out, IsBlockUsage), t)
    ensures ByEngineThenRequest(AtTime(Filter(out, IsDecode), t))
  {
    var others, blocks, usages := PartsOf(events, out);
    var p := (e: Event) => Time(e) == t;
    PartsShape(events, others, blocks, usages, out);
    SplitOfReduced(events, others, blocks, usages, out);
    TimeSorted(others + blocks + usages);
    SortAtTime(others + blocks + usages, t);
    FilterConcat(others + blocks, usages, p);
    FilterConcat(others, blocks, p);
    SortAtTime(blocks, t);
    Orders();
    SortFilter(blocks, KeyLeq, p);
    SortOfSorted(blocks, KeyLeq);
    KeySorted(AtTime(blocks, t));
    KeyOrder(AtTime(blocks, t));
  }

  /** In the order of engines, and for one engine in the order of requests; a missing name counts as empty. */
  ghost predicate ByEngineThenRequest(s: seq<Event>) {
    forall i, j :: 0 <= i < j < |s| ==>
      && StrLeq(s[i].pid.GetOr(""), s[j].pid.GetOr(""))
      && (s[i].pid.GetOr("") == s[j].pid.GetOr("") ==> StrLeq(s[i].name.GetOr(""), s[j].name.GetOr("")))
  }

  lemma KeyOrder(s: seq<Event>)
    requires Sorted(s, KeyLeq)
    ensures ByEngineThenRequest(s)
  {
    forall i, j | 0 <= i < j < |s|
      ensures StrLeq(s[i].pid.GetOr(""), s[j].pid.GetOr(""))
      ensures s[i].pid.GetOr("") == s[j].pid.GetOr("") ==> StrLeq(s[i].name.GetOr(""), s[j].name.GetOr(""))
    {
      assert KeyLeq(s[i], s[j]);
      StrTotal(s[i].pid.GetOr(""), s[j].pid.GetOr(""));
      StrTotal(s[i].name.GetOr(""), s[j].name.GetOr(""));
    }
  }

  // ---- Coverage and separation ----

  predicate Within(e: Event, b: Event) {
    Timed(e) && Timed(b) && SameContext(e, b) && b.ts.value <= e.ts.value && End(e) <= End(b)
  }

  /** For one request on one engine, later events do not end earlier. */
  ghost predicate EndsInOrder(s: seq<Event>) {
    && (forall i :: 0 <= i < |s| ==> Timed(s[i]))
    && forall i, j :: 0 <= i < j < |s| && SameContext(s[i], s[j]) ==>
      s[i].ts.value <= s[j].ts.value && End(s[i]) <= End(s[j])
  }

  /** `y` starts and ends no later than the events of its context in `s`. */
  ghost predicate Precedes(y: Event, s: seq<Event>) {
    && Timed(y)
    && forall i :: 0 <= i < |s| && SameContext(y, s[i]) ==>
      Timed(s[i]) && y.ts.value <= s[i].ts.value && End(y) <= End(s[i])
  }

  lemma EndsCons(y: Event, s: seq<Event>)
    requires EndsInOrder(s) && Precedes(y, s)
    ensures EndsInOrder([y] + s)
  {
    var u := [y] + s;
    forall i, j | 0 <= i < j < |u| && SameContext(u[i], u[j])
      ensures u[i].ts.value <= u[j].ts.value && End(u[i]) <= End(u[j]) {
      assert u[j] == s[j - 1] && (i > 0 ==> u[i] == s[i - 1]);
    }
  }

  lemma EndsUncons(y: Event, s: seq<Event>)
    requires EndsInOrder([y] + s)
    ensures EndsInOrder(s) && Precedes(y, s)
  {
    var u := [y] + s;
    assert u[0] == y;
    forall i | 0 <= i < |s| ensures Timed(s[i]) {
      assert s[i] == u[i + 1];
    }
    forall i, j | 0 <= i < j < |s| && SameContext(s[i], s[j])
      ensures s[i].ts.value <= s[j].ts.value && End(s[i]) <= End(s[j]) {
      assert s[i] == u[i + 1] && s[j] == u[j + 1];
    }
    forall i | 0 <= i < |s| && SameContext(y, s[i]) ensures y.ts.value <= s[i].ts.value && End(y) <= End(s[i]) {
      assert s[i] == u[i + 1];
    }
  }

  lemma EndsAbsorb(cur: Event, s: seq<Event>)
    requires EndsInOrder([cur] + s) && s != [] && Timed(cur) && Timed(s[0]) && Joins(cur, s[0])
    ensures Within(cur, Absorb(cur, s[0])) && Within(s[0], Absorb(cur, s[0]))
    ensures EndsInOrder([Absorb(cur, s[0])] + s[1..])
  {
    var y := Absorb(cur, s[0]);
    EndsUncons(cur, s);
    assert s == [s[0]] + s[1..];
    EndsUncons(s[0], s[1..]);
    assert Precedes(y, s[1..]) by {
      forall i | 0 <= i < |s[1..]| && SameContext(y, s[1..][i])
        ensures Timed(s[1..][i]) && y.ts.value <= s[1..][i].ts.value && End(y) <= End(s[1..][i])
      {
        assert s[1..][i] == s[i + 1] && SameContext(s[0], s[1..][i]);
      }
    }
    EndsCons(y, s[1..]);
  }

  lemma {:induction false} BlocksCover(cur: Event, s: seq<Event>, r: seq<Event>, e: Event)
    requires MergeFrom(cur, s) == Ok(r) && EndsInOrder([cur] + s)
    requires Within(e, cur) || e in s
    ensures exists b :: b in r && Within(e, b)
    decreases |s|
  {
    if s == [] {
      assert cur in r;
    } else {
      assert ([cur] + s)[1] == s[0];
      if Joins(cur, s[0]) {
        EndsAbsorb(cur, s);
        BlocksCover(Absorb(cur, s[0]), s[1..], r, e);
      } else {
        var r' := NextBlock(cur, s, r);
        if Within(e, cur) {
          assert cur in r;
        } else {
          EndsUncons(cur, s);
          assert s == [s[0]] + s[1..];
          StartEnds(s[0], s[1..]);
          BlocksCover(Start(s[0]), s[1..], r', e);
          var b :| b in r' && Within(e, b);
          assert b in r;
        }
      }
    }
  }

  lemma StartEnds(x: Event, s: seq<Event>)
    requires EndsInOrder([x] + s)
    ensures EndsInOrder([Start(x)] + s) && Within(x, Start(x))
  {
    EndsUncons(x, s);
    EndsCons(Start(x), s);
  }

  lemma MergeCovers(raw: seq<Event>, blocks: seq<Event>, e: Event)
    requires Merge(Sort(raw, KeyLeq)) == Ok(blocks) && EndsInOrder(Sort(raw, KeyLeq)) && e in raw
    ensures exists b :: b in Sort(blocks, TimeLeq) && Within(e, b)
  {
    var d := Sort(raw, KeyLeq);
    SortElements(raw, KeyLeq);
    assert d == [d[0]] + d[1..];
    StartEnds(d[0], d[1..]);
    BlocksCover(Start(d[0]), d[1..], blocks, e);
    SortElements(blocks, TimeLeq);
  }

  /** When ends are in order, every decode interval of the input lies inside a block of the output for
      the same request and engine. */
  lemma ReduceCovers(events: seq<Event>, out: seq<Event>, e: Event)
    requires Reduce(events) == Ok(out)
    requires EndsInOrder(Sort(Filter(events, IsDecode), KeyLeq))
    requires e in Filter(events, IsDecode)
    ensures exists b :: b in Filter(out, IsDecode) && Within(e, b)
  {
    var others, blocks, usages := PartsOf(events, out);
    SplitOfReduced(events, others, blocks, usages, out);
    MergeCovers(Filter(events, IsDecode), blocks, e);
  }

  /** Without that order a merged event may reach past its block: the block ends where its last event
      ends. */
  lemma CoverageNeedsOrder()
    ensures var args := Some(NO_ARGS);
      var long := Event(Some("r"), Some("request.decode"), Some("X"), Some("0"), Some(0), Some(100), args, map[]);
      var short := long.(ts := Some(10), dur := Some(5));
      Merge([long, short]).Ok? && forall b :: b in Merge([long, short]).value ==> !Within(long, b)
  {
    var long := Event(Some("r"), Some("request.decode"), Some("X"), Some("0"), Some(0), Some(100), Some(NO_ARGS),
      map[]);
    var short := long.(ts := Some(10), dur := Some(5));
    assert [long, short][1..] == [short] && [short][1..] == [];
    assert MergeFrom(Absorb(Start(long), short), []) == Ok([Absorb(Start(long), short)]);
  }

  lemma {:induction false} FlattenRuns(gs: seq<seq<Event>>, i: nat)
    requires i < |gs| && Sorted(Flatten(gs), KeyLeq) && forall e :: e in Flatten(gs) ==> Timed(e)
    ensures Sorted(gs[i], KeyLeq) && forall e :: e in gs[i] ==> Timed(e)
  {
    var g, rest := gs[0], Flatten(gs[1..]);
    var d := g + rest;
    if i == 0 {
      assert d[..|g|] == g;
      forall j, k | 0 <= j < k < |g| ensures KeyLeq(g[j], g[k]) {
        assert d[j] == g[j] && d[k] == g[k];
      }
    } else {
      forall j, k | 0 <= j < k < |rest| ensures KeyLeq(rest[j], rest[k]) {
        assert d[|g| + j] == rest[j] && d[|g| + k] == rest[k];
      }
      FlattenRuns(gs[1..], i - 1);
    }
  }

  /** Exactly which intervals a block covers: those that do not end after the last event of its run. */
  ghost predicate CoversUpToLast(g: seq<Event>, b: Event) {
    && g != [] && (forall e :: e in g ==> Timed(e)) && Timed(g[|g| - 1])
    && forall j :: 0 <= j < |g| ==> Timed(g[j]) && (Within(g[j], b) <==> End(g[j]) <= End(g[|g| - 1]))
  }

  lemma CoveredExactly(g: seq<Event>, b: Event)
    requires Summarizes(g, b) && Sorted(g, KeyLeq) && forall e :: e in g ==> Timed(e)
    ensures CoversUpToLast(g, b)
  {
    assert g[0] in g && g[|g| - 1] in g;
    forall j | 0 <= j < |g| ensures Timed(g[j]) && (Within(g[j], b) <==> End(g[j]) <= End(g[|g| - 1])) {
      assert g[j] in g && SameContext(g[0], b) && SameContext(g[j], b);
      assert j > 0 ==> KeyLeq(g[0], g[j]);
    }
  }

  /** Merging loses no part of an interval just when nothing in a run outlasts the run's last event. */
  lemma MergeCoversExactly(d: seq<Event>, blocks: seq<Event>) returns (gs: seq<seq<Event>>)
    requires Merge(d) == Ok(blocks) && Sorted(d, KeyLeq) && forall e :: e in d ==> Timed(e)
    ensures Grouping(gs, d, blocks) && forall i :: 0 <= i < |gs| ==> CoversUpToLast(gs[i], blocks[i])
  {
    gs := MergeGroups(d, blocks);
    forall i | 0 <= i < |gs| ensures CoversUpToLast(gs[i], blocks[i]) {
      assert Summarizes(gs[i], blocks[i]);
      FlattenRuns(gs, i);
      CoveredExactly(gs[i], blocks[i]);
    }
  }

  lemma {:induction false} BlocksProper(cur: Event, s: seq<Event>, r: seq<Event>)
    requires MergeFrom(cur, s) == Ok(r) && Sorted([cur] + s, KeyLeq)
    requires Proper(cur) && forall e :: e in s ==> Proper(e)
    ensures forall b :: b in r ==> Proper(b)
    decreases |s|
  {
    if s != [] {
      SortedTail(cur, s, KeyLeq);
      assert s[0] in s;
      if Joins(cur, s[0]) {
        SortedReplaceHead(cur, Absorb(cur, s[0]), s[1..]);
        BlocksProper(Absorb(cur, s[0]), s[1..], r);
      } else {
        var r' := NextBlock(cur, s, r);
        SortedReplaceHead(s[0], Start(s[0]), s[1..]);
        BlocksProper(Start(s[0]), s[1..], r');
      }
    }
  }

  /** Sorted by key, the blocks of one request and engine are next to each other. */
  lemma ContextsContiguous(x: Event, y: Event, z: Event)
    requires KeyLeq(x, y) && KeyLeq(y, z) && SameContext(x, z)
    requires x.pid.Some? && x.name.Some? && y.pid.Some? && y.name.Some?
    ensures SameContext(x, y)
  {
    StrTotal(x.pid.value, y.pid.value);
    StrTotal(x.name.value, y.name.value);
  }

  lemma {:induction false} BlocksSeparated(r: seq<Event>, i: nat, j: nat)
    requires Sorted(r, KeyLeq) && Apart(r) && i < j < |r| && SameContext(r[i], r[j])
    requires (forall b :: b in r ==> Proper(b)) && Proper(r[i]) && Proper(r[j])
    ensures r[j].ts.value - End(r[i]) > 5000
  {
    assert r[i] in r && r[j - 1] in r && r[j] in r;
    assert Breaks(r[j - 1], r[j]);
    if i < j - 1 {
      ContextsContiguous(r[i], r[j - 1], r[j]);
      BlocksSeparated(r, i, j - 1);
    }
  }

  /** A decode event that names its engine and request and has a start and a non-negative duration. */
  predicate Proper(e: Event) {
    e.pid.Some? && e.name.Some? && Timed(e) && e.dur.value >= 0
  }

  lemma MergeProper(d: seq<Event>, blocks: seq<Event>)
    requires Merge(d) == Ok(blocks) && Sorted(d, KeyLeq) && forall e :: e in d ==> Proper(e)
    ensures forall b :: b in blocks ==> Proper(b)
  {
    if d != [] {
      assert d == [d[0]] + d[1..] && d[0] in d;
      SortedReplaceHead(d[0], Start(d[0]), d[1..]);
      BlocksProper(Start(d[0]), d[1..], blocks);
    }
  }

  lemma MergeSeparates(blocks: seq<Event>, a: Event, b: Event)
    requires Sorted(blocks, KeyLeq) && Apart(blocks) && forall e :: e in blocks ==> Proper(e)
    requires a in blocks && b in blocks && SameContext(a, b) && a != b
    ensures Timed(a) && Timed(b)
    ensures b.ts.value - End(a) > 5000 || a.ts.value - End(b) > 5000
  {
    var i :| 0 <= i < |blocks| && blocks[i] == a;
    var j :| 0 <= j < |blocks| && blocks[j] == b;
    if i < j {
      BlocksSeparated(blocks, i, j);
    } else {
      BlocksSeparated(blocks, j, i);
    }
  }

  /** When all decode events are proper, any two blocks of one request on one engine are more than the
      threshold apart. */
  lemma ReduceSeparates(events: seq<Event>, out: seq<Event>, a: Event, b: Event)
    requires Reduce(events) == Ok(out)
    requires forall e :: e in Filter(events, IsDecode) ==> Proper(e)
    requires a in Filter(out, IsDecode) && b in Filter(out, IsDecode) && SameContext(a, b) && a != b
    ensures Timed(a) && Timed(b)
    ensures b.ts.value - End(a) > 5000 || a.ts.value - End(b) > 5000
  {
    var others, blocks, usages := PartsOf(events, out);
    PartsShape(events, others, blocks, usages, out);
    SplitOfReduced(events, others, blocks, usages, out);
    var raw := Filter(events, IsDecode);
    KeySorted(raw);
    SortElements(raw, KeyLeq);
    MergeProper(Sort(raw, KeyLeq), blocks);
    SortElements(blocks, TimeLeq);
    MergeSeparates(blocks, a, b);
  }

  // ---- A worked example ----

  function Decode(ts: int, dur: int): Event {
    Event(Some("r"), Some("request.decode"), Some("X"), Some("1"), Some(ts), Some(dur), None, map[])
  }

  function Usage(ts: int): Event {
    Event(Some("BlockUsage"), Some("memory"), Some("C"), Some("1"), Some(ts), None, Some(NO_ARGS), map[])
  }

  lemma SortTwo(x: Event, y: Event, leq: (Event, Event) -> bool)
    ensures Sort([x, y], leq) == if leq(x, y) then [x, y] else [y, x]
  {
    assert [x, y][1..] == [y] && [y][1..] == [];
    assert Insert(y, [], leq) == [y] && Insert(x, [], leq) == [x];
    assert Sort([y], leq) == [y];
    assert Insert(x, [y], leq) == if leq(x, y) then [x] + [y] else [y] + [x];
  }

  lemma FilterKeeps(x: Event, s: seq<Event>, p: Event -> bool)
    requires p(x)
    ensures Filter([x] + s, p) == [x] + Filter(s, p)
  {
    assert ([x] + s)[1..] == s;
  }

  lemma FilterDrops(x: Event, s: seq<Event>, p: Event -> bool)
    requires !p(x)
    ensures Filter([x] + s, p) == Filter(s, p)
  {
    assert ([x] + s)[1..] == s;
  }

  lemma ExampleSplit(a: Event, b: Event, u: Event, v: Event, o: Event, s: seq<Event>)
    requires IsDecode(a) && IsDecode(b) && IsBlockUsage(u) && IsBlockUsage(v) && IsOther(o)
    requires s == [v] + ([b] + ([o] + ([a] + ([u] + []))))
    ensures Filter(s, IsDecode) == [b] + ([a] + []) && Filter(s, IsBlockUsage) == [v] + ([u] + [])
    ensures Filter(s, IsOther) == [o] + []
  {
    var s1 := [u] + [];
    var s2 := [a] + s1;
    var s3 := [o] + s2;
    var s4 := [b] + s3;
    FilterDrops(u, [], IsDecode);
    FilterKeeps(a, s1, IsDecode);
    FilterDrops(o, s2, IsDecode);
    FilterKeeps(b, s3, IsDecode);
    FilterDrops(v, s4, IsDecode);
    FilterKeeps(u, [], IsBlockUsage);
    FilterDrops(a, s1, IsBlockUsage);
    FilterDrops(o, s2, IsBlockUsage);
    FilterDrops(b, s3, IsBlockUsage);
    FilterKeeps(v, s4, IsBlockUsage);
    FilterDrops(u, [], IsOther);
    FilterDrops(a, s1, IsOther);
    FilterKeeps(o, s2, IsOther);
    FilterDrops(b, s3, IsOther);
    FilterDrops(v, s4, IsOther);
  }

  /** Two decode events 85 microseconds apart become one block; the second of two equal samples goes; an event without
      a time comes first. */
  lemma ExampleReduction(other: Event, block: Event, events: seq<Event>)
    requires other == Decode(0, 5).(ph := Some("B"), ts := None)
    requires block == Decode(10, 95).(args := Some(Args(Some(2), Some(0), None, None, map[])))
    requires events == [Usage(30)] + ([Decode(100, 5)] + ([other] + ([Decode(10, 5)] + ([Usage(20)] + []))))
    ensures Reduce(events) == Ok([other, block, Usage(20)])
  {
    var a, b, u, v := Decode(10, 5), Decode(100, 5), Usage(20), Usage(30);
    ExampleSplit(a, b, u, v, other, events);
    assert [b] + ([a] + []) == [b, a] && [v] + ([u] + []) == [v, u] && [other] + [] == [other];
    ExampleBlock(a, b, block);
    ExampleSample(u, v);
    var out := [other, block, u];
    assert [other] + [block] + [u] == out;
    assert Time(other) == 0 && Time(block) == 10 && Time(u) == 20;
    ExampleSorted(other, block, u, out);
    ReduceIs(events, [other], [block], [u], out);
  }

  lemma ExampleSorted(x: Event, y: Event, z: Event, out: seq<Event>)
    requires out == [x, y, z] && Time(x) <= Time(y) <= Time(z)
    ensures Sort(out, TimeLeq) == out
  {
    SortOfSorted(out, TimeLeq);
  }

  lemma ExampleBlock(a: Event, b: Event, block: Event)
    requires a == Decode(10, 5) && b == Decode(100, 5)
    requires block == Decode(10, 95).(args := Some(Args(Some(2), Some(0), None, None, map[])))
    ensures Merge(Sort([b, a], KeyLeq)) == Ok([block])
  {
    SortTwo(b, a, KeyLeq);
    assert [a, b][1..] == [b] && [b][1..] == [];
    assert Absorb(Start(a), b) == block;
    assert MergeFrom(block, []) == Ok([block]);
    assert MergeFrom(Start(a), [b]) == MergeFrom(block, [b][1..]);
  }

  lemma ExampleSample(u: Event, v: Event)
    requires u == Usage(20) && v == Usage(30)
    ensures Dedup(Sort([v, u], TimeLeq)) == [u]
  {
    SortTwo(v, u, TimeLeq);
    assert [u, v][1..] == [v] && [v][1..] == [];
    assert DedupFrom(u, [v]) == DedupFrom(u, [v][1..]) == [];
  }

  // ---- Sample and hold ----

  /** The args shown at time `t` by a stream sorted by time, `before` being shown until its first event. */
  function Hold(s: seq<Event>, t: int, before: Option<Option<Args>>): Option<Option<Args>> {
    if s == [] then before
    else Hold(s[1..], t, if Time(s[0]) <= t then Some(s[0].args) else before)
  }

  lemma {:induction false} HoldAfter(s: seq<Event>, t: int, before: Option<Option<Args>>)
    requires forall e :: e in s ==> Time(e) > t
    ensures Hold(s, t, before) == before
  {
    if s != [] {
      HoldAfter(s[1..], t, before);
    }
  }

  lemma {:induction false} DedupHolds(last: Event, s: seq<Event>, t: int)
    requires Sorted([last] + s, TimeLeq) && Time(last) <= t
    ensures Hold(DedupFrom(last, s), t, Some(last.args)) == Hold(s, t, Some(last.args))
    decreases |s|
  {
    if s != [] {
      SortedTail(last, s, TimeLeq);
      if s[0].args == last.args {
        DedupHolds(last, s[1..], t);
      } else if Time(s[0]) <= t {
        DedupHolds(s[0], s[1..], t);
      } else {
        DedupSorted(last, s);
        AllAfter(s, t);
        HoldAfter(s, t, Some(last.args));
        HoldAfter(DedupFrom(last, s), t, Some(last.args));
      }
    }
  }

  lemma AllAfter(s: seq<Event>, t: int)
    requires Sorted(s, TimeLeq) && s != [] && Time(s[0]) > t
    ensures forall e :: e in s ==> Time(e) > t
  {
    forall e | e in s ensures Time(e) > t {
      var i :| 0 <= i < |s| && s[i] == e;
      assert i == 0 || TimeLeq(s[0], s[i]);
    }
  }

  lemma DedupAllHolds(u: seq<Event>, t: int)
    requires Sorted(u, TimeLeq)
    ensures Hold(Dedup(u), t, None) == Hold(u, t, None)
  {
    if u != [] {
      assert u == [u[0]] + u[1..];
      assert Dedup(u)[1..] == DedupFrom(u[0], u[1..]);
      if Time(u[0]) <= t {
        DedupHolds(u[0], u[1..], t);
      } else {
        DedupShape(u);
        AllAfter(u, t);
        HoldAfter(u, t, None);
        HoldAfter(Dedup(u), t, None);
      }
    }
  }

  /** At every time the counter shows the same args in the reduced trace as in the input sorted by time. */
  lemma ReduceHolds(events: seq<Event>, out: seq<Event>, t: int)
    requires Reduce(events) == Ok(out)
    ensures Hold(Filter(out, IsBlockUsage), t, None) == Hold(Sort(Filter(events, IsBlockUsage), TimeLeq), t, None)
  {
    var others, blocks, usages := PartsOf(events, out);
    SplitOfReduced(events, others, blocks, usages, out);
    TimeSorted(Filter(events, IsBlockUsage));
    DedupAllHolds(Sort(Filter(events, IsBlockUsage), TimeLeq), t);
  }

  /** No two adjacent kept samples show the same args. */
  lemma ReduceNoRepeats(events: seq<Event>, out: seq<Event>, i: nat)
    requires Reduce(events) == Ok(out) && i + 1 < |Filter(out, IsBlockUsage)|
    ensures Filter(out, IsBlockUsage)[i].args != Filter(out, IsBlockUsage)[i + 1].args
  {
    var others, blocks, usages := PartsOf(events, out);
    SplitOfReduced(events, others, blocks, usages, out);
    var u := Sort(Filter(events, IsBlockUsage), TimeLeq);
    DedupNoRepeats(u[0], u[1..], i);
  }

  lemma {:induction false} DedupNoRepeats(last: Event, s: seq<Event>, i: nat)
    requires i < |DedupFrom(last, s)|
    ensures var r := [last] + DedupFrom(last, s); r[i].args != r[i + 1].args
    decreases |s|
  {
    if s != [] {
      if s[0].args == last.args {
        DedupNoRepeats(last, s[1..], i);
      } else if i > 0 {
        DedupNoRepeats(s[0], s[1..], i - 1);
      }
    }
  }

  lemma {:induction false} MergeSucceeds(cur: Event, s: seq<Event>)
    requires Timed(cur) && forall i :: 0 <= i < |s| ==> Timed(s[i])
    ensures MergeFrom(cur, s).Ok?
    decreases |s|
  {
    if s != [] {
      MergeSucceeds(if Joins(cur, s[0]) then Absorb(cur, s[0]) else Start(s[0]), s[1..]);
    }
  }

  /** The reduction never fails on decode events that have a start and a duration. */
  lemma ReduceSucceeds(events: seq<Event>)
    requires forall e :: e in Filter(events, IsDecode) ==> Timed(e)
    ensures Reduce(events).Ok?
  {
    var d := Sort(Filter(events, IsDecode), KeyLeq);
    SortElements(Filter(events, IsDecode), KeyLeq);
    if d != [] {
      assert forall i :: 0 <= i < |d| ==> d[i] in d;
      MergeSucceeds(Start(d[0]), d[1..]);
    }
  }
}
