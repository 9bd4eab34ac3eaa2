/** What holds over every run of the key server. */
module AuthProofs {
  import opened Auth
  import opened Decimal
  import opened Options
  import opened Text

  // ---- Challenges ----

  /** A challenge names a wallet and a timestamp just when it has the documented form. */
  lemma ChallengeShape(c: string, wallet: string, ts: int)
    ensures ParseChallenge(c) == Some((wallet, ts)) <==>
      exists t :: c == "otela-auth:" + wallet + ":" + t && Free(wallet, ':') && Free(t, ':') && ParseInt(t) == Some(ts)
  {
    if ParseChallenge(c) == Some((wallet, ts)) {
      ChallengeJoins(c);
    }
    if t :| c == "otela-auth:" + wallet + ":" + t && Free(wallet, ':') && Free(t, ':') && ParseInt(t) == Some(ts) {
      ChallengeParts(c, wallet, t);
    }
  }

  lemma ChallengeJoins(c: string)
    requires |Split(c, ':')| == 3 && Split(c, ':')[0] == "otela-auth"
    ensures var parts := Split(c, ':');
      c == "otela-auth:" + parts[1] + ":" + parts[2] && Free(parts[1], ':') && Free(parts[2], ':')
  {
    var parts := Split(c, ':');
    JoinOfSplit(c, ':');
    SplitFree(c, ':');
    assert parts[1..][1..] == [parts[2]];
    assert Join(parts[1..], ':') == parts[1] + ":" + parts[2];
  }

  lemma ChallengeParts(c: string, wallet: string, t: string)
    requires c == "otela-auth:" + wallet + ":" + t && Free(wallet, ':') && Free(t, ':')
    ensures Split(c, ':') == ["otela-auth", wallet, t]
  {
    var rest := wallet + ":" + t;
    assert c == "otela-auth" + ":" + rest;
    SplitAfter("otela-auth", ':', rest);
    SplitAfter(wallet, ':', t);
    SplitOfFree(t, ':');
  }

  // ---- Timestamps ----

  lemma {:induction false} DigitsStay(s: string)
    requires AllDigits(s)
    ensures WithoutUnderscores(s) == s
  {
    if s != "" {
      DigitsStay(s[1..]);
    }
  }

  lemma ReadsDigits(s: string)
    requires AllDigits(s) && s != ""
    ensures ParseDigits(s) == Some(Val(s))
  {
    DigitsStay(s);
  }

  /** Groups of digits. */
  ghost predicate DigitGroups(gs: seq<string>) {
    forall i :: 0 <= i < |gs| ==> gs[i] != "" && AllDigits(gs[i])
  }

  function Joined(gs: seq<string>): string {
    if gs == [] then "" else gs[0] + Joined(gs[1..])
  }

  lemma {:induction false} JoinedDigits(gs: seq<string>)
    requires DigitGroups(gs)
    ensures AllDigits(Joined(gs))
  {
    if gs != [] {
      JoinedDigits(gs[1..]);
    }
  }

  lemma GroupedCons(g: string, t: string)
    requires AllDigits(g) && g != "" && Grouped(t)
    ensures Grouped(g + ['_'] + t)
  {
    var s := g + ['_'] + t;
    assert s[0] == g[0] && s[|s| - 1] == t[|t| - 1];
    forall i | 0 <= i < |s| - 1 ensures s[i] != '_' || s[i + 1] != '_' {
      assert i > |g| ==> s[i] == t[i - |g| - 1] && s[i + 1] == t[i - |g|];
    }
  }

  lemma {:induction false} WithoutCons(g: string, t: string)
    requires AllDigits(g) && (forall i :: 0 <= i < |t| ==> IsDigit(t[i]) || t[i] == '_')
    ensures var s := g + ['_'] + t;
      (forall i :: 0 <= i < |s| ==> IsDigit(s[i]) || s[i] == '_') && WithoutUnderscores(s) == g + WithoutUnderscores(t)
  {
    var s := g + ['_'] + t;
    if g == "" {
      assert s[1..] == t;
    } else {
      assert s[1..] == g[1..] + ['_'] + t;
      WithoutCons(g[1..], t);
    }
  }

  /** `int()` reads groups of digits with single underscores between them as one number. */
  lemma {:induction false} GroupsRead(gs: seq<string>)
    requires gs != [] && DigitGroups(gs)
    ensures Grouped(Join(gs, '_')) && WithoutUnderscores(Join(gs, '_')) == Joined(gs)
  {
    if |gs| == 1 {
      assert Joined(gs[1..]) == "";
      DigitsStay(gs[0]);
    } else {
      GroupsRead(gs[1..]);
      GroupedCons(gs[0], Join(gs[1..], '_'));
      WithoutCons(gs[0], Join(gs[1..], '_'));
    }
  }

  lemma GroupBounds(s: string, g: string, rest: string)
    requires Grouped(s) && s == g + rest && Free(g, '_') && (rest == "" || rest[0] == '_')
    ensures g != "" && AllDigits(g) && (rest != "" ==> |rest| > 1 && Grouped(rest[1..]))
  {
    forall i | 0 <= i < |g| ensures IsDigit(g[i]) {
      assert s[i] == g[i];
    }
    if rest != "" {
      assert s[|g|] == '_' && |g| != |s| - 1;
      var t := rest[1..];
      assert s[|g| + 1] == t[0] && s[|s| - 1] == t[|t| - 1];
      forall i | 0 <= i < |t| ensures t[i] == s[|g| + 1 + i] {
      }
    }
  }

  /** And nothing else. */
  lemma {:induction false} GroupedExactly(s: string)
    ensures Grouped(s) <==> DigitGroups(Split(s, '_'))
    decreases |s|
  {
    var rest := FirstPart(s, '_');
    var g := Split(s, '_')[0];
    if rest == "" {
      assert s == g;
      SplitOfFree(s, '_');
      assert DigitGroups([s]) <==> s != "" && AllDigits(s);
    } else {
      assert s == g + ['_'] + rest[1..];
      SplitAfter(g, '_', rest[1..]);
      GroupedExactly(rest[1..]);
      GroupsOfCons(g, Split(rest[1..], '_'));
      if Grouped(s) {
        GroupBounds(s, g, rest);
      }
      if DigitGroups(Split(s, '_')) {
        GroupedCons(g, rest[1..]);
      }
    }
  }

  lemma GroupsOfCons(g: string, gs: seq<string>)
    ensures DigitGroups([g] + gs) <==> g != "" && AllDigits(g) && DigitGroups(gs)
  {
    var hs := [g] + gs;
    if DigitGroups(hs) {
      assert hs[0] == g;
      forall i | 0 <= i < |gs| ensures gs[i] != "" && AllDigits(gs[i]) {
        assert hs[i + 1] == gs[i];
      }
    }
  }

  /** `int()` reads digits with any white space around them. */
  lemma UnsignedReads(a: string, t: string, b: string)
    requires AllBlank(a, IsWhite) && AllBlank(b, IsWhite) && AllDigits(t) && t != ""
    ensures ParseInt(a + t + b) == Some(Val(t))
  {
    ReadsDigits(t);
    StripExact(a, t, b, IsWhite);
  }

  /** A sign may stand before the digits. */
  lemma SignedReads(a: string, sign: char, t: string, b: string)
    requires AllBlank(a, IsWhite) && AllBlank(b, IsWhite) && AllDigits(t) && t != "" && (sign == '+' || sign == '-')
    ensures ParseInt(a + ([sign] + t) + b) == Some(if sign == '-' then 0 - Val(t) else Val(t) + 0)
  {
    var u := [sign] + t;
    SignedParts(sign, t, u);
    StripExact(a, u, b, IsWhite);
    StrippedReads(a + u + b, sign, t, u);
  }

  lemma StrippedReads(s: string, sign: char, t: string, u: string)
    requires Strip(s, IsWhite) == u && u != "" && u[0] == sign && u[1..] == t && (sign == '+' || sign == '-')
    requires AllDigits(t) && t != ""
    ensures ParseInt(s) == Some(if sign == '-' then 0 - Val(t) else Val(t) + 0)
  {
    ReadsDigits(t);
  }

  lemma SignedParts(sign: char, t: string, u: string)
    requires u == [sign] + t && (sign == '+' || sign == '-') && AllDigits(t) && t != ""
    ensures u != "" && u[0] == sign && u[1..] == t && Bare(u, IsWhite)
  {
    assert u[|u| - 1] == t[|t| - 1];
  }

  predicate InNumeral(c: char) {
    IsDigit(c) || c in {'_', '+', '-'} || IsWhite(c)
  }

  /** A timestamp is a whole number: anything but digits, signs, underscores and white space is refused. */
  lemma NumeralCharacters(s: string, i: nat)
    requires ParseInt(s).Some? && i < |s|
    ensures InNumeral(s[i])
  {
    var a, b := StripSplits(s, IsWhite);
    var t := Strip(s, IsWhite);
    var k := i - |a|;
    if 0 <= k < |t| {
      var u := if t[0] == '-' || t[0] == '+' then t[1..] else t;
      assert Grouped(u) && s[i] == t[k];
      assert u == t ==> t[k] == u[k];
      assert u != t && k > 0 ==> t[k] == u[k - 1];
    } else if k < 0 {
      assert s[i] == a[i];
    } else {
      assert s[i] == b[k - |t|];
    }
  }

  /** The window of a challenge, in seconds: at most 300 old and at most 60 ahead. */
  lemma WindowExactly(wallet: string, t: string, now: nat)
    requires Free(wallet, ':') && AllDigits(t) && t != ""
    ensures ValidChallenge("otela-auth:" + wallet + ":" + t, wallet, now) <==>
      now / 1_000_000 - 300 <= Val(t) <= now / 1_000_000 + 60
  {
    assert "" + t + "" == t;
    UnsignedReads("", t, "");
    assert Free(t, ':');
    ChallengeParts("otela-auth:" + wallet + ":" + t, wallet, t);
  }

  /** Over every run, a challenge is accepted inside its window only. */
  lemma AcceptedInWindow(run: seq<Event>, i: nat, c: string, wallet: string, ts: int)
    requires AcceptedAt(run, i, c) && ParseChallenge(c) == Some((wallet, ts))
    ensures run[i].request.wallet == wallet && run[i].request.signed
    ensures run[i].ambient.checkedAt / 1_000_000 - 300 <= ts <= run[i].ambient.checkedAt / 1_000_000 + 60
  {
  }

  // ---- One use ----

  /** An accepted request purges the table of rows that ended before `end`. */
  ghost predicate PurgesAfter(run: seq<Event>, i: nat, end: nat) {
    && i < |run| && run[i].Create? && end < run[i].ambient.now
    && Seconds(run[i].ambient.purgeAt) % 10 == 0
  }

  ghost predicate PurgedBetween(run: seq<Event>, i: nat, k: nat, end: nat) {
    exists p :: i < p < k && PurgesAfter(run, p, end)
  }

  function Expiry(now: nat): nat {
    now + CHALLENGE_TTL * SECOND
  }

  lemma ExecNext(run: seq<Event>, k: nat)
    requires k < |run|
    ensures Exec(run[..k + 1]) == Step(Exec(run[..k]), run[k])
  {
    assert run[..k + 1][..k] == run[..k];
  }

  /** The row of the challenge is in the table, with this lifetime or a longer one. */
  ghost predicate RowHeld(run: seq<Event>, k: nat, c: string, end: nat)
    requires k <= |run|
  {
    c in Exec(run[..k]).used && Exec(run[..k]).used[c] >= end
  }

  lemma RowNext(run: seq<Event>, i: nat, k: nat, c: string, end: nat)
    requires i < k < |run| && RowHeld(run, k, c, end) && (run[k].Create? ==> end <= Expiry(run[k].ambient.now))
    ensures PurgedBetween(run, i, k + 1, end) || RowHeld(run, k + 1, c, end)
  {
    ExecNext(run, k);
    RowStep(Exec(run[..k]), run[k], c, end);
    if !RowHeld(run, k + 1, c, end) {
      assert PurgesAfter(run, k, end);
    }
  }

  lemma RowMade(run: seq<Event>, i: nat, c: string)
    requires AcceptedAt(run, i, c)
    ensures RowHeld(run, i + 1, c, Expiry(run[i].ambient.now))
  {
    ExecNext(run, i);
  }

  lemma {:induction false} RowStaysFrom(run: seq<Event>, i: nat, k: nat, c: string, end: nat)
    requires i < k <= |run| && RowHeld(run, i + 1, c, end)
    requires forall j :: i < j < |run| && run[j].Create? ==> end <= Expiry(run[j].ambient.now)
    ensures PurgedBetween(run, i, k, end) || RowHeld(run, k, c, end)
    decreases k
  {
    if k > i + 1 {
      RowStaysFrom(run, i, k - 1, c, end);
      if PurgedBetween(run, i, k - 1, end) {
        var p :| i < p < k - 1 && PurgesAfter(run, p, end);
        assert PurgedBetween(run, i, k, end);
      } else {
        RowNext(run, i, k - 1, c, end);
      }
    }
  }

  /** From its acceptance on, a challenge is in the table unless a later purge has passed its lifetime. */
  lemma RowStays(run: seq<Event>, i: nat, k: nat, c: string)
    requires AcceptedAt(run, i, c) && i < k <= |run| && Clocked(run)
    ensures var end := Expiry(run[i].ambient.now);
      PurgedBetween(run, i, k, end) || RowHeld(run, k, c, end)
  {
    RowMade(run, i, c);
    forall j | i < j < |run| && run[j].Create? ensures Expiry(run[i].ambient.now) <= Expiry(run[j].ambient.now) {
      assert Reads(run[i].ambient) && Reads(run[j].ambient);
    }
    RowStaysFrom(run, i, k, c, Expiry(run[i].ambient.now));
  }

  lemma RowStep(s: State, e: Event, c: string, end: nat)
    requires c in s.used && s.used[c] >= end
    requires e.Create? ==> end <= Expiry(e.ambient.now)
    ensures var s' := Step(s, e);
      (e.Create? && end < e.ambient.now && Seconds(e.ambient.purgeAt) % 10 == 0) || (c in s'.used && s'.used[c] >= end)
  {
  }

  /** The first acceptance, the purge and the second acceptance, in this order. */
  lemma TwoAcceptances(run: seq<Event>, i: nat, j: nat, c: string) returns (p: nat)
    requires Clocked(run) && AcceptedAt(run, i, c) && AcceptedAt(run, j, c) && i < j
    ensures i < p < j && PurgesAfter(run, p, Expiry(run[i].ambient.now))
  {
    RowStays(run, i, j, c);
    p :| i < p < j && PurgesAfter(run, p, Expiry(run[i].ambient.now));
  }

  /** Two acceptances of one challenge are more than the lifetime apart. */
  lemma AcceptancesFarApart(run: seq<Event>, i: nat, j: nat, c: string)
    requires Clocked(run) && AcceptedAt(run, i, c) && AcceptedAt(run, j, c) && i < j
    ensures run[j].ambient.now > run[i].ambient.now + CHALLENGE_TTL * SECOND
  {
    var p := TwoAcceptances(run, i, j, c);
    assert Reads(run[p].ambient) && Reads(run[j].ambient);
  }

  /** A first acceptance at `now` leaves room for a purge at a tenth second that still falls into the window
      of a challenge with timestamp `ts`. */
  predicate LeavesRoom(ts: int, now: nat) {
    now + 1 < (ts / 10 * 10 + 1) * SECOND
  }

  lemma SecondAcceptanceNeedsRoom(run: seq<Event>, i: nat, j: nat, c: string)
    requires Clocked(run) && AcceptedAt(run, i, c) && AcceptedAt(run, j, c) && i < j
    ensures LeavesRoom(ParseChallenge(c).value.1, run[i].ambient.now)
  {
    var p := TwoAcceptances(run, i, j, c);
    var ts := ParseChallenge(c).value.1;
    assert Reads(run[p].ambient) && Reads(run[j].ambient);
    RoomFromPurge(ts, run[i].ambient.now, run[p].ambient.now, run[p].ambient.purgeAt, run[j].ambient.checkedAt);
  }

  lemma RoomFromPurge(ts: int, now: nat, purgeNow: nat, purgeAt: nat, checkedAt: nat)
    requires Expiry(now) < purgeNow <= purgeAt <= checkedAt
    requires Seconds(purgeAt) % 10 == 0 && Seconds(checkedAt) - ts <= CHALLENGE_TTL
    ensures LeavesRoom(ts, now)
  {
    var s := Seconds(purgeAt);
    assert s <= Seconds(checkedAt);
    assert purgeAt < (s + 1) * SECOND;
    assert s - 300 <= ts / 10 * 10;
  }

  /** A timestamp behind the second of the first acceptance makes it the only one, however long the run. */
  lemma PastTimestampUsedOnce(run: seq<Event>, i: nat, j: nat, c: string)
    requires Clocked(run) && AcceptedAt(run, i, c) && i < j
    requires ParseChallenge(c).value.1 < Seconds(run[i].ambient.now)
    ensures !AcceptedAt(run, j, c)
  {
    if AcceptedAt(run, j, c) {
      SecondAcceptanceNeedsRoom(run, i, j, c);
    }
  }

  /** All clock readings are whole seconds. */
  ghost predicate WholeSeconds(run: seq<Event>) {
    forall i :: 0 <= i < |run| && run[i].Create? ==> WholeReading(run[i].ambient)
  }

  predicate WholeReading(a: Ambient) {
    a.checkedAt % SECOND == 0 && a.now % SECOND == 0 && a.purgeAt % SECOND == 0
  }

  /** On a clock of whole seconds a timestamp not ahead of it is enough. */
  lemma WholeSecondsUsedOnce(run: seq<Event>, i: nat, j: nat, c: string)
    requires Clocked(run) && WholeSeconds(run) && AcceptedAt(run, i, c) && i < j
    requires ParseChallenge(c).value.1 <= Seconds(run[i].ambient.now)
    ensures !AcceptedAt(run, j, c)
  {
    if AcceptedAt(run, j, c) {
      var p := TwoAcceptances(run, i, j, c);
      assert Reads(run[p].ambient) && Reads(run[j].ambient);
      assert WholeReading(run[i].ambient) && WholeReading(run[p].ambient);
      LaterSecond(run[i].ambient.now, run[p].ambient.now, run[j].ambient.checkedAt);
    }
  }

  lemma LaterSecond(now: nat, purgeNow: nat, checkedAt: nat)
    requires Expiry(now) < purgeNow <= checkedAt && now % SECOND == 0 && purgeNow % SECOND == 0
    ensures Seconds(checkedAt) > Seconds(now) + CHALLENGE_TTL
  {
  }

  // ---- The condition is exact ----

  /** Some run accepts the challenge at time `now` and again later. */
  ghost predicate AcceptedTwiceInSomeRun(c: string, now: nat) {
    exists run: seq<Event>, i: nat, j: nat ::
      Clocked(run) && i < j && AcceptedAt(run, i, c) && AcceptedAt(run, j, c) && run[i].ambient.now == now
  }

  lemma ParseBlank(t: string)
    ensures ParseInt([' '] + t) == ParseInt(t)
  {
    var t' := [' '] + t;
    assert t'[1..] == t;
    assert StripLeft(t', IsWhite) == StripLeft(t, IsWhite);
  }

  /** A different challenge with the same wallet and timestamp: one more blank before the timestamp. */
  lemma OtherChallenge(c: string, wallet: string, ts: int) returns (d: string)
    requires ParseChallenge(c) == Some((wallet, ts))
    ensures d != c && ParseChallenge(d) == Some((wallet, ts))
  {
    ChallengeShape(c, wallet, ts);
    var t :| c == "otela-auth:" + wallet + ":" + t && Free(wallet, ':') && Free(t, ':') && ParseInt(t) == Some(ts);
    var t' := [' '] + t;
    ParseBlank(t);
    d := "otela-auth:" + wallet + ":" + t';
    assert |d| == |c| + 1;
    assert Free(t', ':');
    ChallengeShape(d, wallet, ts);
  }

  function At(t: nat, id: string): Ambient {
    Ambient(t, t, t, id, id)
  }

  function Ask(wallet: string, c: string, t: nat, id: string): Event {
    Create(CreateRequest(wallet, c, "", true), At(t, id))
  }

  lemma RoomIsEnough(c: string, wallet: string, ts: int, now: nat)
    requires ParseChallenge(c) == Some((wallet, ts)) && InWindow(ts, now) && LeavesRoom(ts, now)
    ensures AcceptedTwiceInSomeRun(c, now)
  {
    var d := OtherChallenge(c, wallet, ts);
    var later := (ts / 10 * 10 + CHALLENGE_TTL + 1) * SECOND - 1;
    LaterInWindow(ts, now, later);
    var e0, e1, e2 := Ask(wallet, c, now, "a"), Ask(wallet, d, later, "b"), Ask(wallet, c, later, "c");
    var run := [e0, e1, e2];
    ThreeRequests(run, wallet, c, d, now, later);
    assert Clocked(run);
    assert run[0].ambient.now == now && 0 < 2;
  }

  lemma LaterInWindow(ts: int, now: nat, later: int)
    requires InWindow(ts, now) && LeavesRoom(ts, now) && later == (ts / 10 * 10 + CHALLENGE_TTL + 1) * SECOND - 1
    ensures Expiry(now) < later && InWindow(ts, later) && Seconds(later) % 10 == 0
  {
    var s := ts / 10 * 10 + CHALLENGE_TTL;
    assert Seconds(later) == s;
  }

  lemma ThreeRequests(run: seq<Event>, wallet: string, c: string, d: string, now: nat, later: nat)
    requires c != d && ValidChallenge(c, wallet, now) && ValidChallenge(c, wallet, later)
    requires ValidChallenge(d, wallet, later)
    requires Expiry(now) < later && Seconds(later) % 10 == 0
    requires run == [Ask(wallet, c, now, "a"), Ask(wallet, d, later, "b"), Ask(wallet, c, later, "c")]
    ensures AcceptedAt(run, 0, c) && AcceptedAt(run, 2, c)
  {
    var s1, s2 := Exec(run[..1]), Exec(run[..2]);
    assert run[..0] == [];
    ExecNext(run, 0);
    assert Accepts(EMPTY, run[0].request, run[0].ambient);
    assert s1 == AfterAccept(EMPTY, run[0].request, run[0].ambient);
    ExecNext(run, 1);
    assert Accepts(s1, run[1].request, run[1].ambient);
    assert s2 == AfterAccept(s1, run[1].request, run[1].ambient);
    assert Accepts(s2, run[2].request, run[2].ambient);
  }

  /** A challenge accepted at `now` can be accepted once more just when that leaves room for it. */
  lemma SecondAcceptanceExactly(c: string, wallet: string, ts: int, now: nat)
    requires ParseChallenge(c) == Some((wallet, ts)) && InWindow(ts, now)
    ensures AcceptedTwiceInSomeRun(c, now) <==> LeavesRoom(ts, now)
  {
    if AcceptedTwiceInSomeRun(c, now) {
      var run: seq<Event>, i: nat, j: nat :| Clocked(run) && i < j && AcceptedAt(run, i, c) && AcceptedAt(run, j, c) &&
        run[i].ambient.now == now;
      SecondAcceptanceNeedsRoom(run, i, j, c);
    }
    if LeavesRoom(ts, now) {
      RoomIsEnough(c, wallet, ts, now);
    }
  }

  // ---- Keys and tokens ----

  /** Request `i` of the run creates key `id`. */
  ghost predicate CreatedAt(run: seq<Event>, i: nat, id: string) {
    i < |run| && run[i].Create? && run[i].ambient.keyId == id && Accepts(Exec(run[..i]), run[i].request, run[i].ambient)
  }

  /** After request `i` the key is revoked in its wallet's name. */
  ghost predicate RevokedAfter(run: seq<Event>, i: nat, id: string, wallet: string) {
    exists j :: i < j < |run| && run[j] == Revoke(id, wallet)
  }

  /** What the table says of a key is what request `i` made and later revocations left of it. */
  ghost predicate Tells(run: seq<Event>, i: nat, id: string, key: Key)
    requires CreatedAt(run, i, id)
  {
    && key.hash == Sha256(run[i].ambient.token) && key.wallet == run[i].request.wallet
    && key.name == run[i].request.name && key.createdAt == run[i].ambient.now
    && (key.revoked <==> RevokedAfter(run, i, id, key.wallet))
  }

  /** The table of keys is a record of the run. */
  ghost predicate KeysRecorded(run: seq<Event>) {
    var keys := Exec(run).keys;
    && UniqueHashes(keys)
    && (forall id :: id in keys ==> exists i: nat :: CreatedAt(run, i, id))
    && (forall id, i: nat :: CreatedAt(run, i, id) ==> id in keys && Tells(run, i, id, keys[id]))
  }

  lemma CreatedAtPrefix(run: seq<Event>, e: Event, i: nat, id: string)
    ensures CreatedAt(run + [e], i, id) <==>
      (CreatedAt(run, i, id) ||
        (i == |run| && e.Create? && e.ambient.keyId == id && Accepts(Exec(run), e.request, e.ambient)))
  {
    if i < |run| {
      assert (run + [e])[..i] == run[..i];
    } else if i == |run| {
      assert (run + [e])[..i] == run;
    }
  }

  lemma RevokedSnoc(run: seq<Event>, e: Event, i: nat, id: string, wallet: string)
    requires i < |run|
    ensures RevokedAfter(run + [e], i, id, wallet) <==> RevokedAfter(run, i, id, wallet) || e == Revoke(id, wallet)
  {
    var t := run + [e];
    if j :| i < j < |run| && run[j] == Revoke(id, wallet) {
      assert t[j] == run[j];
    }
    assert t[|run|] == e;
  }

  lemma ExecSnoc(run: seq<Event>, e: Event)
    ensures Exec(run + [e]) == Step(Exec(run), e)
  {
    assert (run + [e])[..|run|] == run;
  }

  lemma {:induction false} TableRecordsRun(run: seq<Event>)
    ensures KeysRecorded(run)
  {
    if run != [] {
      var front, e := run[..|run| - 1], run[|run| - 1];
      TableRecordsRun(front);
      assert run == front + [e];
      RecordedUnique(front, e);
      RecordedSources(front, e);
      RecordedTells(front, e);
    }
  }

  lemma RecordedUnique(run: seq<Event>, e: Event)
    requires KeysRecorded(run)
    ensures UniqueHashes(Exec(run + [e]).keys)
  {
    ExecSnoc(run, e);
  }

  lemma RecordedSources(run: seq<Event>, e: Event)
    requires KeysRecorded(run)
    ensures forall id :: id in Exec(run + [e]).keys ==> exists i: nat :: CreatedAt(run + [e], i, id)
  {
    ExecSnoc(run, e);
    forall id | id in Exec(run + [e]).keys ensures exists i: nat :: CreatedAt(run + [e], i, id) {
      if id in Exec(run).keys {
        var i: nat :| CreatedAt(run, i, id);
        CreatedAtPrefix(run, e, i, id);
      } else {
        CreatedAtPrefix(run, e, |run|, id);
      }
    }
  }

  lemma RecordedTells(run: seq<Event>, e: Event)
    requires KeysRecorded(run)
    ensures forall id, i: nat :: CreatedAt(run + [e], i, id) ==>
      id in Exec(run + [e]).keys && Tells(run + [e], i, id, Exec(run + [e]).keys[id])
  {
    ExecSnoc(run, e);
    var keys := Exec(run + [e]).keys;
    forall id, i: nat | CreatedAt(run + [e], i, id) ensures id in keys && Tells(run + [e], i, id, keys[id]) {
      CreatedAtPrefix(run, e, i, id);
      if i < |run| {
        assert Tells(run, i, id, Exec(run).keys[id]);
        OlderKeyTells(run, e, i, id);
      }
    }
  }

  lemma OlderKeyTells(run: seq<Event>, e: Event, i: nat, id: string)
    requires CreatedAt(run, i, id) && CreatedAt(run + [e], i, id)
    requires id in Exec(run).keys && Tells(run, i, id, Exec(run).keys[id])
    ensures var keys := Step(Exec(run), e).keys;
      id in keys && Tells(run + [e], i, id, keys[id])
  {
    var before := Exec(run).keys[id];
    RevokedSnoc(run, e, i, id, before.wallet);
    assert (run + [e])[i] == run[i];
    KeyStep(Exec(run), e, id);
  }

  /** A request leaves a stored key alone, or sets its revoked flag. */
  lemma KeyStep(s: State, e: Event, id: string)
    requires id in s.keys
    ensures id in Step(s, e).keys
    ensures Step(s, e).keys[id] == if e == Revoke(id, s.keys[id].wallet) then s.keys[id].(revoked := true)
      else s.keys[id]
  {
  }

  ghost predicate CreatedWith(run: seq<Event>, i: nat, id: string, token: string, wallet: string) {
    CreatedAt(run, i, id) && run[i].ambient.token == token && run[i].request.wallet == wallet
  }

  /** A token is good for a wallet just when a key was created with it, in that wallet's name, and was never
      revoked since. */
  lemma TokenGoodExactly(run: seq<Event>, token: string, wallet: string, id: string)
    ensures Vouches(Exec(run), token, wallet, id) <==>
      exists i: nat :: CreatedWith(run, i, id, token, wallet) && !RevokedAfter(run, i, id, wallet)
  {
    TableRecordsRun(run);
    var keys := Exec(run).keys;
    if Vouches(Exec(run), token, wallet, id) {
      var i: nat :| CreatedAt(run, i, id);
      assert Tells(run, i, id, keys[id]);
    }
    if i: nat :| CreatedWith(run, i, id, token, wallet) && !RevokedAfter(run, i, id, wallet) {
      assert Tells(run, i, id, keys[id]);
    }
  }

  /** A token never stands for two wallets or two keys. */
  lemma TokenNamesOneKey(run: seq<Event>, token: string, w: string, id: string, w': string, id': string)
    requires Vouches(Exec(run), token, w, id) && Vouches(Exec(run), token, w', id')
    ensures w == w' && id == id'
  {
    TableRecordsRun(run);
  }

  /** Once revoked, a key stays so, whatever follows. */
  lemma {:induction false} RevocationIsFinal(run: seq<Event>, more: seq<Event>, id: string)
    requires id in Exec(run).keys && Exec(run).keys[id].revoked
    ensures id in Exec(run + more).keys && Exec(run + more).keys[id] == Exec(run).keys[id]
  {
    if more == [] {
      assert run + more == run;
    } else {
      var m := |more| - 1;
      RevocationIsFinal(run, more[..m], id);
      assert run + more == (run + more[..m]) + [more[m]];
      ExecSnoc(run + more[..m], more[m]);
    }
  }

  /** Each key belongs to the wallet that its own signed challenge names. */
  lemma KeyBelongsToChallenge(run: seq<Event>, i: nat, id: string)
    requires CreatedAt(run, i, id)
    ensures id in Exec(run).keys && run[i].request.signed
    ensures exists ts :: ParseChallenge(run[i].request.challenge) == Some((Exec(run).keys[id].wallet, ts))
  {
    TableRecordsRun(run);
    assert Tells(run, i, id, Exec(run).keys[id]);
    var p := ParseChallenge(run[i].request.challenge);
    assert p == Some((run[i].request.wallet, p.value.1));
  }
}
