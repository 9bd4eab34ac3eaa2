/** The API key server of contrib/auth/server.py: its two tables, its clock readings and its requests,
    handled one after the other. */
module Auth {
  import opened Decimal
  import opened Options
  import opened Text

  // ---- Clock: readings count microseconds, `int(time.time())` keeps the whole seconds ----

  const SECOND := 1_000_000

  function Seconds(t: nat): nat {
    t / SECOND
  }

  // ---- Challenges ----

  const CHALLENGE_TTL := 300
  const CLOCK_SKEW := 60

  /** `int(s)` on ASCII text: blanks around it, a sign, digits with single underscores between them. */
  function ParseInt(s: string): Option<int> {
    var t := Strip(s, IsWhite);
    if t == "" then None
    else if t[0] == '-' then (match ParseDigits(t[1..]) case None => None case Some(n) => Some(-n))
    else if t[0] == '+' then ParseDigits(t[1..])
    else ParseDigits(t)
  }

  predicate Grouped(s: string) {
    && s != "" && s[|s| - 1] != '_' && s[0] != '_'
    && (forall i :: 0 <= i < |s| ==> IsDigit(s[i]) || s[i] == '_')
    && (forall i :: 0 <= i < |s| - 1 ==> s[i] != '_' || s[i + 1] != '_')
  }

  function WithoutUnderscores(s: string): (r: string)
    requires forall i :: 0 <= i < |s| ==> IsDigit(s[i]) || s[i] == '_'
    ensures AllDigits(r)
  {
    if s == "" then "" else (if s[0] == '_' then "" else [s[0]]) + WithoutUnderscores(s[1..])
  }

  function ParseDigits(s: string): Option<int> {
    if Grouped(s) then Some(Val(WithoutUnderscores(s))) else None
  }

  /** The wallet and the timestamp that a well-formed challenge names. */
  function ParseChallenge(challenge: string): Option<(string, int)> {
    var parts := Split(challenge, ':');
    if |parts| != 3 || parts[0] != "otela-auth" then None
    else
      match ParseInt(parts[2])
      case None => None
      case Some(ts) => Some((parts[1], ts))
  }

  /** Not ahead of the clock by more than the skew, and not older than the lifetime. */
  predicate InWindow(ts: int, now: nat) {
    ts <= Seconds(now) + CLOCK_SKEW && Seconds(now) - ts <= CHALLENGE_TTL
  }

  predicate ValidChallenge(challenge: string, wallet: string, now: nat) {
    var p := ParseChallenge(challenge);
    p.Some? && p.value.0 == wallet && InWindow(p.value.1, now)
  }

  // ---- Tables ----

  /** `hash_token`: what matters of the digest is that different tokens have different ones. */
  datatype Digest = Sha256(token: string)

  datatype Key = Key(hash: Digest, wallet: string, name: string, createdAt: nat, revoked: bool)

  datatype State = State(used: map<string, nat>, keys: map<string, Key>)

  const EMPTY := State(map[], map[])

  datatype CreateRequest = CreateRequest(wallet: string, challenge: string, name: string, signed: bool)

  /** What the surroundings contribute: the three clock readings of a request and the generated secrets. */
  datatype Ambient = Ambient(checkedAt: nat, now: nat, purgeAt: nat, keyId: string, token: string)

  datatype Reply =
    | Created(keyId: string, token: string, wallet: string, name: string, createdAt: nat)
    | Refused(status: nat)
    | NotUnique

  predicate HasHash(keys: map<string, Key>, h: Digest) {
    exists k :: k in keys && keys[k].hash == h
  }

  ghost predicate UniqueHashes(keys: map<string, Key>) {
    forall k, l :: k in keys && l in keys && keys[k].hash == keys[l].hash ==> k == l
  }

  /** Rows whose lifetime has not passed. */
  function Live(used: map<string, nat>, now: nat): map<string, nat> {
    map c | c in used && !(used[c] < now) :: used[c]
  }

  function Purged(used: map<string, nat>, a: Ambient): map<string, nat> {
    if Seconds(a.purgeAt) % 10 == 0 then Live(used, a.now) else used
  }

  predicate Accepts(s: State, r: CreateRequest, a: Ambient) {
    && ValidChallenge(r.challenge, r.wallet, a.checkedAt) && r.signed && r.challenge !in s.used
    && a.keyId !in s.keys && !HasHash(s.keys, Sha256(a.token))
  }

  function AfterAccept(s: State, r: CreateRequest, a: Ambient): State {
    State(Purged(s.used, a)[r.challenge := a.now + CHALLENGE_TTL * SECOND],
          s.keys[a.keyId := Key(Sha256(a.token), r.wallet, r.name, a.now, false)])
  }

  function AfterRevoke(s: State, keyId: string, wallet: string): State {
    if keyId in s.keys && s.keys[keyId].wallet == wallet
    then s.(keys := s.keys[keyId := s.keys[keyId].(revoked := true)])
    else s
  }

  /** The server, with the tables as fields. */
  class Server {
    var used: map<string, nat>
    var keys: map<string, Key>

    function View(): State
      reads this
    {
      State(used, keys)
    }

    /** The unique column of digests. */
    ghost predicate Valid()
      reads this
    {
      UniqueHashes(keys)
    }

    constructor ()
      ensures View() == EMPTY && Valid()
    {
      used, keys := map[], map[];
    }

    /** `_validate_challenge`: the status of the raised error, if any. */
    method ValidateChallenge(challenge: string, wallet: string, now: nat) returns (error: Option<nat>)
      ensures error == if ValidChallenge(challenge, wallet, now) then None else Some(400)
    {
      var parts := Split(challenge, ':');
      if |parts| != 3 || parts[0] != "otela-auth" {
        return Some(400);
      }
      if parts[1] != wallet {
        return Some(400);
      }
      var ts := ParseInt(parts[2]);
      if ts.None? {
        return Some(400);
      }
      var nowTs := Seconds(now);
      if ts.value > nowTs + CLOCK_SKEW {
        return Some(400);
      }
      if nowTs - ts.value > CHALLENGE_TTL {
        return Some(400);
      }
      return None;
    }

    /** A key is created just when the request is accepted; in all other cases the tables stay as they are. */
    method CreateKey(r: CreateRequest, a: Ambient) returns (reply: Reply)
      modifies this
      ensures reply.Created? <==> Accepts(old(View()), r, a)
      ensures reply.Created? ==> reply == Created(a.keyId, a.token, r.wallet, r.name, a.now)
      ensures View() == if reply.Created? then AfterAccept(old(View()), r, a) else old(View())
      ensures reply == Refused(403) <==> ValidChallenge(r.challenge, r.wallet, a.checkedAt) && !r.signed
      ensures reply == Refused(400) <==>
        (!ValidChallenge(r.challenge, r.wallet, a.checkedAt) || (r.signed && r.challenge in old(used)))
      ensures old(Valid()) ==> Valid()
    {
      var error := ValidateChallenge(r.challenge, r.wallet, a.checkedAt);
      if error.Some? {
        return Refused(error.value);
      }
      if !r.signed {
        return Refused(403);
      }
      if r.challenge in used {
        return Refused(400);
      }
      if a.keyId in keys || HasHash(keys, Sha256(a.token)) {
        return NotUnique;
      }
      if Seconds(a.purgeAt) % 10 == 0 {
        used := Live(used, a.now);
      }
      used := used[r.challenge := a.now + CHALLENGE_TTL * SECOND];
      keys := keys[a.keyId := Key(Sha256(a.token), r.wallet, r.name, a.now, false)];
      return Created(a.keyId, a.token, r.wallet, r.name, a.now);
    }

    method RevokeKey(keyId: string, wallet: string) returns (error: Option<nat>)
      modifies this
      ensures View() == AfterRevoke(old(View()), keyId, wallet)
      ensures old(Valid()) ==> Valid()
      ensures error == if keyId !in old(keys) then Some(404) else if old(keys)[keyId].wallet != wallet then Some(403)
        else None
    {
      if keyId !in keys {
        return Some(404);
      }
      if keys[keyId].wallet != wallet {
        return Some(403);
      }
      keys := keys[keyId := keys[keyId].(revoked := true)];
      return None;
    }

    /** The wallet and key behind a token, or status 401. */
    method VerifyToken(token: string) returns (found: Option<(string, string)>)
      requires Valid()
      ensures found.Some? ==> Vouches(View(), token, found.value.0, found.value.1)
      ensures found.None? ==> forall w, k :: !Vouches(View(), token, w, k)
    {
      var h := Sha256(token);
      if HasHash(keys, h) {
        var k :| k in keys && keys[k].hash == h;
        if keys[k].revoked {
          return None;
        }
        return Some((keys[k].wallet, k));
      }
      return None;
    }
  }

  /** An unrevoked row of this key carries the token's digest and the wallet. */
  predicate Vouches(s: State, token: string, wallet: string, keyId: string) {
    keyId in s.keys && s.keys[keyId].hash == Sha256(token) && s.keys[keyId].wallet == wallet && !s.keys[keyId].revoked
  }

  // ---- Runs ----

  datatype Event =
    | Create(request: CreateRequest, ambient: Ambient)
    | Revoke(keyId: string, wallet: string)
    | Verify(token: string)

  function Step(s: State, e: Event): State {
    match e
    case Create(r, a) => if Accepts(s, r, a) then AfterAccept(s, r, a) else s
    case Revoke(k, w) => AfterRevoke(s, k, w)
    case Verify(_) => s
  }

  function Exec(run: seq<Event>): State {
    if run == [] then EMPTY else Step(Exec(run[..|run| - 1]), run[|run| - 1])
  }

  predicate Reads(a: Ambient) {
    a.checkedAt <= a.now <= a.purgeAt
  }

  /** The clock never goes back, inside a request or from one to the next. */
  ghost predicate Clocked(run: seq<Event>) {
    && (forall i :: 0 <= i < |run| && run[i].Create? ==> Reads(run[i].ambient))
    && (forall i, j :: 0 <= i < j < |run| && run[i].Create? && run[j].Create? ==>
          run[i].ambient.purgeAt <= run[j].ambient.checkedAt)
  }

  /** Request `i` of the run is accepted with challenge `c`. */
  ghost predicate AcceptedAt(run: seq<Event>, i: nat, c: string) {
    i < |run| && run[i].Create? && run[i].request.challenge == c &&
      Accepts(Exec(run[..i]), run[i].request, run[i].ambient)
  }
}
