/** The holder snapshot: contrib/ownership/src/spl-helpers.ts decodes and sorts the token accounts of a
    mint, contrib/ownership/src/snapshot-holders.ts sums them up by owner and ranks the owners. */
module Holders {
  import opened Arith
  import opened ByteStrings
  import opened Options
  import opened Sorting

  /** An account as the cluster returns it; the query asks for accounts of 165 bytes. */
  datatype TokenAccount = TokenAccount(pubkey: Bytes, data: Bytes)

  const ACCOUNT_SIZE := 165

  predicate Sized(accounts: seq<TokenAccount>) {
    forall i :: 0 <= i < |accounts| ==> |accounts[i].data| == ACCOUNT_SIZE
  }

  datatype Holder = Holder(owner: Bytes, account: Bytes, balance: nat)

  /** The comparison of both sorts: larger balances first. */
  predicate Richer(a: Holder, b: Holder) {
    a.balance >= b.balance
  }

  lemma RicherIsPreorder()
    ensures TotalPreorder(Richer)
  {
  }

  // ---- Decoding the accounts ----

  function Decode(a: TokenAccount): Holder
    requires |a.data| == ACCOUNT_SIZE
  {
    Holder(a.data[32..64], a.pubkey, Value(a.data[64..72]))
  }

  /** The accounts that hold something, in the given order. */
  function NonZero(accounts: seq<TokenAccount>): seq<Holder>
    requires Sized(accounts)
  {
    if accounts == [] then []
    else
      var n := |accounts| - 1;
      var h := Decode(accounts[n]);
      NonZero(accounts[..n]) + if h.balance > 0 then [h] else []
  }

  /** The `reduce` over the amount bytes, with the weight 1 << 8i. */
  method ReadAmount(bytes: Bytes) returns (acc: nat)
    ensures acc == Value(bytes)
  {
    acc := 0;
    for i := 0 to |bytes|
      invariant acc == Value(bytes[..i])
    {
      ValueSnoc(bytes[..i], bytes[i]);
      assert bytes[..i + 1] == bytes[..i] + [bytes[i]];
      acc := acc + bytes[i] * Pow256(i);
    }
    assert bytes[..|bytes|] == bytes;
  }

  /** `snapshotAllHolders`, from the returned accounts on. */
  method SnapshotAllHolders(accounts: seq<TokenAccount>) returns (holders: seq<Holder>)
    requires Sized(accounts)
    ensures holders == Snapshot(accounts)
  {
    holders := [];
    for i := 0 to |accounts|
      invariant holders == NonZero(accounts[..i])
    {
      var data := accounts[i].data;
      var balance := ReadAmount(data[64..72]);
      assert accounts[..i + 1][..i] == accounts[..i];
      if balance > 0 {
        holders := holders + [Holder(data[32..64], accounts[i].pubkey, balance)];
      }
    }
    assert accounts[..|accounts|] == accounts;
    holders := Sort(holders, Richer);
  }

  function Snapshot(accounts: seq<TokenAccount>): seq<Holder>
    requires Sized(accounts)
  {
    Sort(NonZero(accounts), Richer)
  }

  lemma {:induction false} NonZeroMembers(accounts: seq<TokenAccount>, h: Holder)
    requires Sized(accounts)
    ensures h in NonZero(accounts) <==> h.balance > 0 && exists i :: 0 <= i < |accounts| && Decode(accounts[i]) == h
  {
    if accounts != [] {
      var n := |accounts| - 1;
      NonZeroMembers(accounts[..n], h);
      if i :| 0 <= i < |accounts| && Decode(accounts[i]) == h {
        assert i < n ==> accounts[..n][i] == accounts[i];
      }
    }
  }

  /** The snapshot lists exactly the accounts with a balance, largest first. */
  lemma SnapshotSortedMembers(accounts: seq<TokenAccount>)
    requires Sized(accounts)
    ensures Sorted(Snapshot(accounts), Richer)
    ensures forall h :: h in Snapshot(accounts) <==>
      h.balance > 0 && exists i :: 0 <= i < |accounts| && Decode(accounts[i]) == h
  {
    RicherIsPreorder();
    SortSorted(NonZero(accounts), Richer);
    SortElements(NonZero(accounts), Richer);
    forall h {
      NonZeroMembers(accounts, h);
    }
  }

  // ---- Sums ----

  function Total(s: seq<Holder>): nat {
    if s == [] then 0 else s[0].balance + Total(s[1..])
  }

  lemma {:induction false} TotalConcat(a: seq<Holder>, b: seq<Holder>)
    ensures Total(a + b) == Total(a) + Total(b)
  {
    if a == [] {
      assert a + b == b;
    } else {
      assert (a + b)[1..] == a[1..] + b;
      TotalConcat(a[1..], b);
    }
  }

  lemma {:induction false} TotalOfInsert(x: Holder, s: seq<Holder>)
    ensures Total(Insert(x, s, Richer)) == x.balance + Total(s)
  {
    if s != [] && !Richer(x, s[0]) {
      TotalOfInsert(x, s[1..]);
    }
  }

  lemma {:induction false} TotalOfSort(s: seq<Holder>)
    ensures Total(Sort(s, Richer)) == Total(s)
  {
    if s != [] {
      TotalOfSort(s[1..]);
      TotalOfInsert(s[0], Sort(s[1..], Richer));
    }
  }

  lemma TotalOfUpdate(s: seq<Holder>, k: nat, x: Holder)
    requires k < |s|
    ensures Total(s[k := x]) + s[k].balance == Total(s) + x.balance
  {
    assert s == s[..k] + ([s[k]] + s[k + 1..]);
    assert s[k := x] == s[..k] + ([x] + s[k + 1..]);
    TotalConcat(s[..k], [s[k]] + s[k + 1..]);
    TotalConcat(s[..k], [x] + s[k + 1..]);
  }

  /** What the accounts of one owner hold together. */
  function OwnerTotal(raw: seq<Holder>, owner: Bytes): nat {
    Total(Filter(raw, (h: Holder) => h.owner == owner))
  }

  lemma OwnerTotalSnoc(raw: seq<Holder>, h: Holder, owner: Bytes)
    ensures OwnerTotal(raw + [h], owner) == OwnerTotal(raw, owner) + if h.owner == owner then h.balance else 0
  {
    var p := (h: Holder) => h.owner == owner;
    FilterConcat(raw, [h], p);
    TotalConcat(Filter(raw, p), Filter([h], p));
  }

  predicate HasOwner(s: seq<Holder>, owner: Bytes) {
    exists i :: 0 <= i < |s| && s[i].owner == owner
  }

  // ---- Aggregation by owner ----

  /** `ownerMap.get`: an insertion-ordered map is the list of its values. */
  function IndexOf(m: seq<Holder>, owner: Bytes): (k: nat)
    ensures k <= |m| && (k < |m| ==> m[k].owner == owner)
    ensures forall i :: 0 <= i < k ==> m[i].owner != owner
  {
    if m == [] || m[0].owner == owner then 0 else 1 + IndexOf(m[1..], owner)
  }

  function Combine(existing: Holder, h: Holder): Holder {
    Holder(h.owner, if h.balance > existing.balance then h.account else existing.account, existing.balance + h.balance)
  }

  /** One turn of the loop; `set` on a present key keeps its place. */
  function Absorb(m: seq<Holder>, h: Holder): seq<Holder> {
    var k := IndexOf(m, h.owner);
    if k < |m| then m[k := Combine(m[k], h)] else m + [h]
  }

  function Aggregate(raw: seq<Holder>): seq<Holder> {
    if raw == [] then [] else Absorb(Aggregate(raw[..|raw| - 1]), raw[|raw| - 1])
  }

  method AggregateOwners(raw: seq<Holder>) returns (m: seq<Holder>)
    ensures m == Aggregate(raw)
  {
    m := [];
    for n := 0 to |raw|
      invariant m == Aggregate(raw[..n])
    {
      var h := raw[n];
      var k := IndexOf(m, h.owner);
      if k < |m| {
        var newTotal := m[k].balance + h.balance;
        m := m[k := Holder(h.owner, if h.balance > m[k].balance then h.account else m[k].account, newTotal)];
      } else {
        m := m + [h];
      }
      assert raw[..n + 1][..n] == raw[..n];
    }
    assert raw[..|raw|] == raw;
  }

  ghost predicate DistinctOwners(m: seq<Holder>) {
    forall i, j :: 0 <= i < j < |m| ==> m[i].owner != m[j].owner
  }

  /** Aggregation conserves the total balance. */
  lemma {:induction false} AggregateConserves(raw: seq<Holder>)
    ensures Total(Aggregate(raw)) == Total(raw)
  {
    if raw != [] {
      var front, h := raw[..|raw| - 1], raw[|raw| - 1];
      AggregateConserves(front);
      var m := Aggregate(front);
      var k := IndexOf(m, h.owner);
      assert raw == front + [h];
      TotalConcat(front, [h]);
      if k < |m| {
        TotalOfUpdate(m, k, Combine(m[k], h));
      } else {
        TotalConcat(m, [h]);
      }
    }
  }

  /** Each owner has one entry, and it holds the sum of the owner's accounts. */
  lemma {:induction false} AggregateSums(raw: seq<Holder>)
    ensures DistinctOwners(Aggregate(raw))
    ensures forall o :: HasOwner(Aggregate(raw), o) <==> HasOwner(raw, o)
    ensures forall k :: 0 <= k < |Aggregate(raw)| ==>
      Aggregate(raw)[k].balance == OwnerTotal(raw, Aggregate(raw)[k].owner)
  {
    if raw != [] {
      var front, h := raw[..|raw| - 1], raw[|raw| - 1];
      AggregateSums(front);
      assert raw == front + [h];
      AbsorbOwners(Aggregate(front), front, h);
      AbsorbSums(Aggregate(front), front, h);
    }
  }

  lemma AbsorbOwners(m: seq<Holder>, front: seq<Holder>, h: Holder)
    requires DistinctOwners(m) && forall o :: HasOwner(m, o) <==> HasOwner(front, o)
    ensures DistinctOwners(Absorb(m, h))
    ensures forall o :: HasOwner(Absorb(m, h), o) <==> HasOwner(front + [h], o)
  {
    forall o ensures HasOwner(Absorb(m, h), o) <==> HasOwner(front + [h], o) {
      HasOwnerSnoc(front, h, o);
      AbsorbHasOwner(m, h, o);
    }
  }

  lemma HasOwnerSnoc(s: seq<Holder>, h: Holder, o: Bytes)
    ensures HasOwner(s + [h], o) <==> HasOwner(s, o) || h.owner == o
  {
    var t := s + [h];
    assert t[|s|] == h;
    if i :| 0 <= i < |s| && s[i].owner == o {
      assert t[i] == s[i];
    }
  }

  lemma AbsorbHasOwner(m: seq<Holder>, h: Holder, o: Bytes)
    ensures HasOwner(Absorb(m, h), o) <==> HasOwner(m, o) || h.owner == o
  {
    var k, t := IndexOf(m, h.owner), Absorb(m, h);
    if k == |m| {
      HasOwnerSnoc(m, h, o);
    } else {
      assert t[k].owner == h.owner;
      if i :| 0 <= i < |m| && m[i].owner == o {
        assert t[i].owner == m[i].owner;
      }
      if i :| 0 <= i < |t| && t[i].owner == o {
        assert t[i].owner == m[i].owner;
      }
    }
  }

  lemma AbsorbSums(m: seq<Holder>, front: seq<Holder>, h: Holder)
    requires DistinctOwners(m) && forall o :: HasOwner(m, o) <==> HasOwner(front, o)
    requires forall k :: 0 <= k < |m| ==> m[k].balance == OwnerTotal(front, m[k].owner)
    ensures forall k :: 0 <= k < |Absorb(m, h)| ==>
      Absorb(m, h)[k].balance == OwnerTotal(front + [h], Absorb(m, h)[k].owner)
  {
    var t, at := Absorb(m, h), IndexOf(m, h.owner);
    forall k | 0 <= k < |t| ensures t[k].balance == OwnerTotal(front + [h], t[k].owner) {
      OwnerTotalSnoc(front, h, t[k].owner);
      if at == |m| && k == |m| {
        assert !HasOwner(m, h.owner);
        NoOwnerNoTotal(front, h.owner);
      }
    }
  }

  lemma NoOwnerNoTotal(raw: seq<Holder>, owner: Bytes)
    requires !HasOwner(raw, owner)
    ensures OwnerTotal(raw, owner) == 0
  {
    forall h | h in raw ensures h.owner != owner {
      var i :| 0 <= i < |raw| && raw[i] == h;
    }
    FilterNone(raw, (h: Holder) => h.owner == owner);
  }

  // ---- The representative account ----

  /** Account `i` is its owner's first, or holds more than all the owner's earlier accounts together. */
  ghost predicate Leads(raw: seq<Holder>, i: nat)
    requires i < |raw|
  {
    !HasOwner(raw[..i], raw[i].owner) || raw[i].balance > OwnerTotal(raw[..i], raw[i].owner)
  }

  /** Entry `e` carries the owner's last leading account. */
  ghost predicate CarriesLastLeader(raw: seq<Holder>, e: Holder) {
    exists i :: 0 <= i < |raw| && LastLeader(raw, e, i)
  }

  ghost predicate LastLeader(raw: seq<Holder>, e: Holder, i: nat)
    requires i < |raw|
  {
    && raw[i].owner == e.owner && raw[i].account == e.account && Leads(raw, i)
    && forall j :: i < j < |raw| && raw[j].owner == e.owner ==> !Leads(raw, j)
  }

  lemma LeadsSnoc(raw: seq<Holder>, h: Holder)
    ensures forall i :: 0 <= i < |raw| ==> (Leads(raw + [h], i) <==> Leads(raw, i))
    ensures Leads(raw + [h], |raw|) <==> !HasOwner(raw, h.owner) || h.balance > OwnerTotal(raw, h.owner)
  {
    var t := raw + [h];
    assert t[..|raw|] == raw;
    forall i | 0 <= i < |raw| ensures Leads(t, i) <==> Leads(raw, i) {
      assert t[..i] == raw[..i];
    }
  }

  /** Which account an owner's entry carries, in whatever order the accounts come. */
  lemma {:induction false} AggregateCarriesLastLeader(raw: seq<Holder>)
    ensures forall k :: 0 <= k < |Aggregate(raw)| ==> CarriesLastLeader(raw, Aggregate(raw)[k])
  {
    if raw != [] {
      var front, h := raw[..|raw| - 1], raw[|raw| - 1];
      AggregateCarriesLastLeader(front);
      AggregateSums(front);
      assert raw == front + [h];
      var m, t := Aggregate(front), Aggregate(raw);
      var at := IndexOf(m, h.owner);
      forall k | 0 <= k < |t| ensures CarriesLastLeader(raw, t[k]) {
        if k == at {
          assert HasOwner(front, h.owner) <==> HasOwner(m, h.owner);
          CarriedAtOwn(front, h, m, at, t[k]);
        } else {
          CarriedElsewhere(front, h, m[k]);
        }
      }
    }
  }

  lemma CarriedElsewhere(front: seq<Holder>, h: Holder, e: Holder)
    requires CarriesLastLeader(front, e) && e.owner != h.owner
    ensures CarriesLastLeader(front + [h], e)
  {
    LeadsSnoc(front, h);
    var i :| 0 <= i < |front| && LastLeader(front, e, i);
    assert LastLeader(front + [h], e, i);
  }

  lemma CarriedAtOwn(front: seq<Holder>, h: Holder, m: seq<Holder>, at: nat, e: Holder)
    requires at == IndexOf(m, h.owner) && (at < |m| ==> CarriesLastLeader(front, m[at]))
    requires at < |m| ==> m[at].balance == OwnerTotal(front, h.owner)
    requires HasOwner(front, h.owner) <==> HasOwner(m, h.owner)
    requires e == if at < |m| then Combine(m[at], h) else h
    ensures CarriesLastLeader(front + [h], e)
  {
    assert HasOwner(m, h.owner) <==> at < |m|;
    if at < |m| && h.balance <= m[at].balance {
      CarriedOn(front, h, m[at], e);
    } else {
      TakesLead(front, h, e);
    }
  }

  lemma CarriedOn(front: seq<Holder>, h: Holder, before: Holder, e: Holder)
    requires CarriesLastLeader(front, before) && before.owner == e.owner == h.owner && before.account == e.account
    requires HasOwner(front, h.owner) && h.balance <= OwnerTotal(front, h.owner)
    ensures CarriesLastLeader(front + [h], e)
  {
    LeadsSnoc(front, h);
    var i :| 0 <= i < |front| && LastLeader(front, before, i);
    assert LastLeader(front + [h], e, i);
  }

  lemma TakesLead(front: seq<Holder>, h: Holder, e: Holder)
    requires e.owner == h.owner && e.account == h.account
    requires !HasOwner(front, h.owner) || h.balance > OwnerTotal(front, h.owner)
    ensures CarriesLastLeader(front + [h], e)
  {
    LeadsSnoc(front, h);
    assert LastLeader(front + [h], e, |front|);
  }

  /** `e` names one of its owner's largest accounts. */
  ghost predicate CarriesLargest(raw: seq<Holder>, e: Holder) {
    exists i :: 0 <= i < |raw| && LargestOfOwner(raw, e, i)
  }

  ghost predicate LargestOfOwner(raw: seq<Holder>, e: Holder, i: nat)
    requires i < |raw|
  {
    && raw[i].owner == e.owner && raw[i].account == e.account
    && forall j :: 0 <= j < |raw| && raw[j].owner == e.owner ==> raw[j].balance <= raw[i].balance
  }

  /** For accounts in descending order the carried account is one of the owner's largest. */
  lemma SortedCarriesLargest(raw: seq<Holder>, e: Holder)
    requires Sorted(raw, Richer) && CarriesLastLeader(raw, e)
    ensures CarriesLargest(raw, e)
  {
    var i :| 0 <= i < |raw| && LastLeader(raw, e, i);
    forall j | 0 <= j < |raw| && raw[j].owner == e.owner ensures raw[j].balance <= raw[i].balance {
      if j < i {
        assert raw[..i][j] == raw[j];
        MemberUnderTotal(raw[..i], j);
        assert Richer(raw[j], raw[i]);
      } else if i < j {
        assert Richer(raw[i], raw[j]);
      }
    }
    assert LargestOfOwner(raw, e, i);
  }

  lemma MemberUnderTotal(raw: seq<Holder>, j: nat)
    requires j < |raw|
    ensures raw[j].balance <= OwnerTotal(raw, raw[j].owner)
  {
    var p := (h: Holder) => h.owner == raw[j].owner;
    assert raw == raw[..j] + ([raw[j]] + raw[j + 1..]);
    FilterConcat(raw[..j], [raw[j]] + raw[j + 1..], p);
    FilterConcat([raw[j]], raw[j + 1..], p);
    assert Filter([raw[j]], p) == [raw[j]];
    TotalConcat(Filter(raw[..j], p), [raw[j]] + Filter(raw[j + 1..], p));
  }

  ghost predicate DistinctAccounts(raw: seq<Holder>) {
    forall i, j :: 0 <= i < j < |raw| ==> raw[i].account != raw[j].account
  }

  /** One of the owner's largest accounts leads when its turn comes. */
  ghost predicate LargestLeads(raw: seq<Holder>, e: Holder) {
    exists m :: 0 <= m < |raw| && LargestAt(raw, e.owner, m) && Leads(raw, m)
  }

  ghost predicate LargestAt(raw: seq<Holder>, owner: Bytes, m: nat)
    requires m < |raw|
  {
    raw[m].owner == owner && forall j :: 0 <= j < |raw| && raw[j].owner == owner ==> raw[j].balance <= raw[m].balance
  }

  /** The last leader is at least as large as every earlier leader. */
  lemma LeaderExceeds(raw: seq<Holder>, m: nat, i: nat)
    requires m < i < |raw| && raw[m].owner == raw[i].owner && Leads(raw, i)
    ensures raw[i].balance > raw[m].balance
  {
    assert raw[..i][m] == raw[m];
    MemberUnderTotal(raw[..i], m);
  }

  /** In any order, with distinct account keys: the kept account is one of the owner's largest if and only if one of
      the largest leads, that is, exceeds all of the owner's accounts before it together. */
  lemma CarriesLargestExactly(raw: seq<Holder>, e: Holder)
    requires DistinctAccounts(raw) && e in Aggregate(raw)
    ensures CarriesLargest(raw, e) <==> LargestLeads(raw, e)
  {
    AggregateCarriesLastLeader(raw);
    var n :| 0 <= n < |Aggregate(raw)| && Aggregate(raw)[n] == e;
    assert CarriesLastLeader(raw, e);
    var i :| 0 <= i < |raw| && LastLeader(raw, e, i);
    if CarriesLargest(raw, e) {
      var j :| 0 <= j < |raw| && LargestOfOwner(raw, e, j);
      assert i == j;
      assert LargestAt(raw, e.owner, i);
    }
    if LargestLeads(raw, e) {
      var m :| 0 <= m < |raw| && LargestAt(raw, e.owner, m) && Leads(raw, m);
      if m < i {
        LeaderExceeds(raw, m, i);
      }
      assert i == m;
      assert LargestOfOwner(raw, e, i);
    }
  }

  /** Without the order it need not be: 3, 3 and 4 leave the first account in place. */
  lemma UnsortedMissesLargest(owner: Bytes, a: Bytes, b: Bytes, c: Bytes)
    requires a != c && b != c
    ensures var raw := [Holder(owner, a, 3), Holder(owner, b, 3), Holder(owner, c, 4)];
      Aggregate(raw) == [Holder(owner, a, 10)] && !CarriesLargest(raw, Aggregate(raw)[0])
  {
    var raw := [Holder(owner, a, 3), Holder(owner, b, 3), Holder(owner, c, 4)];
    assert raw[..2] == [Holder(owner, a, 3), Holder(owner, b, 3)];
    assert raw[..2][..1] == [Holder(owner, a, 3)];
    assert raw[..2][..1][..0] == [];
    assert Aggregate(raw[..2][..1]) == [Holder(owner, a, 3)];
    assert Aggregate(raw[..2]) == [Holder(owner, a, 6)];
    assert raw[2].balance == 4;
  }

  // ---- Ranking ----

  /** The entries over a bound; `--min-balance` has been scaled to raw units. */
  function AtLeast(min: nat): Holder -> bool {
    (h: Holder) => h.balance >= min
  }

  function Top(s: seq<Holder>, top: Option<int>): seq<Holder> {
    if top.Some? && 0 < top.value < |s| then s[..top.value] else s
  }

  /** What the entries of the report are made from. */
  function Ranked(raw: seq<Holder>, minRaw: Option<nat>, includeZero: bool, top: Option<int>): seq<Holder> {
    var sorted := Sort(Aggregate(raw), Richer);
    var large := if minRaw.Some? then Filter(sorted, AtLeast(minRaw.value)) else sorted;
    Top(if includeZero then large else Filter(large, AtLeast(1)), top)
  }

  method RankHolders(raw: seq<Holder>, minRaw: Option<nat>, includeZero: bool, top: Option<int>)
    returns (holders: seq<Holder>)
    ensures holders == Ranked(raw, minRaw, includeZero, top)
  {
    holders := AggregateOwners(raw);
    holders := Sort(holders, Richer);
    if minRaw.Some? {
      holders := Filter(holders, AtLeast(minRaw.value));
    }
    if !includeZero {
      holders := Filter(holders, AtLeast(1));
    }
    if top.Some? && top.value > 0 {
      holders := if top.value < |holders| then holders[..top.value] else holders;
    }
  }

  /** An owner's total reaches the bounds that were asked for. */
  predicate Passes(total: nat, minRaw: Option<nat>, includeZero: bool) {
    (minRaw.Some? ==> total >= minRaw.value) && (includeZero || total > 0)
  }

  /** Every entry is an owner of the snapshot with the sum of its accounts, above the bounds, and carries one
      of the owner's largest accounts. */
  ghost predicate Sound(raw: seq<Holder>, r: seq<Holder>, minRaw: Option<nat>, includeZero: bool) {
    forall e :: e in r ==>
      && HasOwner(raw, e.owner) && e.balance == OwnerTotal(raw, e.owner)
      && Passes(e.balance, minRaw, includeZero) && CarriesLargest(raw, e)
  }

  /** An owner above the bounds is missing only from a full list of owners that all have at least as much. */
  ghost predicate Complete(raw: seq<Holder>, r: seq<Holder>, minRaw: Option<nat>, includeZero: bool, top: Option<int>) {
    forall o :: HasOwner(raw, o) && Passes(OwnerTotal(raw, o), minRaw, includeZero) && !HasOwner(r, o) ==>
      top.Some? && |r| == top.value > 0 && forall e :: e in r ==> e.balance >= OwnerTotal(raw, o)
  }

  /** The filters in one. */
  lemma FilterPasses(s: seq<Holder>, minRaw: Option<nat>, includeZero: bool)
    ensures var large := if minRaw.Some? then Filter(s, AtLeast(minRaw.value)) else s;
      (if includeZero then large else Filter(large, AtLeast(1))) ==
        Filter(s, (h: Holder) => Passes(h.balance, minRaw, includeZero))
  {
    var p := (h: Holder) => Passes(h.balance, minRaw, includeZero);
    var large := if minRaw.Some? then Filter(s, AtLeast(minRaw.value)) else s;
    if minRaw.Some? && !includeZero {
      FilterTwice(s, AtLeast(minRaw.value), AtLeast(1), p);
    } else if minRaw.Some? {
      FilterCongruence(s, AtLeast(minRaw.value), p);
    } else if includeZero {
      FilterAll(s, p);
    } else {
      FilterCongruence(s, AtLeast(1), p);
    }
  }

  lemma {:induction false} FilterTwice(s: seq<Holder>, p: Holder -> bool, q: Holder -> bool, both: Holder -> bool)
    requires forall h :: both(h) == (p(h) && q(h))
    ensures Filter(Filter(s, p), q) == Filter(s, both)
  {
    if s != [] {
      FilterTwice(s[1..], p, q, both);
    }
  }

  lemma {:induction false} FilterSorted(s: seq<Holder>, p: Holder -> bool)
    requires Sorted(s, Richer)
    ensures Sorted(Filter(s, p), Richer)
  {
    RicherIsPreorder();
    SortOfSorted(s, Richer);
    SortFilter(s, Richer, p);
    SortSorted(Filter(s, p), Richer);
  }

  /** All that the ranking keeps, before the cut to the first entries. */
  function Passing(raw: seq<Holder>, minRaw: Option<nat>, includeZero: bool): seq<Holder> {
    Filter(Sort(Aggregate(raw), Richer), (h: Holder) => Passes(h.balance, minRaw, includeZero))
  }

  lemma RankedIsTop(raw: seq<Holder>, minRaw: Option<nat>, includeZero: bool, top: Option<int>)
    ensures Ranked(raw, minRaw, includeZero, top) == Top(Passing(raw, minRaw, includeZero), top)
    ensures Sorted(Passing(raw, minRaw, includeZero), Richer)
  {
    var sorted := Sort(Aggregate(raw), Richer);
    FilterPasses(sorted, minRaw, includeZero);
    RicherIsPreorder();
    SortSorted(Aggregate(raw), Richer);
    FilterSorted(sorted, (h: Holder) => Passes(h.balance, minRaw, includeZero));
  }

  lemma PassingMembers(raw: seq<Holder>, minRaw: Option<nat>, includeZero: bool, e: Holder)
    ensures e in Passing(raw, minRaw, includeZero) <==> e in Aggregate(raw) && Passes(e.balance, minRaw, includeZero)
  {
    SortElements(Aggregate(raw), Richer);
  }

  lemma AggregateEntry(raw: seq<Holder>, e: Holder)
    requires Sorted(raw, Richer) && e in Aggregate(raw)
    ensures HasOwner(raw, e.owner) && e.balance == OwnerTotal(raw, e.owner) && CarriesLargest(raw, e)
  {
    var m := Aggregate(raw);
    var k :| 0 <= k < |m| && m[k] == e;
    AggregateSums(raw);
    AggregateCarriesLastLeader(raw);
    assert HasOwner(m, e.owner);
    SortedCarriesLargest(raw, e);
  }

  lemma OwnerEntry(raw: seq<Holder>, o: Bytes) returns (e: Holder)
    requires HasOwner(raw, o)
    ensures e in Aggregate(raw) && e.owner == o && e.balance == OwnerTotal(raw, o)
  {
    AggregateSums(raw);
    var m := Aggregate(raw);
    assert HasOwner(m, o);
    var k :| 0 <= k < |m| && m[k].owner == o;
    e := m[k];
  }

  lemma TopDominates(s: seq<Holder>, n: nat, j: nat)
    requires Sorted(s, Richer) && n <= j < |s|
    ensures forall e :: e in s[..n] ==> e.balance >= s[j].balance
  {
    forall e | e in s[..n] ensures e.balance >= s[j].balance {
      var i :| 0 <= i < n && s[i] == e;
      assert Richer(s[i], s[j]);
    }
  }

  lemma LeftOut(s: seq<Holder>, n: nat, x: Holder) returns (j: nat)
    requires x in s && n <= |s| && x !in s[..n]
    ensures n <= j < |s| && s[j] == x
  {
    assert s == s[..n] + s[n..];
    var i :| 0 <= i < |s[n..]| && s[n..][i] == x;
    j := n + i;
  }

  lemma HasOwnerOfMember(s: seq<Holder>, e: Holder)
    requires e in s
    ensures HasOwner(s, e.owner)
  {
    var i :| 0 <= i < |s| && s[i] == e;
  }

  lemma TopMembers(s: seq<Holder>, top: Option<int>)
    ensures forall e :: e in Top(s, top) ==> e in s
    ensures Sorted(s, Richer) ==> Sorted(Top(s, top), Richer)
  {
  }

  function OwnerCount(s: seq<Holder>, o: Bytes): nat {
    |Filter(s, (h: Holder) => h.owner == o)|
  }

  lemma {:induction false} DistinctCount(s: seq<Holder>, o: Bytes)
    requires DistinctOwners(s)
    ensures OwnerCount(s, o) <= 1
  {
    if s != [] {
      DistinctCount(s[1..], o);
      if s[0].owner == o {
        forall h | h in s[1..] ensures h.owner != o {
          var i :| 0 <= i < |s[1..]| && s[1..][i] == h;
          assert s[i + 1] == h;
        }
        FilterNone(s[1..], (h: Holder) => h.owner == o);
      }
    }
  }

  lemma CountDistinct(s: seq<Holder>)
    requires forall o :: OwnerCount(s, o) <= 1
    ensures DistinctOwners(s)
  {
    forall i, j | 0 <= i < j < |s| ensures s[i].owner != s[j].owner {
      var p := (h: Holder) => h.owner == s[i].owner;
      assert s == s[..j] + s[j..];
      FilterConcat(s[..j], s[j..], p);
      assert s[..j][i] == s[i] && s[i] in s[..j] && s[i] in Filter(s[..j], p);
      assert OwnerCount(s, s[i].owner) <= 1;
      assert |Filter(s[j..], p)| == 0;
      assert s[j..][0] == s[j] && s[j] in s[j..];
    }
  }

  lemma SortDistinct(s: seq<Holder>)
    requires DistinctOwners(s)
    ensures DistinctOwners(Sort(s, Richer))
  {
    RicherIsPreorder();
    forall o ensures OwnerCount(Sort(s, Richer), o) <= 1 {
      DistinctCount(s, o);
      SortFilter(s, Richer, (h: Holder) => h.owner == o);
    }
    CountDistinct(Sort(s, Richer));
  }

  lemma {:induction false} FilterDistinct(s: seq<Holder>, p: Holder -> bool)
    requires DistinctOwners(s)
    ensures DistinctOwners(Filter(s, p))
  {
    if s != [] {
      FilterDistinct(s[1..], p);
      forall h | h in Filter(s[1..], p) ensures h.owner != s[0].owner {
        var i :| 0 <= i < |s[1..]| && s[1..][i] == h;
        assert s[i + 1] == h;
      }
      var t := Filter(s[1..], p);
      forall i | 0 <= i < |t| ensures t[i].owner != s[0].owner {
        assert t[i] in t;
      }
    }
  }

  /** No owner is listed twice. */
  lemma RankedDistinct(raw: seq<Holder>, minRaw: Option<nat>, includeZero: bool, top: Option<int>)
    ensures DistinctOwners(Ranked(raw, minRaw, includeZero, top))
  {
    AggregateSums(raw);
    SortDistinct(Aggregate(raw));
    RankedIsTop(raw, minRaw, includeZero, top);
    FilterDistinct(Sort(Aggregate(raw), Richer), (h: Holder) => Passes(h.balance, minRaw, includeZero));
  }

  /** The whole snapshot, for any accounts and any options. */
  lemma RankedReport(accounts: seq<TokenAccount>, minRaw: Option<nat>, includeZero: bool, top: Option<int>)
    requires Sized(accounts)
    ensures var raw := Snapshot(accounts);
      var r := Ranked(raw, minRaw, includeZero, top);
      Sorted(r, Richer) && DistinctOwners(r) && Sound(raw, r, minRaw, includeZero) &&
        Complete(raw, r, minRaw, includeZero, top)
  {
    SnapshotSortedMembers(accounts);
    RankedDistinct(Snapshot(accounts), minRaw, includeZero, top);
    RankedSound(Snapshot(accounts), minRaw, includeZero, top);
    RankedComplete(Snapshot(accounts), minRaw, includeZero, top);
  }

  lemma RankedSound(raw: seq<Holder>, minRaw: Option<nat>, includeZero: bool, top: Option<int>)
    requires Sorted(raw, Richer)
    ensures Sorted(Ranked(raw, minRaw, includeZero, top), Richer)
    ensures Sound(raw, Ranked(raw, minRaw, includeZero, top), minRaw, includeZero)
  {
    var r := Ranked(raw, minRaw, includeZero, top);
    RankedIsTop(raw, minRaw, includeZero, top);
    TopMembers(Passing(raw, minRaw, includeZero), top);
    forall e | e in r
      ensures HasOwner(raw, e.owner) && e.balance == OwnerTotal(raw, e.owner)
      ensures Passes(e.balance, minRaw, includeZero) && CarriesLargest(raw, e)
    {
      PassingMembers(raw, minRaw, includeZero, e);
      AggregateEntry(raw, e);
    }
  }

  lemma RankedComplete(raw: seq<Holder>, minRaw: Option<nat>, includeZero: bool, top: Option<int>)
    ensures Complete(raw, Ranked(raw, minRaw, includeZero, top), minRaw, includeZero, top)
  {
    var r := Ranked(raw, minRaw, includeZero, top);
    RankedIsTop(raw, minRaw, includeZero, top);
    forall o | HasOwner(raw, o) && Passes(OwnerTotal(raw, o), minRaw, includeZero) && !HasOwner(r, o)
      ensures top.Some? && |r| == top.value > 0 && forall e :: e in r ==> e.balance >= OwnerTotal(raw, o)
    {
      var x := OwnerEntry(raw, o);
      PassingMembers(raw, minRaw, includeZero, x);
      if x in r {
        HasOwnerOfMember(r, x);
      }
      var all := Passing(raw, minRaw, includeZero);
      assert r == all[..|r|] && (|r| < |all| ==> top.Some? && |r| == top.value > 0);
      var j := LeftOut(all, |r|, x);
      TopDominates(all, |r|, j);
    }
  }

  /** With no bounds and no cut the report accounts for every unit held. */
  lemma RankedConserves(accounts: seq<TokenAccount>, includeZero: bool)
    requires Sized(accounts)
    ensures Total(Ranked(Snapshot(accounts), None, includeZero, None)) == Total(NonZero(accounts))
  {
    var raw := Snapshot(accounts);
    IncludeZeroChangesNothing(accounts, None, None);
    TotalOfSort(NonZero(accounts));
    AggregateConserves(raw);
    TotalOfSort(Aggregate(raw));
  }

  /** The snapshot has already dropped empty accounts, so `--include-zero` does not change the entries. */
  lemma IncludeZeroChangesNothing(accounts: seq<TokenAccount>, minRaw: Option<nat>, top: Option<int>)
    requires Sized(accounts)
    ensures Ranked(Snapshot(accounts), minRaw, true, top) == Ranked(Snapshot(accounts), minRaw, false, top)
  {
    var raw := Snapshot(accounts);
    SnapshotSortedMembers(accounts);
    var sorted := Sort(Aggregate(raw), Richer);
    var large := if minRaw.Some? then Filter(sorted, AtLeast(minRaw.value)) else sorted;
    forall e | e in large ensures e.balance >= 1 {
      SortElements(Aggregate(raw), Richer);
      assert e in Aggregate(raw);
      AggregateEntry(raw, e);
      var i :| 0 <= i < |raw| && LargestOfOwner(raw, e, i);
      assert raw[i] in raw;
      MemberUnderTotal(raw, i);
    }
    FilterAll(large, AtLeast(1));
  }

  // ---- Percentages ----

  /** Hundredths of a percent of the supply, rounded down. */
  function BasisPoints(balance: nat, supply: nat): nat {
    if supply > 0 then Quot(balance * 10000, supply) else 0
  }

  function SumOfPoints(s: seq<Holder>, supply: nat): nat {
    if s == [] then 0 else BasisPoints(s[0].balance, supply) + SumOfPoints(s[1..], supply)
  }

  /** Rounding down loses less than one point per entry. */
  lemma {:induction false} PointsBound(s: seq<Holder>, supply: nat)
    requires supply > 0
    ensures SumOfPoints(s, supply) * supply <= Total(s) * 10000 <= SumOfPoints(s, supply) * supply + |s| * (supply - 1)
  {
    if s != [] {
      PointsBound(s[1..], supply);
      var b := s[0].balance * 10000;
      QuotRem(b, supply);
      var q, rest, n, c := Quot(b, supply), SumOfPoints(s[1..], supply), |s| - 1, supply - 1;
      OneMore(q, rest, supply);
      OneMore(1, n, c);
    }
  }

  lemma OneMore(q: nat, rest: nat, c: nat)
    ensures (q + rest) * c == q * c + rest * c
  {
  }

  /** The reported shares never add up to more than 100 %. */
  lemma SharesWithinSupply(s: seq<Holder>, supply: nat)
    requires Total(s) <= supply
    ensures SumOfPoints(s, supply) <= 10000
  {
    if supply == 0 {
      NoSupplyNoPoints(s);
    } else {
      PointsBound(s, supply);
      StrictlyMonotone(10000, SumOfPoints(s, supply), supply);
    }
  }

  lemma {:induction false} NoSupplyNoPoints(s: seq<Holder>)
    ensures SumOfPoints(s, 0) == 0
  {
    if s != [] {
      NoSupplyNoPoints(s[1..]);
    }
  }
}
