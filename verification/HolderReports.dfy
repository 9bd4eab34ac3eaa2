/** From the bytes of token accounts to the report: the accounts are given by what was written into them, and the
    report is described by that alone. */
module HolderReports {
  import opened ByteStrings
  import opened Holders
  import opened Options
  import opened Sorting

  /** What a token account says: 32 bytes of mint, 32 bytes of owner, 8 bytes of amount, and the rest. */
  datatype Slot = Slot(pubkey: Bytes, mint: Bytes, owner: Bytes, amount: nat, rest: Bytes)

  predicate SlotOk(s: Slot) {
    |s.mint| == 32 && |s.owner| == 32 && s.amount < 0x1_0000_0000_0000_0000 && |s.rest| == 93
  }

  /** The account as it stands on the chain. */
  function AccountOf(s: Slot): (a: TokenAccount)
    requires SlotOk(s)
    ensures |a.data| == 165 && a.pubkey == s.pubkey
  {
    TokenAccount(s.pubkey, s.mint + s.owner + LittleEndian(s.amount, 8) + s.rest)
  }

  predicate SlotsOk(slots: seq<Slot>) {
    forall i :: 0 <= i < |slots| ==> SlotOk(slots[i])
  }

  function AccountsOf(slots: seq<Slot>): (r: seq<TokenAccount>)
    requires SlotsOk(slots)
    ensures |r| == |slots| && Sized(r) && forall i :: 0 <= i < |r| ==> r[i] == AccountOf(slots[i])
  {
    seq(|slots|, i requires 0 <= i < |slots| => AccountOf(slots[i]))
  }

  /** The holder that a slot speaks of. */
  function HolderOf(s: Slot): Holder {
    Holder(s.owner, s.pubkey, s.amount)
  }

  /** Decoding returns owner and amount as they were written. */
  lemma DecodeReadsBack(s: Slot)
    requires SlotOk(s)
    ensures Decode(AccountOf(s)) == HolderOf(s)
  {
    var data, amount := AccountOf(s).data, LittleEndian(s.amount, 8);
    assert data[32..64] == s.owner;
    assert data[64..72] == amount;
    Limits();
    ValueOfLittleEndian(s.amount, 8);
  }

  /** Every account of 165 bytes is of that form. */
  lemma EveryAccountIsASlot(a: TokenAccount) returns (s: Slot)
    requires |a.data| == 165
    ensures SlotOk(s) && AccountOf(s) == a
  {
    var d := a.data;
    s := Slot(a.pubkey, d[..32], d[32..64], Value(d[64..72]), d[72..]);
    LittleEndianOfValue(d[64..72]);
    Limits();
    assert d == d[..32] + d[32..64] + d[64..72] + d[72..];
  }

  lemma AccountsFront(slots: seq<Slot>)
    requires SlotsOk(slots) && slots != []
    ensures AccountsOf(slots)[..|slots| - 1] == AccountsOf(slots[..|slots| - 1])
  {
  }

  /** The snapshot lists the holder of a slot just when the slot is funded. */
  lemma SnapshotLists(slots: seq<Slot>, i: nat)
    requires SlotsOk(slots) && i < |slots|
    ensures HolderOf(slots[i]) in Snapshot(AccountsOf(slots)) <==> slots[i].amount > 0
  {
    SnapshotSortedMembers(AccountsOf(slots));
    DecodeReadsBack(slots[i]);
    assert AccountsOf(slots)[i] == AccountOf(slots[i]);
  }

  lemma SnapshotComesFrom(slots: seq<Slot>, h: Holder) returns (i: nat)
    requires SlotsOk(slots) && h in Snapshot(AccountsOf(slots))
    ensures i < |slots| && HolderOf(slots[i]) == h && h.balance > 0
  {
    var accounts := AccountsOf(slots);
    SnapshotSortedMembers(accounts);
    i :| 0 <= i < |accounts| && Decode(accounts[i]) == h;
    DecodeReadsBack(slots[i]);
  }

  // ---- Sums over the slots ----

  /** What an owner has, over all its accounts. */
  function Funds(slots: seq<Slot>, owner: Bytes): nat {
    if slots == [] then 0
    else
      var s := slots[|slots| - 1];
      Funds(slots[..|slots| - 1], owner) + if s.owner == owner then s.amount else 0
  }

  function AllFunds(slots: seq<Slot>): nat {
    if slots == [] then 0 else AllFunds(slots[..|slots| - 1]) + slots[|slots| - 1].amount
  }

  lemma {:induction false} NonZeroFunds(slots: seq<Slot>, owner: Bytes)
    requires SlotsOk(slots)
    ensures OwnerTotal(NonZero(AccountsOf(slots)), owner) == Funds(slots, owner)
    ensures Total(NonZero(AccountsOf(slots))) == AllFunds(slots)
  {
    if slots != [] {
      var n := |slots| - 1;
      var front := NonZero(AccountsOf(slots[..n]));
      NonZeroFunds(slots[..n], owner);
      AccountsFront(slots);
      DecodeReadsBack(slots[n]);
      OwnerTotalSnoc(front, HolderOf(slots[n]), owner);
      TotalConcat(front, [HolderOf(slots[n])]);
      assert front + [] == front;
    }
  }

  lemma SnapshotFunds(slots: seq<Slot>, owner: Bytes)
    requires SlotsOk(slots)
    ensures OwnerTotal(Snapshot(AccountsOf(slots)), owner) == Funds(slots, owner)
  {
    var raw, p := NonZero(AccountsOf(slots)), (h: Holder) => h.owner == owner;
    NonZeroFunds(slots, owner);
    RicherIsPreorder();
    SortFilter(raw, Richer, p);
    TotalOfSort(Filter(raw, p));
  }

  lemma {:induction false} FundsPositive(slots: seq<Slot>, owner: Bytes) returns (i: nat)
    requires Funds(slots, owner) > 0
    ensures i < |slots| && slots[i].owner == owner && slots[i].amount > 0
  {
    var n := |slots| - 1;
    if slots[n].owner == owner && slots[n].amount > 0 {
      i := n;
    } else {
      i := FundsPositive(slots[..n], owner);
    }
  }

  /** The owners of the snapshot are those with funds. */
  lemma OwnersWithFunds(slots: seq<Slot>, owner: Bytes)
    requires SlotsOk(slots)
    ensures HasOwner(Snapshot(AccountsOf(slots)), owner) <==> Funds(slots, owner) > 0
  {
    var raw := Snapshot(AccountsOf(slots));
    SnapshotFunds(slots, owner);
    if i :| 0 <= i < |raw| && raw[i].owner == owner {
      assert raw[i] in raw;
      var j := SnapshotComesFrom(slots, raw[i]);
      MemberUnderTotal(raw, i);
    }
    if Funds(slots, owner) > 0 {
      var i := FundsPositive(slots, owner);
      SnapshotLists(slots, i);
      HasOwnerOfMember(raw, HolderOf(slots[i]));
    }
  }

  // ---- The report ----

  /** One of the owner's largest accounts. */
  predicate LargestSlot(slots: seq<Slot>, i: nat, owner: Bytes) {
    && i < |slots| && slots[i].owner == owner
    && forall j :: 0 <= j < |slots| && slots[j].owner == owner ==> slots[j].amount <= slots[i].amount
  }

  ghost predicate ShowsLargest(slots: seq<Slot>, e: Holder) {
    exists i: nat :: LargestSlot(slots, i, e.owner) && slots[i].pubkey == e.account
  }

  lemma LargestFromSnapshot(slots: seq<Slot>, e: Holder)
    requires SlotsOk(slots) && CarriesLargest(Snapshot(AccountsOf(slots)), e)
    ensures ShowsLargest(slots, e)
  {
    var raw := Snapshot(AccountsOf(slots));
    var n :| 0 <= n < |raw| && LargestOfOwner(raw, e, n);
    assert raw[n] in raw;
    var i := SnapshotComesFrom(slots, raw[n]);
    forall j | 0 <= j < |slots| && slots[j].owner == e.owner ensures slots[j].amount <= slots[i].amount {
      if slots[j].amount > 0 {
        SnapshotLists(slots, j);
        var m :| 0 <= m < |raw| && raw[m] == HolderOf(slots[j]);
        assert raw[m].owner == e.owner;
      }
    }
    assert LargestSlot(slots, i, e.owner);
  }

  /** What an entry of the report says: an owner with its funds, above the bounds, and one of its largest accounts. */
  ghost predicate EntryRight(slots: seq<Slot>, e: Holder, minRaw: Option<nat>) {
    && e.balance == Funds(slots, e.owner) && e.balance > 0 && (minRaw.Some? ==> e.balance >= minRaw.value)
    && ShowsLargest(slots, e)
  }

  /** An owner is missing that has funds above the bounds. */
  ghost predicate Missing(slots: seq<Slot>, r: seq<Holder>, minRaw: Option<nat>, o: Bytes) {
    Funds(slots, o) > 0 && (minRaw.Some? ==> Funds(slots, o) >= minRaw.value) && forall e :: e in r ==> e.owner != o
  }

  /** The whole report, for any accounts and any options, in terms of what the accounts say: descending, no owner twice,
      every entry right, never longer than asked for; and an owner is missing only from a full list in which everyone
      has at least as much. */
  lemma ReportIsSoundAndComplete(slots: seq<Slot>, minRaw: Option<nat>, includeZero: bool, top: Option<int>)
    requires SlotsOk(slots)
    ensures var r := Ranked(Snapshot(AccountsOf(slots)), minRaw, includeZero, top);
      && Sorted(r, Richer) && DistinctOwners(r) && (forall e :: e in r ==> EntryRight(slots, e, minRaw))
      && (top.Some? && top.value > 0 ==> |r| <= top.value)
      && forall o :: Missing(slots, r, minRaw, o) ==>
        top.Some? && |r| == top.value > 0 && forall e :: e in r ==> e.balance >= Funds(slots, o)
  {
    var accounts := AccountsOf(slots);
    var raw := Snapshot(accounts);
    var r := Ranked(raw, minRaw, includeZero, top);
    RankedReport(accounts, minRaw, includeZero, top);
    RankedIsTop(raw, minRaw, includeZero, top);
    forall e | e in r ensures EntryRight(slots, e, minRaw) {
      SnapshotFunds(slots, e.owner);
      OwnersWithFunds(slots, e.owner);
      LargestFromSnapshot(slots, e);
    }
    forall o | Missing(slots, r, minRaw, o)
      ensures top.Some? && |r| == top.value > 0 && forall e :: e in r ==> e.balance >= Funds(slots, o)
    {
      SnapshotFunds(slots, o);
      OwnersWithFunds(slots, o);
      assert !HasOwner(r, o);
    }
  }

  /** With no bounds and no cut the report accounts for every unit held. */
  lemma FullReportConserves(slots: seq<Slot>, includeZero: bool)
    requires SlotsOk(slots)
    ensures Total(Ranked(Snapshot(AccountsOf(slots)), None, includeZero, None)) == AllFunds(slots)
  {
    RankedConserves(AccountsOf(slots), includeZero);
    NonZeroFunds(slots, []);
  }
}
