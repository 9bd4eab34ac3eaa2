/** The token metadata layout: contrib/ownership/src/create-token.ts writes it, the scanner in
    contrib/ownership/src/token-info.ts reads it back from an account. Text is kept as its UTF-8 bytes. */
module Metadata {
  import opened ByteStrings
  import opened Options

  // ---- Little-endian numbers ----

  const MAX_U16 := 0x1_0000
  const MAX_U32 := 0x1_0000_0000

  /** `readUInt16LE`; out of range is a RangeError. */
  function ReadU16(b: Bytes, i: nat): Option<nat> {
    if i + 2 > |b| then None else Some(Value(b[i..i + 2]))
  }

  /** `readUInt32LE`; out of range is a RangeError. */
  function ReadU32(b: Bytes, i: nat): Option<nat> {
    if i + 4 > |b| then None else Some(Value(b[i..i + 4]))
  }

  /** `part` stands in `b` at offset `i`. */
  predicate At(b: Bytes, i: nat, part: Bytes) {
    i + |part| <= |b| && b[i..i + |part|] == part
  }

  lemma AtSplit(b: Bytes, i: nat, p: Bytes, q: Bytes)
    requires At(b, i, p + q)
    ensures At(b, i, p) && At(b, i + |p|, q)
  {
    var s := b[i..i + |p + q|];
    assert s[..|p|] == p && s[|p|..] == q;
    assert b[i..i + |p|] == s[..|p|] && b[i + |p|..i + |p| + |q|] == s[|p|..];
  }

  lemma AtIndex(b: Bytes, i: nat, part: Bytes, k: nat)
    requires At(b, i, part) && k < |part|
    ensures b[i + k] == part[k]
  {
    assert b[i..i + |part|][k] == b[i + k];
  }

  lemma ReadU32At(b: Bytes, i: nat, n: nat)
    requires n < MAX_U32 && At(b, i, LittleEndian(n, 4))
    ensures ReadU32(b, i) == Some(n)
  {
    Limits();
    ValueOfLittleEndian(n, 4);
  }

  lemma ReadU16At(b: Bytes, i: nat, n: nat)
    requires n < MAX_U16 && At(b, i, LittleEndian(n, 2))
    ensures ReadU16(b, i) == Some(n)
  {
    Limits();
    ValueOfLittleEndian(n, 2);
  }

  // ---- Writing ----

  /** `borshString`; a length that does not fit in 32 bits is a RangeError. */
  function BorshString(s: Bytes): Option<Bytes> {
    if |s| >= MAX_U32 then None else Some(Encoded(s))
  }

  const DISCRIMINATOR: Byte := 33

  /** `buildCreateMetadataV3InstructionData`: the parts are pushed one after the other. */
  method BuildInstructionData(name: Bytes, symbol: Bytes, uri: Bytes, isMutable: bool) returns (data: Option<Bytes>)
    ensures data.Some? <==> |name| < MAX_U32 && |symbol| < MAX_U32 && |uri| < MAX_U32
    ensures data.Some? ==> data.value == [33] + Body(Plain(name, symbol, uri, isMutable), [0])
  {
    var n, s, u := BorshString(name), BorshString(symbol), BorshString(uri);
    if n.None? || s.None? || u.None? {
      return None;
    }
    var parts := [DISCRIMINATOR];
    parts := parts + n.value;
    parts := parts + s.value;
    parts := parts + u.value;
    parts := parts + LittleEndian(0, 2);
    parts := parts + [0];
    parts := parts + [0];
    parts := parts + [0];
    parts := parts + [if isMutable then 1 else 0];
    parts := parts + [0];
    var meta := Plain(name, symbol, uri, isMutable);
    assert CreatorsPart(meta) == [0] && CollectionPart(meta) == [0] && UsesPart(meta) == [0];
    Regroup([DISCRIMINATOR], n.value, s.value, u.value, LittleEndian(0, 2),
            [0] + ([0] + ([0] + (FlagPart(isMutable) + [0]))));
    Regroup([DISCRIMINATOR] + n.value + s.value + u.value + LittleEndian(0, 2),
      [0], [0], [0], FlagPart(isMutable), [0]);
    return Some(parts);
  }

  lemma Regroup(a: Bytes, b: Bytes, c: Bytes, d: Bytes, e: Bytes, f: Bytes)
    ensures a + b + c + d + e + f == a + (b + (c + (d + (e + f))))
  {
  }

  function Encoded(s: Bytes): (b: Bytes)
    ensures |b| == 4 + |s|
  {
    LittleEndian(|s|, 4) + s
  }

  // ---- The documented layout, with its optional sections ----

  /** `creators` are entries of 34 bytes, `collection` 33 bytes, `uses` 17 bytes. */
  datatype Meta = Meta(name: Bytes, symbol: Bytes, uri: Bytes, fee: nat, creators: Option<seq<Bytes>>,
                       collection: Option<Bytes>, uses: Option<Bytes>, isMutable: bool)

  function Plain(name: Bytes, symbol: Bytes, uri: Bytes, isMutable: bool): Meta {
    Meta(name, symbol, uri, 0, None, None, None, isMutable)
  }

  predicate WellFormed(m: Meta) {
    && |m.name| < MAX_U32 && |m.symbol| < MAX_U32 && |m.uri| < MAX_U32 && m.fee < MAX_U16
    && (m.creators.Some? ==>
      |m.creators.value| < MAX_U32 && forall i :: 0 <= i < |m.creators.value| ==> |m.creators.value[i]| == 34)
    && (m.collection.Some? ==> |m.collection.value| == 33)
    && (m.uses.Some? ==> |m.uses.value| == 17)
  }

  function Concat(parts: seq<Bytes>): Bytes {
    if parts == [] then [] else parts[0] + Concat(parts[1..])
  }

  function CreatorsPart(m: Meta): Bytes
    requires WellFormed(m)
  {
    match m.creators
    case None => [0]
    case Some(cs) => [1] + LittleEndian(|cs|, 4) + Concat(cs)
  }

  function CollectionPart(m: Meta): Bytes {
    match m.collection
    case None => [0]
    case Some(c) => [1] + c
  }

  function UsesPart(m: Meta): Bytes {
    match m.uses
    case None => [0]
    case Some(u) => [1] + u
  }

  function FlagPart(flag: bool): Bytes {
    [if flag then 1 else 0]
  }

  /** From the name up to whatever follows the mutability flag. */
  function Body(m: Meta, rest: Bytes): (b: Bytes)
    requires WellFormed(m)
    ensures |b| >= 12
  {
    Encoded(m.name) + (Encoded(m.symbol) + (Encoded(m.uri) + (LittleEndian(m.fee, 2) + Tail(m, rest))))
  }

  /** The optional sections, the flag, and what follows it. */
  function Tail(m: Meta, rest: Bytes): Bytes
    requires WellFormed(m)
  {
    CreatorsPart(m) + (CollectionPart(m) + (UsesPart(m) + (FlagPart(m.isMutable) + rest)))
  }

  /** A metadata account: key 4, the update authority and the mint before the body. */
  function Account(authority: Bytes, mint: Bytes, m: Meta, rest: Bytes): Bytes
    requires WellFormed(m)
  {
    [4] + authority + mint + Body(m, rest)
  }

  // ---- Scanning ----

  datatype Scanned = Scanned(name: Bytes, symbol: Bytes, uri: Bytes, fee: nat, authority: Bytes, isMutable: bool)

  /** `replace(/\0+$/, "")` on the bytes. */
  function StripNuls(s: Bytes): (r: Bytes)
    ensures r <= s && (r == [] || r[|r| - 1] != 0)
  {
    if s != [] && s[|s| - 1] == 0 then StripNuls(s[..|s| - 1]) else s
  }

  /** `subarray`, whose bounds are clamped to the buffer. */
  function Sub(b: Bytes, i: nat, j: nat): Bytes {
    if i >= |b| || j <= i then [] else if j > |b| then b[i..] else b[i..j]
  }

  /** `data[i] === 1`; past the end there is nothing to compare. */
  predicate IsOne(b: Bytes, i: nat) {
    i < |b| && b[i] == 1
  }

  function AfterCreators(b: Bytes, i: nat): Option<nat> {
    if !IsOne(b, i) then Some(i + 1)
    else
      match ReadU32(b, i + 1)
      case None => None
      case Some(n) => Some(i + 5 + n * 34)
  }

  function AfterSection(b: Bytes, i: nat, size: nat): nat {
    if IsOne(b, i) then i + 1 + size else i + 1
  }

  /** `fetchOnChainMetadata` from the account data on; an exception makes it return null. */
  method Scan(data: Bytes) returns (r: Option<Scanned>)
    ensures r == Stripped(ScanRaw(data))
  {
    var raw := ScanFields(data);
    match raw {
      case None => return None;
      case Some(s) =>
        return Some(Scanned(StripNuls(s.name), StripNuls(s.symbol), StripNuls(s.uri), s.fee, s.authority, s.isMutable));
    }
  }

  method ScanFields(data: Bytes) returns (r: Option<Scanned>)
    ensures r == ScanRaw(data)
  {
    if |data| < 70 {
      return None;
    }
    var offset := 0;
    var key := data[offset];
    offset := offset + 1;
    if key != 4 {
      return None;
    }
    var authority := Sub(data, offset, offset + 32);
    offset := offset + 32;
    offset := offset + 32;

    var name := TakeString(data, offset);
    if name.None? {
      return None;
    }
    offset := name.value.1;
    var symbol := TakeString(data, offset);
    if symbol.None? {
      return None;
    }
    offset := symbol.value.1;
    var uri := TakeString(data, offset);
    if uri.None? {
      return None;
    }
    offset := uri.value.1;

    var fee := ReadU16(data, offset);
    if fee.None? {
      return None;
    }
    offset := offset + 2;

    var afterCreators := SkipCreators(data, offset);
    if afterCreators.None? {
      return None;
    }
    offset := afterCreators.value;
    var hasCollection := IsOne(data, offset);
    offset := offset + 1;
    if hasCollection {
      offset := offset + 33;
    }
    var hasUses := IsOne(data, offset);
    offset := offset + 1;
    if hasUses {
      offset := offset + 17;
    }
    var isMutable := true;
    if offset < |data| {
      isMutable := data[offset] == 1;
    }
    return Some(Scanned(name.value.0, symbol.value.0, uri.value.0, fee.value, authority, isMutable));
  }

  /** The optional creators: a count and 34 bytes for each. */
  method SkipCreators(data: Bytes, start: nat) returns (r: Option<nat>)
    ensures r == AfterCreators(data, start)
  {
    var offset := start;
    var hasCreators := IsOne(data, offset);
    offset := offset + 1;
    if hasCreators {
      var count := ReadU32(data, offset);
      if count.None? {
        return None;
      }
      offset := offset + 4;
      offset := offset + count.value * 34;
    }
    return Some(offset);
  }

  /** The length prefix, the bytes, and the offset after them. */
  method TakeString(data: Bytes, start: nat) returns (r: Option<(Bytes, nat)>)
    ensures r == ReadString(data, start)
  {
    var offset := start;
    var length := ReadU32(data, offset);
    if length.None? {
      return None;
    }
    offset := offset + 4;
    var text := Sub(data, offset, offset + length.value);
    offset := offset + length.value;
    return Some((text, offset));
  }

  /** A string and the offset after it. */
  function ReadString(b: Bytes, i: nat): Option<(Bytes, nat)> {
    match ReadU32(b, i)
    case None => None
    case Some(n) => Some((Sub(b, i + 4, i + 4 + n), i + 4 + n))
  }

  function Stripped(r: Option<Scanned>): Option<Scanned> {
    match r
    case None => None
    case Some(s) => Some(s.(name := StripNuls(s.name), symbol := StripNuls(s.symbol), uri := StripNuls(s.uri)))
  }

  /** The fields as they stand in the account. */
  function ScanRaw(data: Bytes): Option<Scanned> {
    if |data| < 70 || data[0] != 4 then None else
    var name := ReadString(data, 65);
    if name.None? then None else
    var symbol := ReadString(data, name.value.1);
    if symbol.None? then None else
    var uri := ReadString(data, symbol.value.1);
    if uri.None? then None else
    var i := uri.value.1;
    var fee := ReadU16(data, i);
    if fee.None? then None else
    var j := AfterCreators(data, i + 2);
    if j.None? then None else
    var k := AfterSection(data, AfterSection(data, j.value, 33), 17);
    Some(Scanned(name.value.0, symbol.value.0, uri.value.0, fee.value, Sub(data, 1, 33),
                 if k < |data| then data[k] == 1 else true))
  }

  // ---- Round trip ----

  lemma ReadStringAt(b: Bytes, i: nat, s: Bytes)
    requires |s| < MAX_U32 && At(b, i, Encoded(s))
    ensures ReadString(b, i) == Some((s, i + 4 + |s|))
  {
    AtSplit(b, i, LittleEndian(|s|, 4), s);
    ReadU32At(b, i, |s|);
    TakeAt(b, i, s);
  }

  lemma TakeAt(b: Bytes, i: nat, s: Bytes)
    requires ReadU32(b, i) == Some(|s|) && At(b, i + 4, s)
    ensures ReadString(b, i) == Some((s, i + 4 + |s|))
  {
    assert Sub(b, i + 4, i + 4 + |s|) == s;
  }

  lemma {:induction false} ConcatLength(parts: seq<Bytes>, size: nat)
    requires forall i :: 0 <= i < |parts| ==> |parts[i]| == size
    ensures |Concat(parts)| == |parts| * size
  {
    if parts != [] {
      ConcatLength(parts[1..], size);
      assert |parts| * size == (|parts| - 1) * size + size;
    }
  }

  lemma AfterCreatorsAt(b: Bytes, i: nat, m: Meta)
    requires WellFormed(m) && At(b, i, CreatorsPart(m))
    ensures AfterCreators(b, i) == Some(i + |CreatorsPart(m)|)
  {
    AtIndex(b, i, CreatorsPart(m), 0);
    if m.creators.Some? {
      var cs := m.creators.value;
      AtSplit(b, i, [1] + LittleEndian(|cs|, 4), Concat(cs));
      AtSplit(b, i, [1], LittleEndian(|cs|, 4));
      ReadU32At(b, i + 1, |cs|);
      ConcatLength(cs, 34);
    }
  }

  lemma AfterSectionAt(b: Bytes, i: nat, part: Bytes, size: nat)
    requires At(b, i, part) && (part == [0] || (|part| == 1 + size && part[0] == 1))
    ensures AfterSection(b, i, size) == i + |part|
  {
    AtIndex(b, i, part, 0);
  }

  /** Three strings with the offsets after them, and the fee. */
  ghost predicate Strings(data: Bytes, name: (Bytes, nat), symbol: (Bytes, nat), uri: (Bytes, nat), fee: nat) {
    && ReadString(data, 65) == Some(name) && ReadString(data, name.1) == Some(symbol)
    && ReadString(data, symbol.1) == Some(uri) && ReadU16(data, uri.1) == Some(fee)
  }

  /** The optional sections from offset `i` on, and the flag after them. */
  ghost predicate Sections(data: Bytes, i: nat, isMutable: bool) {
    var j := AfterCreators(data, i);
    j.Some? &&
    var e := AfterSection(data, AfterSection(data, j.value, 33), 17);
    e < |data| && (data[e] == 1 <==> isMutable)
  }

  lemma ScanStages(data: Bytes, name: (Bytes, nat), symbol: (Bytes, nat), uri: (Bytes, nat), fee: nat, isMutable: bool)
    requires |data| >= 70 && data[0] == 4
    requires Strings(data, name, symbol, uri, fee) && Sections(data, uri.1 + 2, isMutable)
    ensures ScanRaw(data) == Some(Scanned(name.0, symbol.0, uri.0, fee, Sub(data, 1, 33), isMutable))
  {
  }

  lemma Peel(b: Bytes, i: nat, p: Bytes, rest: Bytes, j: nat)
    requires At(b, i, p + rest) && j == i + |p|
    ensures At(b, i, p) && At(b, j, rest)
  {
    AtSplit(b, i, p, rest);
  }

  lemma PeelFour(data: Bytes, i: nat, n: Bytes, s: Bytes, u: Bytes, f: Bytes, tail: Bytes)
    requires At(data, i, n + (s + (u + (f + tail))))
    ensures var i1, i2, i3 := i + |n|, i + |n| + |s|, i + |n| + |s| + |u|;
      At(data, i, n) && At(data, i1, s) && At(data, i2, u) && At(data, i3, f) && At(data, i3 + |f|, tail)
  {
    var i1, i2, i3 := i + |n|, i + |n| + |s|, i + |n| + |s| + |u|;
    Peel(data, i, n, s + (u + (f + tail)), i1);
    Peel(data, i1, s, u + (f + tail), i2);
    Peel(data, i2, u, f + tail, i3);
    Peel(data, i3, f, tail, i3 + |f|);
  }

  lemma NamesAt(data: Bytes, name: Bytes, symbol: Bytes, i: nat, j: nat)
    requires |name| < MAX_U32 && |symbol| < MAX_U32 && i == 69 + |name| && j == i + 4 + |symbol|
    requires At(data, 65, Encoded(name)) && At(data, i, Encoded(symbol))
    ensures ReadString(data, 65) == Some((name, i)) && ReadString(data, i) == Some((symbol, j))
  {
    ReadStringAt(data, 65, name);
    ReadStringAt(data, i, symbol);
  }

  lemma UriAt(data: Bytes, uri: Bytes, fee: nat, j: nat, k: nat)
    requires |uri| < MAX_U32 && fee < MAX_U16 && k == j + 4 + |uri|
    requires At(data, j, Encoded(uri)) && At(data, k, LittleEndian(fee, 2))
    ensures ReadString(data, j) == Some((uri, k)) && ReadU16(data, k) == Some(fee)
  {
    ReadStringAt(data, j, uri);
    ReadU16At(data, k, fee);
  }

  lemma StringsFrom(data: Bytes, name: (Bytes, nat), symbol: (Bytes, nat), uri: (Bytes, nat), fee: nat)
    requires ReadString(data, 65) == Some(name) && ReadString(data, name.1) == Some(symbol)
    requires ReadString(data, symbol.1) == Some(uri) && ReadU16(data, uri.1) == Some(fee)
    ensures Strings(data, name, symbol, uri, fee)
  {
  }

  lemma StringsAt(data: Bytes, name: Bytes, symbol: Bytes, uri: Bytes, fee: nat, i: nat, j: nat, k: nat)
    requires |name| < MAX_U32 && |symbol| < MAX_U32 && |uri| < MAX_U32 && fee < MAX_U16
    requires i == 69 + |name| && j == i + 4 + |symbol| && k == j + 4 + |uri|
    requires At(data, 65, Encoded(name)) && At(data, i, Encoded(symbol)) && At(data, j, Encoded(uri))
    requires At(data, k, LittleEndian(fee, 2))
    ensures Strings(data, (name, i), (symbol, j), (uri, k), fee)
  {
    NamesAt(data, name, symbol, i, j);
    UriAt(data, uri, fee, j, k);
    StringsFrom(data, (name, i), (symbol, j), (uri, k), fee);
  }

  lemma SectionsAt(data: Bytes, i: nat, m: Meta, j: nat, k: nat, e: nat)
    requires WellFormed(m)
    requires j == i + |CreatorsPart(m)| && k == j + |CollectionPart(m)| && e == k + |UsesPart(m)|
    requires At(data, i, CreatorsPart(m)) && At(data, j, CollectionPart(m)) && At(data, k, UsesPart(m))
    requires At(data, e, FlagPart(m.isMutable))
    ensures Sections(data, i, m.isMutable)
  {
    AfterCreatorsAt(data, i, m);
    AfterSectionAt(data, j, CollectionPart(m), 33);
    AfterSectionAt(data, k, UsesPart(m), 17);
    AtIndex(data, e, FlagPart(m.isMutable), 0);
  }

  lemma StringsOfBody(data: Bytes, name: Bytes, symbol: Bytes, uri: Bytes, fee: nat, tail: Bytes)
    returns (i: nat, j: nat, k: nat)
    requires |name| < MAX_U32 && |symbol| < MAX_U32 && |uri| < MAX_U32 && fee < MAX_U16
    requires At(data, 65, Encoded(name) + (Encoded(symbol) + (Encoded(uri) + (LittleEndian(fee, 2) + tail))))
    ensures Strings(data, (name, i), (symbol, j), (uri, k), fee) && At(data, k + 2, tail)
    ensures k == 77 + |name| + |symbol| + |uri|
  {
    i, j, k := 69 + |name|, 73 + |name| + |symbol|, 77 + |name| + |symbol| + |uri|;
    PeelFour(data, 65, Encoded(name), Encoded(symbol), Encoded(uri), LittleEndian(fee, 2), tail);
    StringsAt(data, name, symbol, uri, fee, i, j, k);
  }

  lemma SectionsOfTail(data: Bytes, i: nat, m: Meta, rest: Bytes)
    requires WellFormed(m) && At(data, i, Tail(m, rest))
    ensures Sections(data, i, m.isMutable)
  {
    PeelFour(data, i, CreatorsPart(m), CollectionPart(m), UsesPart(m), FlagPart(m.isMutable), rest);
    var c := i + |CreatorsPart(m)|;
    SectionsAt(data, i, m, c, c + |CollectionPart(m)|, c + |CollectionPart(m)| + |UsesPart(m)|);
  }

  lemma ScanOfBody(data: Bytes, m: Meta, rest: Bytes)
    requires WellFormed(m) && |data| >= 70 && data[0] == 4 && At(data, 65, Body(m, rest))
    ensures ScanRaw(data) == Some(Scanned(m.name, m.symbol, m.uri, m.fee, Sub(data, 1, 33), m.isMutable))
  {
    var i, j, k := StringsOfBody(data, m.name, m.symbol, m.uri, m.fee, Tail(m, rest));
    ScanOfParts(data, m, rest, i, j, k);
  }

  lemma ScanOfParts(data: Bytes, m: Meta, rest: Bytes, i: nat, j: nat, k: nat)
    requires WellFormed(m) && |data| >= 70 && data[0] == 4 && At(data, k + 2, Tail(m, rest))
    requires Strings(data, (m.name, i), (m.symbol, j), (m.uri, k), m.fee)
    ensures ScanRaw(data) == Some(Scanned(m.name, m.symbol, m.uri, m.fee, Sub(data, 1, 33), m.isMutable))
  {
    SectionsOfTail(data, k + 2, m, rest);
    ScanStages(data, (m.name, i), (m.symbol, j), (m.uri, k), m.fee, m.isMutable);
  }

  lemma AccountShape(authority: Bytes, mint: Bytes, body: Bytes)
    requires |authority| == 32 && |mint| == 32 && |body| >= 5
    ensures var data := [4] + authority + mint + body;
      |data| >= 70 && data[0] == 4 && Sub(data, 1, 33) == authority && At(data, 65, body)
  {
    var data := [4] + authority + mint + body;
    assert data[65..65 + |body|] == body;
    assert data[1..33] == authority;
  }

  /** Scanning any account of the documented layout returns its strings without trailing NULs, its fee, its
      update authority and its mutability flag, whatever optional sections stand in between. */
  lemma ScanOfAccount(authority: Bytes, mint: Bytes, m: Meta, rest: Bytes)
    requires WellFormed(m) && |authority| == 32 && |mint| == 32
    ensures Stripped(ScanRaw(Account(authority, mint, m, rest))) ==
      Some(Scanned(StripNuls(m.name), StripNuls(m.symbol), StripNuls(m.uri), m.fee, authority, m.isMutable))
  {
    AccountShape(authority, mint, Body(m, rest));
    var data := Account(authority, mint, m, rest);
    ScanOfBody(data, m, rest);
  }

  // ---- Accounts that end early ----

  /** Where the fee ends in an account, and where the mutability flag stands. */
  function FeeEnd(m: Meta): nat {
    79 + |m.name| + |m.symbol| + |m.uri|
  }

  function FlagAt(m: Meta): nat
    requires WellFormed(m)
  {
    FeeEnd(m) + |CreatorsPart(m)| + |CollectionPart(m)| + |UsesPart(m)|
  }

  lemma PrefixReads(b: Bytes, n: nat, i: nat, s: Bytes)
    requires |s| < MAX_U32 && At(b, i, Encoded(s)) && n <= |b|
    ensures ReadString(b[..n], i).Some? ==> ReadString(b[..n], i).value.1 == i + 4 + |s|
  {
    AtSplit(b, i, LittleEndian(|s|, 4), s);
    ReadU32At(b, i, |s|);
    if i + 4 <= n {
      assert b[..n][i..i + 4] == b[i..i + 4];
    }
  }

  lemma FeeRead(data: Bytes, i: nat, j: nat, k: nat)
    requires ScanRaw(data).Some? && (ReadString(data, 65).Some? ==> ReadString(data, 65).value.1 == i)
    requires ReadString(data, i).Some? ==> ReadString(data, i).value.1 == j
    requires ReadString(data, j).Some? ==> ReadString(data, j).value.1 == k
    ensures k + 2 <= |data|
  {
  }

  /** A scan that succeeds has seen the whole fee. */
  lemma ScanSeesFee(b: Bytes, n: nat, m: Meta, rest: Bytes)
    requires WellFormed(m) && n <= |b| && At(b, 65, Body(m, rest)) && ScanRaw(b[..n]).Some?
    ensures FeeEnd(m) <= n
  {
    var i, j := 69 + |m.name|, 73 + |m.name| + |m.symbol|;
    BodyStrings(b, m, rest, i, j);
    PrefixReads(b, n, 65, m.name);
    PrefixReads(b, n, i, m.symbol);
    PrefixReads(b, n, j, m.uri);
    FeeRead(b[..n], i, j, j + 4 + |m.uri|);
  }

  lemma BodyStrings(b: Bytes, m: Meta, rest: Bytes, i: nat, j: nat)
    requires WellFormed(m) && At(b, 65, Body(m, rest)) && i == 69 + |m.name| && j == i + 4 + |m.symbol|
    ensures At(b, 65, Encoded(m.name)) && At(b, i, Encoded(m.symbol)) && At(b, j, Encoded(m.uri))
  {
    PeelFour(b, 65, Encoded(m.name), Encoded(m.symbol), Encoded(m.uri), LittleEndian(m.fee, 2), Tail(m, rest));
  }

  /** The offset at which the flag is looked for. */
  function FlagOffset(data: Bytes, i: nat): Option<nat> {
    match AfterCreators(data, i)
    case None => None
    case Some(j) => Some(AfterSection(data, AfterSection(data, j, 33), 17))
  }

  predicate FlagRead(data: Bytes, e: nat) {
    if e < |data| then data[e] == 1 else true
  }

  lemma CutFlag(data: Bytes, i: nat, m: Meta, rest: Bytes, e: nat)
    requires WellFormed(m) && i <= |data| && data[i..] <= Tail(m, rest)
    requires e == i + |CreatorsPart(m)| + |CollectionPart(m)| + |UsesPart(m)|
    ensures FlagOffset(data, i).None? <==> m.creators.Some? && i < |data| < i + 5
    ensures FlagOffset(data, i).Some? ==>
      FlagRead(data, FlagOffset(data, i).value) == if |data| <= e then true else m.isMutable
  {
    CutSections(data, i, m, rest, e);
  }

  /** The offset at which the flag is looked for, when the data ends after `tail`, a beginning of the sections. */
  lemma CutSections(data: Bytes, i: nat, m: Meta, rest: Bytes, e: nat)
    requires WellFormed(m) && i <= |data| && data[i..] <= Tail(m, rest)
    requires e == i + |CreatorsPart(m)| + |CollectionPart(m)| + |UsesPart(m)|
    ensures AfterCreators(data, i).None? <==> m.creators.Some? && i < |data| < i + 5
    ensures AfterCreators(data, i).Some? ==>
      var k := AfterSection(data, AfterSection(data, AfterCreators(data, i).value, 33), 17);
      if |data| <= e then k >= |data| else k == e && (data[e] == 1 <==> m.isMutable)
  {
    var t := data[i..];
    var c, d, u := CreatorsPart(m), CollectionPart(m), UsesPart(m);
    var whole := Tail(m, rest);
    assert whole == c + (d + (u + (FlagPart(m.isMutable) + rest)));
    if i < |data| {
      assert data[i] == t[0] == whole[0] == c[0];
      CutCreators(data, i, m, whole);
      if AfterCreators(data, i).Some? && i + |c| < |data| {
        CutSection(data, i, whole, c, d, u + (FlagPart(m.isMutable) + rest), 33);
        if i + |c| + |d| < |data| {
          assert whole == (c + d) + (u + (FlagPart(m.isMutable) + rest));
          CutSection(data, i, whole, c + d, u, FlagPart(m.isMutable) + rest, 17);
          if e < |data| {
            assert data[e] == t[e - i] == whole[e - i] == FlagPart(m.isMutable)[0];
          }
        }
      }
    }
  }

  lemma CutCreators(data: Bytes, i: nat, m: Meta, whole: Bytes)
    requires WellFormed(m) && i < |data| && data[i..] <= whole && CreatorsPart(m) <= whole
    ensures AfterCreators(data, i) ==
      if m.creators.Some? && |data| < i + 5 then None else Some(i + |CreatorsPart(m)|)
  {
    var t, c := data[i..], CreatorsPart(m);
    assert data[i] == t[0] == whole[0] == c[0];
    if m.creators.Some? && |data| >= i + 5 {
      var cs := m.creators.value;
      var n := LittleEndian(|cs|, 4);
      assert c == [1] + n + Concat(cs) && c[1..5] == n;
      assert data[i + 1..i + 5] == t[1..5] == whole[1..5] == c[1..5];
      ReadU32At(data, i + 1, |cs|);
      ConcatLength(cs, 34);
    }
  }

  /** An optional section behind `before`, when its first byte is there. */
  lemma CutSection(data: Bytes, i: nat, whole: Bytes, before: Bytes, part: Bytes, after: Bytes, size: nat)
    requires i + |before| < |data| && data[i..] <= whole && whole == before + (part + after)
    requires part == [0] || (|part| == 1 + size && part[0] == 1)
    ensures AfterSection(data, i + |before|, size) == i + |before| + |part|
  {
    var j := i + |before|;
    assert data[j] == data[i..][|before|] == whole[|before|] == (part + after)[0] == part[0];
  }

  lemma CutHeader(authority: Bytes, mint: Bytes, m: Meta, rest: Bytes, n: nat) returns (tail: Bytes)
    requires WellFormed(m) && |authority| == 32 && |mint| == 32
    requires FeeEnd(m) <= n <= |Account(authority, mint, m, rest)|
    ensures tail <= Tail(m, rest) && |tail| == n - FeeEnd(m)
    ensures Account(authority, mint, m, rest)[..n] == [4] + authority + mint
      + (Encoded(m.name) + (Encoded(m.symbol) + (Encoded(m.uri) + (LittleEndian(m.fee, 2) + tail))))
  {
    tail := Tail(m, rest)[..n - FeeEnd(m)];
  }

  lemma StagesOfCut(data: Bytes, m: Meta, i: nat, j: nat, k: nat, f: nat)
    requires |data| >= 70 && data[0] == 4 && Strings(data, (m.name, i), (m.symbol, j), (m.uri, k), m.fee) && f == k + 2
    ensures var e := FlagOffset(data, f);
      ScanRaw(data) == if e.None? then None
      else Some(Scanned(m.name, m.symbol, m.uri, m.fee, Sub(data, 1, 33), FlagRead(data, e.value)))
  {
  }

  /** What is scanned from any beginning of an account: nothing if the fee or the count of the creators is cut; the
      fields otherwise, and without its flag the token counts as mutable. */
  lemma ScanOfCutAccount(authority: Bytes, mint: Bytes, m: Meta, rest: Bytes, n: nat)
    requires WellFormed(m) && |authority| == 32 && |mint| == 32 && n <= |Account(authority, mint, m, rest)|
    ensures ScanRaw(Account(authority, mint, m, rest)[..n]) ==
      if n < FeeEnd(m) || (m.creators.Some? && FeeEnd(m) < n < FeeEnd(m) + 5) then None
      else Some(Scanned(m.name, m.symbol, m.uri, m.fee, authority, if n <= FlagAt(m) then true else m.isMutable))
  {
    var b := Account(authority, mint, m, rest);
    var data := b[..n];
    AccountShape(authority, mint, Body(m, rest));
    if n < FeeEnd(m) {
      if ScanRaw(data).Some? {
        ScanSeesFee(b, n, m, rest);
      }
    } else {
      var tail := CutHeader(authority, mint, m, rest, n);
      CutFields(authority, mint, m, rest, tail, data);
    }
  }

  lemma CutFields(authority: Bytes, mint: Bytes, m: Meta, rest: Bytes, tail: Bytes, data: Bytes)
    requires WellFormed(m) && |authority| == 32 && |mint| == 32 && tail <= Tail(m, rest)
    requires data == [4] + authority + mint
      + (Encoded(m.name) + (Encoded(m.symbol) + (Encoded(m.uri) + (LittleEndian(m.fee, 2) + tail))))
    ensures ScanRaw(data) ==
      if m.creators.Some? && FeeEnd(m) < |data| < FeeEnd(m) + 5 then None
      else Some(Scanned(m.name, m.symbol, m.uri, m.fee, authority, if |data| <= FlagAt(m) then true else m.isMutable))
  {
    var body := Encoded(m.name) + (Encoded(m.symbol) + (Encoded(m.uri) + (LittleEndian(m.fee, 2) + tail)));
    AccountShape(authority, mint, body);
    CutLength(authority, mint, m, tail, data);
    CutStages(data, m, tail);
    assert data[FeeEnd(m)..] == tail;
    CutFlag(data, FeeEnd(m), m, rest, FlagAt(m));
  }

  lemma CutLength(authority: Bytes, mint: Bytes, m: Meta, tail: Bytes, data: Bytes)
    requires |authority| == 32 && |mint| == 32
    requires data == [4] + authority + mint
      + (Encoded(m.name) + (Encoded(m.symbol) + (Encoded(m.uri) + (LittleEndian(m.fee, 2) + tail))))
    ensures |data| == FeeEnd(m) + |tail|
  {
  }

  lemma CutStages(data: Bytes, m: Meta, tail: Bytes)
    requires WellFormed(m) && |data| >= 70 && data[0] == 4
    requires At(data, 65, Encoded(m.name) + (Encoded(m.symbol) + (Encoded(m.uri) + (LittleEndian(m.fee, 2) + tail))))
    ensures var e := FlagOffset(data, FeeEnd(m));
      ScanRaw(data) == if e.None? then None
      else Some(Scanned(m.name, m.symbol, m.uri, m.fee, Sub(data, 1, 33), FlagRead(data, e.value)))
  {
    var i, j, k := StringsOfBody(data, m.name, m.symbol, m.uri, m.fee, tail);
    StagesOfCut(data, m, i, j, k, FeeEnd(m));
  }

  /** Nothing else than a metadata account is scanned: key 4, and room for the header and a length. */
  lemma OtherAccountsRefused(data: Bytes)
    requires |data| < 70 || data[0] != 4
    ensures ScanRaw(data) == None
  {
  }

  lemma Ones()
    ensures LittleEndian(1, 4) == [1, 0, 0, 0] && LittleEndian(0, 2) == [0, 0]
  {
    assert LittleEndian(0, 3) == [0] + LittleEndian(0, 2);
  }

  /** The bytes for name "A", symbol "B" and uri "C". */
  lemma ExampleBody()
    ensures Body(Plain([65], [66], [67], true), [0]) ==
      [1, 0, 0, 0, 65, 1, 0, 0, 0, 66, 1, 0, 0, 0, 67, 0, 0, 0, 0, 0, 1, 0]
  {
    Ones();
    assert Encoded([65]) == [1, 0, 0, 0, 65] && Encoded([66]) == [1, 0, 0, 0, 66] && Encoded([67]) == [1, 0, 0, 0, 67];
    assert Tail(Plain([65], [66], [67], true), [0]) == [0, 0, 0, 1, 0];
  }

  predicate NoNulAtEnd(s: Bytes) {
    s == [] || s[|s| - 1] != 0
  }

  /** What the builder writes, put behind an account header without its discriminator, scans back; the
      strings come back unchanged just when they do not end in a NUL. */
  lemma BuiltScansBack(authority: Bytes, mint: Bytes, name: Bytes, symbol: Bytes, uri: Bytes, isMutable: bool,
    data: Bytes)
    requires |authority| == 32 && |mint| == 32
    requires |name| < MAX_U32 && |symbol| < MAX_U32 && |uri| < MAX_U32
    requires data == [33] + Body(Plain(name, symbol, uri, isMutable), [0])
    ensures Stripped(ScanRaw([4] + authority + mint + data[1..])) ==
      Some(Scanned(StripNuls(name), StripNuls(symbol), StripNuls(uri), 0, authority, isMutable))
    ensures StripNuls(name) == name <==> NoNulAtEnd(name)
    ensures StripNuls(symbol) == symbol <==> NoNulAtEnd(symbol)
    ensures StripNuls(uri) == uri <==> NoNulAtEnd(uri)
  {
    var m := Plain(name, symbol, uri, isMutable);
    assert data[1..] == Body(m, [0]);
    ScanOfAccount(authority, mint, m, [0]);
  }
}
