/** contrib/benchmark_convergence/benchmark_convergence/protocol.py: one JSON text per line. The text is
    what `json.dumps` makes of a value in its default, ASCII-only form, so a byte is a character here. */
module Framing {
  import opened Decimal
  import opened Sorting
  import opened Text

  datatype Json =
    | Null
    | Bool(b: bool)
    | Num(n: int)
    | Str(s: string)
    | Arr(items: seq<Json>)
    | Obj(fields: seq<Field>)

  datatype Field = Field(key: string, value: Json)

  // ---- json.dumps with separators (",", ":") ----

  const HEX := "0123456789abcdef"

  function Hex4(n: nat): (s: string)
    requires n < 0x10000
    ensures |s| == 4
  {
    [HEX[n / 0x1000], HEX[n / 0x100 % 16], HEX[n / 16 % 16], HEX[n % 16]]
  }

  function EscapeChar(c: char): string {
    if c == '"' then "\\\""
    else if c == '\\' then "\\\\"
    else if c == '\n' then "\\n"
    else if c == '\r' then "\\r"
    else if c == '\t' then "\\t"
    else if c as int == 8 then "\\b"
    else if c as int == 12 then "\\f"
    else if ' ' <= c <= '~' then [c]
    else if c as int < 0x10000 then "\\u" + Hex4(c as int)
    else
      var v := c as int - 0x10000;
      "\\u" + Hex4(0xd800 + v / 0x400 % 0x400) + "\\u" + Hex4(0xdc00 + v % 0x400)
  }

  function Escape(s: string): string {
    if s == "" then "" else EscapeChar(s[0]) + Escape(s[1..])
  }

  function Dumps(v: Json): string {
    match v
    case Null => "null"
    case Bool(b) => if b then "true" else "false"
    case Num(n) => if n < 0 then "-" + Dec(-n) else Dec(n)
    case Str(s) => "\"" + Escape(s) + "\""
    case Arr(items) => "[" + DumpsItems(items) + "]"
    case Obj(fields) => "{" + DumpsFields(fields) + "}"
  }

  function DumpsItems(items: seq<Json>): string {
    if items == [] then ""
    else if |items| == 1 then Dumps(items[0])
    else Comma(Dumps(items[0]), DumpsItems(items[1..]))
  }

  function DumpsFields(fields: seq<Field>): string {
    if fields == [] then ""
    else
      var f := FieldText(Escape(fields[0].key), Dumps(fields[0].value));
      if |fields| == 1 then f else Comma(f, DumpsFields(fields[1..]))
  }

  function FieldText(key: string, value: string): string {
    "\"" + key + "\":" + value
  }

  function Comma(a: string, b: string): string {
    a + "," + b
  }

  // ---- The text is printable ASCII and does not begin or end with a blank ----

  predicate Printable(s: string) {
    forall i :: 0 <= i < |s| ==> ' ' <= s[i] <= '~'
  }

  lemma Hex4Printable(n: nat)
    requires n < 0x10000
    ensures Printable(Hex4(n))
  {
    assert forall i :: 0 <= i < 16 ==> ' ' <= HEX[i] <= '~';
  }

  lemma EscapeCharPrintable(c: char)
    ensures Printable(EscapeChar(c))
  {
    var n := c as int;
    if n >= 0x10000 {
      Hex4Printable(0xd800 + (n - 0x10000) / 0x400 % 0x400);
      Hex4Printable(0xdc00 + (n - 0x10000) % 0x400);
    } else {
      Hex4Printable(n);
    }
  }

  lemma {:induction false} EscapePrintable(s: string)
    ensures Printable(Escape(s))
  {
    if s != "" {
      EscapeCharPrintable(s[0]);
      EscapePrintable(s[1..]);
    }
  }

  lemma {:induction false} DumpsPrintable(v: Json)
    ensures Printable(Dumps(v))
    decreases v, 0
  {
    match v
    case Null =>
    case Bool(_) =>
    case Num(n) =>
    case Str(s) => EscapePrintable(s);
    case Arr(items) => ItemsPrintable(items);
    case Obj(fields) => FieldsPrintable(fields);
  }

  lemma {:induction false} ItemsPrintable(items: seq<Json>)
    ensures Printable(DumpsItems(items))
    decreases items, 0
  {
    if items != [] {
      DumpsPrintable(items[0]);
      ItemsPrintable(items[1..]);
      CommaPrintable(Dumps(items[0]), DumpsItems(items[1..]));
    }
  }

  lemma {:induction false} FieldsPrintable(fields: seq<Field>)
    ensures Printable(DumpsFields(fields))
    decreases fields, 0
  {
    if fields != [] {
      EscapePrintable(fields[0].key);
      DumpsPrintable(fields[0].value);
      FieldsPrintable(fields[1..]);
      var f := FieldText(Escape(fields[0].key), Dumps(fields[0].value));
      FieldPrintable(Escape(fields[0].key), Dumps(fields[0].value), f);
      CommaPrintable(f, DumpsFields(fields[1..]));
    }
  }

  lemma CommaPrintable(a: string, b: string)
    requires Printable(a) && Printable(b)
    ensures Printable(Comma(a, b))
  {
  }

  lemma FieldPrintable(key: string, value: string, f: string)
    requires Printable(key) && Printable(value) && f == FieldText(key, value)
    ensures Printable(f)
  {
  }

  /** Section 7 of RFC 8259 in effect: a dumped text has no raw newline and `strip` leaves it alone. */
  lemma DumpsIsClean(v: Json)
    ensures Clean(Dumps(v))
  {
    DumpsPrintable(v);
    if v.Num? {
      var d := Dec(if v.n < 0 then -v.n else v.n);
      assert AllDigits(d);
      assert Dumps(v)[|Dumps(v)| - 1] == d[|d| - 1];
    }
  }

  predicate Clean(t: string) {
    && t != ""
    && Free(t, '\n')
    && !IsBlank(t[0]) && !IsBlank(t[|t| - 1])
  }

  // ---- Reading ----

  /** The length of the first line with its newline, or of everything if there is no newline. */
  function LineLength(s: string): (n: nat)
    ensures n <= |s| && (s != "" ==> n > 0)
  {
    if s == "" then 0 else if s[0] == '\n' then 1 else 1 + LineLength(s[1..])
  }

  /** The texts that the reader hands to `json.loads`. */
  function ReadTexts(s: string): seq<string> {
    if s == "" then []
    else
      var n := LineLength(s);
      if s[n - 1] != '\n' then []
      else
        var t := Strip(s[..n], IsBlank);
        (if t == "" then [] else [t]) + ReadTexts(s[n..])
  }

  /** `read_messages`, from the start of a stream to its end. */
  method ReadMessages(stream: string) returns (texts: seq<string>)
    ensures texts == ReadTexts(stream)
  {
    texts := [];
    var rest := stream;
    while rest != ""
      invariant texts + ReadTexts(rest) == ReadTexts(stream)
      decreases |rest|
    {
      var n := LineLength(rest);
      var line := rest[..n];
      if line[n - 1] != '\n' {
        return;
      }
      line := Strip(line, IsBlank);
      var kept := if line == "" then texts else texts + [line];
      ReadLine(rest, n, line, texts, kept);
      rest, texts := rest[n..], kept;
    }
  }

  lemma ReadLine(s: string, n: nat, t: string, before: seq<string>, after: seq<string>)
    requires s != "" && n == LineLength(s) && s[n - 1] == '\n' && t == Strip(s[..n], IsBlank)
    requires after == if t == "" then before else before + [t]
    ensures before + ReadTexts(s) == after + ReadTexts(s[n..])
  {
  }

  // ---- Round trip ----

  /** What `write_message` has put on the stream after these texts. */
  function Stream(texts: seq<string>): string {
    if texts == [] then "" else texts[0] + "\n" + Stream(texts[1..])
  }

  /** How many whole frames lie in the first `cut` bytes. */
  function WholeFrames(texts: seq<string>, cut: nat): (k: nat)
    ensures k <= |texts|
  {
    if texts == [] || cut <= |texts[0]| then 0 else 1 + WholeFrames(texts[1..], cut - |texts[0]| - 1)
  }

  lemma {:induction false} LineOf(t: string, rest: string)
    requires Free(t, '\n')
    ensures LineLength(t + "\n" + rest) == |t| + 1
  {
    var s := t + "\n" + rest;
    if t != "" {
      assert s[1..] == t[1..] + "\n" + rest;
      LineOf(t[1..], rest);
    }
  }

  lemma {:induction false} NoLine(t: string)
    requires Free(t, '\n')
    ensures LineLength(t) == |t|
  {
    if t != "" {
      NoLine(t[1..]);
    }
  }

  lemma StripFrame(t: string)
    requires Clean(t)
    ensures Strip(t + "\n", IsBlank) == t
  {
    var s := t + "\n";
    assert StripLeft(s, IsBlank) == s;
    assert s[..|s| - 1] == t;
    assert StripRight(t, IsBlank) == t;
  }

  lemma ReadFrame(t: string, rest: string)
    requires Clean(t)
    ensures ReadTexts(t + "\n" + rest) == [t] + ReadTexts(rest)
  {
    var s := t + "\n" + rest;
    LineOf(t, rest);
    assert s[..|t| + 1] == t + "\n" && s[|t| + 1..] == rest;
    StripFrame(t);
  }

  ghost predicate AllClean(texts: seq<string>) {
    forall i :: 0 <= i < |texts| ==> Clean(texts[i])
  }

  /** A cut leaves whole frames and a piece without a newline. */
  lemma {:induction false} CutShape(texts: seq<string>, cut: nat) returns (piece: string)
    requires cut <= |Stream(texts)| && AllClean(texts)
    ensures Stream(texts)[..cut] == Stream(texts[..WholeFrames(texts, cut)]) + piece && Free(piece, '\n')
  {
    if texts == [] {
      piece := "";
    } else if cut <= |texts[0]| {
      piece := texts[0][..cut];
      assert Clean(texts[0]);
    } else {
      var t, rest, cut' := texts[0], texts[1..], cut - |texts[0]| - 1;
      assert AllClean(rest);
      piece := CutShape(rest, cut');
      var k := WholeFrames(rest, cut');
      assert texts[..k + 1][1..] == rest[..k];
      PrefixOfFrame(t + "\n", Stream(rest), cut', cut);
    }
  }

  lemma PrefixOfFrame(frame: string, rest: string, cut': nat, cut: nat)
    requires cut' <= |rest| && cut == |frame| + cut'
    ensures (frame + rest)[..cut] == frame + rest[..cut']
  {
  }

  lemma FirstFrame(texts: seq<string>, piece: string)
    requires texts != []
    ensures Stream(texts) + piece == texts[0] + "\n" + (Stream(texts[1..]) + piece)
  {
  }

  lemma ReadStep(s: string, t: string, s': string, texts: seq<string>)
    requires texts != [] && Clean(t) && t == texts[0] && s == t + "\n" + s' && ReadTexts(s') == texts[1..]
    ensures ReadTexts(s) == texts
  {
    ReadFrame(t, s');
    assert texts == [t] + texts[1..];
  }

  lemma ReadPiece(s: string, piece: string)
    requires s == "" + piece && Free(piece, '\n')
    ensures ReadTexts(s) == []
  {
    NoLine(s);
  }

  lemma {:induction false} ReadFramesAndPiece(texts: seq<string>, piece: string)
    requires AllClean(texts) && Free(piece, '\n')
    ensures ReadTexts(Stream(texts) + piece) == texts
  {
    if texts == [] {
      ReadPiece(Stream(texts) + piece, piece);
    } else {
      assert Clean(texts[0]) && AllClean(texts[1..]);
      ReadFramesAndPiece(texts[1..], piece);
      FirstFrame(texts, piece);
      ReadStep(Stream(texts) + piece, texts[0], Stream(texts[1..]) + piece, texts);
    }
  }

  /** Cutting the stream of some messages anywhere loses exactly the frames that are not whole, and yields no
      other text. */
  lemma ReadCutStream(msgs: seq<Json>, cut: nat)
    requires cut <= |Stream(Map(msgs, Dumps))|
    ensures var texts := Map(msgs, Dumps);
      ReadTexts(Stream(texts)[..cut]) == texts[..WholeFrames(texts, cut)]
  {
    var texts := Map(msgs, Dumps);
    assert AllClean(texts) by {
      forall i | 0 <= i < |texts| ensures Clean(texts[i]) {
        DumpsIsClean(msgs[i]);
      }
    }
    var piece := CutShape(texts, cut);
    var whole := texts[..WholeFrames(texts, cut)];
    assert AllClean(whole);
    ReadFramesAndPiece(whole, piece);
  }

  /** The whole frames are as many as fit before the cut. */
  lemma {:induction false} WholeFramesFit(texts: seq<string>, cut: nat)
    ensures var k := WholeFrames(texts, cut);
      |Stream(texts[..k])| <= cut && (k < |texts| ==> cut < |Stream(texts[..k + 1])|)
  {
    if texts != [] {
      var k := WholeFrames(texts, cut);
      if k == 0 {
        assert texts[..1][0] == texts[0];
      } else {
        WholeFramesFit(texts[1..], cut - |texts[0]| - 1);
        assert texts[..k][1..] == texts[1..][..k - 1];
        assert k < |texts| ==> texts[..k + 1][1..] == texts[1..][..k];
      }
    }
  }

  /** Uncut, the reader yields every message in order. */
  lemma ReadWholeStream(msgs: seq<Json>)
    ensures ReadTexts(Stream(Map(msgs, Dumps))) == Map(msgs, Dumps)
  {
    var texts := Map(msgs, Dumps);
    AllWhole(texts);
    ReadCutStream(msgs, |Stream(texts)|);
    assert Stream(texts)[..|Stream(texts)|] == Stream(texts) && texts[..|texts|] == texts;
  }

  lemma {:induction false} AllWhole(texts: seq<string>)
    ensures WholeFrames(texts, |Stream(texts)|) == |texts|
  {
    if texts != [] {
      AllWhole(texts[1..]);
    }
  }
}
