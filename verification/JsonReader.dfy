/** `json.loads` after RFC 8259, for texts whose numbers are whole, and the round trip of messages through it. */
module JsonReader {
  import opened Decimal
  import opened Framing
  import opened Options
  import opened Sorting

  // ---- Strings, section 7 ----

  function HexDigit(c: char): Option<nat> {
    if '0' <= c <= '9' then Some(c as int - '0' as int)
    else if 'a' <= c <= 'f' then Some(c as int - 'a' as int + 10)
    else if 'A' <= c <= 'F' then Some(c as int - 'A' as int + 10)
    else None
  }

  /** The number of the first four characters. */
  function ReadHex4(s: string): (r: Option<nat>)
    ensures r.Some? ==> |s| >= 4
  {
    if |s| < 4 then None
    else
      var a, b, c, d := HexDigit(s[0]), HexDigit(s[1]), HexDigit(s[2]), HexDigit(s[3]);
      if a.None? || b.None? || c.None? || d.None? then None
      else Some(4096 * a.value + 256 * b.value + 16 * c.value + d.value)
  }

  /** After `\u`: one code unit, or two that stand for a character outside the basic plane. */
  function ReadUnicode(s: string): (r: Option<(char, string)>)
    ensures r.Some? ==> |r.value.1| < |s|
  {
    var n := ReadHex4(s);
    if n.None? then None
    else if 0xd800 <= n.value < 0xdc00 then
      if |s| < 6 || s[4] != '\\' || s[5] != 'u' then None
      else
        var m := ReadHex4(s[6..]);
        if m.None? || !(0xdc00 <= m.value < 0xe000) then None
        else Some((PairChar(n.value, m.value), s[10..]))
    else if n.value < 0xd800 || 0xe000 <= n.value < 0x10000 then Some((n.value as char, s[4..]))
    else None
  }

  function PairChar(high: nat, low: nat): char
    requires 0xd800 <= high < 0xdc00 <= low < 0xe000
  {
    (0x10000 + (high - 0xd800) * 0x400 + (low - 0xdc00)) as char
  }

  function ReadEscape(s: string): (r: Option<(char, string)>)
    requires s != ""
    ensures r.Some? ==> |r.value.1| < |s|
  {
    match s[0]
    case '"' => Some(('"', s[1..]))
    case '\\' => Some(('\\', s[1..]))
    case '/' => Some(('/', s[1..]))
    case 'b' => Some(('\U{0008}', s[1..]))
    case 'f' => Some(('\U{000C}', s[1..]))
    case 'n' => Some(('\n', s[1..]))
    case 'r' => Some(('\r', s[1..]))
    case 't' => Some(('\t', s[1..]))
    case 'u' => ReadUnicode(s[1..])
    case _ => None
  }

  function ReadChar(s: string): (r: Option<(char, string)>)
    requires s != ""
    ensures r.Some? ==> |r.value.1| < |s|
  {
    if s[0] < ' ' then None
    else if s[0] != '\\' then Some((s[0], s[1..]))
    else if |s| == 1 then None
    else ReadEscape(s[1..])
  }

  /** The characters up to the closing quote, and what follows it. */
  function ReadChars(s: string): (r: Option<(string, string)>)
    ensures r.Some? ==> |r.value.1| < |s|
    decreases |s|
  {
    if s == "" then None
    else if s[0] == '"' then Some(("", s[1..]))
    else
      match ReadChar(s)
      case None => None
      case Some((c, t)) =>
        match ReadChars(t)
        case None => None
        case Some((cs, rest)) => Some(([c] + cs, rest))
  }

  // ---- Whole numbers, section 6 ----

  /** The leading digits. */
  function Digits(s: string): (d: string)
    ensures |d| <= |s| && AllDigits(d)
  {
    if s != "" && IsDigit(s[0]) then [s[0]] + Digits(s[1..]) else ""
  }

  /** Digits without a superfluous zero, and not the beginning of a fraction or an exponent. */
  function ReadNat(s: string): (r: Option<(nat, string)>)
    ensures r.Some? ==> |r.value.1| < |s|
  {
    var d := Digits(s);
    var rest := s[|d|..];
    if d == "" || (d[0] == '0' && |d| > 1) || (rest != "" && rest[0] in {'.', 'e', 'E'}) then None
    else Some((Val(d), rest))
  }

  function ReadNum(s: string): (r: Option<(Json, string)>)
    ensures r.Some? ==> |r.value.1| < |s|
  {
    if s != "" && s[0] == '-' then
      match ReadNat(s[1..])
      case None => None
      case Some((n, rest)) => Some((Num(0 - n), rest))
    else
      match ReadNat(s)
      case None => None
      case Some((n, rest)) => Some((Num(n), rest))
  }

  // ---- Values, sections 2 to 5 ----

  function Skip(s: string): (t: string)
    ensures |t| <= |s|
  {
    if s != "" && s[0] in {' ', '\t', '\n', '\r'} then Skip(s[1..]) else s
  }

  function ReadValue(s: string): (r: Option<(Json, string)>)
    ensures r.Some? ==> |r.value.1| < |s|
    decreases |s|, 0
  {
    var t := Skip(s);
    if t == "" then None
    else if "null" <= t then Some((Null, t[4..]))
    else if "true" <= t then Some((Bool(true), t[4..]))
    else if "false" <= t then Some((Bool(false), t[5..]))
    else if t[0] == '"' then
      match ReadChars(t[1..])
      case None => None
      case Some((cs, rest)) => Some((Str(cs), rest))
    else if t[0] == '[' then
      var u := Skip(t[1..]);
      if u != "" && u[0] == ']' then Some((Arr([]), u[1..]))
      else
        match ReadItems(u)
        case None => None
        case Some((items, rest)) => Some((Arr(items), rest))
    else if t[0] == '{' then
      var u := Skip(t[1..]);
      if u != "" && u[0] == '}' then Some((Obj([]), u[1..]))
      else
        match ReadFields(u)
        case None => None
        case Some((fields, rest)) => Some((Obj(fields), rest))
    else ReadNum(t)
  }

  /** Values with commas between them, up to the closing bracket. */
  function ReadItems(s: string): (r: Option<(seq<Json>, string)>)
    ensures r.Some? ==> |r.value.1| < |s|
    decreases |s|, 1
  {
    match ReadValue(s)
    case None => None
    case Some((v, t)) =>
      var u := Skip(t);
      if u == "" then None
      else if u[0] == ']' then Some(([v], u[1..]))
      else if u[0] != ',' then None
      else
        match ReadItems(u[1..])
        case None => None
        case Some((vs, rest)) => Some(([v] + vs, rest))
  }

  /** A quoted key, a colon and a value. */
  function ReadField(s: string): (r: Option<(Field, string)>)
    ensures r.Some? ==> |r.value.1| < |s|
    decreases |s|, 1
  {
    var t := Skip(s);
    if t == "" || t[0] != '"' then None
    else
      match ReadChars(t[1..])
      case None => None
      case Some((key, after)) =>
        var u := Skip(after);
        if u == "" || u[0] != ':' then None
        else
          match ReadValue(u[1..])
          case None => None
          case Some((v, rest)) => Some((Field(key, v), rest))
  }

  function ReadFields(s: string): (r: Option<(seq<Field>, string)>)
    ensures r.Some? ==> |r.value.1| < |s|
    decreases |s|, 2
  {
    match ReadField(s)
    case None => None
    case Some((f, t)) =>
      var u := Skip(t);
      if u == "" then None
      else if u[0] == '}' then Some(([f], u[1..]))
      else if u[0] != ',' then None
      else
        match ReadFields(u[1..])
        case None => None
        case Some((fs, rest)) => Some(([f] + fs, rest))
  }

  /** `json.loads`: one value and nothing but white space after it. */
  function Loads(s: string): Option<Json> {
    match ReadValue(s)
    case None => None
    case Some((v, rest)) => if Skip(rest) == "" then Some(v) else None
  }

  // ---- Reading a string back ----

  lemma HexBack(n: nat)
    requires n < 16
    ensures HexDigit(HEX[n]) == Some(n)
  {
  }

  lemma Digits16(n: nat)
    requires n < 0x10000
    ensures n == 4096 * (n / 0x1000) + 256 * (n / 0x100 % 16) + 16 * (n / 16 % 16) + n % 16
  {
    assert n / 0x100 == 16 * (n / 0x1000) + n / 0x100 % 16;
    assert n / 16 == 16 * (n / 0x100) + n / 16 % 16;
  }

  lemma Hex4Back(n: nat, x: string)
    requires n < 0x10000
    ensures ReadHex4(Hex4(n) + x) == Some(n)
  {
    HexBack(n / 0x1000);
    HexBack(n / 0x100 % 16);
    HexBack(n / 16 % 16);
    HexBack(n % 16);
    Digits16(n);
    var s := Hex4(n) + x;
    assert s[0] == Hex4(n)[0] && s[1] == Hex4(n)[1] && s[2] == Hex4(n)[2] && s[3] == Hex4(n)[3];
  }

  lemma OneUnitBack(c: char, x: string)
    requires c as int < 0x10000
    ensures ReadUnicode(Hex4(c as int) + x) == Some((c, x))
  {
    Hex4Back(c as int, x);
    assert (Hex4(c as int) + x)[4..] == x;
  }

  function High(c: char): nat
    requires c as int >= 0x10000
  {
    0xd800 + (c as int - 0x10000) / 0x400 % 0x400
  }

  function Low(c: char): nat
    requires c as int >= 0x10000
  {
    0xdc00 + (c as int - 0x10000) % 0x400
  }

  lemma PairBack(c: char)
    requires c as int >= 0x10000
    ensures 0xd800 <= High(c) < 0xdc00 <= Low(c) < 0xe000 && PairChar(High(c), Low(c)) == c
  {
    var v := c as int - 0x10000;
    assert v < 0x10_0000 && v / 0x400 < 0x400;
    assert v == v / 0x400 * 0x400 + v % 0x400;
  }

  lemma TwoUnitsBack(c: char, x: string)
    requires c as int >= 0x10000
    ensures ReadUnicode(Hex4(High(c)) + ("\\u" + (Hex4(Low(c)) + x))) == Some((c, x))
  {
    PairBack(c);
    var t := Hex4(Low(c)) + x;
    var s := Hex4(High(c)) + ("\\u" + t);
    Hex4Back(High(c), "\\u" + t);
    Hex4Back(Low(c), x);
    assert s[4] == '\\' && s[5] == 'u' && s[6..] == t && s[10..] == x;
  }

  lemma EscapeBack(s: string, c: char, x: string)
    requires |s| >= 2 && s[0] == '\\' && ReadEscape(s[1..]) == Some((c, x))
    ensures ReadChar(s) == Some((c, x))
  {
  }

  lemma UnicodeBack(s: string, u: string, c: char, x: string)
    requires s == "\\u" + u && ReadUnicode(u) == Some((c, x))
    ensures ReadChar(s) == Some((c, x))
  {
    assert s[0] == '\\' && s[1] == 'u' && s[1..][1..] == u;
    EscapeBack(s, c, x);
  }

  predicate HasLetter(c: char) {
    c in {'"', '\\', '\n', '\r', '\t', '\U{0008}', '\U{000C}'}
  }

  lemma LetterBack(c: char, x: string)
    requires HasLetter(c)
    ensures ReadChar(EscapeChar(c) + x) == Some((c, x)) && EscapeChar(c)[0] == '\\'
  {
    var s := EscapeChar(c) + x;
    assert |EscapeChar(c)| == 2 && s[0] == '\\' && s[1] == EscapeChar(c)[1] && s[1..][1..] == x;
    EscapeBack(s, c, x);
  }

  lemma OnceBack(c: char, x: string)
    requires !HasLetter(c) && !(' ' <= c <= '~') && c as int < 0x10000
    ensures ReadChar(EscapeChar(c) + x) == Some((c, x)) && EscapeChar(c)[0] == '\\'
  {
    var s, u := EscapeChar(c) + x, Hex4(c as int) + x;
    assert EscapeChar(c) == "\\u" + Hex4(c as int);
    assert s == "\\u" + u;
    OneUnitBack(c, x);
    UnicodeBack(s, u, c, x);
  }

  lemma TwoTexts(a: string, b: string, x: string)
    ensures "\\u" + a + "\\u" + b + x == "\\u" + (a + ("\\u" + (b + x)))
  {
  }

  lemma TwiceBack(c: char, x: string)
    requires c as int >= 0x10000
    ensures ReadChar(EscapeChar(c) + x) == Some((c, x)) && EscapeChar(c)[0] == '\\'
  {
    var h, l := Hex4(High(c)), Hex4(Low(c));
    assert EscapeChar(c) == "\\u" + h + "\\u" + l;
    TwoTexts(h, l, x);
    TwoUnitsBack(c, x);
    UnicodeBack(EscapeChar(c) + x, h + ("\\u" + (l + x)), c, x);
  }

  lemma CharBack(c: char, x: string)
    ensures ReadChar(EscapeChar(c) + x) == Some((c, x)) && EscapeChar(c) != "" && EscapeChar(c)[0] != '"'
  {
    if HasLetter(c) {
      LetterBack(c, x);
    } else if ' ' <= c <= '~' {
      assert EscapeChar(c) == [c] && ([c] + x)[1..] == x;
    } else if c as int < 0x10000 {
      OnceBack(c, x);
    } else {
      TwiceBack(c, x);
    }
  }

  lemma AssocQuote(a: string, b: string, x: string)
    ensures a + b + "\"" + x == a + (b + "\"" + x)
  {
  }

  lemma NextChar(s: string, c: char, t: string, cs: string, x: string)
    requires s != "" && s[0] != '"' && ReadChar(s) == Some((c, t)) && ReadChars(t) == Some((cs, x))
    ensures ReadChars(s) == Some(([c] + cs, x))
  {
  }

  /** Unescaping what was escaped returns every string. */
  lemma {:induction false} CharsBack(s: string, x: string)
    ensures ReadChars(Escape(s) + "\"" + x) == Some((s, x))
  {
    if s == "" {
      assert ("" + "\"" + x)[1..] == x;
    } else {
      var e := EscapeChar(s[0]);
      var rest := Escape(s[1..]) + "\"" + x;
      CharBack(s[0], rest);
      CharsBack(s[1..], x);
      AssocQuote(e, Escape(s[1..]), x);
      NextChar(e + rest, s[0], rest, s[1..], x);
      assert s == [s[0]] + s[1..];
    }
  }

  // ---- Reading a number back ----

  /** What may follow a value inside a text: nothing, or one of the closing characters. */
  predicate Stops(x: string) {
    x == "" || x[0] == ',' || x[0] == ']' || x[0] == '}'
  }

  lemma {:induction false} DigitsBack(d: string, x: string)
    requires AllDigits(d) && Stops(x)
    ensures Digits(d + x) == d
  {
    if d == "" {
      assert d + x == x;
    } else {
      assert (d + x)[0] == d[0] && (d + x)[1..] == d[1..] + x;
      DigitsBack(d[1..], x);
      assert d == [d[0]] + d[1..];
    }
  }

  lemma {:induction false} NoLeadingZero(n: nat)
    ensures Dec(n)[0] == '0' ==> |Dec(n)| == 1
    ensures n > 0 ==> Dec(n)[0] != '0'
  {
    if n >= 10 {
      NoLeadingZero(n / 10);
    }
  }

  lemma NatBack(n: nat, x: string)
    requires Stops(x)
    ensures ReadNat(Dec(n) + x) == Some((n, x))
  {
    DigitsBack(Dec(n), x);
    NoLeadingZero(n);
    ValDec(n);
    assert (Dec(n) + x)[|Dec(n)|..] == x;
  }

  lemma NumBack(n: int, x: string)
    requires Stops(x)
    ensures ReadNum(Dumps(Num(n)) + x) == Some((Num(n), x))
    ensures Dumps(Num(n)) != "" && (Dumps(Num(n))[0] == '-' || IsDigit(Dumps(Num(n))[0]))
  {
    if n < 0 {
      NatBack(-n, x);
      assert ("-" + Dec(-n) + x)[1..] == Dec(-n) + x;
    } else {
      NatBack(n, x);
    }
  }

  // ---- Reading a value back ----

  /** Where a value begins there is no white space and no closing character. */
  lemma Begins(v: Json, x: string)
    ensures var s := Dumps(v) + x;
      Dumps(v) != "" && s[0] == Dumps(v)[0] && Skip(s) == s && s[0] != ']' && s[0] != '}'
  {
    if v.Num? {
      var d := Dec(if v.n < 0 then -v.n else v.n);
      assert IsDigit(d[0]);
    }
  }

  lemma SkipStops(x: string)
    requires Stops(x)
    ensures Skip(x) == x
  {
  }

  lemma NumValue(n: int, x: string)
    requires Stops(x)
    ensures ReadValue(Dumps(Num(n)) + x) == Some((Num(n), x))
  {
    var s := Dumps(Num(n)) + x;
    NumBack(n, x);
    Begins(Num(n), x);
    assert s[0] == Dumps(Num(n))[0];
    assert !("null" <= s) && !("true" <= s) && !("false" <= s);
  }

  lemma QuotedValue(s: string, t: string, cs: string, x: string)
    requires s != "" && s[0] == '"' && s[1..] == t && ReadChars(t) == Some((cs, x))
    ensures ReadValue(s) == Some((Str(cs), x))
  {
    assert !("null" <= s) && !("true" <= s) && !("false" <= s);
  }

  lemma QuoteText(e: string, x: string)
    ensures "\"" + e + "\"" + x == "\"" + (e + "\"" + x) && ("\"" + (e + "\"" + x))[1..] == e + "\"" + x
  {
  }

  lemma StrValue(cs: string, x: string)
    ensures ReadValue(Dumps(Str(cs)) + x) == Some((Str(cs), x))
  {
    var e := Escape(cs);
    CharsBack(cs, x);
    QuoteText(e, x);
    QuotedValue("\"" + (e + "\"" + x), e + "\"" + x, cs, x);
  }

  lemma WordValue(v: Json, x: string)
    requires v.Null? || v.Bool?
    ensures ReadValue(Dumps(v) + x) == Some((v, x))
  {
    var w := Dumps(v);
    var s := w + x;
    assert s[..|w|] == w && s[|w|..] == x && s[0] == w[0];
    assert v == Bool(true) ==> !("null" <= s);
    assert v == Bool(false) ==> !("null" <= s) && !("true" <= s);
  }

  /** Reading what was dumped returns the value, whatever may follow it. */
  lemma {:induction false} ValueBack(v: Json, x: string)
    requires Stops(x)
    ensures ReadValue(Dumps(v) + x) == Some((v, x))
    decreases v, 0
  {
    match v
    case Null => WordValue(v, x);
    case Bool(_) => WordValue(v, x);
    case Num(n) => NumValue(n, x);
    case Str(cs) => StrValue(cs, x);
    case Arr(items) =>
      if items != [] {
        ItemsBack(items, x);
      }
      ArrayValue(items, x);
    case Obj(fields) =>
      if fields != [] {
        FieldsBack(fields, x);
      }
      ObjectValue(fields, x);
  }

  lemma ArrayValue(items: seq<Json>, x: string)
    requires items != [] ==> ReadItems(DumpsItems(items) + "]" + x) == Some((items, x))
    requires items != [] ==> var s := DumpsItems(items) + "]" + x; Skip(s) == s && s[0] != ']'
    ensures ReadValue(Dumps(Arr(items)) + x) == Some((Arr(items), x))
  {
    var s := Dumps(Arr(items)) + x;
    var u := DumpsItems(items) + "]" + x;
    assert s[0] == '[' && s[1..] == u;
    assert !("null" <= s) && !("true" <= s) && !("false" <= s);
    if items == [] {
      assert u[0] == ']' && u[1..] == x;
    }
  }

  lemma ObjectValue(fields: seq<Field>, x: string)
    requires fields != [] ==> ReadFields(DumpsFields(fields) + "}" + x) == Some((fields, x))
    requires fields != [] ==> var s := DumpsFields(fields) + "}" + x; Skip(s) == s && s[0] != '}'
    ensures ReadValue(Dumps(Obj(fields)) + x) == Some((Obj(fields), x))
  {
    var s := Dumps(Obj(fields)) + x;
    var u := DumpsFields(fields) + "}" + x;
    assert s[0] == '{' && s[1..] == u;
    assert !("null" <= s) && !("true" <= s) && !("false" <= s);
    if fields == [] {
      assert u[0] == '}' && u[1..] == x;
    }
  }

  /** The text of the first of some parts, and what follows it. */
  lemma FirstText(all: string, first: string, more: string, one: bool, close: string, x: string, t: string)
    requires all == if one then first else Comma(first, more)
    requires t == if one then close + x else "," + (more + close + x)
    ensures all + close + x == first + t
  {
  }

  lemma LastItem(s: string, v: Json, t: string, x: string)
    requires ReadValue(s) == Some((v, t)) && t == "]" + x
    ensures ReadItems(s) == Some(([v], x))
  {
    assert t[1..] == x;
  }

  lemma NextItem(s: string, v: Json, t: string, u: string, vs: seq<Json>, x: string)
    requires ReadValue(s) == Some((v, t)) && t == "," + u && ReadItems(u) == Some((vs, x))
    ensures ReadItems(s) == Some(([v] + vs, x))
  {
    assert t[1..] == u;
  }

  lemma {:induction false} ItemsBack(items: seq<Json>, x: string)
    requires items != []
    ensures var s := DumpsItems(items) + "]" + x;
      ReadItems(s) == Some((items, x)) && Skip(s) == s && s[0] != ']'
    decreases items, 1
  {
    var u := DumpsItems(items[1..]) + "]" + x;
    var t := if |items| == 1 then "]" + x else "," + u;
    var s := DumpsItems(items) + "]" + x;
    ItemsUnfold(items);
    FirstText(DumpsItems(items), Dumps(items[0]), DumpsItems(items[1..]), |items| == 1, "]", x, t);
    ValueBack(items[0], t);
    Begins(items[0], t);
    if |items| == 1 {
      LastItem(s, items[0], t, x);
      assert items == [items[0]];
    } else {
      ItemsBack(items[1..], x);
      NextItem(s, items[0], t, u, items[1..], x);
      assert items == [items[0]] + items[1..];
    }
  }

  lemma ItemsUnfold(items: seq<Json>)
    requires items != []
    ensures DumpsItems(items) == if |items| == 1 then Dumps(items[0])
      else Comma(Dumps(items[0]), DumpsItems(items[1..]))
  {
  }

  lemma FieldParts(k: string, v: string, x: string)
    ensures FieldText(k, v) + x == "\"" + (k + "\"" + (":" + (v + x)))
  {
  }

  lemma FieldRead(s: string, t: string, u: string, w: string, f: Field, x: string)
    requires s == "\"" + t && ReadChars(t) == Some((f.key, u)) && u == ":" + w && ReadValue(w) == Some((f.value, x))
    ensures ReadField(s) == Some((f, x)) && Skip(s) == s && s[0] == '"'
  {
    assert s[0] == '"' && s[1..] == t && u[0] == ':' && u[1..] == w;
  }

  lemma FieldBack(f: Field, x: string)
    requires ReadValue(Dumps(f.value) + x) == Some((f.value, x))
    ensures var s := FieldText(Escape(f.key), Dumps(f.value)) + x;
      ReadField(s) == Some((f, x)) && Skip(s) == s && s[0] == '"'
  {
    var k, w := Escape(f.key), Dumps(f.value) + x;
    FieldParts(k, Dumps(f.value), x);
    CharsBack(f.key, ":" + w);
    FieldRead("\"" + (k + "\"" + (":" + w)), k + "\"" + (":" + w), ":" + w, w, f, x);
  }

  lemma LastField(s: string, f: Field, t: string, x: string)
    requires ReadField(s) == Some((f, t)) && t == "}" + x
    ensures ReadFields(s) == Some(([f], x))
  {
    assert t[1..] == x;
  }

  lemma NextField(s: string, f: Field, t: string, u: string, fs: seq<Field>, x: string)
    requires ReadField(s) == Some((f, t)) && t == "," + u && ReadFields(u) == Some((fs, x))
    ensures ReadFields(s) == Some(([f] + fs, x))
  {
    assert t[1..] == u;
  }

  lemma FieldsUnfold(fields: seq<Field>)
    requires fields != []
    ensures var f := FieldText(Escape(fields[0].key), Dumps(fields[0].value));
      DumpsFields(fields) == if |fields| == 1 then f else Comma(f, DumpsFields(fields[1..]))
  {
  }

  lemma {:induction false} FieldsBack(fields: seq<Field>, x: string)
    requires fields != []
    ensures var s := DumpsFields(fields) + "}" + x;
      ReadFields(s) == Some((fields, x)) && Skip(s) == s && s[0] != '}'
    decreases fields, 1
  {
    var u := DumpsFields(fields[1..]) + "}" + x;
    var t := if |fields| == 1 then "}" + x else "," + u;
    var s := DumpsFields(fields) + "}" + x;
    FieldsUnfold(fields);
    var f := FieldText(Escape(fields[0].key), Dumps(fields[0].value));
    FirstText(DumpsFields(fields), f, DumpsFields(fields[1..]), |fields| == 1, "}", x, t);
    ValueBack(fields[0].value, t);
    FieldBack(fields[0], t);
    if |fields| == 1 {
      LastField(s, fields[0], t, x);
      assert fields == [fields[0]];
    } else {
      FieldsBack(fields[1..], x);
      NextField(s, fields[0], t, u, fields[1..], x);
      assert fields == [fields[0]] + fields[1..];
    }
  }

  // ---- Messages ----

  /** `json.loads` returns what `json.dumps` was given. */
  lemma LoadsDumps(v: Json)
    ensures Loads(Dumps(v)) == Some(v)
  {
    assert Dumps(v) + "" == Dumps(v);
    ValueBack(v, "");
  }

  /** Different messages have different texts. */
  lemma DumpsInjective(v: Json, w: Json)
    requires Dumps(v) == Dumps(w)
    ensures v == w
  {
    LoadsDumps(v);
    LoadsDumps(w);
  }

  /** What `read_messages` yields from a stream of messages that ends anywhere: the messages before the cut. */
  lemma MessagesReadBack(msgs: seq<Json>, cut: nat)
    requires cut <= |Stream(Map(msgs, Dumps))|
    ensures var texts := ReadTexts(Stream(Map(msgs, Dumps))[..cut]);
      && |texts| == WholeFrames(Map(msgs, Dumps), cut) <= |msgs|
      && forall i :: 0 <= i < |texts| ==> Loads(texts[i]) == Some(msgs[i])
  {
    var texts := ReadTexts(Stream(Map(msgs, Dumps))[..cut]);
    ReadCutStream(msgs, cut);
    forall i | 0 <= i < |texts| ensures Loads(texts[i]) == Some(msgs[i]) {
      assert texts[i] == Map(msgs, Dumps)[i] == Dumps(msgs[i]);
      LoadsDumps(msgs[i]);
    }
  }

  /** So the texts read from a cut stream are those of one list of messages only. */
  lemma ReadDeterminesMessages(msgs: seq<Json>, cut: nat, read: seq<Json>)
    requires cut <= |Stream(Map(msgs, Dumps))|
    ensures Map(read, Dumps) == ReadTexts(Stream(Map(msgs, Dumps))[..cut]) <==>
      read == msgs[..WholeFrames(Map(msgs, Dumps), cut)]
  {
    var texts := Map(msgs, Dumps);
    var whole := msgs[..WholeFrames(texts, cut)];
    ReadCutStream(msgs, cut);
    assert Map(whole, Dumps) == texts[..WholeFrames(texts, cut)];
    if Map(read, Dumps) == Map(whole, Dumps) {
      assert |Map(read, Dumps)| == |read| && |Map(whole, Dumps)| == |whole|;
      forall i | 0 <= i < |read| ensures read[i] == whole[i] {
        assert Map(read, Dumps)[i] == Map(whole, Dumps)[i];
        DumpsInjective(read[i], whole[i]);
      }
    }
  }

  // ---- The form of the texts: no blanks, ASCII only, lower-case escapes ----

  lemma ExampleArray()
    ensures Dumps(Arr([Num(-5), Bool(true), Null])) == "[-5,true,null]" && Dumps(Num(0)) == "0"
  {
    var items := [Num(-5), Bool(true), Null];
    assert items[1..] == [Bool(true), Null] && items[1..][1..] == [Null];
    assert DumpsItems([Null]) == "null";
    assert DumpsItems(items[1..]) == Comma("true", "null") == "true,null";
    assert Dumps(Num(-5)) == "-5";
    assert DumpsItems(items) == Comma("-5", "true,null") == "-5,true,null";
  }

  lemma ExampleObject()
    ensures Dumps(Obj([Field("t", Bool(false))])) == "{\"t\":false}"
  {
    assert "t"[1..] == "" && EscapeChar('t') == "t";
    assert Escape("t") == "t";
    assert DumpsFields([Field("t", Bool(false))]) == FieldText("t", "false");
  }

  lemma ExampleString()
    ensures Dumps(Str("\U{00E9}\n")) == "\"\\u00e9\\n\""
  {
    var s := "\U{00E9}\n";
    assert s[1..] == "\n" && s[1..][1..] == "";
    assert Hex4(0xe9) == "00e9";
    assert EscapeChar(s[0]) == "\\u00e9" && Escape(s[1..]) == "\\n";
    assert Escape(s) == "\\u00e9" + "\\n";
  }
}
