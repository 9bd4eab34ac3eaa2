/** Token amounts between raw units and decimal text: docs/app/account/format.ts and the two conversions
    of contrib/ownership/src/spl-helpers.ts. Raw amounts are the unsigned integers held on chain. */
module Amounts {
  import opened Arith
  import opened Decimal
  import Text

  datatype Outcome = Ok(raw: int) | NotAnAmount | TooManyDecimals | NotPositive | NotAnInteger

  /** Characters that `String.prototype.trim` removes. */
  predicate IsSpace(c: char) {
    || c in {' ', '\t', '\n', '\r', '\U{000B}', '\U{000C}', '\U{00A0}', '\U{FEFF}', '\U{1680}'}
    || '\U{2000}' <= c <= '\U{200A}'
    || c in {'\U{2028}', '\U{2029}', '\U{202F}', '\U{205F}', '\U{3000}'}
  }

  /** The ranges of `trim` at their ends. */
  lemma SpaceEnds()
    ensures IsSpace('\U{2000}') && IsSpace('\U{200A}') && !IsSpace('\U{1FFF}') && !IsSpace('\U{200B}')
  {
  }

  function Trim(s: string): string {
    Text.Strip(s, IsSpace)
  }

  /** The position of the first point, or the length. */
  function Point(s: string): (i: nat)
    ensures i <= |s| && (i < |s| ==> s[i] == '.') && forall k :: 0 <= k < i ==> s[k] != '.'
  {
    if s == [] || s[0] == '.' then 0 else 1 + Point(s[1..])
  }

  /** `split('.')[0]`. */
  function Whole(s: string): string {
    s[..Point(s)]
  }

  /** `split('.')[1]`, "" when there is no point; neither a plain text nor a number has a second one. */
  function Frac(s: string): string {
    if Point(s) == |s| then "" else s[Point(s) + 1..]
  }

  /** `/^\d+(\.\d+)?$/`. */
  predicate Plain(s: string) {
    && Whole(s) != "" && AllDigits(Whole(s))
    && AllDigits(Frac(s)) && (Point(s) < |s| ==> Frac(s) != "")
  }

  function RawToUiAmount(raw: nat, decimals: nat): string {
    var scale := Pow10(decimals);
    var whole, fraction := Quot(raw, scale), Rem(raw, scale);
    if fraction == 0 then Dec(whole)
    else Dec(whole) + "." + TrimZeros(PadStart(Dec(fraction), decimals))
  }

  function UiAmountToRaw(value: string, decimals: nat): Outcome {
    var t := Trim(value);
    if !Plain(t) then NotAnAmount
    else if |Frac(t)| > decimals then TooManyDecimals
    else
      PlainParts(t);
      var digits := PadEnd(if Frac(t) == "" then "0" else Frac(t), decimals);
      assert AllDigits(digits);
      Combine(Val(Whole(t)), Val(digits), decimals)
  }

  function Combine(whole: nat, fraction: nat, decimals: nat): Outcome {
    var raw := whole * Pow10(decimals) + fraction;
    if raw <= 0 then NotPositive else Ok(raw)
  }

  /** `BigInt(s)` for the texts that arise here: digits, possibly after a minus sign. */
  function ReadBigInt(s: string): Outcome {
    if AllDigits(s) then Ok(Val(s))
    else if |s| > 1 && s[0] == '-' && AllDigits(s[1..]) then Ok(0 - Val(s[1..]))
    else NotAnInteger
  }

  /** `toRawAmount` on the text of its number argument. */
  function ToRawAmount(text: string, decimals: nat): Outcome {
    if |Frac(text)| > decimals then TooManyDecimals
    else ReadBigInt(Whole(text) + PadEnd(Frac(text), decimals))
  }

  /** The text that `fromRawAmount` hands to `parseFloat`. */
  function FromRawText(raw: nat, decimals: nat): string {
    var str := PadStart(Dec(raw), decimals + 1);
    FromRawLength(raw, decimals);
    str[..|str| - decimals] + "." + str[|str| - decimals..]
  }

  lemma FromRawLength(raw: nat, decimals: nat)
    ensures |PadStart(Dec(raw), decimals + 1)| > decimals
  {
  }

  // ---- What a plain text denotes: Units(t) / 10^Scale(t) ----

  function Scale(t: string): nat {
    |Frac(t)|
  }

  function Units(t: string): nat
    requires Plain(t)
  {
    PlainParts(t);
    Val(Whole(t) + Frac(t))
  }

  lemma PointAt(w: string, f: string)
    requires forall k :: 0 <= k < |w| ==> w[k] != '.'
    ensures Point(w + "." + f) == |w|
  {
    var s := w + "." + f;
    assert s[|w|] == '.';
    assert forall k :: 0 <= k < |w| ==> s[k] == w[k];
  }

  lemma {:induction false} NoPoint(s: string)
    requires forall k :: 0 <= k < |s| ==> s[k] != '.'
    ensures Point(s) == |s|
  {
    if s != [] {
      NoPoint(s[1..]);
    }
  }

  lemma PlainParts(t: string)
    requires Plain(t)
    ensures AllDigits(Whole(t)) && AllDigits(Frac(t)) && AllDigits(Whole(t) + Frac(t))
  {
  }

  /** Digits with a point between them split as they were put together. */
  lemma PointedParts(w: string, f: string)
    requires AllDigits(w) && AllDigits(f)
    ensures Whole(w + "." + f) == w && Frac(w + "." + f) == f
    ensures w != "" && f != "" ==> Plain(w + "." + f)
  {
    var s := w + "." + f;
    PointAt(w, f);
    assert s[..|w|] == w && s[|w| + 1..] == f;
  }

  lemma DigitsAreWhole(w: string)
    requires AllDigits(w) && w != ""
    ensures Whole(w) == w && Frac(w) == "" && Plain(w)
  {
    NoPoint(w);
  }

  lemma TrimOfTrimmed(s: string)
    requires s != "" && !IsSpace(s[0]) && !IsSpace(s[|s| - 1])
    ensures Trim(s) == s
  {
    Text.StripExact("", s, "", IsSpace);
    assert "" + s + "" == s;
  }

  // ---- Exactness ----

  lemma PadZeros(n: nat, d: nat)
    ensures PadEnd(Zeros(n), d) == Zeros(if n < d then d else n)
  {
    if n < d {
      assert Zeros(n) + Zeros(d - n) == Zeros(d);
    }
  }

  lemma ZeroText()
    ensures "0" == Zeros(1) && "" == Zeros(0)
  {
  }

  /** The padding of "0" is worth nothing, like that of a text without a fraction. */
  lemma PaddedNothing(d: nat)
    ensures PadEnd("", d) == Zeros(d)
    ensures var p := PadEnd("0", d); AllDigits(p) && Val(p) == 0
  {
    ZeroText();
    PadZeros(0, d);
    PadZeros(1, d);
    ValZeros(if 1 < d then d else 1);
  }

  lemma PaddedFraction(f: string, d: nat)
    requires AllDigits(f) && |f| <= d
    ensures var p := PadEnd(if f == "" then "0" else f, d); AllDigits(p) && Val(p) == Val(PadEnd(f, d))
    ensures AllDigits(PadEnd(f, d)) && |PadEnd(f, d)| == d && Val(PadEnd(f, d)) == Val(f) * Pow10(d - |f|)
  {
    PadEndValue(f, d);
    if f == "" {
      PaddedNothing(d);
      ValZeros(d);
    }
  }

  /** whole * 10^d + padded fraction is the denoted number in units of 10^-d. */
  lemma RawValue(t: string, d: nat)
    requires Plain(t) && Scale(t) <= d
    ensures AllDigits(Whole(t)) && AllDigits(PadEnd(Frac(t), d))
    ensures Val(Whole(t)) * Pow10(d) + Val(PadEnd(Frac(t), d)) == Units(t) * Pow10(d - Scale(t))
  {
    PlainParts(t);
    var w, f := Whole(t), Frac(t);
    ValConcat(w, f);
    PaddedFraction(f, d);
    Pow10Sum(|f|, d - |f|);
    Distribute(Val(w), Pow10(|f|), Val(f), Pow10(d - |f|));
  }

  /** `uiAmountToRaw` accepts exactly the plain texts with few enough decimals that denote a positive
      number, and returns that number in raw units. */
  lemma UiAmountExact(value: string, d: nat, raw: int)
    ensures UiAmountToRaw(value, d) == Ok(raw) <==>
      var t := Trim(value);
      Plain(t) && Scale(t) <= d && raw > 0 && raw == Units(t) * Pow10(d - Scale(t))
  {
    var t := Trim(value);
    if Plain(t) && Scale(t) <= d {
      PlainParts(t);
      RawValue(t, d);
      PaddedFraction(Frac(t), d);
    }
  }

  /** The texts that denote an amount: digits, and perhaps a point with more digits behind it. */
  lemma PlainExactly(t: string)
    ensures Plain(t) <==>
      exists w, f :: AllDigits(w) && AllDigits(f) && w != "" && ((f == "" && t == w) || (f != "" && t == w + "." + f))
  {
    if Plain(t) {
      assert t == if Point(t) == |t| then Whole(t) else Whole(t) + "." + Frac(t);
    }
    if w, f :| AllDigits(w) && AllDigits(f) && w != "" && ((f == "" && t == w) || (f != "" && t == w + "." + f)) {
      if f == "" {
        DigitsAreWhole(w);
      } else {
        PointedParts(w, f);
      }
    }
  }

  /** What is read from a text with blanks around it. */
  lemma ReadsBetween(a: string, t: string, b: string, d: nat)
    requires Plain(t) && Text.AllBlank(a, IsSpace) && Text.AllBlank(b, IsSpace)
    ensures UiAmountToRaw(a + t + b, d) == UiAmountToRaw(t, d)
    ensures UiAmountToRaw(t, d).TooManyDecimals? <==> |Frac(t)| > d
  {
    PlainBare(t);
    Text.StripExact(a, t, b, IsSpace);
    TrimOfTrimmed(t);
    assert Trim(a + t + b) == Trim(t);
  }

  lemma PlainBare(t: string)
    requires Plain(t)
    ensures t != "" && !IsSpace(t[0]) && !IsSpace(t[|t| - 1])
  {
    assert t[0] == Whole(t)[0];
    assert t[|t| - 1] == if Point(t) == |t| then Whole(t)[|t| - 1] else Frac(t)[|Frac(t)| - 1];
  }

  /** Digits, a point and more digits, with blanks around them, are read as the number they denote. */
  lemma ReadsDigits(a: string, w: string, f: string, b: string, d: nat, raw: nat)
    requires AllDigits(w) && AllDigits(f) && w != "" && f != "" && |f| <= d
    requires Text.AllBlank(a, IsSpace) && Text.AllBlank(b, IsSpace)
    requires raw == Val(w) * Pow10(d) + Val(f) * Pow10(d - |f|)
    ensures UiAmountToRaw(a + (w + "." + f) + b, d) == if raw == 0 then NotPositive else Ok(raw)
  {
    var t := w + "." + f;
    PointedParts(w, f);
    ReadsBetween(a, t, b, d);
    PlainBare(t);
    TrimOfTrimmed(t);
    PaddedFraction(f, d);
    var p := Val(PadEnd(f, d));
    assert UiAmountToRaw(t, d) == Combine(Val(w), p, d);
  }

  /** The same for a whole number. */
  lemma ReadsWhole(a: string, w: string, b: string, d: nat, raw: nat)
    requires AllDigits(w) && w != "" && Text.AllBlank(a, IsSpace) && Text.AllBlank(b, IsSpace)
    requires raw == Val(w) * Pow10(d)
    ensures UiAmountToRaw(a + w + b, d) == if raw == 0 then NotPositive else Ok(raw)
  {
    DigitsAreWhole(w);
    ReadsBetween(a, w, b, d);
    PlainBare(w);
    TrimOfTrimmed(w);
    PaddedNothing(d);
    ValZeros(d);
    assert UiAmountToRaw(w, d) == Combine(Val(w), 0, d);
  }

  lemma ToRawParts(t: string, d: nat)
    requires Plain(t) && Scale(t) <= d
    ensures AllDigits(Whole(t)) && AllDigits(PadEnd(Frac(t), d))
    ensures ToRawAmount(t, d) == Ok(Val(Whole(t)) * Pow10(d) + Val(PadEnd(Frac(t), d)))
  {
    PaddedFraction(Frac(t), d);
    ValConcat(Whole(t), PadEnd(Frac(t), d));
  }

  /** The two implementations agree on every plain decimal text, but for the check that the amount is
      positive. */
  lemma ConversionsAgree(value: string, d: nat)
    requires Plain(Trim(value))
    ensures UiAmountToRaw(value, d) ==
      var r := ToRawAmount(Trim(value), d);
      if r.Ok? && r.raw <= 0 then NotPositive else r
  {
    var t := Trim(value);
    if Scale(t) <= d {
      ToRawParts(t, d);
      PaddedFraction(Frac(t), d);
    }
  }

  lemma Scaled(r: nat, n: nat, p: nat, c: nat, q: nat, o: nat)
    requires r == n * c && c * p == q
    ensures r * (p * o) == (n * o) * q
  {
    calc {
      r * (p * o);
      { Associate(r, p, o); }
      (r * p) * o;
      { Associate(n, c, p); }
      (n * q) * o;
      { Associate(n, q, o); }
      (n * o) * q;
    }
  }

  lemma CrossMultiply(ra: nat, na: nat, pa: nat, ca: nat, rb: nat, nb: nat, pb: nat, cb: nat, q: nat)
    requires ra == na * ca && rb == nb * cb && ca * pa == q && cb * pb == q
    requires pa > 0 && pb > 0 && q > 0
    ensures ra == rb <==> na * pb == nb * pa
  {
    Scaled(ra, na, pa, ca, q, pb);
    Scaled(rb, nb, pb, cb, q, pa);
    var p := pa * pb;
    assert pb * pa == p;
    AtLeastOnce(pa, pb);
    if ra == rb {
      Cancel(na * pb, nb * pa, q);
    }
    if na * pb == nb * pa {
      Cancel(ra, rb, p);
    }
  }

  lemma SameNumber(ra: nat, na: nat, sa: nat, rb: nat, nb: nat, sb: nat, d: nat)
    requires sa <= d && sb <= d && ra == na * Pow10(d - sa) && rb == nb * Pow10(d - sb)
    ensures ra == rb <==> na * Pow10(sb) == nb * Pow10(sa)
  {
    Pow10Sum(d - sa, sa);
    Pow10Sum(d - sb, sb);
    CrossMultiply(ra, na, Pow10(sa), Pow10(d - sa), rb, nb, Pow10(sb), Pow10(d - sb), Pow10(d));
  }

  /** Two accepted texts give the same raw amount just when they denote the same number. */
  lemma EqualAmounts(a: string, b: string, d: nat)
    requires UiAmountToRaw(a, d).Ok? && UiAmountToRaw(b, d).Ok?
    ensures Plain(Trim(a)) && Plain(Trim(b))
    ensures UiAmountToRaw(a, d) == UiAmountToRaw(b, d) <==>
            Units(Trim(a)) * Pow10(Scale(Trim(b))) == Units(Trim(b)) * Pow10(Scale(Trim(a)))
  {
    var s, t := Trim(a), Trim(b);
    var ra, rb := UiAmountToRaw(a, d).raw, UiAmountToRaw(b, d).raw;
    UiAmountExact(a, d, ra);
    UiAmountExact(b, d, rb);
    SameNumber(ra, Units(s), Scale(s), rb, Units(t), Scale(t), d);
  }

  // ---- Round trips ----

  lemma {:induction false} DecLength(n: nat, d: nat)
    requires n < Pow10(d) && d > 0
    ensures |Dec(n)| <= d
  {
    if n >= 10 {
      DecLength(n / 10, d - 1);
    }
  }

  lemma TrimEmptyIffZero(p: string)
    requires AllDigits(p)
    ensures TrimZeros(p) == "" <==> Val(p) == 0
  {
    ValZeros(|p|);
    TrimZerosPads(p);
    assert PadEnd("", |p|) == Zeros(|p|);
    if Val(p) == 0 {
      ValInjective(p, Zeros(|p|));
      TrimOfPadded("", |p|);
      assert "" + Zeros(|p|) == Zeros(|p|);
    }
  }

  lemma PaddedDec(n: nat, d: nat)
    requires 0 < n < Pow10(d)
    ensures var q := PadStart(Dec(n), d); |q| == d && AllDigits(q) && Val(q) == n
  {
    DecLength(n, d);
    PadStartValue(Dec(n), d);
    ValDec(n);
  }

  /** The printed fraction is a non-empty digit string that pads back to the fraction. */
  lemma PrintedFraction(q: string, d: nat)
    requires |q| == d && AllDigits(q) && Val(q) > 0
    ensures TrimZeros(q) != "" && |TrimZeros(q)| <= d && AllDigits(TrimZeros(q)) && PadEnd(TrimZeros(q), d) == q
  {
    TrimZerosPads(q);
    TrimEmptyIffZero(q);
  }

  /** Reading in terms of the two parts of the text. */
  lemma ReadParts(t: string, d: nat)
    requires Plain(t) && Trim(t) == t && |Frac(t)| <= d
    ensures AllDigits(Whole(t)) && AllDigits(PadEnd(Frac(t), d))
    ensures UiAmountToRaw(t, d) == Combine(Val(Whole(t)), Val(PadEnd(Frac(t), d)), d)
  {
    PaddedFraction(Frac(t), d);
  }

  lemma PrintWholeThenRead(w: nat, d: nat)
    ensures UiAmountToRaw(Dec(w), d) == Combine(w, 0, d)
  {
    DigitsAreWhole(Dec(w));
    TrimOfTrimmed(Dec(w));
    ReadParts(Dec(w), d);
    ValDec(w);
    ValZeros(d);
    assert PadEnd("", d) == Zeros(d);
  }

  lemma PrintPointedThenRead(w: nat, f: nat, d: nat)
    requires 0 < f < Pow10(d)
    ensures UiAmountToRaw(Dec(w) + "." + TrimZeros(PadStart(Dec(f), d)), d) == Combine(w, f, d)
  {
    PaddedDec(f, d);
    var q := PadStart(Dec(f), d);
    var p := TrimZeros(q);
    PrintedFraction(q, d);
    PointedParts(Dec(w), p);
    PointedTrimmed(Dec(w), p);
    ReadParts(Dec(w) + "." + p, d);
    ValDec(w);
  }

  lemma PointedTrimmed(w: string, p: string)
    requires AllDigits(w) && AllDigits(p) && w != "" && p != ""
    ensures Trim(w + "." + p) == w + "." + p
  {
    var text := w + "." + p;
    assert text[0] == w[0] && text[|text| - 1] == p[|p| - 1];
    TrimOfTrimmed(text);
  }

  /** Printing a positive amount and reading it back returns it. */
  lemma PrintThenRead(r: nat, d: nat)
    ensures UiAmountToRaw(RawToUiAmount(r, d), d) == if r > 0 then Ok(r) else NotPositive
  {
    var scale := Pow10(d);
    QuotRem(r, scale);
    if Rem(r, scale) == 0 {
      PrintWholeThenRead(Quot(r, scale), d);
    } else {
      PrintPointedThenRead(Quot(r, scale), Rem(r, scale), d);
    }
  }

  /** The shortest text for the number: no superfluous zeros and no bare point. */
  function Canonical(t: string): string {
    var f := TrimZeros(Frac(t));
    if f == "" then StripLeading(Whole(t)) else StripLeading(Whole(t)) + "." + f
  }

  /** Printing a fraction given by `d` digits prints those digits without their trailing zeros. */
  lemma FractionText(p: string)
    requires AllDigits(p) && Val(p) != 0
    ensures PadStart(Dec(Val(p)), |p|) == p
  {
    ValBound(p);
    PaddedDec(Val(p), |p|);
    ValInjective(PadStart(Dec(Val(p)), |p|), p);
  }

  lemma PrintParts(q: nat, f: nat, d: nat, r: nat)
    requires f < Pow10(d) && r == q * Pow10(d) + f
    ensures RawToUiAmount(r, d) == if f == 0 then Dec(q) else Dec(q) + "." + TrimZeros(PadStart(Dec(f), d))
  {
    QuotRemUnique(q, f, Pow10(d));
    PrintFrom(r, d, q, f);
  }

  lemma PrintFrom(r: nat, d: nat, q: nat, f: nat)
    requires Quot(r, Pow10(d)) == q && Rem(r, Pow10(d)) == f
    ensures RawToUiAmount(r, d) == if f == 0 then Dec(q) else Dec(q) + "." + TrimZeros(PadStart(Dec(f), d))
  {
  }

  lemma PrintOfDigits(w: string, p: string, r: nat)
    requires AllDigits(w) && w != "" && AllDigits(p) && r == Val(w) * Pow10(|p|) + Val(p)
    ensures RawToUiAmount(r, |p|) == if TrimZeros(p) == "" then StripLeading(w)
      else StripLeading(w) + "." + TrimZeros(p)
  {
    ValBound(p);
    PrintParts(Val(w), Val(p), |p|, r);
    DecOfStripped(w);
    TrimEmptyIffZero(p);
    if Val(p) != 0 {
      FractionText(p);
    }
  }

  /** Reading an accepted text and printing it gives the canonical form of the text. */
  lemma ReadThenPrint(value: string, d: nat)
    requires UiAmountToRaw(value, d).Ok?
    ensures RawToUiAmount(UiAmountToRaw(value, d).raw, d) == Canonical(Trim(value))
  {
    var t := Trim(value);
    PlainParts(t);
    PaddedFraction(Frac(t), d);
    PrintOfDigits(Whole(t), PadEnd(Frac(t), d), UiAmountToRaw(value, d).raw);
    TrimOfPadded(Frac(t), d - |Frac(t)|);
    assert Frac(t) + Zeros(0) == Frac(t);
  }

  lemma NegativeParts(w: string, f: string)
    requires AllDigits(w)
    ensures Whole("-" + w + "." + f) == "-" + w && Frac("-" + w + "." + f) == f
  {
    var t := "-" + w + "." + f;
    PointAt("-" + w, f);
    assert t[..|w| + 1] == "-" + w && t[|w| + 2..] == f;
  }

  /** What `BigInt` accepts: digits, also none at all, or a minus sign before at least one. */
  lemma BigIntExactly(s: string)
    ensures ReadBigInt(s).Ok? <==> AllDigits(s) || exists t :: t != "" && AllDigits(t) && s == "-" + t
  {
    if ReadBigInt(s).Ok? && !AllDigits(s) {
      assert s == "-" + s[1..];
    }
    if t :| t != "" && AllDigits(t) && s == "-" + t {
      NegativeBigInt(t);
    }
  }

  lemma NegativeBigInt(digits: string)
    requires AllDigits(digits) && digits != ""
    ensures ReadBigInt("-" + digits) == Ok(0 - Val(digits))
  {
    var s := "-" + digits;
    assert s[0] == '-' && s[1..] == digits;
  }

  /** A minus sign before digits turns the amount around. */
  lemma NegativeReads(w: string, f: string, d: nat, raw: nat)
    requires AllDigits(w) && AllDigits(f) && w != "" && |f| <= d
    requires raw == Val(w) * Pow10(d) + Val(f) * Pow10(d - |f|)
    ensures ToRawAmount("-" + w + "." + f, d) == Ok(0 - raw)
  {
    var p := PadEnd(f, d);
    NegativeParts(w, f);
    PaddedFraction(f, d);
    ValConcat(w, p);
    NegativeBigInt(w + p);
    assert "-" + w + p == "-" + (w + p);
  }

  /** The text behind `fromRawAmount` denotes raw / 10^d exactly, and `toRawAmount` reads it back. */
  lemma FromRawExact(raw: nat, d: nat)
    ensures var t := FromRawText(raw, d);
      && Whole(t) != "" && AllDigits(Whole(t)) && AllDigits(Frac(t)) && |Frac(t)| == d
      && Val(Whole(t)) * Pow10(d) + Val(Frac(t)) == raw
      && ToRawAmount(t, d) == Ok(raw)
  {
    var str := PadStart(Dec(raw), d + 1);
    PadStartValue(Dec(raw), d + 1);
    ValDec(raw);
    SplitDigits(str, d);
    assert PadEnd(str[|str| - d..], d) == str[|str| - d..];
  }

  lemma SplitDigits(str: string, d: nat)
    requires AllDigits(str) && |str| > d
    ensures var w, f := str[..|str| - d], str[|str| - d..];
      && AllDigits(w) && AllDigits(f) && w + f == str && Val(w) * Pow10(d) + Val(f) == Val(str)
      && Whole(w + "." + f) == w && Frac(w + "." + f) == f
  {
    var w, f := str[..|str| - d], str[|str| - d..];
    assert str == w + f;
    ValConcat(w, f);
    PointedParts(w, f);
  }
}
