/** Decimal numerals as text: printing, reading, padding and trimming of zeros. */
module Decimal {

  const DIGITS := "0123456789"

  predicate IsDigit(c: char) {
    '0' <= c <= '9'
  }

  predicate AllDigits(s: string) {
    forall i :: 0 <= i < |s| ==> IsDigit(s[i])
  }

  function DigitValue(c: char): (d: nat)
    requires IsDigit(c)
    ensures d < 10
  {
    c as int - '0' as int
  }

  function DigitChar(d: nat): (c: char)
    requires d < 10
    ensures IsDigit(c) && DigitValue(c) == d
  {
    '0' + d as char
  }

  lemma DigitCharOfValue(c: char)
    requires IsDigit(c)
    ensures DigitChar(DigitValue(c)) == c
  {
  }

  function Pow10(n: nat): (r: nat)
    ensures r > 0
  {
    if n == 0 then 1 else 10 * Pow10(n - 1)
  }

  lemma {:induction false} Pow10Sum(a: nat, b: nat)
    ensures Pow10(a + b) == Pow10(a) * Pow10(b)
  {
    if a > 0 {
      Pow10Sum(a - 1, b);
      assert Pow10(a + b) == 10 * Pow10(a - 1 + b);
      assert 10 * (Pow10(a - 1) * Pow10(b)) == (10 * Pow10(a - 1)) * Pow10(b);
    }
  }

  /** The number that a string of digits denotes; the empty string denotes 0. */
  function Val(s: string): nat
    requires AllDigits(s)
  {
    if s == [] then 0 else 10 * Val(s[..|s| - 1]) + DigitValue(s[|s| - 1])
  }

  /** The numeral of `n` without leading zeros. */
  function Dec(n: nat): (s: string)
    ensures s != [] && AllDigits(s)
  {
    if n < 10 then [DigitChar(n)] else Dec(n / 10) + [DigitChar(n % 10)]
  }

  lemma {:induction false} ValDec(n: nat)
    ensures Val(Dec(n)) == n
  {
    var s := Dec(n);
    if n < 10 {
      assert s[..0] == [];
    } else {
      assert s[..|s| - 1] == Dec(n / 10);
      ValDec(n / 10);
    }
  }

  lemma DecInjective(m: nat, n: nat)
    requires Dec(m) == Dec(n)
    ensures m == n
  {
    ValDec(m);
    ValDec(n);
  }

  lemma {:induction false} ValConcat(a: string, b: string)
    requires AllDigits(a) && AllDigits(b)
    ensures AllDigits(a + b) && Val(a + b) == Val(a) * Pow10(|b|) + Val(b)
  {
    if b == [] {
      assert a + b == a;
    } else {
      var i := b[..|b| - 1];
      ValConcat(a, i);
      ValSnoc(a + b, a + i, b[|b| - 1]);
      ValSnoc(b, i, b[|b| - 1]);
      AppendDigit(Val(a), Pow10(|i|), Val(i), DigitValue(b[|b| - 1]));
    }
  }

  lemma ValSnoc(s: string, i: string, c: char)
    requires s == i + [c] && AllDigits(i) && IsDigit(c)
    ensures AllDigits(s) && Val(s) == 10 * Val(i) + DigitValue(c)
  {
    assert s[..|s| - 1] == i && s[|s| - 1] == c;
  }

  lemma AppendDigit(a: nat, p: nat, i: nat, x: nat)
    ensures 10 * (a * p + i) + x == a * (10 * p) + (10 * i + x)
  {
    assert 10 * (a * p) == a * (10 * p);
  }

  function Zeros(n: nat): (s: string)
    ensures |s| == n && AllDigits(s) && forall i :: 0 <= i < n ==> s[i] == '0'
  {
    seq(n, _ => '0')
  }

  lemma {:induction false} ValZeros(n: nat)
    ensures Val(Zeros(n)) == 0
  {
    if n > 0 {
      assert Zeros(n)[..n - 1] == Zeros(n - 1);
      ValZeros(n - 1);
    }
  }

  lemma {:induction false} ValBound(s: string)
    requires AllDigits(s)
    ensures Val(s) < Pow10(|s|)
  {
    if s != [] {
      ValBound(s[..|s| - 1]);
    }
  }

  /** `padStart` with zeros. */
  function PadStart(s: string, n: nat): string {
    if |s| >= n then s else Zeros(n - |s|) + s
  }

  /** `padEnd` with zeros. */
  function PadEnd(s: string, n: nat): string {
    if |s| >= n then s else s + Zeros(n - |s|)
  }

  lemma PadStartValue(s: string, n: nat)
    requires AllDigits(s)
    ensures AllDigits(PadStart(s, n)) && Val(PadStart(s, n)) == Val(s)
    ensures |PadStart(s, n)| == if |s| >= n then |s| else n
  {
    if |s| < n {
      ValConcat(Zeros(n - |s|), s);
      ValZeros(n - |s|);
    }
  }

  lemma PadEndValue(s: string, n: nat)
    requires AllDigits(s) && |s| <= n
    ensures AllDigits(PadEnd(s, n)) && |PadEnd(s, n)| == n
    ensures Val(PadEnd(s, n)) == Val(s) * Pow10(n - |s|)
  {
    if |s| < n {
      ValConcat(s, Zeros(n - |s|));
      ValZeros(n - |s|);
    }
  }

  /** Drop the trailing zeros: `replace(/0+$/, '')`. */
  function TrimZeros(s: string): (r: string)
    ensures r <= s && (r == [] || r[|r| - 1] != '0')
  {
    if s != [] && s[|s| - 1] == '0' then TrimZeros(s[..|s| - 1]) else s
  }

  lemma ZerosSnoc(n: nat)
    ensures Zeros(n + 1) == Zeros(n) + ['0'] && Zeros(0) == []
  {
  }

  lemma PadOneMore(r: string, n: nat)
    requires |r| <= n
    ensures PadEnd(r, n + 1) == PadEnd(r, n) + ['0']
  {
    ZerosSnoc(n - |r|);
    assert r + [] == r;
    assert r + (Zeros(n - |r|) + ['0']) == (r + Zeros(n - |r|)) + ['0'];
  }

  lemma {:induction false} TrimZerosPads(s: string)
    ensures PadEnd(TrimZeros(s), |s|) == s
  {
    if s != [] && s[|s| - 1] == '0' {
      var i := s[..|s| - 1];
      TrimZerosPads(i);
      PadOneMore(TrimZeros(i), |i|);
      assert s == i + ['0'];
    }
  }

  /** Padding and then trimming is just trimming. */
  lemma {:induction false} TrimOfPadded(s: string, n: nat)
    ensures TrimZeros(s + Zeros(n)) == TrimZeros(s)
  {
    if n == 0 {
      assert s + Zeros(0) == s;
    } else {
      var t := s + Zeros(n);
      assert t[..|t| - 1] == s + Zeros(n - 1);
      TrimOfPadded(s, n - 1);
    }
  }

  /** Drop leading zeros, keeping one digit of a non-empty numeral. */
  function StripLeading(s: string): string {
    if |s| > 1 && s[0] == '0' then StripLeading(s[1..]) else s
  }

  lemma {:induction false} StripLeadingValue(s: string)
    requires AllDigits(s) && s != []
    ensures AllDigits(StripLeading(s)) && Val(StripLeading(s)) == Val(s)
    ensures StripLeading(s) != [] && (|StripLeading(s)| > 1 ==> StripLeading(s)[0] != '0')
  {
    if |s| > 1 && s[0] == '0' {
      assert s == [s[0]] + s[1..];
      ValConcat([s[0]], s[1..]);
      assert Val([s[0]]) == 0 by {
        assert [s[0]][..0] == [];
      }
      StripLeadingValue(s[1..]);
    }
  }

  /** A numeral without superfluous leading zeros is the one that is printed. */
  lemma {:induction false} DecVal(s: string)
    requires AllDigits(s) && s != [] && (|s| > 1 ==> s[0] != '0')
    ensures Dec(Val(s)) == s
  {
    var i, c := s[..|s| - 1], s[|s| - 1];
    DigitCharOfValue(c);
    assert s == i + [c];
    if |s| > 1 {
      DecVal(i);
      LeadingPositive(i);
      var v := Val(i);
      assert Val(s) == 10 * v + DigitValue(c);
      assert Val(s) / 10 == v && Val(s) % 10 == DigitValue(c);
    } else {
      assert i == [];
    }
  }

  lemma {:induction false} LeadingPositive(s: string)
    requires AllDigits(s) && s != [] && s[0] != '0'
    ensures Val(s) > 0
  {
    if |s| > 1 {
      LeadingPositive(s[..|s| - 1]);
    }
  }

  lemma DecOfStripped(s: string)
    requires AllDigits(s) && s != []
    ensures Dec(Val(s)) == StripLeading(s)
  {
    StripLeadingValue(s);
    DecVal(StripLeading(s));
  }

  /** Two digit strings of one length that denote the same number are equal. */
  lemma {:induction false} ValInjective(a: string, b: string)
    requires AllDigits(a) && AllDigits(b) && |a| == |b| && Val(a) == Val(b)
    ensures a == b
  {
    if a != [] {
      var i, j := a[..|a| - 1], b[..|b| - 1];
      var x, y := DigitValue(a[|a| - 1]), DigitValue(b[|b| - 1]);
      assert 10 * Val(i) + x == 10 * Val(j) + y;
      assert x == y && Val(i) == Val(j);
      ValInjective(i, j);
      DigitCharOfValue(a[|a| - 1]);
      DigitCharOfValue(b[|b| - 1]);
      assert a == i + [a[|a| - 1]] && b == j + [b[|b| - 1]];
    }
  }
}
