/** Byte strings and little-endian numbers. */
module ByteStrings {

  type Byte = x: int | 0 <= x < 256

  type Bytes = seq<Byte>

  function Pow256(k: nat): nat {
    if k == 0 then 1 else 256 * Pow256(k - 1)
  }

  /** `k` bytes of `n`, least significant first. */
  function LittleEndian(n: nat, k: nat): (b: Bytes)
    ensures |b| == k
    decreases n, k
  {
    if k == 0 then [] else [n % 256] + LittleEndian(n / 256, k - 1)
  }

  function Value(b: Bytes): nat {
    if b == [] then 0 else b[0] + 256 * Value(b[1..])
  }

  lemma {:induction false} ValueOfLittleEndian(n: nat, k: nat)
    requires n < Pow256(k)
    ensures Value(LittleEndian(n, k)) == n
    decreases k
  {
    if k > 0 {
      ValueOfLittleEndian(n / 256, k - 1);
      assert LittleEndian(n, k)[1..] == LittleEndian(n / 256, k - 1);
    }
  }

  lemma LowByte(x: Byte, v: nat)
    ensures (x + 256 * v) % 256 == x && (x + 256 * v) / 256 == v
  {
  }

  lemma {:induction false} LittleEndianOfValue(b: Bytes)
    ensures Value(b) < Pow256(|b|) && LittleEndian(Value(b), |b|) == b
  {
    if b != [] {
      var v := Value(b[1..]);
      LittleEndianOfValue(b[1..]);
      LowByte(b[0], v);
      assert b == [b[0]] + b[1..];
    }
  }

  lemma Limits()
    ensures Pow256(2) == 0x1_0000 && Pow256(4) == 0x1_0000_0000 && Pow256(8) == 0x1_0000_0000_0000_0000
  {
    assert Pow256(4) == 256 * (256 * Pow256(2));
    assert Pow256(8) == 256 * (256 * (256 * (256 * Pow256(4))));
  }

  lemma {:induction false} ValueSnoc(b: Bytes, x: Byte)
    ensures Value(b + [x]) == Value(b) + x * Pow256(|b|)
  {
    if b != [] {
      ValueSnoc(b[1..], x);
      assert (b + [x])[1..] == b[1..] + [x];
      Shift(Value(b[1..]), x, Pow256(|b| - 1));
    } else {
      assert b + [x] == [x];
    }
  }

  lemma Shift(v: nat, x: nat, p: nat)
    ensures 256 * (v + x * p) == 256 * v + x * (256 * p)
  {
    assert 256 * (x * p) == x * (256 * p);
  }
}
