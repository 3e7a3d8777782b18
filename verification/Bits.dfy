/** Numbers as strings of bits, the most significant first. */
module BitStrings {
  import opened Arith
  import opened Basics

  /** The lowest `n` bits of `v`. */
  function BitsOf(v: nat, n: nat): (b: seq<bool>)
    ensures |b| == n
  {
    if n == 0 then [] else BitsOf(v / 2, n - 1) + [v % 2 == 1]
  }

  function Value(b: seq<bool>): nat {
    if b == [] then 0 else 2 * Value(b[..|b| - 1]) + if b[|b| - 1] then 1 else 0
  }

  lemma {:induction false} ValueOfBits(v: nat, n: nat)
    requires v < Pow2(n)
    ensures Value(BitsOf(v, n)) == v
  {
    if n > 0 {
      ValueOfBits(v / 2, n - 1);
      assert BitsOf(v, n)[..n - 1] == BitsOf(v / 2, n - 1);
    }
  }

  lemma {:induction false} BitsOfValue(b: seq<bool>)
    ensures Value(b) < Pow2(|b|) && BitsOf(Value(b), |b|) == b
  {
    if b != [] {
      var n := |b| - 1;
      BitsOfValue(b[..n]);
      assert b == b[..n] + [b[n]];
    }
  }

  lemma {:induction false} ValueConcat(a: seq<bool>, b: seq<bool>)
    ensures Value(a + b) == Value(a) * Pow2(|b|) + Value(b)
  {
    if b == [] {
      assert a + b == a;
    } else {
      var n := |b| - 1;
      assert (a + b)[..|a + b| - 1] == a + b[..n];
      ValueConcat(a, b[..n]);
      assert 2 * (Value(a) * Pow2(n)) == Value(a) * Pow2(|b|) by { Assoc(Value(a), Pow2(n), 2); }
    }
  }

  /** Some bits in the middle, by shifting the others out and masking. */
  lemma ShiftMask(b: seq<bool>, off: nat, take: nat)
    requires off + take <= |b|
    ensures Value(b) / Pow2(|b| - off - take) % Pow2(take) == Value(b[off..off + take])
  {
    hide Value, BitsOf, Pow2;
    var hi, mid, lo := b[..off], b[off..off + take], b[off + take..];
    BitsOfValue(lo);
    BitsOfValue(mid);
    assert b == (hi + mid) + lo;
    ValueConcat(hi + mid, lo);
    RemainderIs(Pow2(|lo|), Value(hi + mid), Value(lo), Value(b));
    ValueConcat(hi, mid);
    RemainderIs(Pow2(take), Value(hi), Value(mid), Value(hi + mid));
  }

  // ---- Bytes ----

  function ByteBits(c: Byte): (b: seq<bool>)
    ensures |b| == 8
  {
    BitsOf(c, 8)
  }

  /** The bits of a buffer, byte after byte. */
  function Bits(buf: seq<Byte>): (b: seq<bool>)
    ensures |b| == 8 * |buf|
  {
    if buf == [] then [] else Bits(buf[..|buf| - 1]) + ByteBits(buf[|buf| - 1])
  }

  lemma {:induction false} BitsAt(buf: seq<Byte>, k: nat)
    requires k < |buf|
    ensures Bits(buf)[8 * k..8 * k + 8] == ByteBits(buf[k])
  {
    var n := |buf| - 1;
    if k < n {
      BitsAt(buf[..n], k);
      assert Bits(buf)[8 * k..8 * k + 8] == Bits(buf[..n])[8 * k..8 * k + 8];
    }
  }

  lemma EightBits()
    ensures Pow2(8) == 256
  {
    assert Pow2(4) == 16;
    Pow2Add(4, 4);
  }

  function ByteOf(b: seq<bool>): (c: Byte)
    requires |b| == 8
  {
    BitsOfValue(b);
    EightBits();
    Value(b)
  }

  /** Whole bytes of bits as a buffer. */
  function Packed(b: seq<bool>): (buf: seq<Byte>)
    requires |b| % 8 == 0
    ensures 8 * |buf| == |b|
  {
    if b == [] then [] else Packed(b[..|b| - 8]) + [ByteOf(b[|b| - 8..])]
  }

  lemma {:induction false} BitsOfPacked(b: seq<bool>)
    requires |b| % 8 == 0
    ensures Bits(Packed(b)) == b
  {
    hide BitsOf, Value, Pow2;
    if b != [] {
      var n := |b| - 8;
      BitsOfPacked(b[..n]);
      BitsOfValue(b[n..]);
      var buf := Packed(b);
      assert buf[..|buf| - 1] == Packed(b[..n]);
      assert b == b[..n] + b[n..];
    }
  }
}
