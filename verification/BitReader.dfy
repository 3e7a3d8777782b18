/** Reading numbers off a buffer, several bits at a time. */
module BitReading {
  import opened Arith
  import opened Basics
  import opened BitStrings

  datatype Error = Eof | NoStructure | InvalidTemplate | TooManyTemplates

  datatype Outcome<+T> = Success(value: T) | Failure(error: Error)
  {
    predicate IsFailure() {
      Failure?
    }

    function PropagateFailure<U>(): Outcome<U>
      requires Failure?
    {
      Failure(error)
    }

    function Extract(): T
      requires Success?
    {
      value
    }
  }

  /** What a reader takes off the front of the bits, and the bits after it. */
  type Taken<T> = Outcome<(T, seq<bool>)>

  function TakeBits(s: seq<bool>, n: nat): Taken<nat> {
    if n <= |s| then Success((Value(s[..n]), s[n..])) else Failure(Eof)
  }

  function TakeBool(s: seq<bool>): Taken<bool> {
    if s == [] then Failure(Eof) else Success((s[0], s[1..]))
  }

  /** Bits it takes to write `n`. */
  function Width(n: nat): (w: nat)
    ensures n > 0 ==> w > 0 && Pow2(w - 1) <= n
    ensures n < Pow2(w)
  {
    if n == 0 then 0 else Width(n / 2) + 1
  }

  function TakeNs(s: seq<bool>, n: nat): Taken<nat> {
    if n <= 1 then Success((0, s))
    else
      var w := Width(n);
      var k := Pow2(w) - n;
      var (v, s) :- TakeBits(s, w - 1);
      if v < k then Success((v, s))
      else
        var (extra, s) :- TakeBits(s, 1);
        Success((2 * v + extra - k, s))
  }

  /** A reader that returned `r` and left `rest` has done what `taken` says. */
  predicate Matches<T(==)>(r: Outcome<T>, taken: Taken<T>, rest: seq<bool>) {
    match r
    case Success(v) => taken == Success((v, rest))
    case Failure(e) => taken == Failure(e)
  }

  class BitReader {
    const buf: seq<Byte>
    var pos: nat

    ghost predicate Valid()
      reads this
    {
      pos <= 8 * |buf|
    }

    /** The bits not read yet. */
    ghost function Rest(): seq<bool>
      requires Valid()
      reads this
    {
      Bits(buf)[pos..]
    }

    constructor (buf: seq<Byte>)
      ensures Valid() && this.buf == buf && pos == 0 && Rest() == Bits(buf)
    {
      this.buf := buf;
      pos := 0;
    }

    function Remaining(): (n: nat)
      requires Valid()
      reads this
      ensures n == |Rest()|
    {
      8 * |buf| - pos
    }

    /** A chunk from each byte that holds some of the `n` bits. */
    method Read(n: nat) returns (r: Outcome<nat>)
      requires Valid()
      modifies this
      ensures Valid() && Matches(r, TakeBits(old(Rest()), n), Rest())
      ensures r.Failure? ==> pos == old(pos)
      ensures r.Success? ==> r.value < Pow2(n)
    {
      hide Value, Bits, Pow2, TakeBits;
      TakeEnds(Rest(), n);
      if n == 0 {
        return Success(0);
      }
      if Remaining() < n {
        return Failure(Eof);
      }
      var v, m, start := 0, n, pos;
      TakenAt(Bits(buf), start, n);
      while m > 0
        invariant 0 <= m <= n && pos == start + n - m && start + n <= 8 * |buf|
        invariant v == Value(Bits(buf)[start..pos])
      {
        var off := pos % 8;
        var left := 8 - off;
        var take := if left <= m then left else m;
        var chunk := buf[pos / 8] / Pow2(left - take) % Pow2(take);
        ChunkValue(buf, start, pos, take);
        v := v * Pow2(take) + chunk;
        pos := pos + take;
        m := m - take;
      }
      return Success(v);
    }

    method Bool() returns (r: Outcome<bool>)
      requires Valid()
      modifies this
      ensures Valid() && Matches(r, TakeBool(old(Rest())), Rest())
    {
      TakeOne(Rest());
      var v := Read(1);
      return if v.Failure? then Failure(v.error) else Success(v.value != 0);
    }

    /** The non-symmetric code of section 4.10.7 of the AV1 bitstream specification. */
    method Ns(n: nat) returns (r: Outcome<nat>)
      requires Valid() && n < 0x8000_0000
      modifies this
      ensures Valid() && Matches(r, TakeNs(old(Rest()), n), Rest())
      ensures r.Success? ==> n == 0 || r.value < n
    {
      hide TakeBits, Value, Bits, NsBits;
      if n > 0 && TakeNs(Rest(), n).Success? {
        NsExactly(Rest(), n, TakeNs(Rest(), n).value.0, TakeNs(Rest(), n).value.1);
      }
      if n <= 1 {
        return Success(0);
      }
      var width := Width(n);
      var k := Pow2(width) - n;
      var v := Read(width - 1);
      if v.Failure? || v.value < k {
        return v;
      }
      var extra := Read(1);
      if extra.Failure? {
        return extra;
      }
      return Success(2 * v.value + extra.value - k);
    }
  }

  lemma TakeEnds(s: seq<bool>, n: nat)
    ensures TakeBits(s, 0) == Success((0, s)) && (n > |s| ==> TakeBits(s, n) == Failure(Eof))
  {
  }

  lemma TakenAt(b: seq<bool>, start: nat, n: nat)
    requires start + n <= |b|
    ensures Value(b[start..start]) == 0 && Value(b[start..start + n]) < Pow2(n)
    ensures TakeBits(b[start..], n) == Success((Value(b[start..start + n]), b[start + n..]))
  {
    assert b[start..][..n] == b[start..start + n];
    BitsOfValue(b[start..start + n]);
  }

  lemma TakeOne(s: seq<bool>)
    ensures s != [] ==> TakeBits(s, 1) == Success((if s[0] then 1 else 0, s[1..]))
  {
    if s != [] {
      assert s[..1] == [s[0]] && [s[0]][..0] == [];
      assert Value([s[0]]) == 2 * Value([]) + (if s[0] then 1 else 0);
    }
  }

  /** The bits within one byte, shifted and masked out, extend the number read so far. */
  lemma ChunkValue(buf: seq<Byte>, start: nat, pos: nat, take: nat)
    requires start <= pos && pos % 8 + take <= 8 && pos < 8 * |buf|
    ensures Value(Bits(buf)[start..pos + take])
            == Value(Bits(buf)[start..pos]) * Pow2(take) + buf[pos / 8] / Pow2(8 - pos % 8 - take) % Pow2(take)
  {
    hide Value, Pow2, Bits, BitsOf;
    var k, off, b := pos / 8, pos % 8, Bits(buf);
    BitsAt(buf, k);
    ValueOfByte(buf[k]);
    ShiftMask(ByteBits(buf[k]), off, take);
    SliceOfSlice(b, 8 * k, 8, off, take);
    ValueConcat(b[start..pos], b[pos..pos + take]);
    assert b[start..pos + take] == b[start..pos] + b[pos..pos + take];
  }

  lemma SliceOfSlice(b: seq<bool>, from: nat, n: nat, off: nat, take: nat)
    requires from + n <= |b| && off + take <= n
    ensures b[from..from + n][off..off + take] == b[from + off..from + off + take]
  {
    var x, y := b[from..from + n][off..off + take], b[from + off..from + off + take];
    assert |x| == |y| && forall i :: 0 <= i < |x| ==> x[i] == y[i];
  }

  lemma ValueOfByte(c: Byte)
    ensures Value(ByteBits(c)) == c
  {
    EightBits();
    ValueOfBits(c, 8);
  }

  // ---- The codes and their readers ----

  /** Reading `n` bits gives the one number below 2^n that they spell. */
  lemma TakeBitsExactly(s: seq<bool>, n: nat, v: nat, rest: seq<bool>)
    ensures TakeBits(s, n) == Success((v, rest)) <==> v < Pow2(n) && s == BitsOf(v, n) + rest
  {
    if n <= |s| {
      BitsOfValue(s[..n]);
      assert s == s[..n] + s[n..];
    }
    if v < Pow2(n) && s == BitsOf(v, n) + rest {
      ValueOfBits(v, n);
      assert s[..n] == BitsOf(v, n) && s[n..] == rest;
    }
  }

  /** The code of `v` among the numbers below `n`: short for the first ones. */
  function NsBits(v: nat, n: nat): seq<bool> {
    if n <= 1 then []
    else
      var w := Width(n);
      var k := Pow2(w) - n;
      if v < k then BitsOf(v, w - 1) else BitsOf(v + k, w)
  }

  /** The reader finds `v` just when the bits start with the code of `v`, a number below `n`. */
  lemma NsExactly(s: seq<bool>, n: nat, v: nat, rest: seq<bool>)
    requires n > 0
    ensures TakeNs(s, n) == Success((v, rest)) <==> v < n && s == NsBits(v, n) + rest
  {
    if n > 1 {
      NsCode(n);
      if TakeNs(s, n) == Success((v, rest)) { NsTaken(s, n, v, rest); }
      if v < n && s == NsBits(v, n) + rest { NsGiven(s, n, v, rest); }
    } else {
      assert [] + rest == rest;
    }
  }

  lemma NsCode(n: nat)
    requires n > 1
    ensures var w := Width(n); var k := Pow2(w) - n; 0 < k <= Pow2(w - 1) && k + n == 2 * Pow2(w - 1)
  {
  }

  lemma NsGiven(s: seq<bool>, n: nat, v: nat, rest: seq<bool>)
    requires 1 < n && v < n && s == NsBits(v, n) + rest
    ensures TakeNs(s, n) == Success((v, rest))
  {
    hide Width, Value, BitsOf, Pow2, TakeBits;
    NsCode(n);
    var w := Width(n);
    var k := Pow2(w) - n;
    if v < k {
      TakeBitsExactly(s, w - 1, v, rest);
    } else {
      LastBit(v + k, w);
      var mid := BitsOf((v + k) % 2, 1) + rest;
      assert s == BitsOf((v + k) / 2, w - 1) + mid;
      assert 2 * ((v + k) / 2) + (v + k) % 2 - k == v && k <= (v + k) / 2 < Pow2(w - 1);
      TakeBitsExactly(s, w - 1, (v + k) / 2, mid);
      TakeBitsExactly(mid, 1, (v + k) % 2, rest);
    }
  }

  lemma LastBit(x: nat, w: nat)
    requires w > 0
    ensures BitsOf(x, w) == BitsOf(x / 2, w - 1) + BitsOf(x % 2, 1) && x % 2 < Pow2(1)
  {
    assert BitsOf(x % 2, 1) == [] + [x % 2 == 1];
  }

  lemma NsTaken(s: seq<bool>, n: nat, v: nat, rest: seq<bool>)
    requires 1 < n && TakeNs(s, n) == Success((v, rest))
    ensures v < n && s == NsBits(v, n) + rest
  {
    hide Width, Value, BitsOf, TakeBits;
    NsCode(n);
    var w := Width(n);
    var k := Pow2(w) - n;
    var (x, mid) := TakeBits(s, w - 1).value;
    TakeBitsExactly(s, w - 1, x, mid);
    if x >= k {
      var (e, after) := TakeBits(mid, 1).value;
      TakeBitsExactly(mid, 1, e, after);
      assert e < 2 by { assert Pow2(1) == 2; }
      LastBit(v + k, w);
      assert (v + k) / 2 == x && (v + k) % 2 == e;
      assert s == BitsOf(x, w - 1) + (BitsOf(e, 1) + rest) == BitsOf(v + k, w) + rest;
    }
  }

  /** No code is the start of another's. */
  lemma NsPrefixFree(n: nat, u: nat, v: nat, a: seq<bool>, b: seq<bool>)
    requires u < n && v < n && NsBits(u, n) + a == NsBits(v, n) + b
    ensures u == v && a == b
  {
    NsExactly(NsBits(u, n) + a, n, u, a);
    NsExactly(NsBits(u, n) + a, n, v, b);
  }
}
