/** The in-place transform of the denoiser and the tables it reads. */
module FftInPlace {
  import opened Arith
  import opened ComplexNumbers
  import opened Fft

  /** The complex numbers whose real and imaginary parts the two arrays hold. */
  function Points(re: array<real>, im: array<real>): (x: seq<Complex>)
    requires re.Length == im.Length
    reads re, im
    ensures |x| == re.Length
  {
    seq(re.Length, i requires 0 <= i < re.Length reads re, im => C(re[i], im[i]))
  }

  /** Entries lo to hi of the arrays are those of `x`. */
  ghost predicate Window(re: array<real>, im: array<real>, x: seq<Complex>, lo: nat, hi: nat)
    requires hi <= |x| == re.Length == im.Length
    reads re, im
  {
    forall i :: lo <= i < hi ==> C(re[i], im[i]) == x[i]
  }

  ghost predicate Holds(re: array<real>, im: array<real>, x: seq<Complex>)
    reads re, im
  {
    re.Length == im.Length == |x| && Window(re, im, x, 0, |x|)
  }

  lemma HoldsPoints(re: array<real>, im: array<real>, x: seq<Complex>)
    requires re.Length == im.Length
    ensures Holds(re, im, x) <==> Points(re, im) == x
  {
    if Holds(re, im, x) {
      assert forall i :: 0 <= i < |x| ==> Points(re, im)[i] == x[i];
    }
  }

  /** Distance between the table entries that the blocks of `len` entries use. */
  function TableStep(n: nat, len: nat): nat {
    if len == 0 then 0 else n / len
  }

  /** The loop variables of the stage that joins pieces of `len / 2` points. */
  lemma StageSizes(bits: nat, d: nat, n: nat, len: nat)
    requires d <= bits && n == Pow2(bits) && len == 2 * Pow2(bits - d)
    ensures len <= n <==> d > 0
    ensures d > 0 ==> TableStep(n, len) == Pow2(d - 1) && 2 * len == 2 * Pow2(bits - (d - 1))
  {
    if d > 0 {
      assert len == Pow2(bits - d + 1);
      Pow2Monotone(bits - d + 1, bits);
      Pow2Add(d - 1, bits - d + 1);
      DivideProduct(Pow2(d - 1), len);
    }
  }

  /** Butterfly k of a stage reads entry k * step of the table, which has it. */
  lemma TableIndex(bits: nat, d: nat, k: nat)
    requires 0 < d <= bits && k < Pow2(bits - d)
    ensures Exponent(k, d) == k * Pow2(d - 1) < Pow2(bits) / 2
  {
    ExponentValue(k, d);
    Pow2Add(bits - d, d - 1);
    var p := Pow2(d - 1);
    assert k * p < Pow2(bits - d) * p;
  }

  /** Collects bit b of `i` at bit `width - 1 - b`. That bit is still clear in `r`
      (`r` is a multiple of twice its weight), so or-ing it in is adding it. */
  method ReverseBits(i: nat, width: nat) returns (r: nat)
    ensures r == Rev(i, width)
  {
    r := 0;
    ghost var q := 0;
    var rest, b := i, 0;
    while b < width
      invariant b <= width && r + Rev(rest, width - b) == Rev(i, width)
      invariant r == q * Pow2(width - b)
    {
      var bit := Pow2(width - 1 - b);
      assert r == (2 * q) * bit;
      if rest % 2 == 1 {
        r := r + bit;
      }
      q := 2 * q + rest % 2;
      assert r == q * bit;
      rest := rest / 2;
      b := b + 1;
    }
  }

  method BitReversalTable(n: nat, ghost m: nat) returns (rev: array<int>)
    requires n == Pow2(m)
    ensures fresh(rev) && rev.Length == n && forall i :: 0 <= i < n ==> rev[i] == Rev(i, m)
  {
    rev := new int[n];
    var width, size := 0, 1;
    while size < n
      invariant width <= m && size == Pow2(width)
      decreases m - width
    {
      width := width + 1;
      size := 2 * size;
    }
    if width < m {
      Pow2Monotone(width + 1, m);
      assert false;
    }
    for i := 0 to n
      invariant forall j :: 0 <= j < i ==> rev[j] == Rev(j, m)
    {
      var r := ReverseBits(i, width);
      rev[i] := r;
    }
  }

  /** `cosTable` and `sinTable` stand for the library's cosine and sine of 2*pi*k/n; all
      that is used is that cos - i*sin runs through the powers of a root of unity. */
  method TwiddleTables(n: nat, cosTable: nat -> real, sinTable: nat -> real, ghost w: Complex)
    returns (tr: array<real>, ti: array<real>)
    requires forall k: nat :: k < n / 2 ==> C(cosTable(k), -sinTable(k)) == Pow(w, k)
    ensures fresh(tr) && fresh(ti) && tr.Length == ti.Length == n / 2
    ensures forall k :: 0 <= k < n / 2 ==> C(tr[k], ti[k]) == Pow(w, k)
  {
    hide Pow;
    tr, ti := new real[n / 2], new real[n / 2];
    for k := 0 to n / 2
      invariant forall j :: 0 <= j < k ==> C(tr[j], ti[j]) == Pow(w, j)
    {
      tr[k] := cosTable(k);
      ti[k] := -sinTable(k);
    }
  }

  /** The butterfly on entries `a` and `b` with the factor (wr, wi). */
  method ApplyButterfly(re: array<real>, im: array<real>, a: nat, b: nat, wr: real, wi: real)
    requires re.Length == im.Length && re != im && a < b < re.Length
    modifies re, im
    ensures var t := Mul(C(wr, wi), old(C(re[b], im[b])));
            && C(re[a], im[a]) == Add(old(C(re[a], im[a])), t)
            && C(re[b], im[b]) == Sub(old(C(re[a], im[a])), t)
    ensures forall i :: 0 <= i < re.Length && i != a && i != b ==> re[i] == old(re[i]) && im[i] == old(im[i])
  {
    var xr := re[b] * wr - im[b] * wi;
    var xi := re[b] * wi + im[b] * wr;
    re[b] := re[a] - xr;
    im[b] := im[a] - xi;
    re[a] := re[a] + xr;
    im[a] := im[a] + xi;
  }

  /** The middle power of the root and of its conjugate. */
  lemma MiddlePower(w: Complex, m: nat)
    requires m > 0 && Pow(w, Pow2(m) / 2) == MINUS_ONE
    ensures Pow(w, Pow2(m - 1)) == MINUS_ONE && Pow(Conj(w), Pow2(m - 1)) == MINUS_ONE
  {
    hide Pow, Mul;
    PowConj(w, Pow2(m - 1));
  }

  class Denoiser {
    const nFft: nat
    /** Written once, by the constructor. */
    const twRe: seq<real>
    const twIm: seq<real>
    const bitrev: seq<int>
    /** nFft is 2^bits, and the table holds the powers of `root`. */
    ghost const bits: nat
    ghost const root: Complex

    ghost predicate Valid() {
      && nFft == Pow2(bits) && (nFft > 1 ==> Pow(root, nFft / 2) == MINUS_ONE)
      && |twRe| == |twIm| == nFft / 2 && |bitrev| == nFft
      && (forall k :: 0 <= k < nFft / 2 ==> C(twRe[k], twIm[k]) == Pow(root, k))
      && (forall i :: 0 <= i < nFft ==> bitrev[i] == Rev(i, bits))
    }

    constructor (n: nat, cosTable: nat -> real, sinTable: nat -> real, ghost m: nat, ghost w: Complex)
      requires n == Pow2(m) && (n > 1 ==> Pow(w, n / 2) == MINUS_ONE)
      requires forall k: nat :: k < n / 2 ==> C(cosTable(k), -sinTable(k)) == Pow(w, k)
      ensures Valid() && nFft == n && bits == m && root == w
    {
      nFft, bits, root := n, m, w;
      var tr, ti := TwiddleTables(n, cosTable, sinTable, w);
      var rev := BitReversalTable(n, m);
      twRe, twIm, bitrev := tr[..], ti[..], rev[..];
    }

    ghost predicate Fits(re: array<real>, im: array<real>) {
      re.Length == im.Length == nFft && re != im
    }

    /** The entries of `x` in bit-reversed order. */
    ghost function Reordered(x: seq<Complex>): (y: seq<Complex>)
      requires Valid() && |x| == nFft
      ensures |y| == |x|
    {
      seq(nFft, i requires 0 <= i < nFft => RevBound(i, bits); x[bitrev[i]])
    }

    /** The swaps: every entry ends up holding the one at its reversed index. */
    method Permute(re: array<real>, im: array<real>, ghost x: seq<Complex>)
      requires Valid() && Fits(re, im) && Holds(re, im, x)
      modifies re, im
      ensures Holds(re, im, Reordered(x))
    {
      forall k | 0 <= k < nFft
        ensures 0 <= bitrev[k] < nFft && bitrev[bitrev[k]] == k
      {
        RevInvolution(k, bits);
      }
      hide Rev;
      for i := 0 to nFft
        invariant forall k :: 0 <= k < nFft && (k < i || bitrev[k] < i) ==>
                                re[k] == old(re[bitrev[k]]) && im[k] == old(im[bitrev[k]])
        invariant forall k :: 0 <= k < nFft && !(k < i || bitrev[k] < i) ==>
                                re[k] == old(re[k]) && im[k] == old(im[k])
      {
        var j := bitrev[i];
        if j > i {
          var t := re[i];
          re[i] := re[j];
          re[j] := t;
          t := im[i];
          im[i] := im[j];
          im[j] := t;
        }
      }
    }

    /** Butterfly `k` of the block at `s`, with the table entry it uses. */
    method ButterflyStep(re: array<real>, im: array<real>, s: nat, k: nat, half: nat, step: nat, inverse: bool,
                         ghost x: seq<Complex>, ghost w: Complex, ghost d: nat)
      requires Valid() && Fits(re, im)
      requires |x| == nFft && 0 < d <= bits && half == Pow2(bits - d) && step == Pow2(d - 1)
      requires w == (if inverse then Conj(root) else root) && Pow(w, Pow2(bits - 1)) == MINUS_ONE
      requires s + 2 * half <= nFft && BlockStart(s, d, bits) && k < half
      requires C(re[s + k], im[s + k]) == Stage(x, w, d, bits)[s + k]
      requires C(re[s + k + half], im[s + k + half]) == Stage(x, w, d, bits)[s + k + half]
      modifies re, im
      ensures C(re[s + k], im[s + k]) == Stage(x, w, d - 1, bits)[s + k]
      ensures C(re[s + k + half], im[s + k + half]) == Stage(x, w, d - 1, bits)[s + k + half]
      ensures forall i :: 0 <= i < nFft && i != s + k && i != s + k + half ==>
                            re[i] == old(re[i]) && im[i] == old(im[i])
    {
      TableIndex(bits, d, k);
      var t := k * step;
      Twiddle(w, inverse, t);
      Butterfly(x, w, d, bits, s, k);
      hide Mul, Add, Sub, Pow, Stage, Pow2, Rev, BlockStart, Exponent;
      ApplyButterfly(re, im, s + k, s + k + half, twRe[t], if inverse then -twIm[t] else twIm[t]);
    }

    /** The butterflies of the block at `s`; `step` is the distance between the table
        entries they use. */
    method RunBlock(re: array<real>, im: array<real>, s: nat, half: nat, step: nat, inverse: bool,
                    ghost x: seq<Complex>, ghost w: Complex, ghost d: nat)
      requires Valid() && Fits(re, im)
      requires |x| == nFft && 0 < d <= bits && half == Pow2(bits - d) && step == Pow2(d - 1)
      requires w == (if inverse then Conj(root) else root) && Pow(w, Pow2(bits - 1)) == MINUS_ONE
      requires s + 2 * half <= nFft && BlockStart(s, d, bits)
      requires Window(re, im, Stage(x, w, d, bits), s, s + 2 * half)
      modifies re, im
      ensures Window(re, im, Stage(x, w, d - 1, bits), s, s + 2 * half)
      ensures forall i :: 0 <= i < nFft && !(s <= i < s + 2 * half) ==> re[i] == old(re[i]) && im[i] == old(im[i])
    {
      ghost var cur, nxt := Stage(x, w, d, bits), Stage(x, w, d - 1, bits);
      hide Mul, Add, Sub, Pow, Stage, Pow2, Rev, BlockStart, Valid;
      for k := 0 to half
        invariant Window(re, im, nxt, s, s + k) && Window(re, im, nxt, s + half, s + half + k)
        invariant Window(re, im, cur, s + k, s + half) && Window(re, im, cur, s + half + k, s + 2 * half)
        invariant forall i :: 0 <= i < nFft && !(s <= i < s + 2 * half) ==> re[i] == old(re[i]) && im[i] == old(im[i])
      {
        ButterflyStep(re, im, s, k, half, step, inverse, x, w, d);
      }
    }

    /** One pass of butterflies over blocks of `len` entries. */
    method RunStage(re: array<real>, im: array<real>, len: nat, half: nat, step: nat, inverse: bool,
                    ghost x: seq<Complex>, ghost w: Complex, ghost d: nat)
      requires Valid() && Fits(re, im)
      requires |x| == nFft && 0 < d <= bits && len == 2 * half && half == Pow2(bits - d) && step == Pow2(d - 1)
      requires w == if inverse then Conj(root) else root
      requires Holds(re, im, Stage(x, w, d, bits))
      modifies re, im
      ensures Holds(re, im, Stage(x, w, d - 1, bits))
    {
      ghost var cur, nxt := Stage(x, w, d, bits), Stage(x, w, d - 1, bits);
      MiddlePower(root, bits);
      FirstBlock(d, bits);
      hide Mul, Add, Sub, Pow, Stage, Pow2, Rev, BlockStart;
      var s := 0;
      while s < nFft
        invariant 0 <= s <= nFft && (s < nFft ==> BlockStart(s, d, bits))
        invariant Window(re, im, nxt, 0, s) && Window(re, im, cur, s, nFft)
      {
        NextBlock(s, d, bits);
        RunBlock(re, im, s, half, step, inverse, x, w, d);
        s := s + len;
      }
    }

    /** The table entry used by the butterflies, conjugated for the inverse. */
    lemma Twiddle(w: Complex, inverse: bool, t: nat)
      requires Valid() && t < nFft / 2
      requires w == if inverse then Conj(root) else root
      ensures Pow(w, t) == C(twRe[t], if inverse then -twIm[t] else twIm[t])
    {
      hide Pow, Mul;
      PowConj(root, t);
    }

    /** The reordered input is the last stage, where every piece is one point. */
    lemma ReorderedIsStage(x: seq<Complex>, w: Complex)
      requires Valid() && |x| == nFft
      ensures Reordered(x) == Stage(x, w, bits, bits)
    {
      forall i | 0 <= i < nFft
        ensures Reordered(x)[i] == Stage(x, w, bits, bits)[i]
      {
        RevBound(i, bits);
        FullySplit(x, w, bits, i);
      }
    }

    lemma SizeIsPow2()
      requires Valid()
      ensures nFft == Pow2(bits) && Pow2(0) == 1
    {
    }

    /** All passes, from single points up to the whole array. */
    method RunStages(re: array<real>, im: array<real>, inverse: bool, ghost x: seq<Complex>, ghost w: Complex)
      requires Valid() && Fits(re, im) && |x| == nFft
      requires w == if inverse then Conj(root) else root
      requires Holds(re, im, Stage(x, w, bits, bits))
      modifies re, im
      ensures Holds(re, im, Stage(x, w, 0, bits))
    {
      hide *;
      SizeIsPow2();
      ghost var d := bits;
      var len := 2;
      while len <= nFft
        invariant 0 <= d <= bits && len == 2 * Pow2(bits - d)
        invariant Holds(re, im, Stage(x, w, d, bits))
        decreases d
      {
        StageSizes(bits, d, nFft, len);
        RunStage(re, im, len, len / 2, TableStep(nFft, len), inverse, x, w, d);
        len := 2 * len;
        d := d - 1;
      }
      StageSizes(bits, d, nFft, len);
    }

    /** Leaves in the arrays exactly the discrete Fourier transform of what they held. */
    method Transform(re: array<real>, im: array<real>, inverse: bool)
      requires Valid() && Fits(re, im)
      modifies re, im
      ensures Points(re, im) == Dft(old(Points(re, im)), if inverse then Conj(root) else root)
    {
      ghost var x, w := Points(re, im), if inverse then Conj(root) else root;
      hide Mul, Pow, Stage, Rev, Conj, Dft, Pow2, Reordered, Holds, Points;
      HoldsPoints(re, im, x);
      Permute(re, im, x);
      ReorderedIsStage(x, w);
      RunStages(re, im, inverse, x, w);
      StageZero(x, w, bits);
      HoldsPoints(re, im, Dft(x, w));
    }
  }

  /** A root whose middle power is -1 has modulus one, so its conjugate inverts it. */
  lemma ConjugateInverts(w: Complex, n: nat)
    requires n > 1 && Pow(w, n / 2) == MINUS_ONE
    ensures InverseRoots(w, Conj(w), n)
  {
    UnitRoot(w, n / 2);
    MulConj(w);
    hide Pow, Mul, Norm2;
    PowConj(w, n / 2);
  }

  lemma UnitRoot(w: Complex, n: nat)
    requires n > 0 && Pow(w, n) == MINUS_ONE
    ensures Norm2(w) == 1.0
  {
    assert Norm2(MINUS_ONE) == 1.0;
    hide Pow, Norm2;
    Norm2Pow(w, n);
  }

  lemma MulConj(w: Complex)
    ensures Mul(w, Conj(w)) == C(Norm2(w), 0.0)
  {
  }

  /** The inverse transform of the forward transform is `n` times the input. */
  lemma ForwardThenInverse(x: seq<Complex>, w: Complex, bits: nat)
    requires |x| == Pow2(bits) > 1 && Pow(w, |x| / 2) == MINUS_ONE
    ensures Dft(Dft(x, w), Conj(w)) == Scale(|x| as real, x)
  {
    ConjugateInverts(w, |x|);
    RoundTrip(x, w, Conj(w), bits);
  }
}
