/** The denoiser's Fourier transform: bit-reversal swaps, then butterfly stages,
    both in place, against the discrete Fourier sum. */
module Fft {
  import opened Arith
  import opened ComplexNumbers

  /** Term j of the transform at frequency k, summed from `j` on. */
  function DftSum(x: seq<Complex>, w: Complex, k: nat, j: nat): Complex
    requires j <= |x|
    decreases |x| - j
  {
    if j == |x| then ZERO else Add(Mul(x[j], Pow(w, j * k)), DftSum(x, w, k, j + 1))
  }

  /** The transform of `x` with root `w`: entry k is the sum of x[j] * w^(j*k). */
  function Dft(x: seq<Complex>, w: Complex): (y: seq<Complex>)
    ensures |y| == |x|
  {
    seq(|x|, k requires 0 <= k < |x| => Eval(x, Pow(w, k)))
  }

  lemma {:induction false} DftIsSum(x: seq<Complex>, w: Complex, k: nat, j: nat)
    requires j <= |x|
    ensures DftSum(x, w, k, j) == Mul(Pow(w, j * k), Eval(x[j..], Pow(w, k)))
    decreases |x| - j
  {
    hide Mul;
    if j == |x| {
      MulUnits(Pow(w, j * k));
    } else {
      var p, z, rest := Pow(w, j * k), Pow(w, k), Eval(x[j + 1..], Pow(w, k));
      DftIsSum(x, w, k, j + 1);
      assert (j + 1) * k == j * k + k;
      PowAdd(w, j * k, k);
      assert x[j..][1..] == x[j + 1..];
      MulAssoc(p, z, rest);
      MulAdd(p, x[j], Mul(z, rest));
      MulComm(p, x[j]);
    }
  }

  /** The entry of `Dft` in its textbook form. */
  lemma DftEntry(x: seq<Complex>, w: Complex, k: nat)
    requires k < |x|
    ensures Dft(x, w)[k] == DftSum(x, w, k, 0)
  {
    hide Mul;
    DftIsSum(x, w, k, 0);
    MulUnits(Eval(x, Pow(w, k)));
    assert x[0..] == x;
  }

  function Evens(x: seq<Complex>): (y: seq<Complex>)
    ensures |y| == |x| / 2
  {
    seq(|x| / 2, i requires 0 <= i < |x| / 2 => x[2 * i])
  }

  function Odds(x: seq<Complex>): (y: seq<Complex>)
    ensures |y| == |x| / 2
  {
    seq(|x| / 2, i requires 0 <= i < |x| / 2 => x[2 * i + 1])
  }

  lemma {:induction false} EvalEvenOdd(x: seq<Complex>, z: Complex)
    requires |x| % 2 == 0
    ensures Eval(x, z) == Add(Eval(Evens(x), Mul(z, z)), Mul(z, Eval(Odds(x), Mul(z, z))))
    decreases |x|
  {
    hide Mul, Add;
    if |x| == 0 {
      EvalNone(z);
    } else {
      var r := x[2..];
      EvalEvenOdd(r, z);
      HalvesStep(x, r);
      hide Evens, Odds;
      EvalFirst(x[0], Evens(r), Mul(z, z));
      EvalFirst(x[1], Odds(r), Mul(z, z));
      EvalFirst(x[0], [x[1]] + r, z);
      EvalFirst(x[1], r, z);
      hide Eval;
      var e, o := Eval(Evens(r), Mul(z, z)), Eval(Odds(r), Mul(z, z));
      EvalStep(x[0], x[1], e, o, z);
    }
  }

  lemma EvalNone(z: Complex)
    ensures Eval([], z) == Add(Eval([], Mul(z, z)), Mul(z, Eval([], Mul(z, z))))
  {
    MulUnits(z);
  }

  lemma EvalFirst(a: Complex, rest: seq<Complex>, z: Complex)
    ensures Eval([a] + rest, z) == Add(a, Mul(z, Eval(rest, z)))
  {
    assert ([a] + rest)[1..] == rest;
  }

  lemma HalvesStep(x: seq<Complex>, r: seq<Complex>)
    requires |x| % 2 == 0 && |x| > 0 && r == x[2..]
    ensures x == [x[0]] + ([x[1]] + r)
    ensures Evens(x) == [x[0]] + Evens(r) && Odds(x) == [x[1]] + Odds(r)
  {
  }

  lemma EvalStep(a: Complex, b: Complex, e: Complex, o: Complex, z: Complex)
    ensures Add(a, Mul(z, Add(b, Mul(z, Add(e, Mul(z, o))))))
            == Add(Add(a, Mul(Mul(z, z), e)), Mul(z, Add(b, Mul(Mul(z, z), o))))
  {
    hide Mul;
    MulAdd(z, e, Mul(z, o));
    MulAssoc(z, z, o);
    MulAdd(z, b, Add(Mul(z, e), Mul(Mul(z, z), o)));
    MulAdd(z, Mul(z, e), Mul(Mul(z, z), o));
    MulAssoc(z, z, e);
    MulAdd(z, b, Mul(Mul(z, z), o));
  }

  /** One output pair of the transform from the transforms of the two halves. */
  lemma Combine(x: seq<Complex>, w: Complex, k: nat)
    requires |x| % 2 == 0 && k < |x| / 2 && Pow(w, |x| / 2) == MINUS_ONE
    ensures var t := Mul(Pow(w, k), Dft(Odds(x), Mul(w, w))[k]);
            && Dft(x, w)[k] == Add(Dft(Evens(x), Mul(w, w))[k], t)
            && Dft(x, w)[k + |x| / 2] == Sub(Dft(Evens(x), Mul(w, w))[k], t)
  {
    hide Mul;
    var h, z := |x| / 2, Pow(w, k);
    EvalEvenOdd(x, z);
    PowProduct(w, w, k);
    var z' := Pow(w, k + h);
    PowAdd(w, k, h);
    MulUnits(z);
    EvalEvenOdd(x, z');
    NegSquare(z, z', Dft(Odds(x), Mul(w, w))[k]);
  }

  lemma NegSquare(z: Complex, z': Complex, o: Complex)
    requires z' == Sub(ZERO, z)
    ensures Mul(z', z') == Mul(z, z) && Mul(z', o) == Sub(ZERO, Mul(z, o))
  {
  }

  // ---- What the arrays hold between stages ----

  /** `x`, of `2^m` points, split `d` times into evens and odds, and each of the
      pieces transformed. */
  function Stage(x: seq<Complex>, w: Complex, d: nat, m: nat): (y: seq<Complex>)
    requires d <= m && |x| == Pow2(m)
    ensures |y| == |x|
    decreases d
  {
    if d == 0 then Dft(x, w)
    else Stage(Evens(x), Mul(w, w), d - 1, m - 1) + Stage(Odds(x), Mul(w, w), d - 1, m - 1)
  }

  /** `s` begins a block of two pieces when `2^m` points lie in `2^d` pieces. */
  predicate BlockStart(s: nat, d: nat, m: nat)
    requires 0 < d <= m
  {
    if d == 1 then s == 0
    else if s < Pow2(m - 1) then BlockStart(s, d - 1, m - 1)
    else BlockStart(s - Pow2(m - 1), d - 1, m - 1)
  }

  /** Blocks fit, and the next one begins where this one ends. */
  lemma {:induction false} NextBlock(s: nat, d: nat, m: nat)
    requires 0 < d <= m && s < Pow2(m) && BlockStart(s, d, m)
    ensures s + 2 * Pow2(m - d) <= Pow2(m)
    ensures s + 2 * Pow2(m - d) < Pow2(m) ==> BlockStart(s + 2 * Pow2(m - d), d, m)
  {
    if d > 1 {
      var h := Pow2(m - 1);
      NextBlock(if s < h then s else s - h, d - 1, m - 1);
      FirstBlock(d - 1, m - 1);
    }
  }

  lemma {:induction false} FirstBlock(d: nat, m: nat)
    requires 0 < d <= m
    ensures BlockStart(0, d, m)
  {
    if d > 1 { FirstBlock(d - 1, m - 1); }
  }

  /** The root for half as many points, and its powers. */
  lemma HalfRoot(w: Complex, m: nat, k: nat)
    requires m > 1 && Pow(w, Pow2(m - 1)) == MINUS_ONE
    ensures Pow(Mul(w, w), Pow2(m - 2)) == MINUS_ONE
    ensures Pow(Mul(w, w), k) == Pow(w, 2 * k)
  {
    hide Mul;
    MulUnits(w);
    assert Pow(w, 1) == w && Pow(w, 2) == Mul(w, w);
    PowMul(w, 2, Pow2(m - 2));
    PowMul(w, 2, k);
  }

  lemma StageEntry(x: seq<Complex>, w: Complex, d: nat, m: nat, i: nat)
    requires 0 < d <= m && |x| == Pow2(m) && i < |x|
    ensures i < Pow2(m - 1) ==> Stage(x, w, d, m)[i] == Stage(Evens(x), Mul(w, w), d - 1, m - 1)[i]
    ensures i >= Pow2(m - 1) ==>
              Stage(x, w, d, m)[i] == Stage(Odds(x), Mul(w, w), d - 1, m - 1)[i - Pow2(m - 1)]
  {
  }

  /** The exponent `k * 2^(d - 1)` of butterfly `k` between stages `d` and `d - 1`. */
  function Exponent(k: nat, d: nat): nat {
    if d <= 1 then k else 2 * Exponent(k, d - 1)
  }

  lemma {:induction false} ExponentValue(k: nat, d: nat)
    requires d > 0
    ensures Exponent(k, d) == k * Pow2(d - 1)
  {
    if d > 1 { ExponentValue(k, d - 1); }
  }

  /** One butterfly takes its pair of entries from stage `d` to stage `d - 1`. */
  lemma {:induction false} Butterfly(x: seq<Complex>, w: Complex, d: nat, m: nat, s: nat, k: nat)
    requires 0 < d <= m && |x| == Pow2(m) && Pow(w, Pow2(m - 1)) == MINUS_ONE
    requires s < |x| && BlockStart(s, d, m) && k < Pow2(m - d) && s + k + Pow2(m - d) < |x|
    ensures var i, j := s + k, s + k + Pow2(m - d);
            var t := Mul(Pow(w, Exponent(k, d)), Stage(x, w, d, m)[j]);
            && Stage(x, w, d - 1, m)[i] == Add(Stage(x, w, d, m)[i], t)
            && Stage(x, w, d - 1, m)[j] == Sub(Stage(x, w, d, m)[i], t)
    decreases d
  {
    hide Mul, Add, Sub, Pow, Stage, Dft, Evens, Odds, BlockStart;
    var i, j := s + k, s + k + Pow2(m - d);
    StageEntry(x, w, d, m, i);
    StageEntry(x, w, d, m, j);
    if d == 1 {
      FirstBlockIsAll(s, m);
      LastButterfly(x, w, m, k);
    } else {
      var h := Pow2(m - 1);
      HalfRoot(w, m, Exponent(k, d - 1));
      StageEntry(x, w, d - 1, m, i);
      StageEntry(x, w, d - 1, m, j);
      var s' := if s < h then s else s - h;
      HalfBlock(s, d, m, k);
      hide Pow2;
      if s < h {
        Butterfly(Evens(x), Mul(w, w), d - 1, m - 1, s', k);
      } else {
        Butterfly(Odds(x), Mul(w, w), d - 1, m - 1, s', k);
      }
    }
  }

  lemma FirstBlockIsAll(s: nat, m: nat)
    requires m > 0 && s < Pow2(m) && BlockStart(s, 1, m)
    ensures s == 0
  {
  }

  /** The block lies in one half, and is a block of it. */
  lemma HalfBlock(s: nat, d: nat, m: nat, k: nat)
    requires 1 < d <= m && s < Pow2(m) && BlockStart(s, d, m) && k < Pow2(m - d)
    ensures var h := Pow2(m - 1);
            var s' := if s < h then s else s - h;
            s' < h && BlockStart(s', d - 1, m - 1) && s' + k + Pow2(m - d) < h
    ensures m - 1 - (d - 1) == m - d
  {
    var h := Pow2(m - 1);
    NextBlock(if s < h then s else s - h, d - 1, m - 1);
  }

  lemma LastButterfly(x: seq<Complex>, w: Complex, m: nat, k: nat)
    requires m > 0 && |x| == Pow2(m) && Pow(w, Pow2(m - 1)) == MINUS_ONE && k < Pow2(m - 1)
    ensures var e, t := Stage(Evens(x), Mul(w, w), 0, m - 1)[k],
                        Mul(Pow(w, k), Stage(Odds(x), Mul(w, w), 0, m - 1)[k]);
            Stage(x, w, 0, m)[k] == Add(e, t) && Stage(x, w, 0, m)[k + Pow2(m - 1)] == Sub(e, t)
  {
    hide Mul, Add, Sub, Pow, Stage, Dft, Evens, Odds;
    StageZero(x, w, m);
    StageZero(Evens(x), Mul(w, w), m - 1);
    StageZero(Odds(x), Mul(w, w), m - 1);
    Combine(x, w, k);
  }

  lemma StageZero(x: seq<Complex>, w: Complex, m: nat)
    requires |x| == Pow2(m)
    ensures Stage(x, w, 0, m) == Dft(x, w)
  {
  }

  // ---- Bit reversal ----

  /** The low `bits` bits of `i` in reverse order. */
  function Rev(i: nat, bits: nat): nat {
    if bits == 0 then 0 else (if i % 2 == 1 then Pow2(bits - 1) else 0) + Rev(i / 2, bits - 1)
  }

  lemma {:induction false} RevBound(i: nat, bits: nat)
    ensures Rev(i, bits) < Pow2(bits)
  {
    if bits > 0 { RevBound(i / 2, bits - 1); }
  }

  /** Reversal seen from the top bit. */
  lemma {:induction false} RevHigh(i: nat, bits: nat)
    requires bits > 0 && i < Pow2(bits)
    ensures i < Pow2(bits - 1) ==> Rev(i, bits) == 2 * Rev(i, bits - 1)
    ensures i >= Pow2(bits - 1) ==> Rev(i, bits) == 2 * Rev(i - Pow2(bits - 1), bits - 1) + 1
  {
    if bits > 1 {
      var h, g := Pow2(bits - 1), Pow2(bits - 2);
      RevHigh(i / 2, bits - 1);
      var j := if i < h then i else i - h;
      assert j / 2 == (if i < h then i / 2 else i / 2 - g) && j % 2 == i % 2;
    } else {
      assert Rev(i / 2, 0) == 0 && Rev(0, 0) == 0;
    }
  }

  /** Reversing twice gives the number back. */
  lemma {:induction false} RevInvolution(i: nat, bits: nat)
    requires i < Pow2(bits)
    ensures Rev(i, bits) < Pow2(bits) && Rev(Rev(i, bits), bits) == i
  {
    RevBound(i, bits);
    if bits > 0 {
      var h, r := Pow2(bits - 1), Rev(i / 2, bits - 1);
      RevInvolution(i / 2, bits - 1);
      RevHigh(Rev(i, bits), bits);
    }
  }

  /** Split all the way down, the pieces are the single points in bit-reversed order. */
  lemma {:induction false} FullySplit(x: seq<Complex>, w: Complex, bits: nat, i: nat)
    requires |x| == Pow2(bits) && i < |x| && Rev(i, bits) < |x|
    ensures Stage(x, w, bits, bits)[i] == x[Rev(i, bits)]
    decreases bits
  {
    hide Mul, Add, Dft, Pow, Eval, Stage;
    if bits == 0 {
      StageZero(x, w, 0);
      SinglePoint(x, w);
    } else {
      var h := Pow2(bits - 1);
      RevHigh(i, bits);
      StageEntry(x, w, bits, bits, i);
      var j := if i < h then i else i - h;
      RevBound(j, bits - 1);
      FullySplit(if i < h then Evens(x) else Odds(x), Mul(w, w), bits - 1, j);
    }
  }

  lemma SinglePoint(x: seq<Complex>, w: Complex)
    requires |x| == 1
    ensures Dft(x, w) == x
  {
    hide Mul, Pow, Eval;
    EvalSingle(x, Pow(w, 0));
  }

  lemma EvalSingle(x: seq<Complex>, z: Complex)
    requires |x| == 1
    ensures Eval(x, z) == x[0]
  {
    hide Mul, Pow;
    assert x[1..] == [];
    MulUnits(z);
    assert Eval(x[1..], z) == ZERO;
  }

  // ---- The inverse transform ----

  function Times(r: real, a: Complex): Complex {
    C(r * a.re, r * a.im)
  }

  lemma TimesIsMul(r: real, a: Complex)
    ensures Times(r, a) == Mul(C(r, 0.0), a)
  {
  }

  lemma TimesTwice(q: real, r: real, a: Complex)
    ensures Times(q, Times(r, a)) == Times(q * r, a)
  {
  }

  function Scale(r: real, x: seq<Complex>): (y: seq<Complex>)
    ensures |y| == |x|
  {
    seq(|x|, i requires 0 <= i < |x| => Times(r, x[i]))
  }

  /** Entry k multiplied by w^k. */
  function Twist(x: seq<Complex>, w: Complex): (y: seq<Complex>)
    ensures |y| == |x|
  {
    seq(|x|, k requires 0 <= k < |x| => Mul(Pow(w, k), x[k]))
  }

  lemma {:induction false} EvalScale(r: real, x: seq<Complex>, z: Complex)
    ensures Eval(Scale(r, x), z) == Mul(C(r, 0.0), Eval(x, z))
  {
    hide Mul, Times;
    var s := C(r, 0.0);
    if x == [] {
      MulUnits(s);
    } else {
      EvalScale(r, x[1..], z);
      TimesIsMul(r, x[0]);
      assert Scale(r, x) == [Mul(s, x[0])] + Scale(r, x[1..]);
      var e := Eval(x[1..], z);
      MulAdd(s, x[0], Mul(z, e));
      MulAssoc(s, z, e);
      MulComm(s, z);
      MulAssoc(z, s, e);
    }
  }

  /** Twisting the coefficients by `u^p * w^k` moves the point from `z` to `w * z`. */
  lemma {:induction false} EvalTwist(x: seq<Complex>, w: Complex, z: Complex)
    ensures Eval(Twist(x, w), z) == Eval(x, Mul(w, z))
  {
    hide Mul;
    EvalTwistFrom(x, w, z, 0);
    MulUnits(Eval(x, Mul(w, z)));
    assert Twist(x, w) == TwistFrom(x, w, 0);
  }

  function TwistFrom(x: seq<Complex>, w: Complex, p: nat): (y: seq<Complex>)
    ensures |y| == |x|
  {
    seq(|x|, k requires 0 <= k < |x| => Mul(Pow(w, p + k), x[k]))
  }

  lemma {:induction false} EvalTwistFrom(x: seq<Complex>, w: Complex, z: Complex, p: nat)
    ensures Eval(TwistFrom(x, w, p), z) == Mul(Pow(w, p), Eval(x, Mul(w, z)))
  {
    hide Mul;
    var a := Pow(w, p);
    if x == [] {
      MulUnits(a);
    } else {
      EvalTwistFrom(x[1..], w, z, p + 1);
      assert TwistFrom(x, w, p) == [Mul(a, x[0])] + TwistFrom(x[1..], w, p + 1);
      var e := Eval(x[1..], Mul(w, z));
      // z * (w * a) * e == a * ((w * z) * e)
      MulAssoc(z, Mul(w, a), e);
      MulComm(w, a);
      MulAssoc(z, a, w);
      MulComm(z, a);
      MulAssoc(a, z, w);
      MulComm(z, w);
      MulAssoc(a, Mul(w, z), e);
      MulAdd(a, x[0], Mul(Mul(w, z), e));
    }
  }

  /** Half the points: the sum and the difference of the two halves of an input. */
  lemma {:induction false} EvalSumDifference(a: seq<Complex>, b: seq<Complex>, s: seq<Complex>, z: Complex, sign: real)
    requires |a| == |b| == |s| && (sign == 1.0 || sign == -1.0)
    requires forall k :: 0 <= k < |s| ==> s[k] == (if sign == 1.0 then Add(a[k], b[k]) else Sub(a[k], b[k]))
    ensures Eval(s, z) == if sign == 1.0 then Add(Eval(a, z), Eval(b, z)) else Sub(Eval(a, z), Eval(b, z))
  {
    hide Mul;
    if s != [] {
      EvalSumDifference(a[1..], b[1..], s[1..], z, sign);
      MulAdd(z, Eval(a[1..], z), Eval(b[1..], z));
    }
  }

  /** The root of an `n`-point transform and its inverse. */
  ghost predicate InverseRoots(w: Complex, v: Complex, n: nat) {
    Mul(w, v) == ONE && (n > 1 ==> Pow(w, n / 2) == MINUS_ONE && Pow(v, n / 2) == MINUS_ONE)
  }

  /** Entry j of the inverse transform depends on j's parity only through the sum or
      the difference of the two halves. */
  lemma FoldHalves(y: seq<Complex>, v: Complex, j: nat, s: seq<Complex>)
    requires |y| % 2 == 0 && |s| == |y| / 2 && Pow(v, |y| / 2) == MINUS_ONE
    requires forall k :: 0 <= k < |s| ==>
               s[k] == (if j % 2 == 0 then Add(y[k], y[k + |s|]) else Sub(y[k], y[k + |s|]))
    ensures Eval(y, Pow(v, j)) == Eval(s, Pow(v, j))
  {
    hide Mul, Pow;
    var h, z := |s|, Pow(v, j);
    assert y == y[..h] + y[h..];
    EvalConcat(y[..h], y[h..], z);
    SignOfPower(v, j, h);
    MulUnits(Eval(y[h..], z));
    EvalSumDifference(y[..h], y[h..], s, z, if j % 2 == 0 then 1.0 else -1.0);
  }

  lemma SignOfPower(v: Complex, j: nat, h: nat)
    requires Pow(v, h) == MINUS_ONE
    ensures Pow(Pow(v, j), h) == if j % 2 == 0 then ONE else MINUS_ONE
  {
    hide Pow;
    PowMul(v, j, h);
    PowMul(v, h, j);
    assert j * h == h * j;
    assert Mul(MINUS_ONE, MINUS_ONE) == ONE;
    PowSquareRoot(Pow(v, h), j);
  }

  /** The powers of a square root of one alternate. */
  lemma {:induction false} PowSquareRoot(m: Complex, j: nat)
    requires Mul(m, m) == ONE
    ensures Pow(m, j) == if j % 2 == 0 then ONE else m
  {
    hide Mul;
    if j > 0 {
      PowSquareRoot(m, j - 1);
      MulUnits(m);
    }
  }

  /** Forward, then inverse: every point comes back multiplied by their number. */
  lemma {:induction false} RoundTrip(x: seq<Complex>, w: Complex, v: Complex, bits: nat)
    requires |x| == Pow2(bits) && InverseRoots(w, v, |x|)
    ensures Dft(Dft(x, w), v) == Scale(|x| as real, x)
    decreases bits
  {
    hide Mul;
    if bits == 0 {
      SinglePoint(x, w);
      SinglePoint(x, v);
    } else {
      var h, w2, v2 := |x| / 2, Mul(w, w), Mul(v, v);
      MulSwap(w, w, v, v);
      MulUnits(ONE);
      if h > 1 {
        HalfRoot(w, bits, 0);
        HalfRoot(v, bits, 0);
      }
      RoundTrip(Evens(x), w2, v2, bits - 1);
      RoundTrip(Odds(x), w2, v2, bits - 1);
      forall j | 0 <= j < |x|
        ensures Dft(Dft(x, w), v)[j] == Scale(|x| as real, x)[j]
      {
        RoundTripEntry(x, w, v, j);
      }
    }
  }

  /** The sum (even j) or the difference (odd j) of the two halves of a transform. */
  function Folded(x: seq<Complex>, w: Complex, j: nat): (s: seq<Complex>)
    requires |x| % 2 == 0
    ensures |s| == |x| / 2
  {
    if j % 2 == 0 then Scale(2.0, Dft(Evens(x), Mul(w, w)))
    else Scale(2.0, Twist(Dft(Odds(x), Mul(w, w)), w))
  }

  lemma FoldTransform(x: seq<Complex>, w: Complex, v: Complex, j: nat)
    requires |x| % 2 == 0 && |x| > 0 && InverseRoots(w, v, |x|)
    ensures Eval(Dft(x, w), Pow(v, j)) == Eval(Folded(x, w, j), Pow(v, j))
  {
    hide Mul, Pow, Eval, Evens, Odds;
    var y, s := Dft(x, w), Folded(x, w, j);
    forall k | 0 <= k < |s|
      ensures s[k] == if j % 2 == 0 then Add(y[k], y[k + |s|]) else Sub(y[k], y[k + |s|])
    {
      Combine(x, w, k);
    }
    FoldHalves(y, v, j, s);
  }

  /** At the odd powers of the inverse root the twist by `w` cancels one factor. */
  lemma FoldedEval(x: seq<Complex>, w: Complex, v: Complex, j: nat)
    requires |x| % 2 == 0 && Mul(w, v) == ONE
    ensures Eval(Folded(x, w, j), Pow(v, j))
            == Mul(C(2.0, 0.0), Eval(Dft(if j % 2 == 0 then Evens(x) else Odds(x), Mul(w, w)), Pow(Mul(v, v), j / 2)))
  {
    hide Mul;
    var t := j / 2;
    PowProduct(v, v, t);
    PowAdd(v, t, t);
    if j % 2 == 0 {
      EvalScale(2.0, Dft(Evens(x), Mul(w, w)), Pow(v, j));
    } else {
      var o := Dft(Odds(x), Mul(w, w));
      EvalScale(2.0, Twist(o, w), Pow(v, j));
      EvalTwist(o, w, Pow(v, j));
      MulAssoc(w, v, Pow(v, j - 1));
      MulUnits(Pow(v, j - 1));
    }
  }

  lemma RoundTripEntry(x: seq<Complex>, w: Complex, v: Complex, j: nat)
    requires |x| % 2 == 0 && j < |x| && InverseRoots(w, v, |x|)
    requires Dft(Dft(Evens(x), Mul(w, w)), Mul(v, v)) == Scale((|x| / 2) as real, Evens(x))
    requires Dft(Dft(Odds(x), Mul(w, w)), Mul(v, v)) == Scale((|x| / 2) as real, Odds(x))
    ensures Dft(Dft(x, w), v)[j] == Scale(|x| as real, x)[j]
  {
    hide Mul, Times, Eval;
    FoldTransform(x, w, v, j);
    FoldedEval(x, w, v, j);
    var half := if j % 2 == 0 then Evens(x) else Odds(x);
    var e := Dft(Dft(half, Mul(w, w)), Mul(v, v))[j / 2];
    assert half[j / 2] == x[j];
    assert e == Times((|x| / 2) as real, x[j]);
    TimesIsMul(2.0, e);
    TimesTwice(2.0, (|x| / 2) as real, x[j]);
  }
}
