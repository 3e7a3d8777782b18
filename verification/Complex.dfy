/** Exact complex arithmetic, powers, and polynomials evaluated by Horner's rule. */
module ComplexNumbers {

  datatype Complex = C(re: real, im: real)

  const ZERO: Complex := C(0.0, 0.0)
  const ONE: Complex := C(1.0, 0.0)
  const MINUS_ONE: Complex := C(-1.0, 0.0)

  function Add(a: Complex, b: Complex): Complex {
    C(a.re + b.re, a.im + b.im)
  }

  function Sub(a: Complex, b: Complex): Complex {
    C(a.re - b.re, a.im - b.im)
  }

  function Mul(a: Complex, b: Complex): Complex {
    C(a.re * b.re - a.im * b.im, a.re * b.im + a.im * b.re)
  }

  function Conj(a: Complex): Complex {
    C(a.re, -a.im)
  }

  function Norm2(a: Complex): real {
    a.re * a.re + a.im * a.im
  }

  lemma MulComm(a: Complex, b: Complex)
    ensures Mul(a, b) == Mul(b, a)
  {
  }

  lemma MulAssoc(a: Complex, b: Complex, c: Complex)
    ensures Mul(Mul(a, b), c) == Mul(a, Mul(b, c))
  {
  }

  lemma MulAdd(a: Complex, b: Complex, c: Complex)
    ensures Mul(a, Add(b, c)) == Add(Mul(a, b), Mul(a, c))
    ensures Mul(a, Sub(b, c)) == Sub(Mul(a, b), Mul(a, c))
  {
    Spread(a.re, b.re, c.re);
    Spread(a.im, b.im, c.im);
    Spread(a.re, b.im, c.im);
    Spread(a.im, b.re, c.re);
  }

  lemma Spread(a: real, b: real, c: real)
    ensures a * (b + c) == a * b + a * c && a * (b - c) == a * b - a * c
  {
  }

  lemma MulUnits(a: Complex)
    ensures Mul(ONE, a) == a == Mul(a, ONE)
    ensures Mul(ZERO, a) == ZERO == Mul(a, ZERO)
    ensures Mul(MINUS_ONE, a) == Sub(ZERO, a) == Mul(a, MINUS_ONE)
  {
  }

  lemma MulSwap(a: Complex, b: Complex, c: Complex, d: Complex)
    ensures Mul(Mul(a, b), Mul(c, d)) == Mul(Mul(a, c), Mul(b, d))
  {
    hide Mul;
    MulAssoc(a, b, Mul(c, d));
    MulAssoc(b, c, d);
    MulComm(b, c);
    MulAssoc(c, b, d);
    MulAssoc(a, c, Mul(b, d));
  }

  lemma ConjMul(a: Complex, b: Complex)
    ensures Conj(Mul(a, b)) == Mul(Conj(a), Conj(b))
  {
  }

  lemma Norm2Mul(a: Complex, b: Complex)
    ensures Norm2(Mul(a, b)) == Norm2(a) * Norm2(b)
  {
    var p, q, r, s := a.re, a.im, b.re, b.im;
    calc {
      Norm2(Mul(a, b));
      (p * r - q * s) * (p * r - q * s) + (p * s + q * r) * (p * s + q * r);
      (p * r) * (p * r) + (q * s) * (q * s) + (p * s) * (p * s) + (q * r) * (q * r);
      (p * p) * (r * r) + (q * q) * (s * s) + (p * p) * (s * s) + (q * q) * (r * r);
      (p * p + q * q) * (r * r + s * s);
    }
  }

  function Pow(z: Complex, n: nat): Complex {
    if n == 0 then ONE else Mul(z, Pow(z, n - 1))
  }

  lemma {:induction false} PowAdd(z: Complex, m: nat, n: nat)
    ensures Pow(z, m + n) == Mul(Pow(z, m), Pow(z, n))
  {
    hide Mul;
    if m == 0 {
      MulUnits(Pow(z, n));
    } else {
      PowAdd(z, m - 1, n);
      MulAssoc(z, Pow(z, m - 1), Pow(z, n));
    }
  }

  lemma {:induction false} PowMul(z: Complex, m: nat, n: nat)
    ensures Pow(Pow(z, m), n) == Pow(z, m * n)
  {
    hide Mul;
    if n > 0 {
      PowMul(z, m, n - 1);
      PowAdd(z, m, m * (n - 1));
      assert m + m * (n - 1) == m * n;
    }
  }

  lemma {:induction false} PowProduct(a: Complex, b: Complex, n: nat)
    ensures Pow(Mul(a, b), n) == Mul(Pow(a, n), Pow(b, n))
  {
    hide Mul;
    MulUnits(ONE);
    if n > 0 {
      PowProduct(a, b, n - 1);
      MulSwap(a, b, Pow(a, n - 1), Pow(b, n - 1));
    }
  }

  lemma {:induction false} PowConj(z: Complex, n: nat)
    ensures Pow(Conj(z), n) == Conj(Pow(z, n))
  {
    hide Mul;
    if n > 0 {
      PowConj(z, n - 1);
      ConjMul(z, Pow(z, n - 1));
    }
  }

  lemma RealProduct(a: real, b: real)
    requires a >= 0.0 && b >= 0.0
    ensures a * b >= 0.0
    ensures a > 1.0 && b >= 1.0 ==> a * b > 1.0
    ensures a < 1.0 && b <= 1.0 ==> a * b < 1.0
  {
    if a < 1.0 && b <= 1.0 {
      assert a * b <= a * 1.0;
    }
  }

  lemma Norm2OfOne()
    ensures Norm2(ONE) == 1.0
  {
  }

  lemma Norm2Nonnegative(a: Complex)
    ensures Norm2(a) >= 0.0
  {
  }

  lemma {:induction false} Norm2Pow(z: Complex, n: nat)
    ensures Norm2(Pow(z, n)) >= 0.0
    ensures n > 0 && Norm2(z) > 1.0 ==> Norm2(Pow(z, n)) > 1.0
    ensures n > 0 && Norm2(z) < 1.0 ==> Norm2(Pow(z, n)) < 1.0
  {
    hide Mul, Norm2;
    Norm2OfOne();
    if n > 0 {
      Norm2Pow(z, n - 1);
      Norm2Mul(z, Pow(z, n - 1));
      var a, b := Norm2(z), Norm2(Pow(z, n - 1));
      Norm2Nonnegative(z);
      assert n == 1 ==> Pow(z, n - 1) == ONE;
      var p := a * b;
      assert Norm2(Pow(z, n)) == p;
      RealProduct(a, b);
    }
  }

  /** The polynomial with coefficients `x`, lowest first, at `z`. */
  function Eval(x: seq<Complex>, z: Complex): Complex {
    if x == [] then ZERO else Add(x[0], Mul(z, Eval(x[1..], z)))
  }

  lemma {:induction false} EvalConcat(x: seq<Complex>, y: seq<Complex>, z: Complex)
    ensures Eval(x + y, z) == Add(Eval(x, z), Mul(Pow(z, |x|), Eval(y, z)))
  {
    hide Mul;
    if x == [] {
      assert x + y == y;
      MulUnits(Eval(y, z));
    } else {
      assert (x + y)[1..] == x[1..] + y;
      EvalConcat(x[1..], y, z);
      var t := Mul(Pow(z, |x| - 1), Eval(y, z));
      MulAdd(z, Eval(x[1..], z), t);
      MulAssoc(z, Pow(z, |x| - 1), Eval(y, z));
    }
  }
}
