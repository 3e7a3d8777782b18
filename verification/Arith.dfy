/** Small facts about products, each kept apart from the proofs that need it. */
module Arith {

  lemma Assoc(a: int, b: int, c: int)
    ensures (a * b) * c == a * (b * c)
  {
  }

  lemma Distrib(a: int, b: int, c: int)
    ensures a * (b - c) == a * b - a * c
    ensures a * (b + c) == a * b + a * c
  {
  }

  lemma Monotone(a: int, b: int, g: int)
    requires a <= b && g >= 0
    ensures a * g <= b * g
  {
  }

  /** Multiples of `g` that differ, differ by `g` at least. */
  lemma NextMultiple(a: int, b: int, g: int)
    requires g > 0 && a * g < b * g
    ensures a < b && (a + 1) * g <= b * g
  {
    if a >= b {
      Monotone(b, a, g);
      assert false;
    }
    Monotone(a + 1, b, g);
  }

  /** The remainder is the only one of its size. */
  lemma RemainderIs(f: int, m: int, r: int, s: int)
    requires 0 <= r < f && s == m * f + r
    ensures s / f == m && s % f == r
  {
    var d := s / f;
    assert s == d * f + s % f;
    if m < d {
      Monotone(m + 1, d, f);
    } else if m > d {
      Monotone(d + 1, m, f);
    }
  }

  lemma DivideProduct(q: int, p: int)
    requires p > 0
    ensures (q * p) / p == q && (q * p) % p == 0
  {
    RemainderIs(p, q, 0, q * p);
  }

  function Pow2(n: nat): (p: nat)
    ensures p > 0
  {
    if n == 0 then 1 else 2 * Pow2(n - 1)
  }

  lemma {:induction false} Pow2Monotone(a: nat, b: nat)
    requires a <= b
    ensures Pow2(a) <= Pow2(b)
  {
    if a < b { Pow2Monotone(a, b - 1); }
  }

  lemma {:induction false} Pow2Add(a: nat, b: nat)
    ensures Pow2(a + b) == Pow2(a) * Pow2(b)
  {
    if a > 0 { Pow2Add(a - 1, b); }
  }
}
