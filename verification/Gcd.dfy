/** Euclid's algorithm, what it divides, and the combination that reaches it. */
module Euclid {
  import Arith

  function Gcd(a: nat, b: nat): (g: nat)
    decreases b
  {
    if b == 0 then a else Gcd(b, a % b)
  }

  lemma GcdPositive(a: nat, b: nat)
    requires a > 0 || b > 0
    ensures Gcd(a, b) > 0
    decreases b
  {
    if b > 0 { GcdPositive(b, a % b); }
  }

  /** Integer multiples, with the cofactors given. */
  lemma {:induction false} GcdDivides(a: nat, b: nat) returns (p: nat, q: nat)
    ensures a == p * Gcd(a, b) && b == q * Gcd(a, b)
    decreases b
  {
    if b == 0 {
      p, q := 1, 0;
    } else {
      var g, d := Gcd(b, a % b), a / b;
      var s, t := GcdDivides(b, a % b);
      p, q := d * s + t, s;
      Euclidean(a, b);
      Arith.Assoc(d, s, g);
      Arith.Distrib(g, d * s, t);
    }
  }

  lemma Euclidean(a: nat, b: nat)
    requires b > 0
    ensures a == (a / b) * b + a % b
  {
  }

  lemma {:induction false} Bezout(a: nat, b: nat) returns (x: int, y: int)
    ensures Gcd(a, b) == a * x + b * y
    decreases b
  {
    if b == 0 {
      x, y := 1, 0;
    } else {
      var s, t := Bezout(b, a % b);
      var d := a / b;
      x, y := t, s - d * t;
      Euclidean(a, b);
      Arith.Distrib(t, a, d * b);
      Arith.Assoc(b, d, t);
      Arith.Distrib(b, s, d * t);
    }
  }
}
