/** How many processed samples wait in the adapter when every quantum needs 128,
    and the smallest constant delay at which they never run out. */
module Schedule {
  import opened Euclid
  import Arith

  const QUANTUM: nat := 128

  /** Quanta of silence before output starts: ceil((f - gcd(f, 128)) / 128). */
  function PrimeQuanta(f: nat): nat
    requires f > 0
  {
    var d := f - Gcd(f, QUANTUM);
    if d <= 0 then 0 else (d + QUANTUM - 1) / QUANTUM
  }

  /** Samples in the frames completed by `s` input samples. */
  function Completed(f: nat, s: nat): nat
    requires f > 0
  {
    s - s % f
  }

  /** Samples waiting after `n` quanta when output starts after `delay` of them; a
      quantum that finds fewer than 128 takes none. */
  function Pending(f: nat, delay: nat, n: nat): int
    requires f > 0
    decreases n, 0
  {
    if n == 0 then 0
    else
      var p := BeforeOutput(f, delay, n - 1);
      if n - 1 < delay || p < QUANTUM then p else p - QUANTUM
  }

  /** Samples waiting at the point of quantum `q` where output is taken. */
  function BeforeOutput(f: nat, delay: nat, q: nat): int
    requires f > 0
    decreases q, 1
  {
    Pending(f, delay, q) + Completed(f, QUANTUM * (q + 1)) - Completed(f, QUANTUM * q)
  }

  /** Quantum `q` must produce output and does not find enough. */
  predicate Underruns(f: nat, delay: nat, q: nat)
    requires f > 0
  {
    q >= delay && BeforeOutput(f, delay, q) < QUANTUM
  }

  function Taken(delay: nat, n: nat): nat {
    if n <= delay then 0 else QUANTUM * (n - delay)
  }

  /** As long as nothing has run out, input not in an unfinished frame is output or waits. */
  lemma {:induction false} PendingBeforeFirstUnderrun(f: nat, delay: nat, n: nat)
    requires f > 0 && forall q: nat :: q < n ==> !Underruns(f, delay, q)
    ensures Pending(f, delay, n) == Completed(f, QUANTUM * n) - Taken(delay, n)
  {
    if n > 0 {
      PendingBeforeFirstUnderrun(f, delay, n - 1);
      assert !Underruns(f, delay, n - 1);
    }
  }

  /** The gcd divides the part of an unfinished frame, so it is at most f - gcd. */
  lemma PartialFrameBound(f: nat, n: nat)
    requires f > 0
    ensures 0 < Gcd(f, QUANTUM) <= f
    ensures (QUANTUM * n) % f <= f - Gcd(f, QUANTUM)
  {
    GcdPositive(f, QUANTUM);
    var g := Gcd(f, QUANTUM);
    var p, q := GcdDivides(f, QUANTUM);
    var s := QUANTUM * n;
    Arith.Assoc(n, q, g);
    assert s == (n * q) * g;
    MultipleRemainder(g, p, n * q, f, s);
  }

  /** Remainders among multiples of `g` are multiples of `g`. */
  lemma MultipleRemainder(g: nat, p: nat, c: nat, f: nat, s: nat)
    requires g > 0 && f > 0 && f == p * g && s == c * g
    ensures g <= f && s % f <= f - g
  {
    var d, r := s / f, s % f;
    assert s == d * f + r;
    Arith.Assoc(d, p, g);
    Arith.Distrib(g, c, d * p);
    var e := c - d * p;
    assert r == e * g;
    Arith.NextMultiple(e, p, g);
    Arith.Monotone(1, p, g);
  }

  /** And from any point on, some quantum ends with exactly that much of a frame. */
  lemma PartialFrameReached(f: nat, from: nat) returns (n: nat)
    requires f > 0
    ensures n > from && (QUANTUM * n) % f == f - Gcd(f, QUANTUM)
  {
    PartialFrameBound(f, 0);
    var y, x := Bezout(f, QUANTUM);
    var k := from + 1 + if x < 0 then -x else x;
    Arith.Monotone(1, f, k);
    n := k * f - x;
    ShiftCombination(f, Gcd(f, QUANTUM), y, x, k);
    Arith.RemainderIs(f, QUANTUM * k + y - 1, f - Gcd(f, QUANTUM), QUANTUM * n);
  }

  lemma ShiftCombination(f: nat, g: nat, y: int, x: int, k: nat)
    requires g == f * y + QUANTUM * x
    ensures QUANTUM * (k * f - x) == (QUANTUM * k + y - 1) * f + (f - g)
  {
    var c := QUANTUM * k;
    Arith.Assoc(QUANTUM, k, f);
    assert c * f == QUANTUM * (k * f);
    Arith.Distrib(f, c, y);
    Arith.Distrib(f, c + y, 1);
    assert (c + y - 1) * f == c * f + f * y - f;
  }

  lemma {:induction false} EnoughDelayNeverUnderruns(f: nat, delay: nat, n: nat)
    requires f > 0 && QUANTUM * delay >= f - Gcd(f, QUANTUM)
    ensures forall q: nat :: q < n ==> !Underruns(f, delay, q)
  {
    if n > 0 {
      EnoughDelayNeverUnderruns(f, delay, n - 1);
      PendingBeforeFirstUnderrun(f, delay, n - 1);
      PartialFrameBound(f, n);
      forall q: nat | q < n
        ensures !Underruns(f, delay, q)
      {
        assert q < n - 1 || q == n - 1;
      }
    }
  }

  lemma ShortDelayUnderruns(f: nat, delay: nat) returns (q: nat)
    requires f > 0 && QUANTUM * delay < f - Gcd(f, QUANTUM)
    ensures Underruns(f, delay, q)
  {
    var n := PartialFrameReached(f, delay);
    if early: nat :| early < n - 1 && Underruns(f, delay, early) {
      q := early;
    } else {
      q := n - 1;
      PendingBeforeFirstUnderrun(f, delay, q);
    }
  }

  /** The delay the adapter computes is the smallest constant one that never underruns. */
  lemma SmallestDelay(f: nat, delay: nat)
    requires f > 0
    ensures (forall q: nat :: !Underruns(f, delay, q)) <==> delay >= PrimeQuanta(f)
  {
    PartialFrameBound(f, 0);
    if delay >= PrimeQuanta(f) {
      forall q: nat
        ensures !Underruns(f, delay, q)
      {
        EnoughDelayNeverUnderruns(f, delay, q + 1);
      }
    } else {
      var q := ShortDelayUnderruns(f, delay);
    }
  }
}
