/** The chain-integrity gate: a 256-bit ring standing for the frame numbers forwarded
    since the last reset. */
module ChainIntegrity {
  import Arith
  import opened Basics
  import opened DependencyDescriptors

  const WINDOW: nat := 128
  const RING: nat := 256

  type FrameNumber = f: nat | f < 0x1_0000

  /** Wrapping 16-bit subtraction. */
  function Sub16(a: FrameNumber, d: nat): FrameNumber
    requires d < 0x1_0000
  {
    if a >= d then a - d else a + 0x1_0000 - d
  }

  /** Bit `i` of a byte. */
  predicate Bit(b: bv8, i: nat)
    requires i < 8
  {
    (b >> i) & 1 == 1
  }

  lemma SetBit(b: bv8, i: nat, j: nat)
    requires i < 8 && j < 8
    ensures Bit(b | (1 << i), j) <==> i == j || Bit(b, j)
  {
  }

  lemma ClearBit(b: bv8, i: nat, j: nat)
    requires i < 8 && j < 8
    ensures Bit(b & !(1 << i), j) <==> i != j && Bit(b, j)
  {
  }

  /** The residue 128 on, which is also 128 back. */
  function Across(r: nat): (a: nat)
    requires r < RING
    ensures a < RING
  {
    if r < WINDOW then r + WINDOW else r - WINDOW
  }

  /** Whether the bit of residue `r` is set after the marks: marking f sets the bit of f
      and clears that of f - 128, so the last of the marks that touch it decides. */
  predicate Recorded(marks: seq<FrameNumber>, r: nat)
    requires r < RING
  {
    if marks == [] then false
    else
      var m := marks[|marks| - 1] % RING;
      m == r || (m != Across(r) && Recorded(marks[..|marks| - 1], r))
  }

  /** The tracker with its ring replaced by the marks since the last reset. */
  datatype State = State(chain: nat, marks: seq<FrameNumber>, broken: bool, bootstrapped: bool)

  function Reset(s: State): State {
    State(s.chain, [], false, false)
  }

  function SetChainSpec(s: State, chain: nat): State {
    if chain != s.chain then Reset(s).(chain := chain) else s
  }

  /** The predecessor of the packet in the tracked chain, if it names one. */
  function Predecessor(s: State, d: Descriptor): Option<FrameNumber>
    requires d.Valid()
  {
    if s.chain < |d.chainDiffs| && d.chainDiffs[s.chain] > 0
    then Some(Sub16(d.frameNumber, d.chainDiffs[s.chain])) else None
  }

  function AllowSpec(s: State, desc: Option<Descriptor>): (State, bool)
    requires desc.Some? ==> desc.value.Valid()
  {
    match desc
    case None => (s, true)
    case Some(d) =>
      if d.isKeyframe then (State(s.chain, [d.frameNumber], false, true), true)
      else
        var s := if d.attachesStructure then Reset(s) else s;
        var p := Predecessor(s, d);
        if !s.bootstrapped then (s.(broken := true), false)
        else if s.broken then (s, false)
        else if p.Some? && !Recorded(s.marks, p.value % RING) then (s.(broken := true), false)
        else (s.(marks := s.marks + [d.frameNumber]), true)
  }

  lemma RecordedStep(marks: seq<FrameNumber>, f: FrameNumber, r: nat)
    requires r < RING
    ensures Recorded(marks + [f], r) <==>
            r == f % RING || (r != Across(f % RING) && Recorded(marks, r))
  {
    assert (marks + [f])[..|marks|] == marks;
  }

  function WithBit(b: bv8, i: nat, on: bool): bv8
    requires i < 8
  {
    if on then b | (1 << i) else b & !(1 << i)
  }

  lemma WithBitAt(b: bv8, i: nat, on: bool, j: nat)
    requires i < 8 && j < 8
    ensures Bit(WithBit(b, i, on), j) <==> if i == j then on else Bit(b, j)
  {
    SetBit(b, i, j);
    ClearBit(b, i, j);
  }

  /** Numbers less than 256 apart with equal residues are equal. */
  lemma SameResidue(a: nat, b: nat)
    requires a % RING == b % RING && a < b + RING && b < a + RING
    ensures a == b
  {
  }

  /** Among numbers from b up to 255 on, only b + 128 has the opposite residue. */
  lemma Opposite(a: nat, b: nat)
    requires b <= a < b + RING
    ensures a % RING == Across(b % RING) <==> a == b + WINDOW
  {
  }

  class ChainTracker {
    var chain: nat
    const seen: array<bv8>
    var broken: bool
    var bootstrapped: bool
    /** The numbers marked since the last reset. */
    ghost var marks: seq<FrameNumber>

    predicate Has(r: nat)
      requires r < RING && seen.Length == 32
      reads seen
    {
      Bit(seen[r / 8], r % 8)
    }

    ghost predicate Valid()
      reads this, seen
    {
      seen.Length == 32 && forall r :: 0 <= r < RING ==> (Has(r) <==> Recorded(marks, r))
    }

    ghost function Abstract(): State
      reads this
    {
      State(chain, marks, broken, bootstrapped)
    }

    constructor (c: nat)
      ensures Valid() && Abstract() == State(c, [], false, false) && fresh(seen)
    {
      chain, broken, bootstrapped, marks := c, false, false, [];
      seen := new bv8[32](_ => 0);
    }

    method ResetAll()
      requires seen.Length == 32
      modifies this, seen
      ensures Valid() && Abstract() == Reset(old(Abstract()))
    {
      forall i | 0 <= i < 32 { seen[i] := 0; }
      broken, bootstrapped := false, false;
      marks := [];
    }

    /** Another chain starts over, with nothing marked and a keyframe to wait for; the same one
        changes nothing. */
    method SetChain(c: nat)
      requires Valid()
      modifies this, seen
      ensures Valid() && Abstract() == SetChainSpec(old(Abstract()), c)
    {
      if c != chain {
        chain := c;
        ResetAll();
      }
    }

    /** Clears or sets the bit of one residue and no other. */
    method Write(g: nat, on: bool)
      requires seen.Length == 32 && g < RING
      modifies seen
      ensures forall r :: 0 <= r < RING ==> (Has(r) <==> if r == g then on else old(Has(r)))
    {
      hide Bit, WithBit;
      ghost var b := seen[g / 8];
      seen[g / 8] := WithBit(seen[g / 8], g % 8, on);
      forall r | 0 <= r < RING
        ensures Has(r) <==> if r == g then on else old(Has(r))
      {
        WithBitAt(b, g % 8, on, r % 8);
      }
    }

    method Mark(f: FrameNumber)
      requires Valid()
      modifies this`marks, seen
      ensures Valid() && marks == old(marks) + [f]
    {
      hide Bit, ChainTracker.Has;
      Write(Sub16(f, 128) % 256, false);
      Write(f % 256, true);
      assert Sub16(f, 128) % 256 == Across(f % RING);
      marks := marks + [f];
      forall r | 0 <= r < RING
        ensures Has(r) <==> Recorded(marks, r)
      {
        RecordedStep(old(marks), f, r);
      }
    }

    method WasSeen(f: FrameNumber) returns (b: bool)
      requires Valid()
      ensures b <==> Recorded(marks, f % RING)
    {
      var g := f % 256;
      return Has(g);
    }

    method Allow(desc: Option<Descriptor>) returns (ok: bool)
      requires Valid() && (desc.Some? ==> desc.value.Valid())
      modifies this, seen
      ensures Valid() && (Abstract(), ok) == AllowSpec(old(Abstract()), desc)
    {
      if desc.None? {
        return true;
      }
      var d := desc.value;
      if d.attachesStructure || d.isKeyframe {
        ResetAll();
        if d.isKeyframe {
          bootstrapped := true;
          Mark(d.frameNumber);
          assert marks == [d.frameNumber];
          return true;
        }
      }
      if !bootstrapped {
        broken := true;
        return false;
      }
      if broken {
        return false;
      }
      if chain < |d.chainDiffs| && d.chainDiffs[chain] > 0 {
        var there := WasSeen(Sub16(d.frameNumber, d.chainDiffs[chain]));
        if !there {
          broken := true;
          return false;
        }
      }
      Mark(d.frameNumber);
      return true;
    }
  }

  // ---- The ring against the set of marked frames ----

  /** Frames in their order in the stream, as unbounded numbers, and what is on the wire. */
  function Wire(ns: seq<nat>): (w: seq<FrameNumber>)
    ensures |w| == |ns|
  {
    seq(|ns|, i requires 0 <= i < |ns| => ns[i] % 0x1_0000)
  }

  ghost predicate InOrder(ns: seq<nat>) {
    forall i, j :: 0 <= i <= j < |ns| ==> ns[i] <= ns[j]
  }

  /** The bit of `r` is set by some mark and not cleared by a later one. */
  ghost predicate SetLast(ns: seq<nat>, r: nat)
    requires r < RING
  {
    exists i :: 0 <= i < |ns| && ns[i] % RING == r && forall j :: i < j < |ns| ==> ns[j] % RING != Across(r)
  }

  lemma {:induction false} RecordedIsSetLast(ns: seq<nat>, r: nat)
    requires r < RING
    ensures Recorded(Wire(ns), r) <==> SetLast(ns, r)
  {
    if ns != [] {
      var n := |ns| - 1;
      var q := ns[..n];
      RecordedIsSetLast(q, r);
      assert Wire(ns)[..n] == Wire(q);
      assert Wire(ns)[n] % RING == ns[n] % RING;
      if SetLast(q, r) && ns[n] % RING != Across(r) {
        var i :| 0 <= i < n && q[i] % RING == r && forall j :: i < j < n ==> q[j] % RING != Across(r);
        assert forall j :: i < j < |ns| ==> j == n || ns[j] == q[j];
        assert SetLast(ns, r);
      }
      if SetLast(ns, r) && ns[n] % RING != r {
        var i :| 0 <= i < |ns| && ns[i] % RING == r && forall j :: i < j < |ns| ==> ns[j] % RING != Across(r);
        assert q[i] % RING == r && forall j :: i < j < n ==> q[j] == ns[j];
        assert SetLast(q, r);
      }
    }
  }

  /** On an in-order run a marked predecessor at most 128 back is found, with one
      exception: 128 back, once the frame itself has been marked (a later packet of it). */
  lemma MarkedIsFound(ns: seq<nat>, f: nat, d: nat)
    requires InOrder(ns) && (forall i :: 0 <= i < |ns| ==> ns[i] <= f)
    requires 1 <= d <= WINDOW && d <= f && f - d in ns
    ensures Recorded(Wire(ns), (f - d) % RING) <==> d < WINDOW || f !in ns
  {
    var t := f - d;
    var r := t % RING;
    RecordedIsSetLast(ns, r);
    if d < WINDOW || f !in ns {
      var i :| 0 <= i < |ns| && ns[i] == t;
      forall j | i < j < |ns|
        ensures ns[j] % RING != Across(r)
      {
        Opposite(ns[j], t);
      }
    } else {
      var k :| 0 <= k < |ns| && ns[k] == f;
      Opposite(f, t);
      forall i | 0 <= i < |ns| && ns[i] % RING == r
        ensures i < k
      {
        SameBefore(ns, i, k, t);
      }
      assert !SetLast(ns, r);
    }
  }

  /** A mark with the residue of t, in a run that ends at t + 128, comes before that end. */
  lemma SameBefore(ns: seq<nat>, i: nat, k: nat, t: nat)
    requires InOrder(ns) && i < |ns| && k < |ns| && ns[k] == t + WINDOW && ns[i] <= ns[k]
    requires ns[i] % RING == t % RING
    ensures i < k
  {
    Opposite(ns[k], t);
    assert ns[i] != ns[k];
  }

  /** Every marked frame up to 128 before the last one has the frame 128 on marked too. */
  ghost predicate Swept(ns: seq<nat>) {
    forall i, l :: 0 <= i < |ns| && 0 <= l < |ns| && ns[i] + WINDOW <= ns[l] ==> ns[i] + WINDOW in ns
  }

  /** Where old bits are swept and no gap reaches 128, the ring answers exactly like the
      set of marked frames less those with the frame 128 on marked. */
  lemma RingAnswersLikeSet(ns: seq<nat>, f: nat, d: nat)
    requires InOrder(ns) && ns != [] && Swept(ns) && ns[|ns| - 1] <= f < ns[|ns| - 1] + WINDOW
    requires 1 <= d < RING && d <= f
    ensures Recorded(Wire(ns), (f - d) % RING) <==> f - d in ns && f - d + WINDOW !in ns
  {
    var t := f - d;
    var r := t % RING;
    RecordedIsSetLast(ns, r);
    hide Recorded;
    if t in ns && t + WINDOW !in ns {
      UnsweptIsSet(ns, t);
    }
    hide Swept;
    if SetLast(ns, r) {
      var i :| 0 <= i < |ns| && ns[i] % RING == r && forall j :: i < j < |ns| ==> ns[j] % RING != Across(r);
      NotCleared(ns, i, r);
      SameResidue(ns[i], t);
      assert t + WINDOW !in ns;
    }
  }

  /** A frame without the one 128 on has its bit set. */
  lemma UnsweptIsSet(ns: seq<nat>, t: nat)
    requires InOrder(ns) && Swept(ns) && t in ns && t + WINDOW !in ns
    ensures SetLast(ns, t % RING)
  {
    var i :| 0 <= i < |ns| && ns[i] == t;
    assert t + WINDOW > ns[|ns| - 1];
    forall j | i < j < |ns|
      ensures ns[j] % RING != Across(t % RING)
    {
      Opposite(ns[j], t);
    }
  }

  /** A bit that stays set has not been swept. */
  lemma NotCleared(ns: seq<nat>, i: nat, r: nat)
    requires InOrder(ns) && Swept(ns) && i < |ns| && ns[i] % RING == r
    requires forall j :: i < j < |ns| ==> ns[j] % RING != Across(r)
    ensures ns[i] + WINDOW > ns[|ns| - 1]
  {
    if ns[i] + WINDOW <= ns[|ns| - 1] {
      var k :| 0 <= k < |ns| && ns[k] == ns[i] + WINDOW;
      Opposite(ns[k], ns[i]);
    }
  }

  /** The predecessor computed on the wire has the residue of the real one. */
  lemma WirePredecessor(f: nat, d: nat)
    requires d <= f && d < 0x1_0000
    ensures Sub16(f % 0x1_0000, d) % RING == (f - d) % RING
  {
    var q, r := f / 0x1_0000, f % 0x1_0000;
    if r >= d {
      WholeTurns(r - d, q);
    } else {
      WholeTurns(r + 0x1_0000 - d, q - 1);
    }
  }

  lemma WholeTurns(x: nat, k: nat)
    ensures (x + 0x1_0000 * k) % RING == x % RING
  {
    Arith.RemainderIs(RING, x / RING + RING * k, x % RING, x + 0x1_0000 * k);
  }

  /** Marked frames advance by one fixed step (packets of one frame repeat its number). */
  ghost predicate FixedStep(ns: seq<nat>, step: nat) {
    forall i :: 0 <= i < |ns| - 1 ==> ns[i + 1] == ns[i] || ns[i + 1] == ns[i] + step
  }

  lemma {:induction false} StepReaches(ns: seq<nat>, step: nat, i: nat, l: nat, k: nat)
    requires InOrder(ns) && FixedStep(ns, step) && step > 0 && i < |ns| && l < |ns| && ns[i] + k * step <= ns[l]
    ensures ns[i] + k * step in ns
    decreases |ns| - i
  {
    if k > 0 {
      assert k * step >= step;
      if ns[i + 1] == ns[i] {
        StepReaches(ns, step, i + 1, l, k);
      } else {
        assert k * step == step + (k - 1) * step;
        StepReaches(ns, step, i + 1, l, k - 1);
      }
    }
  }

  /** A fixed step that divides 128 sweeps. */
  lemma FixedStepSweeps(ns: seq<nat>, step: nat)
    requires InOrder(ns) && FixedStep(ns, step) && step > 0 && WINDOW % step == 0
    ensures Swept(ns)
  {
    forall i, l | 0 <= i < |ns| && 0 <= l < |ns| && ns[i] + WINDOW <= ns[l]
      ensures ns[i] + WINDOW in ns
    {
      assert (WINDOW / step) * step == WINDOW;
      StepReaches(ns, step, i, l, WINDOW / step);
    }
  }

  // ---- The gate over a whole run ----

  datatype Event = Packet(desc: Option<Descriptor>) | Retarget(chain: nat) {
    ghost predicate Valid() {
      Packet? && desc.Some? ==> desc.value.Valid()
    }
  }

  function Step(s: State, e: Event): (State, bool)
    requires e.Valid()
  {
    match e
    case Packet(d) => AllowSpec(s, d)
    case Retarget(c) => (SetChainSpec(s, c), true)
  }

  function AfterEvents(s: State, es: seq<Event>): State
    requires forall i :: 0 <= i < |es| ==> es[i].Valid()
  {
    if es == [] then s else Step(AfterEvents(s, es[..|es| - 1]), es[|es| - 1]).0
  }

  /** Whether event `i` of the run is let through. */
  predicate Passes(s: State, es: seq<Event>, i: nat)
    requires (forall i :: 0 <= i < |es| ==> es[i].Valid()) && i < |es|
  {
    Step(AfterEvents(s, es[..i]), es[i]).1
  }

  predicate Described(e: Event) {
    e.Packet? && e.desc.Some?
  }

  predicate Keyframe(e: Event) {
    Described(e) && e.desc.value.isKeyframe
  }

  /** Nothing described can pass: a link is missing, or no keyframe has come. */
  predicate Shut(s: State) {
    s.broken || !s.bootstrapped
  }

  lemma {:induction false} StaysShut(s: State, es: seq<Event>, i: nat, j: nat)
    requires (forall k :: 0 <= k < |es| ==> es[k].Valid()) && i <= j <= |es|
    requires Shut(AfterEvents(s, es[..i])) && forall k :: i <= k < j ==> !Keyframe(es[k])
    ensures Shut(AfterEvents(s, es[..j]))
  {
    if i < j {
      assert es[..j][..j - 1] == es[..j - 1];
      StaysShut(s, es, i, j - 1);
    }
  }

  lemma ShutRefuses(s: State, es: seq<Event>, i: nat, j: nat)
    requires (forall k :: 0 <= k < |es| ==> es[k].Valid()) && i <= j < |es|
    requires Shut(AfterEvents(s, es[..i])) && forall k :: i <= k <= j ==> !Keyframe(es[k])
    ensures Described(es[j]) ==> !Passes(s, es, j)
  {
    StaysShut(s, es, i, j);
  }

  lemma EventsStep(s: State, es: seq<Event>, i: nat)
    requires (forall k :: 0 <= k < |es| ==> es[k].Valid()) && i < |es|
    ensures AfterEvents(s, es[..i + 1]) == Step(AfterEvents(s, es[..i]), es[i]).0
  {
    assert es[..i + 1][..i] == es[..i];
  }

  /** Once a described packet is refused, every later one is, up to the next keyframe. */
  lemma RefusedUntilKeyframe(s: State, es: seq<Event>, i: nat, j: nat)
    requires (forall k :: 0 <= k < |es| ==> es[k].Valid()) && i < j < |es|
    requires Described(es[i]) && !Passes(s, es, i) && Described(es[j])
    requires forall k :: i < k <= j ==> !Keyframe(es[k])
    ensures !Passes(s, es, j)
  {
    EventsStep(s, es, i);
    ShutRefuses(s, es, i + 1, j);
  }

  /** The chain that has been asked for last. */
  function ChainAt(c: nat, es: seq<Event>, i: nat): nat
    requires i <= |es|
  {
    if i == 0 then c else if es[i - 1].Retarget? then es[i - 1].chain else ChainAt(c, es, i - 1)
  }

  lemma {:induction false} TargetedChain(s: State, es: seq<Event>, i: nat)
    requires (forall k :: 0 <= k < |es| ==> es[k].Valid()) && i <= |es|
    ensures AfterEvents(s, es[..i]).chain == ChainAt(s.chain, es, i)
  {
    if i > 0 {
      EventsStep(s, es, i - 1);
      TargetedChain(s, es, i - 1);
    }
  }

  /** A keyframe, or a change to another chain. */
  predicate Restarts(c: nat, es: seq<Event>, i: nat)
    requires i < |es|
  {
    Keyframe(es[i]) || (es[i].Retarget? && es[i].chain != ChainAt(c, es, i))
  }

  /** Packet `j` is refused, and nothing restarts the tracker from there to before event `n`. */
  ghost predicate RefusedSince(s: State, es: seq<Event>, j: nat, n: nat)
    requires (forall k :: 0 <= k < |es| ==> es[k].Valid()) && j < n <= |es|
  {
    !Passes(s, es, j) && forall k :: j < k < n ==> !Restarts(s.chain, es, k)
  }

  /** The tracker calls itself broken just when it has refused a packet since it last restarted. */
  lemma {:induction false} BrokenExactly(s: State, es: seq<Event>, n: nat)
    requires (forall k :: 0 <= k < |es| ==> es[k].Valid()) && n <= |es| && !s.broken
    ensures AfterEvents(s, es[..n]).broken <==> exists j :: 0 <= j < n && RefusedSince(s, es, j, n)
  {
    if n > 0 {
      var m := n - 1;
      BrokenExactly(s, es, m);
      EventsStep(s, es, m);
      TargetedChain(s, es, m);
      assert !Passes(s, es, m) ==> RefusedSince(s, es, m, n);
      hide AfterEvents, ChainAt;
      if j :| 0 <= j < m && RefusedSince(s, es, j, m) && !Restarts(s.chain, es, m) {
        assert RefusedSince(s, es, j, n);
      }
      if j :| 0 <= j < n && RefusedSince(s, es, j, n) {
        assert j < m ==> RefusedSince(s, es, j, m);
      }
    }
  }

  /** After a change to another chain no described packet passes until the next keyframe. */
  lemma RetargetRefuses(s: State, es: seq<Event>, i: nat, j: nat)
    requires (forall k :: 0 <= k < |es| ==> es[k].Valid()) && i < j < |es|
    requires es[i].Retarget? && es[i].chain != ChainAt(s.chain, es, i)
    requires Described(es[j]) && forall k :: i < k <= j ==> !Keyframe(es[k])
    ensures !Passes(s, es, j)
  {
    TargetedChain(s, es, i);
    EventsStep(s, es, i);
    ShutRefuses(s, es, i + 1, j);
  }

  /** Neither does one from a packet on that brings a structure without being a keyframe. */
  lemma StructureRefuses(s: State, es: seq<Event>, i: nat, j: nat)
    requires (forall k :: 0 <= k < |es| ==> es[k].Valid()) && i <= j < |es|
    requires Described(es[i]) && es[i].desc.value.attachesStructure
    requires Described(es[j]) && forall k :: i <= k <= j ==> !Keyframe(es[k])
    ensures !Passes(s, es, j)
  {
    EventsStep(s, es, i);
    if i < j { ShutRefuses(s, es, i + 1, j); }
  }

  /** Nor one before the first keyframe of all. */
  lemma NothingBeforeKeyframe(c: nat, es: seq<Event>, j: nat)
    requires (forall k :: 0 <= k < |es| ==> es[k].Valid()) && j < |es|
    requires Described(es[j]) && forall k :: 0 <= k <= j ==> !Keyframe(es[k])
    ensures !Passes(State(c, [], false, false), es, j)
  {
    assert es[..0] == [];
    ShutRefuses(State(c, [], false, false), es, 0, j);
  }

  /** A keyframe passes, and so does a packet that says nothing of its layer. */
  lemma AlwaysPass(s: State, es: seq<Event>, i: nat)
    requires (forall k :: 0 <= k < |es| ==> es[k].Valid()) && i < |es|
    ensures Keyframe(es[i]) || !Described(es[i]) ==> Passes(s, es, i)
  {
  }

  /** The run without event `i`. */
  function WithoutEvent(es: seq<Event>, i: nat): (r: seq<Event>)
    requires i < |es|
    ensures |r| == |es| - 1
  {
    es[..i] + es[i + 1..]
  }

  lemma WithoutIs(es: seq<Event>, i: nat)
    requires (forall k :: 0 <= k < |es| ==> es[k].Valid()) && i < |es|
    ensures forall k :: 0 <= k < |es| - 1 ==> WithoutEvent(es, i)[k].Valid()
    ensures WithoutEvent(es, i)[..i] == es[..i]
    ensures forall j :: i < j < |es| ==> WithoutEvent(es, i)[j - 1] == es[j]
  {
    hide Event.Valid;
  }

  lemma {:induction false} SameWithout(s: State, es: seq<Event>, i: nat, j: nat)
    requires (forall k :: 0 <= k < |es| ==> es[k].Valid()) && i < j <= |es|
    requires forall k :: 0 <= k < |es| - 1 ==> WithoutEvent(es, i)[k].Valid()
    requires AfterEvents(s, es[..i + 1]) == AfterEvents(s, es[..i])
    ensures AfterEvents(s, es[..j]) == AfterEvents(s, WithoutEvent(es, i)[..j - 1])
  {
    hide Step, Event.Valid, AfterEvents, WithoutEvent;
    var r := WithoutEvent(es, i);
    WithoutIs(es, i);
    if j > i + 1 {
      SameWithout(s, es, i, j - 1);
      EventsStep(s, es, j - 1);
      EventsStep(s, r, j - 2);
    }
  }

  /** A change to the chain that is targeted already, and a packet that says nothing of its layer,
      make no difference to what passes later. */
  lemma NoDifference(s: State, es: seq<Event>, i: nat, j: nat)
    requires (forall k :: 0 <= k < |es| ==> es[k].Valid()) && i < j < |es|
    requires if es[i].Retarget? then es[i].chain == ChainAt(s.chain, es, i) else !Described(es[i])
    ensures forall k :: 0 <= k < |es| - 1 ==> WithoutEvent(es, i)[k].Valid()
    ensures Passes(s, es, j) <==> Passes(s, WithoutEvent(es, i), j - 1)
  {
    TargetedChain(s, es, i);
    EventsStep(s, es, i);
    WithoutIs(es, i);
    SameWithout(s, es, i, j);
  }

  /** What passes after some events is what passes from the state they lead to. */
  lemma {:induction false} AfterMore(s: State, es: seq<Event>, more: seq<Event>, i: nat)
    requires (forall k :: 0 <= k < |es| ==> es[k].Valid()) && (forall k :: 0 <= k < |more| ==> more[k].Valid())
    requires i <= |more|
    ensures forall k :: 0 <= k < |es + more| ==> (es + more)[k].Valid()
    ensures AfterEvents(s, (es + more)[..|es| + i]) == AfterEvents(AfterEvents(s, es), more[..i])
    ensures i < |more| ==> (Passes(s, es + more, |es| + i) <==> Passes(AfterEvents(s, es), more, i))
  {
    hide Step, Event.Valid;
    if i == 0 {
      assert (es + more)[..|es|] == es && more[..0] == [];
    } else {
      AfterMore(s, es, more, i - 1);
      EventsStep(s, es + more, |es| + i - 1);
      EventsStep(AfterEvents(s, es), more, i - 1);
    }
  }

  // ---- What the gate lets through after a keyframe ----

  /** A run from a keyframe up to the next, with the frame numbers in full. */
  ghost predicate FromKeyframe(es: seq<Event>, ns: seq<nat>) {
    && |ns| == |es| > 0 && Keyframe(es[0])
    && (forall i :: 0 <= i < |es| ==> es[i].Packet? && es[i].Valid())
    && (forall i :: 0 <= i < |es| && Described(es[i]) ==> es[i].desc.value.frameNumber == ns[i] % 0x1_0000)
    && (forall i :: 0 < i < |es| && Described(es[i]) ==>
          !es[i].desc.value.isKeyframe && !es[i].desc.value.attachesStructure)
  }

  /** How far back the packet's predecessor in chain `c` is; 0 if it names none. */
  function Diff(c: nat, e: Event): (d: nat)
    requires e.Valid()
    ensures d < 0x1_0000
  {
    if Described(e) && c < |e.desc.value.chainDiffs| then e.desc.value.chainDiffs[c] else 0
  }

  /** The residue of the frame `diff` before `f`. */
  function Before(f: nat, diff: nat): (r: nat)
    requires diff < 0x1_0000
    ensures r < RING
  {
    (f + 0x1_0000 - diff) % RING
  }

  /** The packet names no predecessor, or its bit is set after the frames kept. */
  ghost predicate Linked(kept: seq<nat>, f: nat, diff: nat)
    requires diff < 0x1_0000
  {
    diff == 0 || SetLast(kept, Before(f, diff))
  }

  /** The frames of the first `i` packets that the gate of chain `c` keeps. */
  ghost function Kept(c: nat, es: seq<Event>, ns: seq<nat>, i: nat): (kept: seq<nat>)
    requires i <= |es| == |ns| && forall k :: 0 <= k < |es| ==> es[k].Valid()
    decreases i, 1
  {
    if i == 0 then []
    else Kept(c, es, ns, i - 1) + if Described(es[i - 1]) && Intact(c, es, ns, i) then [ns[i - 1]] else []
  }

  /** No link is missing among the first `i` packets. */
  ghost predicate Intact(c: nat, es: seq<Event>, ns: seq<nat>, i: nat)
    requires i <= |es| == |ns| && forall k :: 0 <= k < |es| ==> es[k].Valid()
    decreases i, 0
  {
    i <= 1 || (Intact(c, es, ns, i - 1) && Linked(Kept(c, es, ns, i - 1), ns[i - 1], Diff(c, es[i - 1])))
  }

  lemma WireMore(ns: seq<nat>, n: nat)
    ensures Wire(ns + [n]) == Wire(ns) + [n % 0x1_0000]
  {
  }

  /** The gate's state says which frames it has kept, and whether a link is missing. */
  lemma {:induction false} GateFollowsChain(s: State, es: seq<Event>, ns: seq<nat>, i: nat)
    requires FromKeyframe(es, ns) && 0 < i <= |es|
    ensures AfterEvents(s, es[..i]) == State(s.chain, Wire(Kept(s.chain, es, ns, i)), !Intact(s.chain, es, ns, i), true)
  {
    hide Linked, Recorded, Wire, Intact, Kept;
    var n := i - 1;
    assert es[..i][..n] == es[..n];
    if n == 0 {
      FirstKept(s.chain, es, ns);
    } else {
      GateFollowsChain(s, es, ns, n);
      GateStep(s, es, ns, n);
      KeptStep(s.chain, es, ns, n, i);
    }
  }

  lemma FirstKept(c: nat, es: seq<Event>, ns: seq<nat>)
    requires |ns| == |es| > 0 && Described(es[0]) && forall k :: 0 <= k < |es| ==> es[k].Valid()
    ensures Wire(Kept(c, es, ns, 1)) == [ns[0] % 0x1_0000] && Intact(c, es, ns, 1)
  {
    assert Kept(c, es, ns, 1) == [ns[0]];
  }

  lemma KeptStep(c: nat, es: seq<Event>, ns: seq<nat>, n: nat, i: nat)
    requires 0 < n < |es| == |ns| && i == n + 1 && forall k :: 0 <= k < |es| ==> es[k].Valid()
    ensures Intact(c, es, ns, i) <==> Intact(c, es, ns, n) && Linked(Kept(c, es, ns, n), ns[n], Diff(c, es[n]))
    ensures Wire(Kept(c, es, ns, i))
            == Wire(Kept(c, es, ns, n)) + if Described(es[n]) && Intact(c, es, ns, i) then [ns[n] % 0x1_0000] else []
  {
    hide Linked;
    WireMore(Kept(c, es, ns, n), ns[n]);
  }

  /** One packet at the gate of a subscriber that has followed so far. */
  lemma GateStep(s: State, es: seq<Event>, ns: seq<nat>, n: nat)
    requires FromKeyframe(es, ns) && 0 < n < |es|
    ensures var c, kept, intact := s.chain, Kept(s.chain, es, ns, n), Intact(s.chain, es, ns, n);
            var on := intact && Linked(kept, ns[n], Diff(c, es[n]));
            Step(State(c, Wire(kept), !intact, true), es[n])
            == (State(c, Wire(kept) + if Described(es[n]) && on then [ns[n] % 0x1_0000] else [], !on, true),
                Described(es[n]) ==> on)
  {
    hide Recorded, Wire, Intact, Kept, SetLast;
    assert Wire(Kept(s.chain, es, ns, n)) + [] == Wire(Kept(s.chain, es, ns, n));
    if Described(es[n]) && Diff(s.chain, es[n]) > 0 {
      LinkDecides(Kept(s.chain, es, ns, n), s.chain, ns[n], es[n].desc.value);
      hide Linked;
    }
  }

  /** The ring finds the predecessor just when its bit was set last. */
  lemma LinkDecides(kept: seq<nat>, c: nat, f: nat, d: Descriptor)
    requires d.Valid() && c < |d.chainDiffs| && d.chainDiffs[c] > 0 && d.frameNumber == f % 0x1_0000
    ensures Recorded(Wire(kept), Sub16(d.frameNumber, d.chainDiffs[c]) % RING) <==> Linked(kept, f, d.chainDiffs[c])
  {
    hide Recorded, SetLast, Wire;
    TurnedResidue(f);
    WirePredecessor(f + 0x1_0000, d.chainDiffs[c]);
    RecordedIsSetLast(kept, Before(f, d.chainDiffs[c]));
  }

  lemma TurnedResidue(f: nat)
    ensures (f + 0x1_0000) % 0x1_0000 == f % 0x1_0000
  {
  }

  /** Packet `m` is among those let through before packet `i`. */
  ghost predicate Let(s: State, es: seq<Event>, i: nat, m: nat)
    requires (forall k :: 0 <= k < |es| ==> es[k].Valid()) && i <= |es|
  {
    m < i && Described(es[m]) && Passes(s, es, m)
  }

  /** Of the frames let through before packet `i`, one has this residue and none after it the opposite one. */
  ghost predicate BitForwarded(s: State, es: seq<Event>, ns: seq<nat>, i: nat, r: nat)
    requires (forall k :: 0 <= k < |es| ==> es[k].Valid()) && i <= |es| == |ns| && r < RING
  {
    exists m :: 0 <= m < i && Let(s, es, i, m) && ns[m] % RING == r
                && forall j :: m < j < i && Let(s, es, i, j) ==> ns[j] % RING != Across(r)
  }

  ghost predicate BitLinked(s: State, es: seq<Event>, ns: seq<nat>, k: nat)
    requires (forall k :: 0 <= k < |es| ==> es[k].Valid()) && k < |es| == |ns|
  {
    var diff := Diff(s.chain, es[k]);
    diff == 0 || BitForwarded(s, es, ns, k, Before(ns[k], diff))
  }

  lemma SetLastStep(q: seq<nat>, n: nat, r: nat)
    requires r < RING
    ensures SetLast(q + [n], r) <==> n % RING == r || (n % RING != Across(r) && SetLast(q, r))
  {
    hide SetLast;
    RecordedIsSetLast(q, r);
    RecordedIsSetLast(q + [n], r);
    WireMore(q, n);
    WholeResidue(n);
    RecordedStep(Wire(q), n % 0x1_0000, r);
    AcrossTwice(r, n % RING);
  }

  lemma WholeResidue(n: nat)
    ensures n % 0x1_0000 % RING == n % RING
  {
    WholeTurns(n % 0x1_0000, n / 0x1_0000);
  }

  lemma AcrossTwice(r: nat, q: nat)
    requires r < RING && q < RING
    ensures r == Across(q) <==> q == Across(r)
  {
  }

  lemma BitForwardedStep(s: State, es: seq<Event>, ns: seq<nat>, n: nat, i: nat, r: nat)
    requires (forall k :: 0 <= k < |es| ==> es[k].Valid()) && n < |es| == |ns| && i == n + 1 && r < RING
    ensures BitForwarded(s, es, ns, i, r)
            <==> if Let(s, es, i, n)
                 then ns[n] % RING == r || (ns[n] % RING != Across(r) && BitForwarded(s, es, ns, n, r))
                 else BitForwarded(s, es, ns, n, r)
  {
    hide Passes;
    assert forall m: nat :: m < n ==> Let(s, es, i, m) == Let(s, es, n, m);
    if BitForwarded(s, es, ns, n, r) && !(Let(s, es, i, n) && ns[n] % RING == Across(r)) {
      var m :| 0 <= m < n && Let(s, es, n, m) && ns[m] % RING == r
               && forall j :: m < j < n && Let(s, es, n, j) ==> ns[j] % RING != Across(r);
      assert Let(s, es, i, m);
    }
    if BitForwarded(s, es, ns, i, r) {
      var m :| 0 <= m < i && Let(s, es, i, m) && ns[m] % RING == r
               && forall j :: m < j < i && Let(s, es, i, j) ==> ns[j] % RING != Across(r);
      if m < n {
        assert Let(s, es, n, m) && forall j :: m < j < n && Let(s, es, n, j) ==> Let(s, es, i, j);
      }
    }
  }

  /** What the gate keeps is what it lets through. */
  lemma {:induction false} KeptBits(s: State, es: seq<Event>, ns: seq<nat>, i: nat, r: nat)
    requires FromKeyframe(es, ns) && i <= |es| && r < RING
    ensures SetLast(Kept(s.chain, es, ns, i), r) <==> BitForwarded(s, es, ns, i, r)
  {
    if i == 0 {
      assert !SetLast([], r);
    } else {
      hide FromKeyframe, Intact, Passes, SetLast, BitForwarded, Let;
      var n := i - 1;
      KeptBits(s, es, ns, n, r);
      BitForwardedStep(s, es, ns, n, i, r);
      LetIfIntact(s, es, ns, n, i);
      SetLastStep(Kept(s.chain, es, ns, n), ns[n], r);
      assert Kept(s.chain, es, ns, n) + [] == Kept(s.chain, es, ns, n);
    }
  }

  lemma LetIfIntact(s: State, es: seq<Event>, ns: seq<nat>, n: nat, i: nat)
    requires FromKeyframe(es, ns) && n < |es| && i == n + 1
    ensures Let(s, es, i, n) <==> Described(es[n]) && Intact(s.chain, es, ns, i)
  {
    hide Linked, Recorded, Wire, Kept;
    if n > 0 {
      GateFollowsChain(s, es, ns, n);
      GateStep(s, es, ns, n);
    }
  }

  lemma {:induction false} IntactIsLinked(s: State, es: seq<Event>, ns: seq<nat>, i: nat)
    requires FromKeyframe(es, ns) && 0 < i <= |es|
    ensures Intact(s.chain, es, ns, i) <==> forall k :: 0 < k < i ==> BitLinked(s, es, ns, k)
  {
    hide Passes, Kept, SetLast, BitForwarded, Diff, Before;
    if i > 1 {
      var n := i - 1;
      IntactIsLinked(s, es, ns, n);
      KeptBits(s, es, ns, n, Before(ns[n], Diff(s.chain, es[n])));
      assert Linked(Kept(s.chain, es, ns, n), ns[n], Diff(s.chain, es[n])) <==> BitLinked(s, es, ns, n);
      hide BitLinked, Linked;
    }
  }

  /** From a keyframe on, a described packet passes exactly when its own link and every one before
      it, back to the keyframe, lead to a residue that some forwarded frame has and no later one the
      opposite of. */
  lemma PassesExactly(s: State, es: seq<Event>, ns: seq<nat>, i: nat)
    requires FromKeyframe(es, ns) && i < |es| && Described(es[i])
    ensures Passes(s, es, i) <==> forall k :: 0 < k <= i ==> BitLinked(s, es, ns, k)
  {
    hide BitLinked, Passes, Intact;
    LetIfIntact(s, es, ns, i, i + 1);
    IntactIsLinked(s, es, ns, i + 1);
  }

  // ---- Where forwarded frames sweep, residues are frames ----

  /** Frames come in order, those kept sweep, and a packet with a predecessor is less than 128 after
      the last of them. */
  ghost predicate Sweeping(c: nat, es: seq<Event>, ns: seq<nat>)
    requires |es| == |ns| && forall k :: 0 <= k < |es| ==> es[k].Valid()
  {
    && InOrder(ns) && Swept(Kept(c, es, ns, |es|))
    && forall k :: 0 < k < |es| && Intact(c, es, ns, k) && Diff(c, es[k]) > 0 ==>
         var kept := Kept(c, es, ns, k);
         Diff(c, es[k]) <= ns[k] && kept != [] && ns[k] < kept[|kept| - 1] + WINDOW
  }

  /** Frame `n` is among the packets let through before packet `i`. */
  ghost predicate Forwarded(s: State, es: seq<Event>, ns: seq<nat>, i: nat, n: nat)
    requires (forall k :: 0 <= k < |es| ==> es[k].Valid()) && i <= |es| == |ns|
  {
    exists m :: 0 <= m < i && Let(s, es, i, m) && ns[m] == n
  }

  /** The packet names no predecessor, or that has been forwarded and has not expired. */
  ghost predicate LinkForwarded(s: State, es: seq<Event>, ns: seq<nat>, k: nat)
    requires (forall k :: 0 <= k < |es| ==> es[k].Valid()) && k < |es| == |ns|
  {
    var diff := Diff(s.chain, es[k]);
    diff == 0 || (diff <= ns[k] && Forwarded(s, es, ns, k, ns[k] - diff)
                  && !Forwarded(s, es, ns, k, ns[k] - diff + WINDOW))
  }

  lemma {:induction false} KeptInOrder(c: nat, es: seq<Event>, ns: seq<nat>, i: nat)
    requires i <= |es| == |ns| && InOrder(ns) && forall k :: 0 <= k < |es| ==> es[k].Valid()
    ensures InOrder(Kept(c, es, ns, i)) && forall n :: n in Kept(c, es, ns, i) ==> i > 0 && n <= ns[i - 1]
  {
    hide Intact;
    if i > 0 {
      KeptInOrder(c, es, ns, i - 1);
      assert i > 1 ==> ns[i - 2] <= ns[i - 1];
      InOrderMore(Kept(c, es, ns, i - 1), ns[i - 1]);
    }
  }

  lemma InOrderMore(ns: seq<nat>, n: nat)
    requires InOrder(ns) && forall m :: m in ns ==> m <= n
    ensures InOrder(ns + [n])
  {
    assert forall i :: 0 <= i < |ns| ==> ns[i] in ns && (ns + [n])[i] == ns[i];
  }

  /** What sweeps as a whole sweeps up to any point. */
  lemma {:induction false} KeptSwept(c: nat, es: seq<Event>, ns: seq<nat>, i: nat)
    requires i <= |es| == |ns| && InOrder(ns) && forall k :: 0 <= k < |es| ==> es[k].Valid()
    requires Swept(Kept(c, es, ns, |es|))
    ensures Swept(Kept(c, es, ns, i))
    decreases |es| - i
  {
    hide InOrder, Swept, Kept, Event.Valid;
    if i < |es| {
      KeptSwept(c, es, ns, i + 1);
      KeptInOrder(c, es, ns, i + 1);
      KeptFront(c, es, ns, i);
      SweptFront(Kept(c, es, ns, i), Kept(c, es, ns, i + 1));
    }
  }

  lemma KeptFront(c: nat, es: seq<Event>, ns: seq<nat>, i: nat)
    requires i < |es| == |ns| && forall k :: 0 <= k < |es| ==> es[k].Valid()
    ensures Kept(c, es, ns, i) <= Kept(c, es, ns, i + 1)
  {
    hide Intact, Event.Valid;
  }

  lemma SweptFront(a: seq<nat>, b: seq<nat>)
    requires a <= b && InOrder(b) && Swept(b)
    ensures Swept(a)
  {
    hide InOrder;
    forall i, l | 0 <= i < |a| && 0 <= l < |a| && a[i] + WINDOW <= a[l]
      ensures a[i] + WINDOW in a
    {
      InFront(a, b, i, l);
    }
  }

  lemma InFront(a: seq<nat>, b: seq<nat>, i: nat, l: nat)
    requires a <= b && InOrder(b) && Swept(b) && i < |a| && l < |a| && a[i] + WINDOW <= a[l]
    ensures a[i] + WINDOW in a
  {
    hide Swept, InOrder;
    assert b[i] == a[i] && b[l] == a[l];
    var m := SweptAt(b, i, l);
    if m < |a| {
      assert a[m] == b[m];
    } else {
      AreInOrder(b, l, m);
    }
  }

  lemma SweptAt(ns: seq<nat>, i: nat, l: nat) returns (m: nat)
    requires Swept(ns) && i < |ns| && l < |ns| && ns[i] + WINDOW <= ns[l]
    ensures m < |ns| && ns[m] == ns[i] + WINDOW
  {
    m :| 0 <= m < |ns| && ns[m] == ns[i] + WINDOW;
  }

  lemma AreInOrder(ns: seq<nat>, i: nat, j: nat)
    requires InOrder(ns) && i <= j < |ns|
    ensures ns[i] <= ns[j]
  {
  }

  lemma {:induction false} KeptIsForwarded(s: State, es: seq<Event>, ns: seq<nat>, i: nat, f: nat)
    requires FromKeyframe(es, ns) && i <= |es|
    ensures f in Kept(s.chain, es, ns, i) <==> Forwarded(s, es, ns, i, f)
  {
    hide Passes, Intact;
    if i > 0 {
      var n := i - 1;
      KeptIsForwarded(s, es, ns, n, f);
      LetIfIntact(s, es, ns, n, i);
      assert forall m: nat :: m < n ==> Let(s, es, i, m) == Let(s, es, n, m);
      if Forwarded(s, es, ns, i, f) {
        var m :| 0 <= m < i && Let(s, es, i, m) && ns[m] == f;
        assert m == n || Let(s, es, n, m);
      }
    }
  }

  /** A residue stands for the frame: its bit is set just when the frame is kept and not expired. */
  lemma LinkedIsKept(c: nat, es: seq<Event>, ns: seq<nat>, n: nat)
    requires FromKeyframe(es, ns) && Sweeping(c, es, ns) && 0 < n < |es|
    requires Intact(c, es, ns, n) && Diff(c, es[n]) > 0
    ensures var kept, diff := Kept(c, es, ns, n), Diff(c, es[n]);
            diff <= ns[n] && (Linked(kept, ns[n], diff) <==> ns[n] - diff in kept && ns[n] - diff + WINDOW !in kept)
  {
    hide InOrder, Swept, Intact, Recorded, Wire, Kept, SetLast;
    var kept, diff := Kept(c, es, ns, n), Diff(c, es[n]);
    KeptInOrder(c, es, ns, n);
    KeptSwept(c, es, ns, n);
    LastKept(c, es, ns, n);
    WholeTurns256(ns[n] - diff);
    RecordedIsSetLast(kept, Before(ns[n], diff));
    RingAnswersLikeSet(kept, ns[n], diff);
  }

  lemma WholeTurns256(x: nat)
    ensures (x + 0x1_0000) % RING == x % RING
  {
    WholeTurns(x, 1);
  }

  lemma LastKept(c: nat, es: seq<Event>, ns: seq<nat>, n: nat)
    requires 0 < n < |es| == |ns| && InOrder(ns) && forall k :: 0 <= k < |es| ==> es[k].Valid()
    ensures var kept := Kept(c, es, ns, n); kept != [] ==> kept[|kept| - 1] <= ns[n]
  {
    hide Intact, Kept;
    KeptInOrder(c, es, ns, n);
    var kept := Kept(c, es, ns, n);
    assert kept != [] ==> kept[|kept| - 1] in kept;
    assert ns[n - 1] <= ns[n];
  }

  lemma {:induction false} IntactIsForwarded(s: State, es: seq<Event>, ns: seq<nat>, i: nat)
    requires FromKeyframe(es, ns) && Sweeping(s.chain, es, ns) && 0 < i <= |es|
    ensures Intact(s.chain, es, ns, i) <==> forall k :: 0 < k < i ==> LinkForwarded(s, es, ns, k)
  {
    hide Sweeping, Passes, Kept, SetLast, Forwarded, Diff, Before;
    if i > 1 {
      var n := i - 1;
      IntactIsForwarded(s, es, ns, n);
      var diff := Diff(s.chain, es[n]);
      if diff > 0 && Intact(s.chain, es, ns, n) {
        LinkedIsKept(s.chain, es, ns, n);
        KeptIsForwarded(s, es, ns, n, ns[n] - diff);
        KeptIsForwarded(s, es, ns, n, ns[n] - diff + WINDOW);
      }
      assert Intact(s.chain, es, ns, n) ==>
               (Linked(Kept(s.chain, es, ns, n), ns[n], diff) <==> LinkForwarded(s, es, ns, n));
      hide LinkForwarded, Linked;
    }
  }

  /** Where forwarded frames sweep, a described packet passes exactly when its own link and every one
      before it, back to the keyframe, lead to a frame that was forwarded and has not expired. */
  lemma PassesIfForwarded(s: State, es: seq<Event>, ns: seq<nat>, i: nat)
    requires FromKeyframe(es, ns) && Sweeping(s.chain, es, ns) && i < |es| && Described(es[i])
    ensures Passes(s, es, i) <==> forall k :: 0 < k <= i ==> LinkForwarded(s, es, ns, k)
  {
    hide Sweeping, LinkForwarded, Passes, Intact;
    LetIfIntact(s, es, ns, i, i + 1);
    IntactIsForwarded(s, es, ns, i + 1);
  }

  /** A predecessor less than 128 back does not expire: it just has to have been forwarded. */
  lemma ShortLink(s: State, es: seq<Event>, ns: seq<nat>, k: nat)
    requires FromKeyframe(es, ns) && InOrder(ns) && k < |es| && 0 < Diff(s.chain, es[k]) < WINDOW
    ensures LinkForwarded(s, es, ns, k)
            <==> Diff(s.chain, es[k]) <= ns[k] && Forwarded(s, es, ns, k, ns[k] - Diff(s.chain, es[k]))
  {
    hide Passes, Diff;
  }

  // ---- Where they do not ----

  /** Frames 0, 12, 24 and so on, each the predecessor of the next, and a last one, 264, whose
      predecessor is 256. */
  function Twelves(): (es: seq<Event>)
    ensures |es| == 23
  {
    seq(23, i requires 0 <= i < 23 =>
      Packet(Some(Descriptor(12 * i, 0, i == 0, false, [if i == 22 then 8 else 12]))))
  }

  function TwelvesNumbers(): (ns: seq<nat>)
    ensures |ns| == 23
  {
    seq(23, i requires 0 <= i < 23 => 12 * i)
  }

  lemma TwelvesRun()
    ensures FromKeyframe(Twelves(), TwelvesNumbers())
  {
  }

  lemma {:induction false} TwelvesPass(s: State, i: nat)
    requires s.chain == 0 && i < 22
    ensures Passes(s, Twelves(), i)
    ensures forall k :: 0 < k <= i ==> BitLinked(s, Twelves(), TwelvesNumbers(), k)
  {
    hide BitLinked, Passes;
    var es, ns := Twelves(), TwelvesNumbers();
    TwelvesRun();
    if i > 0 {
      TwelvesPass(s, i - 1);
      TwelveLinked(s, i);
    }
    hide FromKeyframe;
    PassesExactly(s, es, ns, i);
  }

  lemma TwelveLinked(s: State, i: nat)
    requires s.chain == 0 && 0 < i < 22 && Passes(s, Twelves(), i - 1)
    ensures BitLinked(s, Twelves(), TwelvesNumbers(), i)
  {
    hide Passes;
    assert Let(s, Twelves(), i, i - 1);
    WholeTurns256(12 * (i - 1));
  }

  /** The bit of frame 0 is never cleared, since 128 is no multiple of 12, and has come to stand for
      frame 256: the last packet passes though its predecessor was never forwarded. */
  lemma StaleBitPasses(s: State)
    requires s.chain == 0
    ensures FromKeyframe(Twelves(), TwelvesNumbers()) && Passes(s, Twelves(), 22)
    ensures TwelvesNumbers()[22] - Diff(0, Twelves()[22]) == 256
    ensures !Forwarded(s, Twelves(), TwelvesNumbers(), 22, 256)
  {
    hide Passes;
    var es, ns := Twelves(), TwelvesNumbers();
    TwelvesRun();
    TwelvesPass(s, 21);
    TwelvesPass(s, 0);
    assert Let(s, es, 22, 0) && Before(264, 8) == 0;
    assert forall j :: 0 < j < 22 ==> ns[j] % RING != Across(0);
    assert BitLinked(s, es, ns, 22);
    hide BitLinked, FromKeyframe;
    PassesExactly(s, es, ns, 22);
  }
}
