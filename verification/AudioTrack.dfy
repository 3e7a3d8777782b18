/** Renumbering of a published track around the packets it drops on purpose. */
module AudioTrackModel {

  const SKIPS_KEPT: nat := 64

  /** A packet of the owner: its number, its marker bit, and whether it is the silence
      of a muted microphone, which may be dropped. */
  datatype Packet = Packet(seqNo: nat, marker: bool, silent: bool)

  /** What the slots get of it. */
  datatype Outcome = Dropped | Sent(seqNo: nat, marker: bool)

  datatype Skips = Skips(recent: seq<nat>, older: nat, forwarded: nat, resumed: bool)

  const NO_SKIPS := Skips([], 0, 0, false)

  function CountBelow(s: seq<nat>, n: nat): (c: nat)
    ensures c <= |s|
  {
    if s == [] then 0 else CountBelow(s[..|s| - 1], n) + if s[|s| - 1] < n then 1 else 0
  }

  function Max(a: nat, b: nat): nat {
    if a < b then b else a
  }

  /** The number and marker of a forwarded packet, and the state after it. The flag of
      a drop is cleared only by a packet that was not marked already. */
  function ShiftSpec(sk: Skips, seqNo: nat, marker: bool): (Skips, nat, bool) {
    var dropped := sk.older + CountBelow(sk.recent, seqNo);
    (sk.(forwarded := Max(sk.forwarded, seqNo), resumed := marker && sk.resumed),
     if dropped < seqNo then seqNo - dropped else 0,
     marker || sk.resumed)
  }

  /** The state after a drop, if the packet can be dropped: not behind a forwarded one. */
  function SkipSpec(sk: Skips, seqNo: nat): (Skips, bool) {
    if seqNo < sk.forwarded then (sk, false)
    else
      var r := sk.recent + [seqNo];
      if |r| > SKIPS_KEPT then (sk.(recent := r[1..], older := sk.older + 1, resumed := true), true)
      else (sk.(recent := r, resumed := true), true)
  }

  function PacketSpec(sk: Skips, p: Packet): (Skips, Outcome) {
    if p.silent && SkipSpec(sk, p.seqNo).1 then (SkipSpec(sk, p.seqNo).0, Dropped)
    else
      var (sk', n, m) := ShiftSpec(sk, p.seqNo, p.marker);
      (sk', Sent(n, m))
  }

  class AudioTrack {
    /** What was dropped last, oldest first: 64 numbers at most. */
    var recent: seq<nat>
    /** How many drops came before those. */
    var older: nat
    /** No packet below this number can be dropped any more. */
    var forwarded: nat
    /** Set by a drop; the next packet that its owner has not marked takes it. */
    var resumed: bool

    function State(): Skips
      reads this
    {
      Skips(recent, older, forwarded, resumed)
    }

    constructor ()
      ensures State() == NO_SKIPS
    {
      recent, older, forwarded, resumed := [], 0, 0, false;
    }

    method Shift(seqNo: nat, marker: bool) returns (n: nat, m: bool)
      modifies this
      ensures (State(), n, m) == ShiftSpec(old(State()), seqNo, marker)
    {
      if forwarded < seqNo {
        forwarded := seqNo;
      }
      var below := 0;
      for i := 0 to |recent|
        invariant below == CountBelow(recent[..i], seqNo)
      {
        assert recent[..i + 1][..i] == recent[..i];
        if recent[i] < seqNo {
          below := below + 1;
        }
      }
      assert recent[..|recent|] == recent;
      var dropped := older + below;
      n := if dropped < seqNo then seqNo - dropped else 0;
      if marker {
        m := true;
      } else {
        m := resumed;
        resumed := false;
      }
    }

    method Skip(seqNo: nat) returns (ok: bool)
      modifies this
      ensures (State(), ok) == SkipSpec(old(State()), seqNo)
    {
      if seqNo < forwarded {
        return false;
      }
      recent := recent + [seqNo];
      if |recent| > SKIPS_KEPT {
        recent := recent[1..];
        older := older + 1;
      }
      resumed := true;
      return true;
    }

    method OnPacket(p: Packet) returns (o: Outcome)
      modifies this
      ensures (State(), o) == PacketSpec(old(State()), p)
    {
      if p.silent {
        var ok := Skip(p.seqNo);
        if ok {
          return Dropped;
        }
      }
      var n, m := Shift(p.seqNo, p.marker);
      o := Sent(n, m);
    }
  }

  // ---- Whole runs ----

  /** The state after the packets of `ps`, in their order of arrival. */
  function StateAfter(ps: seq<Packet>): Skips {
    if ps == [] then NO_SKIPS else PacketSpec(StateAfter(ps[..|ps| - 1]), ps[|ps| - 1]).0
  }

  /** What became of packet `i`. */
  function OutcomeOf(ps: seq<Packet>, i: nat): Outcome
    requires i < |ps|
  {
    PacketSpec(StateAfter(ps[..i]), ps[i]).1
  }

  /** All numbers dropped, in order of arrival. */
  function Drops(ps: seq<Packet>): seq<nat> {
    if ps == [] then []
    else
      var n := |ps| - 1;
      Drops(ps[..n]) + if OutcomeOf(ps, n).Dropped? then [ps[n].seqNo] else []
  }

  /** Each sequence number arrives once. */
  ghost predicate ArriveOnce(ps: seq<Packet>) {
    forall i, j :: 0 <= i < j < |ps| ==> ps[i].seqNo != ps[j].seqNo
  }

  /** The drops already forgotten when packet `i` arrives. */
  function Forgotten(ps: seq<Packet>, i: nat): (f: seq<nat>)
    requires i <= |ps|
  {
    var d := Drops(ps[..i]);
    if |d| <= SKIPS_KEPT then [] else d[..|d| - SKIPS_KEPT]
  }

  /** Packet `i` does not trail a drop that has left the window. */
  ghost predicate InWindow(ps: seq<Packet>, i: nat)
    requires i < |ps|
  {
    forall k :: 0 <= k < |Forgotten(ps, i)| ==> Forgotten(ps, i)[k] < ps[i].seqNo
  }

  /** The tracker remembers the last 64 drops and the number of the earlier ones. */
  lemma {:induction false} Remembers(ps: seq<Packet>)
    ensures var sk, d := StateAfter(ps), Drops(ps);
            sk.older + |sk.recent| == |d| && sk.recent == d[sk.older..]
            && |sk.recent| == (if |d| <= SKIPS_KEPT then |d| else SKIPS_KEPT)
  {
    if ps != [] {
      Remembers(ps[..|ps| - 1]);
    }
  }

  lemma OutcomeOfPrefix(ps: seq<Packet>, n: nat, i: nat)
    requires i < n <= |ps|
    ensures OutcomeOf(ps[..n], i) == OutcomeOf(ps, i)
  {
    assert ps[..n][..i] == ps[..i];
  }

  lemma ForwardedStep(ps: seq<Packet>, n: nat)
    requires n < |ps|
    ensures StateAfter(ps[..n + 1]).forwarded
            == if OutcomeOf(ps, n).Sent? then Max(StateAfter(ps[..n]).forwarded, ps[n].seqNo)
               else StateAfter(ps[..n]).forwarded
    ensures OutcomeOf(ps, n).Dropped? <==> ps[n].silent && ps[n].seqNo >= StateAfter(ps[..n]).forwarded
  {
    assert ps[..n + 1][..n] == ps[..n];
  }

  /** No higher number than `f` was forwarded among the first `n` packets, and if `f` is one it was. */
  ghost predicate IsHighest(ps: seq<Packet>, n: nat, f: nat)
    requires n <= |ps|
  {
    && (forall j :: 0 <= j < n && OutcomeOf(ps, j).Sent? ==> ps[j].seqNo <= f)
    && (f > 0 ==> exists j :: 0 <= j < n && OutcomeOf(ps, j).Sent? && ps[j].seqNo == f)
  }

  lemma HighestStep(ps: seq<Packet>, n: nat, f: nat)
    requires n < |ps| && IsHighest(ps, n, f)
    ensures IsHighest(ps, n + 1, if OutcomeOf(ps, n).Sent? then Max(f, ps[n].seqNo) else f)
  {
    hide OutcomeOf;
  }

  /** The tracker knows the highest number forwarded so far. */
  lemma {:induction false} HighestForwarded(ps: seq<Packet>, n: nat)
    requires n <= |ps|
    ensures IsHighest(ps, n, StateAfter(ps[..n]).forwarded)
  {
    hide OutcomeOf;
    if n > 0 {
      hide StateAfter, IsHighest, Max;
      HighestForwarded(ps, n - 1);
      HighestStep(ps, n - 1, StateAfter(ps[..n - 1]).forwarded);
      ForwardedStep(ps, n - 1);
    }
  }

  /** A packet is dropped exactly when it is silence and is not behind any that has been forwarded. */
  lemma DroppedExactly(ps: seq<Packet>, i: nat)
    requires i < |ps|
    ensures OutcomeOf(ps, i).Dropped?
            <==> ps[i].silent && forall j :: 0 <= j < i && OutcomeOf(ps, j).Sent? ==> ps[j].seqNo <= ps[i].seqNo
  {
    hide OutcomeOf, StateAfter;
    HighestForwarded(ps, i);
    ForwardedStep(ps, i);
  }

  lemma {:induction false} CountConcat(s: seq<nat>, t: seq<nat>, n: nat)
    ensures CountBelow(s + t, n) == CountBelow(s, n) + CountBelow(t, n)
  {
    if t == [] {
      assert s + t == s;
    } else {
      var u := t[..|t| - 1];
      assert (s + t)[..|s + t| - 1] == s + u;
      CountConcat(s, u, n);
    }
  }

  lemma {:induction false} CountAll(s: seq<nat>, n: nat)
    ensures CountBelow(s, n) == |s| <==> forall k :: 0 <= k < |s| ==> s[k] < n
  {
    if s != [] {
      var u, y := s[..|s| - 1], s[|s| - 1];
      CountAll(u, n);
      assert s == u + [y];
    }
  }

  lemma {:induction false} CountNone(s: seq<nat>, n: nat)
    requires forall k :: 0 <= k < |s| ==> s[k] >= n
    ensures CountBelow(s, n) == 0
  {
    if s != [] { CountNone(s[..|s| - 1], n); }
  }

  /** `Drops` grows at its end, by numbers above everything forwarded before. */
  lemma {:induction false} LaterDrops(ps: seq<Packet>, i: nat) returns (later: seq<nat>)
    requires ArriveOnce(ps) && i < |ps| && OutcomeOf(ps, i).Sent?
    ensures Drops(ps) == Drops(ps[..i]) + later
    ensures forall k :: 0 <= k < |later| ==> later[k] > ps[i].seqNo
    ensures StateAfter(ps).forwarded >= ps[i].seqNo
  {
    var n := |ps| - 1;
    var q := ps[..n];
    assert ps[..i] == q[..if i < n then i else n];
    if i == n {
      later := [];
    } else {
      assert q[..i] == ps[..i];
      later := LaterDrops(q, i);
      if OutcomeOf(ps, n).Dropped? {
        later := later + [ps[n].seqNo];
      }
    }
  }

  /** The number of all drops of the run below packet `i`. */
  function DroppedBelow(ps: seq<Packet>, n: nat): nat {
    CountBelow(Drops(ps), n)
  }

  lemma {:induction false} DropsWereDropped(ps: seq<Packet>, x: nat)
    requires x in Drops(ps)
    ensures exists j :: 0 <= j < |ps| && ps[j].seqNo == x && OutcomeOf(ps, j).Dropped?
  {
    var n := |ps| - 1;
    if OutcomeOf(ps, n).Dropped? && ps[n].seqNo == x {
    } else {
      DropsWereDropped(ps[..n], x);
      var j :| 0 <= j < n && ps[..n][j].seqNo == x && OutcomeOf(ps[..n], j).Dropped?;
      assert ps[..n][..j] == ps[..j];
    }
  }

  lemma {:induction false} DropsDistinct(ps: seq<Packet>)
    requires ArriveOnce(ps)
    ensures Distinct(Drops(ps))
  {
    if ps != [] {
      var n := |ps| - 1;
      DropsDistinct(ps[..n]);
      if ps[n].seqNo in Drops(ps[..n]) {
        DropsWereDropped(ps[..n], ps[n].seqNo);
      }
    }
  }

  ghost predicate Distinct(s: seq<nat>) {
    forall i, j :: 0 <= i < j < |s| ==> s[i] != s[j]
  }

  /** Distinct numbers in [m, n) are at most n - m, fewer if one of them is missing. */
  lemma {:induction false} CountRange(s: seq<nat>, m: nat, n: nat)
    requires Distinct(s) && m <= n
    ensures CountBelow(s, m) <= CountBelow(s, n) <= CountBelow(s, m) + (n - m)
    ensures m < n && m !in s ==> CountBelow(s, n) <= CountBelow(s, m) + (n - m) - 1
    decreases n - m
  {
    if m < n {
      CountStep(s, n - 1);
      CountRange(s, m, n - 1);
    }
  }

  lemma {:induction false} CountStep(s: seq<nat>, n: nat)
    requires Distinct(s)
    ensures CountBelow(s, n + 1) == CountBelow(s, n) + if n in s then 1 else 0
  {
    if s != [] {
      CountStep(s[..|s| - 1], n);
      assert s == s[..|s| - 1] + [s[|s| - 1]];
    }
  }

  lemma {:induction false} CountZero(s: seq<nat>)
    ensures CountBelow(s, 0) == 0
  {
    CountNone(s, 0);
  }

  /** The number a forwarded packet gets, from all drops so far: those forgotten count as below it. */
  lemma OnlineNumber(ps: seq<Packet>, i: nat)
    requires i < |ps| && OutcomeOf(ps, i).Sent?
    ensures var d, f, p := Drops(ps[..i]), Forgotten(ps, i), ps[i].seqNo;
            && |f| <= |d| && f == d[..|f|]
            && var below := |f| + CountBelow(d[|f|..], p);
               OutcomeOf(ps, i).seqNo == if below < p then p - below else 0
  {
    hide StateAfter, Drops, CountBelow;
    Remembers(ps[..i]);
  }

  /** The online number of a forwarded packet against the whole run: it is the packet's
      number less all drops below it exactly when the packet does not trail a forgotten
      drop (or when every number below the packet was dropped, so that both are 0). */
  lemma ShiftCountsAllDrops(ps: seq<Packet>, i: nat)
    requires ArriveOnce(ps) && i < |ps| && OutcomeOf(ps, i).Sent?
    ensures DroppedBelow(ps, ps[i].seqNo) <= ps[i].seqNo
    ensures OutcomeOf(ps, i).seqNo == ps[i].seqNo - DroppedBelow(ps, ps[i].seqNo)
            <==> InWindow(ps, i) || DroppedBelow(ps, ps[i].seqNo) == ps[i].seqNo
  {
    hide OutcomeOf, StateAfter, CountBelow, Drops, Forgotten;
    var p, d, f := ps[i].seqNo, Drops(ps[..i]), Forgotten(ps, i);
    OnlineNumber(ps, i);
    var later := LaterDrops(ps, i);
    CountConcat(d, later, p);
    CountNone(later, p);
    assert d == f + d[|f|..];
    CountConcat(f, d[|f|..], p);
    CountAll(f, p);
    DropsDistinct(ps);
    CountZero(Drops(ps));
    CountRange(Drops(ps), 0, p);
  }

  /** Silence with the numbers from 2 on. */
  function Silence(n: nat): seq<Packet> {
    seq(n, k requires 0 <= k < n => Packet(k + 2, false, true))
  }

  lemma {:induction false} SilenceDropped(n: nat)
    ensures StateAfter(Silence(n)).forwarded == 0 && Drops(Silence(n)) == seq(n, k requires 0 <= k < n => k + 2)
  {
    if n > 0 {
      assert Silence(n)[..n - 1] == Silence(n - 1);
      SilenceDropped(n - 1);
    }
  }

  /** The other side is reached: a packet behind 65 or more drops gets the number 0, not its own 1. */
  lemma TrailingMisnumbered(n: nat) returns (ps: seq<Packet>)
    requires n > SKIPS_KEPT
    ensures ArriveOnce(ps) && |ps| == n + 1 && OutcomeOf(ps, n).Sent? && !InWindow(ps, n)
    ensures OutcomeOf(ps, n).seqNo == 0 && ps[n].seqNo - DroppedBelow(ps, ps[n].seqNo) == 1
  {
    hide StateAfter, CountBelow, Silence, OutcomeOf, Drops, ArriveOnce;
    ps := Silence(n) + [Packet(1, false, false)];
    SilenceThenOne(n, ps);
    SilenceDropped(n);
    assert Forgotten(ps, n)[0] == 2;
    OnlineNumber(ps, n);
    CountNone(Drops(ps), 1);
  }

  lemma SilenceThenOne(n: nat, ps: seq<Packet>)
    requires ps == Silence(n) + [Packet(1, false, false)]
    ensures ArriveOnce(ps) && |ps| == n + 1 && ps[..n] == Silence(n) && ps[n] == Packet(1, false, false)
    ensures OutcomeOf(ps, n).Sent? && Drops(ps) == Drops(ps[..n])
  {
    hide StateAfter;
    assert Drops(ps) == Drops(ps[..n]) + [];
  }

  ghost predicate AllInWindow(ps: seq<Packet>) {
    forall i :: 0 <= i < |ps| && OutcomeOf(ps, i).Sent? ==> InWindow(ps, i)
  }

  lemma SentIsNotDropped(ps: seq<Packet>, i: nat)
    requires ArriveOnce(ps) && i < |ps| && OutcomeOf(ps, i).Sent?
    ensures ps[i].seqNo !in Drops(ps)
  {
    if ps[i].seqNo in Drops(ps) {
      DropsWereDropped(ps, ps[i].seqNo);
      assert false;
    }
  }

  /** Between two forwarded packets the slot numbers advance by the numbers that were
      not dropped: order is kept and nothing collides. */
  lemma ForwardedNumbers(ps: seq<Packet>, i: nat, j: nat)
    requires ArriveOnce(ps) && AllInWindow(ps) && i < |ps| && j < |ps|
    requires OutcomeOf(ps, i).Sent? && OutcomeOf(ps, j).Sent? && ps[i].seqNo < ps[j].seqNo
    ensures OutcomeOf(ps, i).seqNo < OutcomeOf(ps, j).seqNo
    ensures OutcomeOf(ps, j).seqNo - OutcomeOf(ps, i).seqNo
            == ps[j].seqNo - ps[i].seqNo - (DroppedBelow(ps, ps[j].seqNo) - DroppedBelow(ps, ps[i].seqNo))
  {
    hide OutcomeOf, CountBelow, Drops;
    ShiftCountsAllDrops(ps, i);
    ShiftCountsAllDrops(ps, j);
    DropsDistinct(ps);
    SentIsNotDropped(ps, i);
    CountRange(Drops(ps), ps[i].seqNo, ps[j].seqNo);
  }

  /** Where everything in between was dropped, the slot numbers are consecutive. */
  lemma DropsLeaveNoGap(ps: seq<Packet>, i: nat, j: nat)
    requires ArriveOnce(ps) && AllInWindow(ps) && i < |ps| && j < |ps|
    requires OutcomeOf(ps, i).Sent? && OutcomeOf(ps, j).Sent? && ps[i].seqNo < ps[j].seqNo
    requires forall x :: ps[i].seqNo < x < ps[j].seqNo ==> x in Drops(ps)
    ensures OutcomeOf(ps, j).seqNo == OutcomeOf(ps, i).seqNo + 1
  {
    hide OutcomeOf, CountBelow, Drops;
    ForwardedNumbers(ps, i, j);
    DropsDistinct(ps);
    SentIsNotDropped(ps, i);
    CountStep(Drops(ps), ps[i].seqNo);
    CountFull(Drops(ps), ps[i].seqNo + 1, ps[j].seqNo);
  }

  lemma {:induction false} CountFull(s: seq<nat>, m: nat, n: nat)
    requires Distinct(s) && m <= n && forall x :: m <= x < n ==> x in s
    ensures CountBelow(s, n) == CountBelow(s, m) + (n - m)
    decreases n - m
  {
    if m < n {
      CountStep(s, n - 1);
      CountFull(s, m, n - 1);
    }
  }

  /** Packet `i` follows a drop with only owner-marked packets forwarded in between. */
  ghost predicate AfterDrop(ps: seq<Packet>, i: nat)
    requires i <= |ps|
  {
    exists k :: 0 <= k < i && OutcomeOf(ps, k).Dropped?
                && forall j :: k < j < i && OutcomeOf(ps, j).Sent? ==> ps[j].marker
  }

  lemma AfterDropStep(ps: seq<Packet>, i: nat)
    requires i < |ps|
    ensures AfterDrop(ps, i + 1) <==> OutcomeOf(ps, i).Dropped? || (ps[i].marker && AfterDrop(ps, i))
  {
    hide OutcomeOf;
    if AfterDrop(ps, i + 1) && OutcomeOf(ps, i).Sent? {
      var k :| 0 <= k < i + 1 && OutcomeOf(ps, k).Dropped?
               && forall j :: k < j < i + 1 && OutcomeOf(ps, j).Sent? ==> ps[j].marker;
      assert k < i;
    }
    if OutcomeOf(ps, i).Sent? && ps[i].marker && AfterDrop(ps, i) {
      var k :| 0 <= k < i && OutcomeOf(ps, k).Dropped?
               && forall j :: k < j < i && OutcomeOf(ps, j).Sent? ==> ps[j].marker;
      assert forall j :: k < j < i + 1 && OutcomeOf(ps, j).Sent? ==> ps[j].marker;
    }
  }

  lemma ResumedStep(ps: seq<Packet>, i: nat)
    requires i < |ps|
    ensures StateAfter(ps[..i + 1]).resumed
            <==> OutcomeOf(ps, i).Dropped? || (ps[i].marker && StateAfter(ps[..i]).resumed)
  {
    assert ps[..i + 1][..i] == ps[..i];
  }

  lemma {:induction false} ResumedAfterDrop(ps: seq<Packet>, i: nat)
    requires i <= |ps|
    ensures StateAfter(ps[..i]).resumed <==> AfterDrop(ps, i)
  {
    if i > 0 {
      hide OutcomeOf, StateAfter, AfterDrop;
      ResumedAfterDrop(ps, i - 1);
      AfterDropStep(ps, i - 1);
      ResumedStep(ps, i - 1);
    }
  }

  /** A drop, a packet its owner marked, and one it did not: both come out marked. */
  lemma MarkedTwice() returns (ps: seq<Packet>)
    ensures |ps| == 3 && OutcomeOf(ps, 0).Dropped? && ps[1].marker && !ps[2].marker
    ensures OutcomeOf(ps, 1) == Sent(1, true) && OutcomeOf(ps, 2) == Sent(2, true)
  {
    ps := [Packet(1, false, true), Packet(2, true, false), Packet(3, false, false)];
    var dropped, marked := Skips([1], 0, 0, true), Skips([1], 0, 2, true);
    assert ps[..0] == [] && ps[..1][..0] == [] && ps[..2][..1] == ps[..1];
    assert StateAfter(ps[..1]) == dropped;
    assert CountBelow([1], 2) == 1 && CountBelow([1], 3) == 1 by {
      assert [1][..0] == [];
    }
    assert StateAfter(ps[..2]) == marked;
  }

  /** A forwarded packet is marked exactly when its owner marked it or it starts a talkspurt. */
  lemma MarkedExactly(ps: seq<Packet>, i: nat)
    requires i < |ps| && OutcomeOf(ps, i).Sent?
    ensures OutcomeOf(ps, i).marker <==> ps[i].marker || AfterDrop(ps, i)
  {
    ResumedAfterDrop(ps, i);
  }
}
