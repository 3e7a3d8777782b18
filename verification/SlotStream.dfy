/** One slot's outgoing stream, spliced from the streams of its successive owners. */
module SlotStreamModel {
  import opened AudioTrackModel

  const TWO32: nat := 0x1_0000_0000
  const SAMPLES_PER_FRAME: nat := 960
  const NANOS_PER_MILLI: nat := 1_000_000

  type Timestamp = t: nat | t < TWO32

  /** Wrapping 32-bit arithmetic. */
  function Add32(a: Timestamp, b: Timestamp): Timestamp {
    if a + b < TWO32 then a + b else a + b - TWO32
  }

  function Sub32(a: Timestamp, b: Timestamp): Timestamp {
    if a >= b then a - b else a + TWO32 - b
  }

  /** What the next owner of the slot has to go on from; `at` is in nanoseconds. */
  datatype Last = Nothing | Written(seqNo: nat, ts: Timestamp, at: nat)

  /** Where an owner's stream was joined to the slot's. */
  datatype Base = Unset | Base(inSeq: nat, inTs: Timestamp, outSeq: nat, outTs: Timestamp)

  datatype Input = Input(seqNo: nat, ts: Timestamp, marker: bool, now: nat)

  datatype Output = Skipped | Forwarded(seqNo: nat, ts: Timestamp, marker: bool)

  /** Samples between the last packet and a new owner's first: the elapsed time (whole
      milliseconds, cut to 32 bits, times 48 with saturation) but one frame at least. */
  function Gap(at: nat, now: nat): (g: nat)
    ensures SAMPLES_PER_FRAME <= g < TWO32
  {
    var millis := (if now > at then (now - at) / NANOS_PER_MILLI else 0) % TWO32;
    var samples := if millis * 48 < TWO32 then millis * 48 else TWO32 - 1;
    if samples < SAMPLES_PER_FRAME then SAMPLES_PER_FRAME else samples
  }

  function JoinSpec(last: Last, p: Input): Base {
    match last
    case Nothing => Base(p.seqNo, p.ts, 1, 0)
    case Written(s, ts, at) => Base(p.seqNo, p.ts, s + 1, Add32(ts, Gap(at, p.now)))
  }

  /** The base, the slot's last packet and the output after an owner's packet. */
  function MapSpec(base: Base, last: Last, p: Input): (Base, Last, Output) {
    var b := if base.Unset? then JoinSpec(last, p) else base;
    if p.seqNo < b.inSeq then (b, last, Skipped)
    else
      var n := b.outSeq + (p.seqNo - b.inSeq);
      var ts := Add32(b.outTs, Sub32(p.ts, b.inTs));
      (b,
       if last.Nothing? || n > last.seqNo then Written(n, ts, p.now) else last,
       Forwarded(n, ts, base.Unset? || p.marker))
  }

  class SlotStream {
    var last: Last

    constructor ()
      ensures last == Nothing
    {
      last := Nothing;
    }
  }

  /** One owner on its way into a slot: `base` is chosen with its first packet and kept. */
  class Sub {
    const out: SlotStream
    var base: Base

    constructor (slot: SlotStream)
      ensures out == slot && base == Unset
    {
      out, base := slot, Unset;
    }

    method Map(p: Input) returns (o: Output)
      modifies this`base, out
      ensures (base, out.last, o) == MapSpec(old(base), old(out.last), p)
    {
      var first := false;
      if base.Unset? {
        first := true;
        match out.last
        case Nothing => base := Base(p.seqNo, p.ts, 1, 0);
        case Written(s, ts, at) => base := Base(p.seqNo, p.ts, s + 1, Add32(ts, Gap(at, p.now)));
      }
      if p.seqNo < base.inSeq {
        return Skipped;
      }
      var n := base.outSeq + (p.seqNo - base.inSeq);
      var ts := Add32(base.outTs, Sub32(p.ts, base.inTs));
      if out.last.Nothing? || n > out.last.seqNo {
        out.last := Written(n, ts, p.now);
      }
      return Forwarded(n, ts, first || p.marker);
    }
  }

  // ---- One owner's packets ----

  /** Base and last packet after an owner's packets, from a fresh place in the slot. */
  function OwnerAfter(last: Last, ps: seq<Input>): (Base, Last) {
    if ps == [] then (Unset, last)
    else
      var (b, l) := OwnerAfter(last, ps[..|ps| - 1]);
      var (b', l', _) := MapSpec(b, l, ps[|ps| - 1]);
      (b', l')
  }

  function OwnerOutput(last: Last, ps: seq<Input>, i: nat): Output
    requires i < |ps|
  {
    var (b, l) := OwnerAfter(last, ps[..i]);
    MapSpec(b, l, ps[i]).2
  }

  function Top(last: Last): nat {
    if last.Nothing? then 0 else last.seqNo
  }

  ghost predicate DistinctInputs(ps: seq<Input>) {
    forall i, j :: 0 <= i < j < |ps| ==> ps[i].seqNo != ps[j].seqNo
  }

  lemma {:induction false} OwnerBase(last: Last, ps: seq<Input>)
    requires ps != []
    ensures OwnerAfter(last, ps).0 == JoinSpec(last, ps[0])
    ensures OwnerAfter(last, ps).1.Written?
  {
    if |ps| > 1 {
      OwnerBase(last, ps[..|ps| - 1]);
    } else {
      assert ps[..0] == [];
    }
  }

  /** The output of packet `i`, relative to the owner's first packet. */
  lemma OwnerNumber(last: Last, ps: seq<Input>, i: nat)
    requires i < |ps|
    ensures OwnerOutput(last, ps, i).Forwarded? <==> ps[i].seqNo >= ps[0].seqNo
    ensures OwnerOutput(last, ps, i).Forwarded? ==>
              OwnerOutput(last, ps, i).seqNo == Top(last) + 1 + (ps[i].seqNo - ps[0].seqNo)
    ensures OwnerOutput(last, ps, i).Forwarded? ==>
              OwnerOutput(last, ps, i).marker == (i == 0 || ps[i].marker)
  {
    if i > 0 {
      OwnerBase(last, ps[..i]);
    }
  }

  /** Timestamps keep the owner's spacing, modulo 2^32. */
  lemma OwnerSpacing(last: Last, ps: seq<Input>, i: nat)
    requires i < |ps| && OwnerOutput(last, ps, i).Forwarded?
    ensures OwnerOutput(last, ps, 0).Forwarded?
    ensures Sub32(OwnerOutput(last, ps, i).ts, OwnerOutput(last, ps, 0).ts) == Sub32(ps[i].ts, ps[0].ts)
  {
    assert ps[..0] == [];
    if i > 0 {
      OwnerBase(last, ps[..i]);
    }
  }

  /** A new owner starts one past everything written before it, marked, and after it in
      time by one frame at least. */
  lemma OwnerStart(last: Last, ps: seq<Input>)
    requires ps != []
    ensures var o := OwnerOutput(last, ps, 0);
            && o.Forwarded? && o.marker && o.seqNo == Top(last) + 1
            && (last.Written? ==> Sub32(o.ts, last.ts) >= SAMPLES_PER_FRAME)
  {
    assert ps[..0] == [];
  }

  /** The slot's last packet is the highest one written. */
  lemma {:induction false} OwnerTop(last: Last, ps: seq<Input>, i: nat)
    requires i < |ps| && OwnerOutput(last, ps, i).Forwarded?
    ensures Top(last) < OwnerOutput(last, ps, i).seqNo <= Top(OwnerAfter(last, ps).1)
  {
    var n := |ps| - 1;
    OwnerNumber(last, ps, i);
    if i < n {
      assert ps[..n][..i] == ps[..i];
      OwnerTop(last, ps[..n], i);
    }
  }

  // ---- Owners one after another ----

  /** The slot's last packet after some owners, each stopping before the next starts. */
  function SlotAfter(owners: seq<seq<Input>>): Last {
    if owners == [] then Nothing
    else OwnerAfter(SlotAfter(owners[..|owners| - 1]), owners[|owners| - 1]).1
  }

  /** Packet `i` of owner `k` as written into the slot. */
  function SlotOutput(owners: seq<seq<Input>>, k: nat, i: nat): Output
    requires k < |owners| && i < |owners[k]|
  {
    OwnerOutput(SlotAfter(owners[..k]), owners[k], i)
  }

  lemma {:induction false} SlotGrows(owners: seq<seq<Input>>, k: nat)
    requires k <= |owners|
    ensures Top(SlotAfter(owners[..k])) <= Top(SlotAfter(owners))
  {
    var n := |owners| - 1;
    if k <= n {
      SlotGrows(owners[..n], k);
      assert owners[..n][..k] == owners[..k];
      OwnerKeepsTop(SlotAfter(owners[..n]), owners[n]);
    } else {
      assert owners[..k] == owners;
    }
  }

  lemma {:induction false} OwnerKeepsTop(last: Last, ps: seq<Input>)
    ensures Top(last) <= Top(OwnerAfter(last, ps).1)
  {
    if ps != [] {
      OwnerKeepsTop(last, ps[..|ps| - 1]);
    }
  }

  /** Later owners' numbers are higher. */
  lemma LaterHigher(owners: seq<seq<Input>>, k: nat, i: nat, m: nat, j: nat)
    requires k < m < |owners| && i < |owners[k]| && j < |owners[m]|
    requires SlotOutput(owners, k, i).Forwarded? && SlotOutput(owners, m, j).Forwarded?
    ensures SlotOutput(owners, k, i).seqNo < SlotOutput(owners, m, j).seqNo
  {
    OwnerTop(SlotAfter(owners[..k]), owners[k], i);
    assert owners[..k + 1][..k] == owners[..k];
    assert SlotAfter(owners[..k + 1]) == OwnerAfter(SlotAfter(owners[..k]), owners[k]).1;
    SlotGrows(owners[..m], k + 1);
    assert owners[..m][..k + 1] == owners[..k + 1];
    OwnerTop(SlotAfter(owners[..m]), owners[m], j);
  }

  /** Sequence numbers in a slot never repeat, within an owner or across owners, and
      later owners' are higher. */
  lemma SlotNumbersDistinct(owners: seq<seq<Input>>, k: nat, i: nat, m: nat, j: nat)
    requires forall x :: 0 <= x < |owners| ==> DistinctInputs(owners[x])
    requires k <= m < |owners| && i < |owners[k]| && j < |owners[m]|
    requires k == m ==> i != j
    requires SlotOutput(owners, k, i).Forwarded? && SlotOutput(owners, m, j).Forwarded?
    ensures SlotOutput(owners, k, i).seqNo != SlotOutput(owners, m, j).seqNo
    ensures k < m ==> SlotOutput(owners, k, i).seqNo < SlotOutput(owners, m, j).seqNo
  {
    if k == m {
      OwnerNumber(SlotAfter(owners[..k]), owners[k], i);
      OwnerNumber(SlotAfter(owners[..k]), owners[k], j);
      assert owners[k][i].seqNo != owners[k][j].seqNo;
    } else {
      LaterHigher(owners, k, i, m, j);
    }
  }

  // ---- The time between owners ----

  /** Packet `i` is higher than all that the owner wrote before. */
  ghost predicate Rises(last: Last, ps: seq<Input>, i: nat)
    requires i < |ps|
  {
    && OwnerOutput(last, ps, i).Forwarded?
    && forall j :: 0 <= j < i && OwnerOutput(last, ps, j).Forwarded? ==>
                     OwnerOutput(last, ps, j).seqNo < OwnerOutput(last, ps, i).seqNo
  }

  /** A packet that changes the slot's last one is written, and higher than it. */
  lemma OwnerRises(last: Last, ps: seq<Input>)
    requires ps != [] && OwnerAfter(last, ps).1 != OwnerAfter(last, ps[..|ps| - 1]).1
    ensures var n := |ps| - 1;
            var o := OwnerOutput(last, ps, n);
            && o.Forwarded? && o.seqNo > Top(OwnerAfter(last, ps[..n]).1)
            && OwnerAfter(last, ps).1 == Written(o.seqNo, o.ts, ps[n].now)
  {
    if |ps| > 1 { OwnerBase(last, ps[..|ps| - 1]); }
  }

  /** After an owner the slot goes on from the first of its packets with the highest number. */
  lemma {:induction false} LastWritten(last: Last, ps: seq<Input>) returns (i: nat)
    requires ps != []
    ensures i < |ps| && Rises(last, ps, i)
    ensures OwnerAfter(last, ps).1 == Written(OwnerOutput(last, ps, i).seqNo, OwnerOutput(last, ps, i).ts, ps[i].now)
  {
    var n := |ps| - 1;
    if n == 0 {
      assert ps[..0] == [];
      i := 0;
    } else {
      OwnerBase(last, ps[..n]);
      i := LastWritten(last, ps[..n]);
      forall j | 0 <= j < n
        ensures OwnerOutput(last, ps[..n], j) == OwnerOutput(last, ps, j)
      {
        assert ps[..n][..j] == ps[..j];
      }
      hide OwnerOutput;
      if OwnerAfter(last, ps).1 != OwnerAfter(last, ps[..n]).1 {
        i := n;
        OwnerRises(last, ps);
        forall j | 0 <= j < n && OwnerOutput(last, ps, j).Forwarded?
          ensures OwnerOutput(last, ps, j).seqNo < OwnerOutput(last, ps, n).seqNo
        {
          OwnerTop(last, ps[..n], j);
        }
      }
    }
  }

  /** The same for the slot, once somebody has owned it. */
  lemma {:induction false} SlotWritten(owners: seq<seq<Input>>, some: nat) returns (k: nat, i: nat)
    requires some < |owners| && owners[some] != []
    ensures k < |owners| && i < |owners[k]| && Rises(SlotAfter(owners[..k]), owners[k], i)
    ensures var o := SlotOutput(owners, k, i);
            SlotAfter(owners) == Written(o.seqNo, o.ts, owners[k][i].now)
  {
    var n := |owners| - 1;
    if owners[n] != [] {
      k := n;
      i := LastWritten(SlotAfter(owners[..n]), owners[n]);
    } else {
      k, i := SlotWritten(owners[..n], some);
      assert owners[..n][..k] == owners[..k];
    }
  }

  function Min(a: nat, b: nat): nat {
    if a < b then a else b
  }

  /** Whole milliseconds from `at` to `now`. */
  function Millis(at: nat, now: nat): nat {
    if now > at then (now - at) / NANOS_PER_MILLI else 0
  }

  /** Packet `i` of owner `k` is the first with the highest number that the owners before `m` wrote. */
  ghost predicate Highest(owners: seq<seq<Input>>, m: nat, k: nat, i: nat)
    requires m <= |owners|
  {
    && k < m && i < |owners[k]| && SlotOutput(owners, k, i).Forwarded?
    && forall l, j :: 0 <= l < m && 0 <= j < |owners[l]| && SlotOutput(owners, l, j).Forwarded? ==>
                        && SlotOutput(owners, l, j).seqNo <= SlotOutput(owners, k, i).seqNo
                        && (l == k && j < i ==> SlotOutput(owners, l, j).seqNo < SlotOutput(owners, k, i).seqNo)
  }

  lemma HighestIsLast(owners: seq<seq<Input>>, m: nat, k: nat, i: nat)
    requires m <= |owners| && Highest(owners, m, k, i)
    ensures var o := SlotOutput(owners, k, i);
            SlotAfter(owners[..m]) == Written(o.seqNo, o.ts, owners[k][i].now)
  {
    hide SlotAfter, OwnerOutput;
    var l, j := SlotWritten(owners[..m], k);
    assert owners[..m][..l] == owners[..l];
    assert SlotOutput(owners[..m], l, j) == SlotOutput(owners, l, j);
    if (l, j) != (k, i) {
      HighestIsTop(owners, m, k, i);
      if l < k { LaterHigher(owners, l, j, k, i); }
      if k < l { LaterHigher(owners, k, i, l, j); }
      assert false;
    }
  }

  /** No number written is above the slot's last one. */
  lemma HighestIsTop(owners: seq<seq<Input>>, m: nat, k: nat, i: nat)
    requires m <= |owners| && k < m && i < |owners[k]| && SlotOutput(owners, k, i).Forwarded?
    ensures SlotOutput(owners, k, i).seqNo <= Top(SlotAfter(owners[..m]))
  {
    OwnerTop(SlotAfter(owners[..k]), owners[k], i);
    assert owners[..k + 1][..k] == owners[..k];
    SlotGrows(owners[..m], k + 1);
    assert owners[..m][..k + 1] == owners[..k + 1];
  }

  /** A later owner starts, marked, one number after the highest packet written before it, and after
      that packet in time by as many samples as milliseconds have passed, times 48, but 960 at least
      and no more than 32 bits hold. */
  lemma LaterOwnerStarts(owners: seq<seq<Input>>, m: nat, k: nat, i: nat)
    requires m < |owners| && owners[m] != [] && Highest(owners, m, k, i)
    ensures SlotOutput(owners, m, 0).Forwarded? && SlotOutput(owners, m, 0).marker
    ensures SlotOutput(owners, m, 0).seqNo == SlotOutput(owners, k, i).seqNo + 1
    ensures var millis := Millis(owners[k][i].now, owners[m][0].now);
            var apart := Sub32(SlotOutput(owners, m, 0).ts, SlotOutput(owners, k, i).ts);
            && apart >= SAMPLES_PER_FRAME
            && (millis < TWO32 ==> apart == Max(SAMPLES_PER_FRAME, Min(48 * millis, TWO32 - 1)))
  {
    hide SlotAfter, Highest;
    HighestIsLast(owners, m, k, i);
    var last, ps := SlotAfter(owners[..m]), owners[m];
    hide SlotOutput;
    StartsAt(last, ps);
    assert SlotOutput(owners, m, 0) == OwnerOutput(last, ps, 0) by { SlotOutputIs(owners, m); }
    hide OwnerOutput;
  }

  lemma SlotOutputIs(owners: seq<seq<Input>>, m: nat)
    requires m < |owners| && owners[m] != []
    ensures SlotOutput(owners, m, 0) == OwnerOutput(SlotAfter(owners[..m]), owners[m], 0)
  {
  }

  lemma StartsAt(last: Last, ps: seq<Input>)
    requires last.Written? && ps != []
    ensures var millis, o := Millis(last.at, ps[0].now), OwnerOutput(last, ps, 0);
            && o.Forwarded? && o.marker && o.seqNo == last.seqNo + 1
            && Sub32(o.ts, last.ts) >= SAMPLES_PER_FRAME
            && (millis < TWO32 ==> Sub32(o.ts, last.ts) == Max(SAMPLES_PER_FRAME, Min(48 * millis, TWO32 - 1)))
  {
    assert ps[..0] == [];
  }

  /** The first owner of all starts at number 1 and time 0. */
  lemma FirstOwnerStarts(owners: seq<seq<Input>>, m: nat)
    requires m < |owners| && owners[m] != [] && forall k :: 0 <= k < m ==> owners[k] == []
    ensures SlotOutput(owners, m, 0) == Forwarded(1, 0, true)
  {
    NobodyYet(owners[..m]);
    assert owners[m][..0] == [];
  }

  lemma {:induction false} NobodyYet(owners: seq<seq<Input>>)
    requires forall k :: 0 <= k < |owners| ==> owners[k] == []
    ensures SlotAfter(owners) == Nothing
  {
    if owners != [] { NobodyYet(owners[..|owners| - 1]); }
  }

  // ---- From the microphone to the slot ----

  /** The packets of a track forwarded into a slot joined at arrival `from`. */
  function Received(ps: seq<Packet>, from: nat, ts: nat -> Timestamp, now: nat -> nat): seq<Input> {
    if |ps| <= from then []
    else
      var n := |ps| - 1;
      Received(ps[..n], from, ts, now)
      + match OutcomeOf(ps, n)
        case Dropped => []
        case Sent(s, marker) => [Input(s, ts(n), marker, now(n))]
  }

  lemma {:induction false} ReceivedIsSent(ps: seq<Packet>, from: nat, ts: nat -> Timestamp, now: nat -> nat, k: nat)
    returns (i: nat)
    requires k < |Received(ps, from, ts, now)|
    ensures from <= i < |ps|
    ensures var p := Received(ps, from, ts, now)[k];
            OutcomeOf(ps, i) == Sent(p.seqNo, p.marker) && p.ts == ts(i) && p.now == now(i)
  {
    hide OutcomeOf;
    var n := |ps| - 1;
    if k < |Received(ps[..n], from, ts, now)| {
      i := ReceivedIsSent(ps[..n], from, ts, now, k);
      OutcomeOfPrefix(ps, n, i);
    } else {
      i := n;
    }
  }

  /** Every packet sent from there on is received. */
  lemma {:induction false} SentIsReceived(ps: seq<Packet>, from: nat, ts: nat -> Timestamp, now: nat -> nat, i: nat)
    returns (k: nat)
    requires from <= i < |ps| && OutcomeOf(ps, i).Sent?
    ensures k < |Received(ps, from, ts, now)|
    ensures var o := OutcomeOf(ps, i);
            Received(ps, from, ts, now)[k] == Input(o.seqNo, ts(i), o.marker, now(i))
  {
    hide OutcomeOf;
    var n := |ps| - 1;
    if i < n {
      OutcomeOfPrefix(ps, n, i);
      k := SentIsReceived(ps[..n], from, ts, now, i);
    } else {
      k := |Received(ps[..n], from, ts, now)|;
    }
  }

  lemma InWindowPrefix(ps: seq<Packet>, n: nat)
    requires n <= |ps| && AllInWindow(ps) && ArriveOnce(ps)
    ensures AllInWindow(ps[..n]) && ArriveOnce(ps[..n])
  {
    forall i | 0 <= i < n && OutcomeOf(ps[..n], i).Sent?
      ensures InWindow(ps[..n], i)
    {
      assert ps[..n][..i] == ps[..i];
      assert OutcomeOf(ps, i).Sent? && InWindow(ps, i);
      assert Forgotten(ps[..n], i) == Forgotten(ps, i);
    }
  }

  /** Renumbering around drops hands the slot numbers that never repeat. */
  lemma {:induction false} ReceivedDistinct(ps: seq<Packet>, from: nat, ts: nat -> Timestamp, now: nat -> nat)
    requires ArriveOnce(ps) && AllInWindow(ps)
    ensures DistinctInputs(Received(ps, from, ts, now))
  {
    if |ps| > from {
      var n := |ps| - 1;
      InWindowPrefix(ps, n);
      ReceivedDistinct(ps[..n], from, ts, now);
      if OutcomeOf(ps, n).Sent? {
        var r := Received(ps[..n], from, ts, now);
        forall k | 0 <= k < |r|
          ensures r[k].seqNo != OutcomeOf(ps, n).seqNo
        {
          var i := ReceivedIsSent(ps[..n], from, ts, now, k);
          OutcomeOfPrefix(ps, n, i);
          if ps[i].seqNo < ps[n].seqNo { ForwardedNumbers(ps, i, n); } else { ForwardedNumbers(ps, n, i); }
        }
      }
    }
  }

  /** A track's packets in order of arrival, and when its place in the slot began. */
  datatype Owner = Owner(ps: seq<Packet>, from: nat, ts: nat -> Timestamp, now: nat -> nat) {
    function Inputs(): seq<Input> {
      Received(ps, from, ts, now)
    }
  }

  function AllInputs(owners: seq<Owner>): (s: seq<seq<Input>>)
    ensures |s| == |owners| && forall k :: 0 <= k < |s| ==> s[k] == owners[k].Inputs()
  {
    seq(|owners|, k requires 0 <= k < |owners| => owners[k].Inputs())
  }

  /** From microphones to one slot: whatever was dropped as silence and however packets
      were reordered, the numbers written into the slot never repeat and a later
      owner's are higher. */
  lemma SlotNeverRepeats(owners: seq<Owner>, k: nat, i: nat, m: nat, j: nat)
    requires forall x :: 0 <= x < |owners| ==> ArriveOnce(owners[x].ps) && AllInWindow(owners[x].ps)
    requires k <= m < |owners| && i < |owners[k].Inputs()| && j < |owners[m].Inputs()|
    requires k == m ==> i != j
    requires SlotOutput(AllInputs(owners), k, i).Forwarded? && SlotOutput(AllInputs(owners), m, j).Forwarded?
    ensures SlotOutput(AllInputs(owners), k, i).seqNo != SlotOutput(AllInputs(owners), m, j).seqNo
    ensures k < m ==> SlotOutput(AllInputs(owners), k, i).seqNo < SlotOutput(AllInputs(owners), m, j).seqNo
  {
    forall x | 0 <= x < |owners|
      ensures DistinctInputs(AllInputs(owners)[x])
    {
      ReceivedDistinct(owners[x].ps, owners[x].from, owners[x].ts, owners[x].now);
    }
    SlotNumbersDistinct(AllInputs(owners), k, i, m, j);
  }
}
