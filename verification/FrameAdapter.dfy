/** Quanta of 128 samples go into frames of any size and, processed, come out again 128 at a time,
    in order and late by a fixed number of quanta. */
module Reblocking {
  import opened Schedule
  import Arith

  /** What `processFrame` does: with the state it keeps, one frame becomes another. */
  type Step<!S> = (S, seq<real>) -> (S, seq<real>)

  ghost predicate KeepsFrameSize<S(!new)>(step: Step<S>, f: nat) {
    forall s, x :: |x| == f ==> |step(s, x).1| == f
  }

  /** The first `n` consecutive frames of the input, processed one after another. */
  ghost function Run<S(!new)>(step: Step<S>, start: S, f: nat, input: seq<real>, n: nat): (r: (S, seq<real>))
    requires KeepsFrameSize(step, f) && n * f <= |input|
    ensures |r.1| == n * f
  {
    if n == 0 then (start, [])
    else
      Arith.Monotone(n - 1, n, f);
      Arith.Distrib(f, n, 1);
      var (s, done) := Run(step, start, f, input, n - 1);
      var (s', y) := step(s, input[(n - 1) * f..n * f]);
      (s', done + y)
  }

  lemma WholeFrames(s: nat, f: nat)
    requires f > 0
    ensures (s / f) * f <= s
  {
    assert s == (s / f) * f + s % f;
  }

  /** All the frames the input completes. */
  ghost function Processed<S(!new)>(step: Step<S>, start: S, f: nat, input: seq<real>): seq<real>
    requires f > 0 && KeepsFrameSize(step, f)
  {
    WholeFrames(|input|, f);
    Run(step, start, f, input, |input| / f).1
  }

  /** More input does not change the frames already complete. */
  lemma {:induction false} RunPrefix<S(!new)>(step: Step<S>, start: S, f: nat, input: seq<real>, more: seq<real>,
                                       n: nat)
    requires KeepsFrameSize(step, f) && n * f <= |input| <= |input + more|
    ensures Run(step, start, f, input + more, n) == Run(step, start, f, input, n)
  {
    if n > 0 {
      Arith.Monotone(n - 1, n, f);
      Arith.Distrib(f, n, 1);
      RunPrefix(step, start, f, input, more, n - 1);
      assert (input + more)[(n - 1) * f..n * f] == input[(n - 1) * f..n * f];
    }
  }

  lemma {:induction false} RunGrows<S(!new)>(step: Step<S>, start: S, f: nat, input: seq<real>, m: nat, n: nat)
    requires KeepsFrameSize(step, f) && m <= n && n * f <= |input| && m * f <= |input|
    ensures Run(step, start, f, input, m).1 <= Run(step, start, f, input, n).1
    decreases n
  {
    if m < n {
      Arith.Monotone(m, n - 1, f);
      Arith.Monotone(n - 1, n, f);
      RunGrows(step, start, f, input, m, n - 1);
    }
  }

  /** What has been processed stays processed as input goes on. */
  lemma ProcessedGrows<S(!new)>(step: Step<S>, start: S, f: nat, input: seq<real>, more: seq<real>)
    requires f > 0 && KeepsFrameSize(step, f)
    ensures Processed(step, start, f, input) <= Processed(step, start, f, input + more)
  {
    var m, n := |input| / f, |input + more| / f;
    WholeFrames(|input|, f);
    WholeFrames(|input + more|, f);
    if m > n {
      Arith.Monotone(n + 1, m, f);
      Arith.Distrib(f, n, 1);
      assert false;
    }
    RunPrefix(step, start, f, input, more, m);
    RunGrows(step, start, f, input + more, m, n);
  }

  /** The processed frames, given how many there are. */
  lemma ProcessedIs<S(!new)>(step: Step<S>, start: S, f: nat, input: seq<real>, n: nat, filled: nat)
    requires f > 0 && KeepsFrameSize(step, f) && filled < f && |input| == n * f + filled
    ensures Processed(step, start, f, input) == Run(step, start, f, input, n).1
    ensures Completed(f, |input|) == n * f
  {
    Arith.RemainderIs(f, n, filled, |input|);
  }

  /** The ring has room for every frame that completes during quantum `calls`. */
  lemma RingHasRoom(f: nat, calls: nat)
    requires f > 0
    ensures QUANTUM * (calls + 1) - Taken(PrimeQuanta(f), calls) <= f + 2 * QUANTUM
  {
    PartialFrameBound(f, 0);
  }

  /** At quantum `calls` at least 128 samples wait once the delay is over. */
  lemma EnoughWaiting(f: nat, calls: nat)
    requires f > 0 && calls >= PrimeQuanta(f)
    ensures Completed(f, QUANTUM * (calls + 1)) - Taken(PrimeQuanta(f), calls) >= QUANTUM
  {
    SmallestDelay(f, PrimeQuanta(f));
    PendingBeforeFirstUnderrun(f, PrimeQuanta(f), calls);
    assert !Underruns(f, PrimeQuanta(f), calls);
  }

  function Zeros(n: nat): (z: seq<real>)
    ensures |z| == n
  {
    seq(n, _ => 0.0)
  }

  lemma ZerosAre(z: seq<real>)
    requires forall i :: 0 <= i < |z| ==> z[i] == 0.0
    ensures z == Zeros(|z|)
  {
  }

  ghost function Overwrite(r: seq<real>, s: seq<real>, at: nat): (t: seq<real>)
    requires at + |s| <= |r|
    ensures |t| == |r|
  {
    r[..at] + s + r[at + |s|..]
  }

  lemma WholeWrite(d: seq<real>, a: seq<real>)
    requires |a| == |d|
    ensures Overwrite(d, a, 0) == a
  {
  }

  lemma TwoPieces(d: seq<real>, a: seq<real>, b: seq<real>)
    requires |a| + |b| == |d|
    ensures Overwrite(Overwrite(d, a, 0), b, |a|) == a + b
  {
  }

  /** `dst[at..at + |src|] := src`, the typed array's `set`. */
  method Set(dst: array<real>, src: seq<real>, at: nat)
    requires at + |src| <= dst.Length
    modifies dst
    ensures dst[..] == Overwrite(old(dst[..]), src, at)
  {
    forall i | 0 <= i < |src| {
      dst[at + i] := src[i];
    }
  }

  // ---- The ring ----

  /** The `n` samples of the ring `r` from position `from` on, around its end. */
  ghost function Around(r: seq<real>, from: nat, n: nat): (q: seq<real>)
    requires from < |r| && n <= |r|
    ensures |q| == n
  {
    if from + n <= |r| then r[from..from + n] else r[from..] + r[..from + n - |r|]
  }

  lemma AroundAt(r: seq<real>, from: nat, n: nat, i: nat)
    requires from < |r| && n <= |r| && i < n
    ensures Around(r, from, n)[i] == if from + i < |r| then r[from + i] else r[from + i - |r|]
  {
  }

  /** The run of samples as at most two slices of the ring. */
  lemma TwoSlices(r: seq<real>, from: nat, n: nat, head: nat)
    requires from < |r| && n <= |r| && head == if n < |r| - from then n else |r| - from
    ensures r[from..from + head] + r[..n - head] == Around(r, from, n)
  {
  }

  lemma WrapOnce(x: nat, cap: nat)
    requires cap > 0 && x < 2 * cap
    ensures x % cap == if x < cap then x else x - cap
  {
    if x < cap { Arith.RemainderIs(cap, 0, x, x); } else { Arith.RemainderIs(cap, 1, x - cap, x); }
  }

  lemma TwoWrites(r: seq<real>, src: seq<real>, at: nat, head: nat, t: seq<real>, j: nat)
    requires head <= |src| && at + head <= |r| && |src| - head <= |r| && j < |r|
    requires t == Overwrite(Overwrite(r, src[..head], at), src[head..], 0)
    ensures t[j] == if j < |src| - head then src[head + j] else if at <= j < at + head then src[j - at] else r[j]
  {
  }

  /** Writing `src` behind the `n` waiting samples, in two pieces at the end of the ring. */
  lemma PushedRing(r: seq<real>, from: nat, n: nat, src: seq<real>, at: nat, head: nat, t: seq<real>)
    requires from < |r| && n + |src| <= |r|
    requires at == (if from + n < |r| then from + n else from + n - |r|)
    requires head == if |src| < |r| - at then |src| else |r| - at
    requires t == Overwrite(Overwrite(r, src[..head], at), src[head..], 0)
    ensures Around(t, from, n + |src|) == Around(r, from, n) + src
  {
    hide Around, Overwrite;
    forall i | 0 <= i < n + |src|
      ensures Around(t, from, n + |src|)[i] == (Around(r, from, n) + src)[i]
    {
      AroundAt(t, from, n + |src|, i);
      TwoWrites(r, src, at, head, t, if from + i < |r| then from + i else from + i - |r|);
      if i < n {
        AroundAt(r, from, n, i);
      }
    }
  }

  /** Taking `m` samples leaves the rest, read from `m` further on. */
  lemma PoppedRing(r: seq<real>, from: nat, n: nat, m: nat, next: nat)
    requires from < |r| && m <= n <= |r|
    requires next == if from + m < |r| then from + m else from + m - |r|
    ensures next < |r| && Around(r, next, n - m) == Around(r, from, n)[m..]
    ensures Around(r, from, m) == Around(r, from, n)[..m]
  {
    hide Around;
    assert next < |r|;
    forall i | 0 <= i < n - m
      ensures Around(r, next, n - m)[i] == Around(r, from, n)[m..][i]
    {
      AroundAt(r, next, n - m, i);
      AroundAt(r, from, n, m + i);
    }
    forall i | 0 <= i < m
      ensures Around(r, from, m)[i] == Around(r, from, n)[..m][i]
    {
      AroundAt(r, from, m, i);
      AroundAt(r, from, n, i);
    }
  }

  class FrameAdapter<S(!new)> {
    const frameSize: nat
    const primeQuanta: nat
    const processFrame: Step<S>
    /** What the denoiser behind `processFrame` remembers. */
    var denoiser: S
    const frame: array<real>
    var filled: nat
    /** From `readPos` on and around its end, `pending` processed samples that are still to be given. */
    const ring: array<real>
    var readPos: nat
    var pending: nat
    var quanta: nat

    /** History: where the denoiser started, every sample taken and given, and how many
        frames and quanta that makes. */
    ghost const start: S
    ghost var input: seq<real>
    ghost var output: seq<real>
    ghost var frames: nat
    ghost var calls: nat

    ghost predicate Shape()
      reads this
    {
      && frameSize > 0 && primeQuanta == PrimeQuanta(frameSize) && KeepsFrameSize(processFrame, frameSize)
      && frame != ring && frame.Length == frameSize && ring.Length == frameSize + 2 * QUANTUM
      && readPos < ring.Length && pending <= ring.Length
    }

    /** The waiting samples, oldest first. */
    ghost function Queue(): (q: seq<real>)
      requires Shape()
      reads this, ring
      ensures |q| == pending
    {
      Around(ring[..], readPos, pending)
    }

    /** `taken` samples have left the ring; the rest of the processed frames wait in it,
        and the tail of the input waits in the unfinished frame. */
    ghost predicate Consistent(taken: nat)
      reads this, frame, ring
    {
      && Shape() && filled <= frameSize && |input| == frames * frameSize + filled
      && frame[..filled] == input[frames * frameSize..]
      && var (s, done) := Run(processFrame, start, frameSize, input, frames);
         denoiser == s && taken <= |done| && Queue() == done[taken..]
    }

    /** Silence for the priming delay, then the processed frames, without a gap. */
    ghost predicate OutputIsDelayed()
      requires frameSize > 0 && KeepsFrameSize(processFrame, frameSize)
      reads this
    {
      && |output| == |input|
      && output <= Zeros(QUANTUM * primeQuanta) + Processed(processFrame, start, frameSize, input)
    }

    ghost predicate Valid()
      reads this, frame, ring
    {
      && Consistent(Taken(primeQuanta, calls)) && filled < frameSize && OutputIsDelayed()
      && |input| == QUANTUM * calls
      && quanta == (if calls < primeQuanta then calls else primeQuanta)
    }

    constructor (size: nat, process: Step<S>, initial: S)
      requires size > 0 && KeepsFrameSize(process, size)
      ensures Valid() && frameSize == size && processFrame == process && start == initial
      ensures input == [] && calls == 0 && fresh(frame) && fresh(ring)
    {
      frameSize, processFrame, denoiser, start := size, process, initial, initial;
      primeQuanta := PrimeQuanta(size);
      frame := new real[size];
      ring := new real[size + 2 * QUANTUM];
      filled, readPos, pending, quanta := 0, 0, 0, 0;
      input, output, frames, calls := [], [], 0, 0;
    }

    /** Appends to the waiting samples. There must be room: no unread sample is lost. */
    method Push(src: seq<real>)
      requires Shape() && pending + |src| <= ring.Length
      modifies ring, this`pending
      ensures Shape() && Queue() == old(Queue()) + src
    {
      hide Around, Overwrite, PrimeQuanta, KeepsFrameSize;
      var cap := ring.Length;
      WrapOnce(readPos + pending, cap);
      var writePos := (readPos + pending) % cap;
      var head := if |src| < cap - writePos then |src| else cap - writePos;
      ghost var before := ring[..];
      Set(ring, src[..head], writePos);
      Set(ring, src[head..], 0);
      PushedRing(before, readPos, pending, src, writePos, head, ring[..]);
      pending := pending + |src|;
    }

    /** Takes the oldest samples, or gives silence and takes nothing when there are too few. */
    method Pop(dst: array<real>)
      requires Shape() && dst != ring && dst != frame && dst.Length == QUANTUM
      modifies dst, this`readPos, this`pending
      ensures Shape()
      ensures old(pending) < QUANTUM ==> dst[..] == Zeros(QUANTUM) && Queue() == old(Queue())
      ensures old(pending) >= QUANTUM ==> dst[..] == old(Queue()[..QUANTUM]) && Queue() == old(Queue()[QUANTUM..])
    {
      hide Around, Overwrite, PrimeQuanta, KeepsFrameSize, Zeros;
      if pending < dst.Length {
        forall i | 0 <= i < dst.Length { dst[i] := 0.0; }
        ZerosAre(dst[..]);
        assert ring[..] == old(ring[..]);
        return;
      }
      var cap := ring.Length;
      WrapOnce(readPos + dst.Length, cap);
      var next := (readPos + dst.Length) % cap;
      PoppedRing(ring[..], readPos, pending, dst.Length, next);
      var head := if dst.Length < cap - readPos then dst.Length else cap - readPos;
      var first, second := ring[readPos..readPos + head], ring[..dst.Length - head];
      TwoSlices(ring[..], readPos, dst.Length, head);
      Set(dst, first, 0);
      Set(dst, second, head);
      TwoPieces(old(dst[..]), first, second);
      assert ring[..] == old(ring[..]);
      readPos := next;
      pending := pending - dst.Length;
    }

    /** Takes a piece of input into the frame. */
    method Fill(chunk: seq<real>, ghost taken: nat)
      requires Consistent(taken) && filled + |chunk| <= frameSize
      modifies this`filled, this`input, frame
      ensures Consistent(taken) && input == old(input) + chunk && filled == old(filled) + |chunk|
    {
      RunPrefix(processFrame, start, frameSize, input, chunk, frames);
      ghost var n := frames * frameSize;
      assert (input + chunk)[n..] == input[n..] + chunk;
      hide Run, Around;
      Set(frame, chunk, filled);
      filled := filled + |chunk|;
      input := input + chunk;
    }

    /** Processes the full frame and queues the result. */
    method Complete(ghost taken: nat)
      requires Consistent(taken) && filled == frameSize
      requires |input| - taken <= ring.Length
      modifies this`denoiser, this`filled, this`pending, this`frames, frame, ring
      ensures Consistent(taken) && filled == 0
    {
      hide Run, Around, Overwrite, PrimeQuanta;
      Arith.Distrib(frameSize, frames, 1);
      NextFrame(processFrame, start, frameSize, input, frames);
      assert frame[..] == frame[..filled];
      var (s, y) := processFrame(denoiser, frame[..]);
      WholeWrite(frame[..], y);
      Set(frame, y, 0);
      Push(frame[..]);
      denoiser := s;
      filled := 0;
      frames := frames + 1;
    }

    /** Takes one quantum of input in, completing the frames it fills. */
    method TakeIn(inBuf: array<real>)
      requires Valid() && inBuf.Length == QUANTUM && inBuf != frame && inBuf != ring
      modifies this`denoiser, this`filled, this`pending, this`input, this`frames, frame, ring
      ensures Consistent(Taken(primeQuanta, calls)) && filled < frameSize
      ensures input == old(input) + inBuf[..]
    {
      hide Run, Around, Taken, PrimeQuanta;
      ghost var samples, taken := inBuf[..], Taken(primeQuanta, calls);
      RingHasRoom(frameSize, calls);
      var off := 0;
      while off < QUANTUM
        invariant 0 <= off <= QUANTUM && Consistent(taken) && filled < frameSize
        invariant input == old(input) + samples[..off]
      {
        var n := if QUANTUM - off < frameSize - filled then QUANTUM - off else frameSize - filled;
        assert samples[..off + n] == samples[..off] + inBuf[off..off + n];
        Fill(inBuf[off..off + n], taken);
        off := off + n;
        if filled == frameSize {
          Complete(taken);
        }
      }
      assert samples[..off] == samples;
    }

    /** Gives one quantum of output: silence during the delay, then the oldest samples. */
    method GiveOut(outBuf: array<real>)
      requires Consistent(Taken(primeQuanta, calls)) && filled < frameSize
      requires |input| == QUANTUM * (calls + 1)
      requires quanta == (if calls < primeQuanta then calls else primeQuanta)
      requires outBuf.Length == QUANTUM && outBuf != frame && outBuf != ring
      modifies this`quanta, this`readPos, this`pending, outBuf
      ensures Consistent(Taken(primeQuanta, calls + 1))
      ensures quanta == (if calls + 1 < primeQuanta then calls + 1 else primeQuanta)
      ensures NextOutput(primeQuanta, calls, Processed(processFrame, start, frameSize, input), outBuf[..])
    {
      hide Run, Around;
      ProcessedIs(processFrame, start, frameSize, input, frames, filled);
      if quanta < primeQuanta {
        quanta := quanta + 1;
        forall i | 0 <= i < QUANTUM { outBuf[i] := 0.0; }
        assert outBuf[..] == Zeros(QUANTUM) && ring[..] == old(ring[..]) && frame[..filled] == old(frame[..filled]);
      } else {
        EnoughWaiting(frameSize, calls);
        Pop(outBuf);
      }
    }

    /** The ring holds what the schedule says, so the delay cannot be shorter. */
    lemma PendingIsScheduled()
      requires Valid()
      ensures pending == Pending(frameSize, primeQuanta, calls)
    {
      ProcessedIs(processFrame, start, frameSize, input, frames, filled);
      SmallestDelay(frameSize, primeQuanta);
      PendingBeforeFirstUnderrun(frameSize, primeQuanta, calls);
    }

    /** One render quantum: 128 samples in, 128 samples out. */
    method Process(inBuf: array<real>, outBuf: array<real>)
      requires Valid() && inBuf.Length == outBuf.Length == QUANTUM
      requires inBuf != frame && inBuf != ring && outBuf != frame && outBuf != ring
      modifies this, frame, ring, outBuf
      ensures Valid() && calls == old(calls) + 1
      ensures input == old(input) + old(inBuf[..]) && output == old(output) + outBuf[..]
    {
      hide Run, Around, Processed, PrimeQuanta, Zeros;
      ghost var samples := inBuf[..];
      TakeIn(inBuf);
      ProcessedGrows(processFrame, start, frameSize, old(input), samples);
      GiveOut(outBuf);
      Delayed(output, primeQuanta, calls, old(Processed(processFrame, start, frameSize, input)),
              Processed(processFrame, start, frameSize, input), outBuf[..]);
      calls := calls + 1;
      output := output + outBuf[..];
    }
  }

  /** The samples that quantum `q` must give, `done` being all that is processed by then. */
  ghost predicate NextOutput(delay: nat, q: nat, done: seq<real>, next: seq<real>) {
    if q < delay then next == Zeros(QUANTUM)
    else QUANTUM * (q - delay + 1) <= |done| && next == done[QUANTUM * (q - delay)..QUANTUM * (q - delay + 1)]
  }

  /** Extending a delayed stream by its next quantum. */
  lemma Delayed(out: seq<real>, delay: nat, q: nat, before: seq<real>, after: seq<real>, next: seq<real>)
    requires out <= Zeros(QUANTUM * delay) + before && before <= after && |out| == QUANTUM * q
    requires NextOutput(delay, q, after, next)
    ensures out + next <= Zeros(QUANTUM * delay) + after
  {
    var all := Zeros(QUANTUM * delay) + after;
    assert out <= all;
    assert next == all[|out|..|out| + QUANTUM];
  }

  lemma NextFrame<S(!new)>(step: Step<S>, start: S, f: nat, input: seq<real>, n: nat)
    requires KeepsFrameSize(step, f) && n * f <= |input| && |input| == (n + 1) * f == n * f + f
    ensures var (s, done) := Run(step, start, f, input, n);
            var (s', y) := step(s, input[n * f..]);
            Run(step, start, f, input, n + 1) == (s', done + y)
  {
    assert input[n * f..(n + 1) * f] == input[n * f..];
  }
}
