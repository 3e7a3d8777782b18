/** The denoiser's convolution: tiles of four channels by eight positions, and what is left over,
    against the sum that defines it; over exact reals. */
module Convolution {
  import opened Arith

  const TILE: nat := 8

  /** Channels in, taps, positions, and the distance of the rows of the input. */
  datatype Shape = Shape(cin: nat, taps: nat, len: nat, istride: nat)

  /** Flat position of (row, column) in rows of `width`. */
  function At(row: nat, width: nat, column: nat): nat {
    row * width + column
  }

  function Get(x: seq<real>, i: nat): real {
    if i < |x| then x[i] else 0.0
  }

  /** The part of input channel `i`, over the first `k` taps. */
  function RowSum(s: Shape, x: seq<real>, w: seq<real>, o: nat, t: nat, i: nat, k: nat): real {
    if k == 0 then 0.0
    else RowSum(s, x, w, o, t, i, k - 1)
         + Get(w, At(At(o, s.cin, i), s.taps, k - 1)) * Get(x, At(i, s.istride, t + k - 1))
  }

  /** The parts of the first `i` channels. */
  function Rows(s: Shape, x: seq<real>, w: seq<real>, o: nat, t: nat, i: nat): real {
    if i == 0 then 0.0 else Rows(s, x, w, o, t, i - 1) + RowSum(s, x, w, o, t, i - 1, s.taps)
  }

  /** Output channel `o` at position `t`: the bias and the sum over all channels and taps. */
  function ConvAt(s: Shape, x: seq<real>, w: seq<real>, b: seq<real>, o: nat, t: nat): real {
    Get(b, o) + Rows(s, x, w, o, t, s.cin)
  }

  /** The sum up to tap `k` of channel `i`. */
  function Partial(s: Shape, x: seq<real>, w: seq<real>, b: seq<real>, o: nat, t: nat, i: nat, k: nat): real {
    Get(b, o) + Rows(s, x, w, o, t, i) + RowSum(s, x, w, o, t, i, k)
  }

  predicate Fits(s: Shape, x: nat, w: nat, b: nat, out: nat, cout: nat) {
    && out == cout * s.len && w == cout * s.cin * s.taps && b == cout
    && (s.cin > 0 && s.taps > 0 && s.len > 0 ==> At(s.cin - 1, s.istride, s.len + s.taps - 2) < x)
  }

  lemma AtBelow(row: nat, rows: nat, width: nat, column: nat)
    requires row < rows && column < width
    ensures At(row, width, column) < rows * width
  {
    Monotone(row + 1, rows, width);
  }

  lemma AtDistinct(row: nat, width: nat, column: nat, r: nat, c: nat)
    requires column < width && c < width && At(row, width, column) == At(r, width, c)
    ensures row == r && column == c
  {
    RemainderIs(width, row, column, At(row, width, column));
    RemainderIs(width, r, c, At(r, width, c));
  }

  /** What the inner loops read is there. */
  lemma Reads(s: Shape, x: nat, w: nat, b: nat, out: nat, cout: nat, o: nat, t: nat, i: nat, k: nat)
    requires Fits(s, x, w, b, out, cout) && o < cout && t < s.len && i < s.cin && k < s.taps
    ensures At(At(o, s.cin, i), s.taps, k) < w && At(i, s.istride, t + k) < x
  {
    AtBelow(o, cout, s.cin, i);
    AtBelow(At(o, s.cin, i), cout * s.cin, s.taps, k);
    Monotone(i, s.cin - 1, s.istride);
  }

  lemma Step(s: Shape, x: seq<real>, w: seq<real>, b: seq<real>, o: nat, t: nat, i: nat, k: nat)
    ensures Partial(s, x, w, b, o, t, i, k + 1)
            == Partial(s, x, w, b, o, t, i, k)
               + Get(w, At(At(o, s.cin, i), s.taps, k)) * Get(x, At(i, s.istride, t + k))
    ensures Partial(s, x, w, b, o, t, i + 1, 0) == Partial(s, x, w, b, o, t, i, s.taps)
    ensures Partial(s, x, w, b, o, t, 0, 0) == Get(b, o)
            && Partial(s, x, w, b, o, t, s.cin, 0) == ConvAt(s, x, w, b, o, t)
  {
  }

  /** Entry (c, p) of the output. */
  method Put(s: Shape, out: array<real>, cout: nat, c: nat, p: nat, v: real)
    requires out.Length == cout * s.len && c < cout && p < s.len && At(c, s.len, p) < out.Length
    modifies out
    ensures forall r, q :: 0 <= r < cout && 0 <= q < s.len && At(r, s.len, q) < out.Length ==>
                             out[At(r, s.len, q)] == if r == c && q == p then v else old(out[At(r, s.len, q)])
  {
    out[At(c, s.len, p)] := v;
    forall r, q | 0 <= r < cout && 0 <= q < s.len && At(r, s.len, q) < out.Length
      ensures out[At(r, s.len, q)] == if r == c && q == p then v else old(out[At(r, s.len, q)])
    {
      if At(r, s.len, q) == At(c, s.len, p) { AtDistinct(r, s.len, q, c, p); }
    }
  }

  /** The registers hold the sums up to tap `k` of channel `i`. */
  ghost predicate Summed(s: Shape, x: seq<real>, w: seq<real>, b: seq<real>, acc: array2<real>, o: nat, t0: nat, i: nat,
                         k: nat, from: nat, to: nat)
    requires acc.Length0 == 4 && acc.Length1 == TILE
    reads acc
  {
    forall j, u :: 0 <= j < 4 && from <= u < to && u < TILE ==> acc[j, u] == Partial(s, x, w, b, o + j, t0 + u, i, k)
  }

  /** One tap for all of the tile. */
  method AddTap(s: Shape, inp: array<real>, w: seq<real>, b: seq<real>, ghost out: nat, ghost cout: nat,
                acc: array2<real>, o: nat, t0: nat, i: nat, k: nat)
    requires acc.Length0 == 4 && acc.Length1 == TILE && Fits(s, inp.Length, |w|, |b|, out, cout)
    requires o + 4 <= cout && t0 + TILE <= s.len && i < s.cin && k < s.taps
    requires Summed(s, inp[..], w, b, acc, o, t0, i, k, 0, TILE)
    modifies acc
    ensures Summed(s, inp[..], w, b, acc, o, t0, i, k + 1, 0, TILE)
  {
    hide Partial, At, Fits, Rows, RowSum;
    FourReads(s, inp.Length, |w|, |b|, out, cout, o, t0, i, k);
    var w0, w1 := w[At(At(o, s.cin, i), s.taps, k)], w[At(At(o + 1, s.cin, i), s.taps, k)];
    var w2, w3 := w[At(At(o + 2, s.cin, i), s.taps, k)], w[At(At(o + 3, s.cin, i), s.taps, k)];
    for t := 0 to TILE
      invariant Summed(s, inp[..], w, b, acc, o, t0, i, k + 1, 0, t)
      invariant Summed(s, inp[..], w, b, acc, o, t0, i, k, t, TILE)
    {
      Reads(s, inp.Length, |w|, |b|, out, cout, o, t0 + t, i, k);
      var x := inp[At(i, s.istride, t0 + t + k)];
      ghost var all := inp[..];
      Step(s, all, w, b, o, t0 + t, i, k);
      Step(s, all, w, b, o + 1, t0 + t, i, k);
      Step(s, all, w, b, o + 2, t0 + t, i, k);
      Step(s, all, w, b, o + 3, t0 + t, i, k);
      acc[0, t] := acc[0, t] + w0 * x;
      acc[1, t] := acc[1, t] + w1 * x;
      acc[2, t] := acc[2, t] + w2 * x;
      acc[3, t] := acc[3, t] + w3 * x;
    }
  }

  lemma FourReads(s: Shape, x: nat, w: nat, b: nat, out: nat, cout: nat, o: nat, t: nat, i: nat, k: nat)
    requires Fits(s, x, w, b, out, cout) && o + 4 <= cout && t < s.len && i < s.cin && k < s.taps
    ensures At(At(o, s.cin, i), s.taps, k) < w && At(At(o + 1, s.cin, i), s.taps, k) < w
    ensures At(At(o + 2, s.cin, i), s.taps, k) < w && At(At(o + 3, s.cin, i), s.taps, k) < w
  {
    hide At, Fits;
    Reads(s, x, w, b, out, cout, o, t, i, k);
    Reads(s, x, w, b, out, cout, o + 1, t, i, k);
    Reads(s, x, w, b, out, cout, o + 2, t, i, k);
    Reads(s, x, w, b, out, cout, o + 3, t, i, k);
  }

  /** Sums a whole tile in registers. */
  method SumTile(s: Shape, inp: array<real>, w: seq<real>, b: seq<real>, ghost out: nat, ghost cout: nat,
                 acc: array2<real>, o: nat, t0: nat)
    requires acc.Length0 == 4 && acc.Length1 == TILE && Fits(s, inp.Length, |w|, |b|, out, cout)
    requires o + 4 <= cout && t0 + TILE <= s.len
    modifies acc
    ensures forall j, u :: 0 <= j < 4 && 0 <= u < TILE ==> acc[j, u] == ConvAt(s, inp[..], w, b, o + j, t0 + u)
  {
    hide Partial, ConvAt, At, Summed;
    assert |b| == cout;
    forall j, u | 0 <= j < 4 && 0 <= u < TILE {
      acc[j, u] := b[o + j];
    }
    SummedStarts(s, inp[..], w, b, acc, o, t0);
    for i := 0 to s.cin
      invariant Summed(s, inp[..], w, b, acc, o, t0, i, 0, 0, TILE)
    {
      for k := 0 to s.taps
        invariant Summed(s, inp[..], w, b, acc, o, t0, i, k, 0, TILE)
      {
        AddTap(s, inp, w, b, out, cout, acc, o, t0, i, k);
      }
      SummedMoves(s, inp[..], w, b, acc, o, t0, i);
    }
    SummedEnds(s, inp[..], w, b, acc, o, t0);
  }

  lemma SummedStarts(s: Shape, x: seq<real>, w: seq<real>, b: seq<real>, acc: array2<real>, o: nat, t0: nat)
    requires acc.Length0 == 4 && acc.Length1 == TILE
    requires forall j, u :: 0 <= j < 4 && 0 <= u < TILE ==> acc[j, u] == Get(b, o + j)
    ensures Summed(s, x, w, b, acc, o, t0, 0, 0, 0, TILE)
  {
    forall j, u | 0 <= j < 4 && 0 <= u < TILE
      ensures acc[j, u] == Partial(s, x, w, b, o + j, t0 + u, 0, 0)
    {
      Step(s, x, w, b, o + j, t0 + u, 0, 0);
    }
  }

  lemma SummedMoves(s: Shape, x: seq<real>, w: seq<real>, b: seq<real>, acc: array2<real>, o: nat, t0: nat, i: nat)
    requires acc.Length0 == 4 && acc.Length1 == TILE && Summed(s, x, w, b, acc, o, t0, i, s.taps, 0, TILE)
    ensures Summed(s, x, w, b, acc, o, t0, i + 1, 0, 0, TILE)
  {
    hide Partial;
    forall j, u | 0 <= j < 4 && 0 <= u < TILE
      ensures acc[j, u] == Partial(s, x, w, b, o + j, t0 + u, i + 1, 0)
    {
      Step(s, x, w, b, o + j, t0 + u, i, 0);
    }
  }

  lemma SummedEnds(s: Shape, x: seq<real>, w: seq<real>, b: seq<real>, acc: array2<real>, o: nat, t0: nat)
    requires acc.Length0 == 4 && acc.Length1 == TILE && Summed(s, x, w, b, acc, o, t0, s.cin, 0, 0, TILE)
    ensures forall j, u :: 0 <= j < 4 && 0 <= u < TILE ==> acc[j, u] == ConvAt(s, x, w, b, o + j, t0 + u)
  {
    hide Partial, ConvAt;
    forall j, u | 0 <= j < 4 && 0 <= u < TILE
      ensures acc[j, u] == ConvAt(s, x, w, b, o + j, t0 + u)
    {
      Step(s, x, w, b, o + j, t0 + u, 0, 0);
    }
  }

  /** Entry (c, p) has its final value. */
  ghost predicate Right(s: Shape, out: seq<real>, x: seq<real>, w: seq<real>, b: seq<real>, c: nat, p: nat) {
    Get(out, At(c, s.len, p)) == ConvAt(s, x, w, b, c, p)
  }

  /** Entries done: all of the channels before `o`, and those of the next four before `t`. */
  ghost predicate DoneTo(s: Shape, out: seq<real>, x: seq<real>, w: seq<real>, b: seq<real>, cout: nat, o: nat,
                         t: nat) {
    forall c: nat, p: nat :: c < cout && p < s.len && (c < o || (c < o + 4 && p < t)) ==> Right(s, out, x, w, b, c, p)
  }

  /** Copies the tile to its place in the output. */
  method StoreTile(s: Shape, out: array<real>, ghost x: seq<real>, ghost w: seq<real>, ghost b: seq<real>, cout: nat,
                   acc: array2<real>, o: nat, t0: nat)
    requires acc.Length0 == 4 && acc.Length1 == TILE && out.Length == cout * s.len
    requires o + 4 <= cout && t0 + TILE <= s.len && DoneTo(s, out[..], x, w, b, cout, o, t0)
    requires forall j, u :: 0 <= j < 4 && 0 <= u < TILE ==> acc[j, u] == ConvAt(s, x, w, b, o + j, t0 + u)
    modifies out
    ensures DoneTo(s, out[..], x, w, b, cout, o, t0 + TILE)
  {
    hide ConvAt, At;
    for j := 0 to 4
      invariant forall c: nat, p: nat ::
                  c < cout && p < s.len && (c < o || (c < o + 4 && p < t0) || (c < o + j && p < t0 + TILE)) ==>
                    Right(s, out[..], x, w, b, c, p)
    {
      for u := 0 to TILE
        invariant forall c: nat, p: nat ::
                    c < cout && p < s.len
                    && (c < o || (c < o + 4 && p < t0) || (c < o + j && p < t0 + TILE)
                        || (c == o + j && p < t0 + u)) ==>
                      Right(s, out[..], x, w, b, c, p)
      {
        PutRight(s, out, x, w, b, cout, o + j, t0 + u, acc[j, u]);
      }
    }
  }

  /** Storing the right value makes one more entry right and leaves the others. */
  method PutRight(s: Shape, out: array<real>, ghost x: seq<real>, ghost w: seq<real>, ghost b: seq<real>, cout: nat,
                  c: nat, p: nat, v: real)
    requires out.Length == cout * s.len && c < cout && p < s.len && v == ConvAt(s, x, w, b, c, p)
    modifies out
    ensures forall r: nat, q: nat :: r < cout && q < s.len ==>
              (Right(s, out[..], x, w, b, r, q) <== (r == c && q == p) || Right(s, old(out[..]), x, w, b, r, q))
  {
    hide ConvAt;
    AtBelow(c, cout, s.len, p);
    ghost var before := out[..];
    Put(s, out, cout, c, p, v);
    forall r: nat, q: nat | r < cout && q < s.len
      ensures Right(s, out[..], x, w, b, r, q) <== (r == c && q == p) || Right(s, before, x, w, b, r, q)
    {
      AtBelow(r, cout, s.len, q);
    }
  }

  /** One output outside the tiles. */
  method SumOne(s: Shape, inp: array<real>, w: seq<real>, b: seq<real>, ghost out: nat, ghost cout: nat, j: nat, t: nat)
    returns (acc: real)
    requires Fits(s, inp.Length, |w|, |b|, out, cout) && j < cout && t < s.len
    ensures acc == ConvAt(s, inp[..], w, b, j, t)
  {
    hide Partial, ConvAt, At, Rows, RowSum;
    ghost var x := inp[..];
    acc := b[j];
    Step(s, x, w, b, j, t, 0, 0);
    for i := 0 to s.cin
      invariant acc == Partial(s, x, w, b, j, t, i, 0)
    {
      for k := 0 to s.taps
        invariant acc == Partial(s, x, w, b, j, t, i, k)
      {
        Reads(s, inp.Length, |w|, |b|, out, cout, j, t, i, k);
        Step(s, x, w, b, j, t, i, k);
        var wk, xk := w[At(At(j, s.cin, i), s.taps, k)], inp[At(i, s.istride, t + k)];
        assert Get(x, At(i, s.istride, t + k)) == xk && Get(w, At(At(j, s.cin, i), s.taps, k)) == wk;
        assert Partial(s, x, w, b, j, t, i, k + 1) == acc + wk * xk;
        acc := acc + wk * xk;
      }
      Step(s, x, w, b, j, t, i, 0);
    }
  }

  /** One position outside the tiles, for four channels. */
  method SumColumn(s: Shape, out: array<real>, inp: array<real>, w: seq<real>, b: seq<real>, cout: nat, o: nat, t: nat)
    requires Fits(s, inp.Length, |w|, |b|, out.Length, cout) && out != inp
    requires o + 4 <= cout && t < s.len && DoneTo(s, out[..], inp[..], w, b, cout, o, t)
    modifies out
    ensures DoneTo(s, out[..], inp[..], w, b, cout, o, t + 1)
  {
    hide ConvAt, At, Right, Fits;
    FitsOut(s, inp.Length, |w|, |b|, out.Length, cout);
    for j := o to o + 4
      invariant DoneTo(s, out[..], inp[..], w, b, cout, o, t)
      invariant forall c: nat :: o <= c < j ==> Right(s, out[..], inp[..], w, b, c, t)
    {
      var v := SumOne(s, inp, w, b, out.Length, cout, j, t);
      PutRight(s, out, inp[..], w, b, cout, j, t, v);
    }
  }

  /** Tiles as far as they fit, then one position after the other. */
  method Conv(s: Shape, out: array<real>, inp: array<real>, w: seq<real>, b: seq<real>, cout: nat)
    requires Fits(s, inp.Length, |w|, |b|, out.Length, cout) && cout % 4 == 0 && out != inp
    modifies out
    ensures forall c: nat, p: nat :: c < cout && p < s.len ==>
              At(c, s.len, p) < out.Length && out[At(c, s.len, p)] == ConvAt(s, inp[..], w, b, c, p)
  {
    hide ConvAt, At, Right, Fits;
    FitsOut(s, inp.Length, |w|, |b|, out.Length, cout);
    var o := 0;
    while o < cout
      invariant o <= cout && o % 4 == 0 && DoneTo(s, out[..], inp[..], w, b, cout, o, 0)
    {
      var t0 := 0;
      var acc := new real[4, TILE];
      while t0 + TILE <= s.len
        invariant t0 <= s.len && DoneTo(s, out[..], inp[..], w, b, cout, o, t0)
      {
        SumTile(s, inp, w, b, out.Length, cout, acc, o, t0);
        StoreTile(s, out, inp[..], w, b, cout, acc, o, t0);
        t0 := t0 + TILE;
      }
      while t0 < s.len
        invariant t0 <= s.len && DoneTo(s, out[..], inp[..], w, b, cout, o, t0)
      {
        SumColumn(s, out, inp, w, b, cout, o, t0);
        t0 := t0 + 1;
      }
      o := o + 4;
    }
    forall c: nat, p: nat | c < cout && p < s.len
      ensures At(c, s.len, p) < out.Length && out[At(c, s.len, p)] == ConvAt(s, inp[..], w, b, c, p)
    {
      assert Right(s, out[..], inp[..], w, b, c, p);
      RightAt(s, out[..], inp[..], w, b, cout, c, p);
    }
  }

  lemma FitsOut(s: Shape, x: nat, w: nat, b: nat, out: nat, cout: nat)
    requires Fits(s, x, w, b, out, cout)
    ensures out == cout * s.len
  {
  }

  lemma RightAt(s: Shape, out: seq<real>, x: seq<real>, w: seq<real>, b: seq<real>, cout: nat, c: nat, p: nat)
    requires Right(s, out, x, w, b, c, p) && |out| == cout * s.len && c < cout && p < s.len
    ensures At(c, s.len, p) < |out| && out[At(c, s.len, p)] == ConvAt(s, x, w, b, c, p)
  {
    AtBelow(c, cout, s.len, p);
  }

  // ---- The two uses ----

  /** Kernel of one tap: each position on its own. */
  method Conv1x1(out: array<real>, inp: array<real>, w: seq<real>, b: seq<real>, cout: nat, cin: nat, len: nat)
    requires Fits(Shape(cin, 1, len, len), inp.Length, |w|, |b|, out.Length, cout) && cout % 4 == 0 && out != inp
    modifies out
    ensures forall c: nat, p: nat :: c < cout && p < len ==>
              At(c, len, p) < out.Length && out[At(c, len, p)] == ConvAt(Shape(cin, 1, len, len), inp[..], w, b, c, p)
  {
    Conv(Shape(cin, 1, len, len), out, inp, w, b, cout);
  }

  /** Row `i` of the input with a zero before and after it. */
  function Padded(x: seq<real>, len: nat, i: nat, p: nat): real {
    if 1 <= p <= len then Get(x, At(i, len, p - 1)) else 0.0
  }

  /** The same sum over the padded rows. */
  function SameRow(x: seq<real>, w: seq<real>, c: nat, len: nat, o: nat, t: nat, i: nat, k: nat): real {
    if k == 0 then 0.0
    else SameRow(x, w, c, len, o, t, i, k - 1) + Get(w, At(At(o, c, i), 3, k - 1)) * Padded(x, len, i, t + k - 1)
  }

  function SameRows(x: seq<real>, w: seq<real>, c: nat, len: nat, o: nat, t: nat, i: nat): real {
    if i == 0 then 0.0 else SameRows(x, w, c, len, o, t, i - 1) + SameRow(x, w, c, len, o, t, i - 1, 3)
  }

  /** Rows before `i`, and `done` entries of row `i`, are in the scratch space. */
  ghost predicate PadDone(pad: seq<real>, x: seq<real>, len: nat, i: nat, done: nat) {
    forall r: nat, p: nat :: p < len + 2 && (r < i || (r == i && p < done)) ==>
      Get(pad, At(r, len + 2, p)) == Padded(x, len, r, p)
  }

  method PadOne(pad: array<real>, ghost x: seq<real>, c: nat, len: nat, i: nat, p: nat, v: real)
    requires pad.Length == c * (len + 2) && i < c && p < len + 2 && v == Padded(x, len, i, p)
    requires PadDone(pad[..], x, len, i, p)
    modifies pad
    ensures PadDone(pad[..], x, len, i, p + 1)
  {
    AtBelow(i, c, len + 2, p);
    ghost var before := pad[..];
    pad[At(i, len + 2, p)] := v;
    forall r: nat, q: nat | q < len + 2 && (r < i || (r == i && q < p + 1))
      ensures Get(pad[..], At(r, len + 2, q)) == Padded(x, len, r, q)
    {
      if !(r == i && q == p) {
        if At(r, len + 2, q) == At(i, len + 2, p) { AtDistinct(r, len + 2, q, i, p); }
        assert Get(before, At(r, len + 2, q)) == Padded(x, len, r, q);
      }
    }
  }

  method Pad(pad: array<real>, inp: array<real>, c: nat, len: nat)
    requires pad.Length == c * (len + 2) && inp.Length == c * len && pad != inp
    modifies pad
    ensures PadDone(pad[..], inp[..], len, c, 0)
  {
    hide At, PadDone;
    NothingPadded(pad[..], inp[..], len);
    for i := 0 to c
      invariant PadDone(pad[..], inp[..], len, i, 0)
    {
      PadOne(pad, inp[..], c, len, i, 0, 0.0);
      for p := 0 to len
        invariant PadDone(pad[..], inp[..], len, i, p + 1)
      {
        AtBelow(i, c, len, p);
        PadOne(pad, inp[..], c, len, i, p + 1, inp[At(i, len, p)]);
      }
      PadOne(pad, inp[..], c, len, i, len + 1, 0.0);
      RowPadded(pad[..], inp[..], len, i);
    }
  }

  lemma NothingPadded(pad: seq<real>, x: seq<real>, len: nat)
    ensures PadDone(pad, x, len, 0, 0)
  {
  }

  lemma RowPadded(pad: seq<real>, x: seq<real>, len: nat, i: nat)
    requires PadDone(pad, x, len, i, len + 2)
    ensures PadDone(pad, x, len, i + 1, 0)
  {
  }

  lemma {:induction false} PaddedRow(pad: seq<real>, x: seq<real>, w: seq<real>, c: nat, len: nat, o: nat, t: nat,
                                     i: nat, k: nat)
    requires PadDone(pad, x, len, c, 0) && i < c && t < len && k <= 3
    ensures RowSum(Shape(c, 3, len, len + 2), pad, w, o, t, i, k) == SameRow(x, w, c, len, o, t, i, k)
  {
    hide At, Padded;
    if k > 0 {
      PaddedRow(pad, x, w, c, len, o, t, i, k - 1);
      assert Get(pad, At(i, len + 2, t + k - 1)) == Padded(x, len, i, t + k - 1);
    }
  }

  lemma {:induction false} PaddedRows(pad: seq<real>, x: seq<real>, w: seq<real>, c: nat, len: nat, o: nat, t: nat,
                                      i: nat)
    requires PadDone(pad, x, len, c, 0) && i <= c && t < len
    ensures Rows(Shape(c, 3, len, len + 2), pad, w, o, t, i) == SameRows(x, w, c, len, o, t, i)
  {
    if i > 0 {
      PaddedRows(pad, x, w, c, len, o, t, i - 1);
      PaddedRow(pad, x, w, c, len, o, t, i - 1, 3);
    }
  }

  /** One channel's part: the two neighbours and the position itself, as far as the row has them. */
  lemma ThreeTaps(x: seq<real>, w: seq<real>, c: nat, len: nat, o: nat, t: nat, i: nat)
    requires |x| == c * len && |w| == c * c * 3 && o < c && i < c && t < len
    ensures At(i, len, t) < |x| && (t < len - 1 ==> At(i, len, t) + 1 < |x|) && At(At(o, c, i), 3, 0) + 2 < |w|
    ensures var r, k := At(i, len, t), At(At(o, c, i), 3, 0);
            SameRow(x, w, c, len, o, t, i, 3)
            == (if t == 0 then 0.0 else w[k] * x[r - 1]) + w[k + 1] * x[r]
               + (if t == len - 1 then 0.0 else w[k + 2] * x[r + 1])
  {
    hide *;
    TapsAt(w, c, o, i);
    RowAt(x, c, len, i, t);
    SumOfThree(x, w, c, len, o, t, i);
  }

  lemma SumOfThree(x: seq<real>, w: seq<real>, c: nat, len: nat, o: nat, t: nat, i: nat)
    ensures var h := At(o, c, i);
            SameRow(x, w, c, len, o, t, i, 3)
            == Get(w, At(h, 3, 0)) * Padded(x, len, i, t) + Get(w, At(h, 3, 1)) * Padded(x, len, i, t + 1)
               + Get(w, At(h, 3, 2)) * Padded(x, len, i, t + 2)
  {
    hide At, Padded, Get;
    assert SameRow(x, w, c, len, o, t, i, 1) == Get(w, At(At(o, c, i), 3, 0)) * Padded(x, len, i, t);
  }

  lemma TapsAt(w: seq<real>, c: nat, o: nat, i: nat)
    requires |w| == c * c * 3 && o < c && i < c
    ensures var h, k := At(o, c, i), At(At(o, c, i), 3, 0);
            && k + 2 < |w| && Get(w, k) == w[k] && Get(w, At(h, 3, 1)) == w[k + 1]
            && Get(w, At(h, 3, 2)) == w[k + 2]
  {
    AtBelow(o, c, c, i);
  }

  lemma RowAt(x: seq<real>, c: nat, len: nat, i: nat, t: nat)
    requires |x| == c * len && i < c && t < len
    ensures At(i, len, t) < |x| && (t < len - 1 ==> At(i, len, t) + 1 < |x|)
    ensures var r := At(i, len, t);
            && Padded(x, len, i, t) == (if t == 0 then 0.0 else x[r - 1]) && Padded(x, len, i, t + 1) == x[r]
            && Padded(x, len, i, t + 2) == if t == len - 1 then 0.0 else x[r + 1]
  {
    AtBelow(i, c, len, t);
    if t + 1 < len { AtBelow(i, c, len, t + 1); }
  }

  /** Three taps over the zero-padded input; the output may be the input itself. */
  method Conv3(out: array<real>, inp: array<real>, w: seq<real>, b: seq<real>, c: nat, len: nat, pad: array<real>)
    requires out.Length == c * len == inp.Length && |w| == c * c * 3 && |b| == c && c % 4 == 0
    requires pad.Length == c * (len + 2) && pad != inp && pad != out
    modifies out, pad
    ensures forall o: nat, p: nat :: o < c && p < len ==>
              At(o, len, p) < out.Length
              && out[At(o, len, p)] == Get(b, o) + SameRows(old(inp[..]), w, c, len, o, p, c)
  {
    ghost var x := inp[..];
    Pad(pad, inp, c, len);
    if c > 0 { AtBelow(c - 1, c, len + 2, len + 1); }
    var s := Shape(c, 3, len, len + 2);
    Conv(s, out, pad, w, b, c);
    hide At, ConvAt, PadDone;
    forall o: nat, p: nat | o < c && p < len
      ensures At(o, len, p) < out.Length && out[At(o, len, p)] == Get(b, o) + SameRows(x, w, c, len, o, p, c)
    {
      PaddedRows(pad[..], x, w, c, len, o, p, c);
      ConvIs(s, pad[..], w, b, o, p);
    }
  }

  lemma ConvIs(s: Shape, x: seq<real>, w: seq<real>, b: seq<real>, o: nat, t: nat)
    ensures ConvAt(s, x, w, b, o, t) == Get(b, o) + Rows(s, x, w, o, t, s.cin)
  {
  }
}
