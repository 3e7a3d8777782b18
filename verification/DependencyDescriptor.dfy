/** The parser of the AV1 dependency descriptor, which keeps the last structure it has seen. */
module DependencyDescriptors {
  import opened Arith
  import opened Basics
  import opened BitStrings
  import opened BitReading

  /** Template ids have six bits. */
  const MAX_TEMPLATES: nat := 64

  datatype Template = Template(temporal: nat, fdiffs: seq<nat>, chainDiffs: seq<nat>)

  datatype Structure = Structure(templateIdOffset: nat, numDecodeTargets: nat, numChains: nat, templates: seq<Template>)

  /** What parsing gives for one packet. */
  datatype Descriptor = Descriptor(frameNumber: nat, temporalLayer: nat, isKeyframe: bool, attachesStructure: bool,
                                   chainDiffs: seq<nat>)
  {
    /** The widths of the fields. */
    ghost predicate Valid() {
      frameNumber < 0x1_0000 && forall k :: 0 <= k < |chainDiffs| ==> chainDiffs[k] < 256
    }
  }

  // ---- Several of a kind ----

  function Prefixed<T>(done: seq<T>, t: Taken<seq<T>>): Taken<seq<T>> {
    var (more, s) :- t;
    Success((done + more, s))
  }

  /** `count` numbers of `width` bits each. */
  function TakeMany(s: seq<bool>, count: nat, width: nat): (t: Taken<seq<nat>>)
    ensures t.Success? ==> |t.value.0| == count
    ensures t.Failure? ==> t.error == Eof
    decreases count
  {
    if count == 0 then Success(([], s))
    else
      var (v, s) :- TakeBits(s, width);
      Prefixed([v], TakeMany(s, count - 1, width))
  }

  /** `count` numbers below `n`. */
  function TakeManyNs(s: seq<bool>, count: nat, n: nat): (t: Taken<seq<nat>>)
    ensures t.Success? ==> |t.value.0| == count
    decreases count
  {
    if count == 0 then Success(([], s))
    else
      var (v, s) :- TakeNs(s, n);
      Prefixed([v], TakeManyNs(s, count - 1, n))
  }

  /** Frame differences, each announced by a set bit. */
  function TakeFdiffs(s: seq<bool>): Taken<seq<nat>>
    decreases |s|
  {
    var (follows, s) :- TakeBool(s);
    if !follows then Success(([], s))
    else
      var (v, s) :- TakeBits(s, 4);
      Prefixed<nat>([v + 1], TakeFdiffs(s))
  }

  /** Those of `count` templates. */
  function TakeAllFdiffs(s: seq<bool>, count: nat): (t: Taken<seq<seq<nat>>>)
    ensures t.Success? ==> |t.value.0| == count
    decreases count
  {
    if count == 0 then Success(([], s))
    else
      var (f, s) :- TakeFdiffs(s);
      Prefixed([f], TakeAllFdiffs(s, count - 1))
  }

  /** Chain differences of `count` templates. */
  function TakeAllChains(s: seq<bool>, count: nat, chains: nat): (t: Taken<seq<seq<nat>>>)
    ensures t.Success? ==> |t.value.0| == count
    decreases count
  {
    if count == 0 then Success(([], s))
    else
      var (c, s) :- TakeMany(s, chains, 4);
      Prefixed([c], TakeAllChains(s, count - 1, chains))
  }

  /** Frame differences of a packet's own, each preceded by its size in groups of four bits. */
  function TakeSized(s: seq<bool>): (t: Taken<nat>)
    ensures t.Failure? ==> t.error == Eof
    decreases |s|
  {
    var (size, s) :- TakeBits(s, 2);
    if size == 0 then Success((0, s))
    else
      var (_, s) :- TakeBits(s, 4 * size);
      var (n, s) :- TakeSized(s);
      Success((n + 1, s))
  }

  // ---- The structure ----

  /** The temporal layers of the templates from the current one on, and the last spatial layer. */
  function TakeLayers(s: seq<bool>, done: nat, spatial: nat, temporal: nat): (t: Taken<(seq<nat>, nat)>)
    ensures t.Success? ==> |t.value.0.0| > 0
    decreases |s|
  {
    if done >= MAX_TEMPLATES then Failure(TooManyTemplates)
    else
      var (idc, s) :- TakeBits(s, 2);
      var spatial' := if idc == 2 then spatial + 1 else spatial;
      var temporal' := if idc == 1 then temporal + 1 else if idc == 2 then 0 else temporal;
      if idc == 3 || s == [] then Success((([temporal], spatial'), s))
      else
        var ((more, last), s) :- TakeLayers(s, done + 1, spatial', temporal');
        Success((([temporal] + more, last), s))
  }

  function NoChains(count: nat): (c: seq<seq<nat>>)
    ensures |c| == count && forall i :: 0 <= i < count ==> c[i] == []
  {
    seq(count, _ => [])
  }

  /** The number of chains, and each template's differences in them. */
  function TakeChains(s: seq<bool>, targets: nat, count: nat): (t: Taken<(nat, seq<seq<nat>>)>)
    ensures t.Success? ==> |t.value.0.1| == count
  {
    var (n, s) :- TakeNs(s, targets + 1);
    if n == 0 then Success(((0, NoChains(count)), s))
    else
      var (_, s) :- TakeManyNs(s, targets, n);
      var (chains, s) :- TakeAllChains(s, count, n);
      Success(((n, chains), s))
  }

  function Templates(temporals: seq<nat>, fdiffs: seq<seq<nat>>, chains: seq<seq<nat>>): (t: seq<Template>)
    requires |temporals| == |fdiffs| == |chains|
    ensures |t| == |temporals|
  {
    seq(|temporals|, i requires 0 <= i < |temporals| => Template(temporals[i], fdiffs[i], chains[i]))
  }

  function TakeStructure(s: seq<bool>): Taken<Structure> {
    var (offset, s) :- TakeBits(s, 6);
    var (dt, s) :- TakeBits(s, 5);
    var ((temporals, spatial), s) :- TakeLayers(s, 0, 0, 0);
    var (_, s) :- TakeMany(s, |temporals| * (dt + 1), 2);
    var (fdiffs, s) :- TakeAllFdiffs(s, |temporals|);
    var ((n, chains), s) :- TakeChains(s, dt + 1, |temporals|);
    var (sized, s) :- TakeBool(s);
    var (_, s) :- TakeMany(s, if sized then 2 * (spatial + 1) else 0, 16);
    Success((Structure(offset, dt + 1, n, Templates(temporals, fdiffs, chains)), s))
  }

  // ---- The packet ----

  datatype Header = Header(templateId: nat, frameNumber: nat, activeTargets: bool, customDtis: bool, customFdiffs: bool,
                           customChains: bool, attached: Option<Structure>)

  /** The fixed fields and, in an extension of more than three bytes, the flags and the
      structure they announce. */
  function TakeHeader(s: seq<bool>, extended: bool): Taken<Header> {
    var (_, s) :- TakeBits(s, 2);
    var (id, s) :- TakeBits(s, 6);
    var (frame, s) :- TakeBits(s, 16);
    if !extended then Success((Header(id, frame, false, false, false, false, None), s))
    else
      var (present, s) :- TakeBool(s);
      var (active, s) :- TakeBool(s);
      var (dtis, s) :- TakeBool(s);
      var (fdiffs, s) :- TakeBool(s);
      var (chains, s) :- TakeBool(s);
      if !present then Success((Header(id, frame, active, dtis, fdiffs, chains, None), s))
      else
        var (structure, s) :- TakeStructure(s);
        Success((Header(id, frame, active, dtis, fdiffs, chains, Some(structure)), s))
  }

  /** The rest of the packet, read with the structure now in effect. */
  function TakeBody(s: seq<bool>, h: Header, st: Structure): Taken<Descriptor> {
    var (_, s) :- TakeBits(s, if h.activeTargets then st.numDecodeTargets else 0);
    var i := (h.templateId + MAX_TEMPLATES - st.templateIdOffset) % MAX_TEMPLATES;
    if i >= |st.templates| then Failure(InvalidTemplate)
    else
      var t := st.templates[i];
      var (_, s) :- TakeMany(s, if h.customDtis then st.numDecodeTargets else 0, 2);
      var (n, s) :- if h.customFdiffs then TakeSized(s) else Success((|t.fdiffs|, s));
      var (chains, s) :- if h.customChains then TakeMany(s, st.numChains, 8) else Success((t.chainDiffs, s));
      Success((Descriptor(h.frameNumber, t.temporal, n == 0, h.attached.Some?, chains), s))
  }

  /** The structure kept after a packet, and what the packet means. */
  function Parsed(st: Option<Structure>, ext: seq<Byte>): (Option<Structure>, Outcome<Option<Descriptor>>) {
    if ext == [] then (st, Success(None))
    else
      var h := TakeHeader(Bits(ext), |ext| > 3);
      if h.Failure? then (st, Failure(h.error))
      else
        var st' := if h.value.0.attached.Some? then h.value.0.attached else st;
        if st'.None? then (st', Failure(NoStructure))
        else
          var d := TakeBody(h.value.1, h.value.0, st'.value);
          (st', if d.Failure? then Failure(d.error) else Success(Some(d.value.0)))
  }

  // ---- Packets read with the structure of an earlier one ----

  /** The number packets give for a template. */
  function TemplateId(st: Structure, k: nat): nat {
    (st.templateIdOffset + k) % MAX_TEMPLATES
  }

  ghost predicate Known(st: Structure, id: nat) {
    exists k :: 0 <= k < |st.templates| && TemplateId(st, k) == id
  }

  /** The flags of a packet of more than three bytes: structure attached, decode targets sent. */
  predicate Attaches(ext: seq<Byte>) {
    |ext| > 3 && ext[3] >= 128
  }

  predicate SendsTargets(ext: seq<Byte>) {
    |ext| > 3 && ext[3] / 64 % 2 == 1
  }

  lemma ByteParts(c: Byte)
    ensures Value(ByteBits(c)) == c
    ensures Value(ByteBits(c)[2..8]) == c % 64
    ensures ByteBits(c)[0] <==> c >= 128
    ensures ByteBits(c)[1] <==> c / 64 % 2 == 1
  {
    hide BitsOf, Value, Pow2;
    EightBits();
    ValueOfBits(c, 8);
    assert Pow2(0) == 1 && Pow2(1) == 2 && Pow2(6) == 64 && Pow2(7) == 128 by { SmallPow2(); }
    var b := ByteBits(c);
    ShiftMask(b, 2, 6);
    ShiftMask(b, 0, 1);
    ShiftMask(b, 1, 1);
    OneBit(b[0..1]);
    OneBit(b[1..2]);
  }

  lemma SmallPow2()
    ensures Pow2(0) == 1 && Pow2(1) == 2 && Pow2(6) == 64 && Pow2(7) == 128
  {
    assert Pow2(4) == 16;
    Pow2Add(4, 2);
    Pow2Add(4, 3);
  }

  lemma OneBit(b: seq<bool>)
    requires |b| == 1
    ensures Value(b) == if b[0] then 1 else 0
  {
  }

  /** Byte `k` of a buffer, by its bits. */
  lemma ByteAt(ext: seq<Byte>, k: nat)
    requires k < |ext|
    ensures var b := Bits(ext)[8 * k..8 * k + 8];
            && Value(b) == ext[k] && Value(b[2..8]) == ext[k] % 64
            && (b[0] <==> ext[k] >= 128) && (b[1] <==> ext[k] / 64 % 2 == 1)
  {
    hide Bits, ByteBits, Value;
    BitsAt(ext, k);
    ByteParts(ext[k]);
  }

  /** The fixed fields, taken off the bytes. */
  lemma FixedTaken(ext: seq<Byte>)
    requires |ext| >= 3
    ensures var b, ends := Bits(ext), Value(Bits(ext)[..2]);
            && TakeBits(b, 2) == Success((ends, b[2..]))
            && TakeBits(b[2..], 6) == Success(((ext[0] % 64) as nat, b[8..]))
            && TakeBits(b[8..], 16) == Success((256 * (ext[1] as int) + ext[2], b[24..]))
  {
    hide Bits, Value, Pow2;
    var b := Bits(ext);
    ByteAt(ext, 0);
    assert b[2..][..6] == b[0..8][2..8] && b[2..][6..] == b[8..];
    WordAt(ext);
  }

  lemma WordAt(ext: seq<Byte>)
    requires |ext| >= 3
    ensures var b := Bits(ext); TakeBits(b[8..], 16) == Success((256 * (ext[1] as int) + ext[2], b[24..]))
  {
    hide Bits, Value, Pow2;
    var b := Bits(ext);
    ByteAt(ext, 1);
    ByteAt(ext, 2);
    assert b[8..][..16] == b[8..16] + b[16..24] && b[8..][16..] == b[24..];
    ValueConcat(b[8..16], b[16..24]);
    EightBits();
  }

  /** The five flags after them. */
  lemma FlagsTaken(ext: seq<Byte>)
    requires |ext| > 3
    ensures var b := Bits(ext);
            && TakeBool(b[24..]) == Success((Attaches(ext), b[25..]))
            && TakeBool(b[25..]) == Success((SendsTargets(ext), b[26..]))
            && TakeBool(b[26..]) == Success((b[26], b[27..])) && TakeBool(b[27..]) == Success((b[27], b[28..]))
            && TakeBool(b[28..]) == Success((b[28], b[29..]))
  {
    hide Bits, Value;
    var b := Bits(ext);
    ByteAt(ext, 3);
    assert b[24] == b[24..32][0] && b[25] == b[24..32][1];
    hide Attaches, SendsTargets;
  }

  /** The header of a packet, with the structure that its flags announce. */
  lemma HeaderTaken(ext: seq<Byte>)
    requires |ext| >= 3
    ensures var h, b := TakeHeader(Bits(ext), |ext| > 3), Bits(ext);
            if !Attaches(ext) then
              && h.Success? && h.value.1 == (if |ext| > 3 then b[29..] else b[24..])
              && h.value.0.templateId == ext[0] % 64 && h.value.0.frameNumber == 256 * (ext[1] as int) + ext[2]
              && h.value.0.attached == None && (h.value.0.activeTargets <==> SendsTargets(ext))
            else
              match TakeStructure(b[29..])
              case Failure(e) => h == Failure(e)
              case Success((st, rest)) =>
                h.Success? && h.value.0.attached == Some(st) && h.value.0.templateId == ext[0] % 64
  {
    hide Bits, Value, TakeStructure, TakeBits, TakeBool, Pow2;
    FixedTaken(ext);
    if |ext| > 3 {
      FlagsTaken(ext);
      hide SendsTargets, Attaches;
    }
  }

  /** A packet that brings no structure leaves the one kept as it is. It is refused if it is cut off
      in its fixed fields, if none has been kept, and if the one kept has no template of its number. */
  lemma NeedsTemplate(st: Option<Structure>, ext: seq<Byte>)
    requires ext != [] && !Attaches(ext)
    ensures var (st', r) := Parsed(st, ext);
            && st' == st
            && (r == Failure(NoStructure) <==> |ext| >= 3 && st == None)
            && (r == Failure(InvalidTemplate) <==>
                  && |ext| >= 3 && st.Some? && !Known(st.value, ext[0] % 64)
                  && (SendsTargets(ext) ==> 29 + st.value.numDecodeTargets <= 8 * |ext|))
            && (r.Success? ==>
                  && |ext| >= 3 && st.Some? && Known(st.value, ext[0] % 64) && r.value.Some?
                  && r.value.value.frameNumber == 256 * (ext[1] as int) + ext[2] && !r.value.value.attachesStructure)
  {
    hide TakeBits, TakeHeader, TakeBody, Bits;
    if |ext| < 3 {
      CutOff(ext);
    } else {
      HeaderTaken(ext);
      if st.Some? {
        var h := TakeHeader(Bits(ext), |ext| > 3).value;
        TemplateLookup(h.1, h.0, st.value);
      }
    }
  }

  lemma CutOff(ext: seq<Byte>)
    requires |ext| < 3
    ensures TakeHeader(Bits(ext), false) == Failure(Eof)
  {
    hide Bits, Value;
  }

  lemma KnownIndex(st: Structure, id: nat)
    requires id < MAX_TEMPLATES
    ensures Known(st, id) <==> (id + MAX_TEMPLATES - st.templateIdOffset) % MAX_TEMPLATES < |st.templates|
  {
    var i := (id + MAX_TEMPLATES - st.templateIdOffset) % MAX_TEMPLATES;
    assert TemplateId(st, i) == id;
    if k :| 0 <= k < |st.templates| && TemplateId(st, k) == id {
      var q := (st.templateIdOffset + k) / MAX_TEMPLATES;
      assert id + MAX_TEMPLATES - st.templateIdOffset == MAX_TEMPLATES * (1 - q) + k;
      assert i == k % MAX_TEMPLATES;
    }
  }

  /** What the body fails with, and what it takes over from the header. */
  lemma TemplateLookup(s: seq<bool>, h: Header, st: Structure)
    requires h.templateId < MAX_TEMPLATES
    ensures var d := TakeBody(s, h, st);
            && d != Failure(NoStructure)
            && (d == Failure(InvalidTemplate) <==>
                  !Known(st, h.templateId) && (h.activeTargets ==> st.numDecodeTargets <= |s|))
            && (d.Success? ==> Known(st, h.templateId) && d.value.0.frameNumber == h.frameNumber
                               && (d.value.0.attachesStructure <==> h.attached.Some?))
  {
    hide TakeMany, TakeSized, Known, Value;
    KnownIndex(st, h.templateId);
  }

  // ---- The widths of what comes out, whatever goes in ----

  ghost predicate Below(vs: seq<nat>, n: nat) {
    forall i :: 0 <= i < |vs| ==> vs[i] < n
  }

  ghost predicate AllBelow(vs: seq<seq<nat>>, n: nat) {
    forall i :: 0 <= i < |vs| ==> Below(vs[i], n)
  }

  ghost predicate InRange(st: Structure) {
    forall i :: 0 <= i < |st.templates| ==> Below(st.templates[i].chainDiffs, 16)
  }

  lemma TakenBelow(s: seq<bool>, n: nat)
    ensures TakeBits(s, n).Success? ==> TakeBits(s, n).value.0 < Pow2(n)
  {
    if n <= |s| { BitsOfValue(s[..n]); }
  }

  lemma {:induction false} ManyBelow(s: seq<bool>, count: nat, width: nat)
    ensures TakeMany(s, count, width).Success? ==> Below(TakeMany(s, count, width).value.0, Pow2(width))
    decreases count
  {
    hide TakeBits;
    var t := TakeBits(s, width);
    if count > 0 && t.Success? {
      TakenBelow(s, width);
      ManyBelow(t.value.1, count - 1, width);
    }
  }

  lemma {:induction false} ChainsBelow(s: seq<bool>, count: nat, chains: nat)
    ensures TakeAllChains(s, count, chains).Success? ==> AllBelow(TakeAllChains(s, count, chains).value.0, 16)
    decreases count
  {
    hide TakeMany, Below;
    var t := TakeMany(s, chains, 4);
    if count > 0 && t.Success? {
      assert Pow2(4) == 16;
      ManyBelow(s, chains, 4);
      ChainsBelow(t.value.1, count - 1, chains);
    }
  }

  lemma ChainPartBelow(s: seq<bool>, targets: nat, count: nat)
    ensures TakeChains(s, targets, count).Success? ==> AllBelow(TakeChains(s, targets, count).value.0.1, 16)
  {
    hide TakeNs, TakeManyNs, TakeAllChains;
    var n := TakeNs(s, targets + 1);
    if n.Success? && n.value.0 > 0 {
      var shields := TakeManyNs(n.value.1, targets, n.value.0);
      if shields.Success? { ChainsBelow(shields.value.1, count, n.value.0); }
    }
  }

  lemma StructureBelow(s: seq<bool>)
    ensures TakeStructure(s).Success? ==> InRange(TakeStructure(s).value.0)
  {
    hide TakeBits, TakeMany, TakeAllFdiffs, TakeLayers, TakeChains, TakeBool, Below;
    if TakeStructure(s).Success? {
      var (dt, a) := TakeBits(TakeBits(s, 6).value.1, 5).value;
      var ((temporals, _), b) := TakeLayers(a, 0, 0, 0).value;
      var c := TakeMany(b, |temporals| * (dt + 1), 2).value.1;
      ChainPartBelow(TakeAllFdiffs(c, |temporals|).value.1, dt + 1, |temporals|);
    }
  }

  lemma HeaderBelow(s: seq<bool>, extended: bool)
    ensures var h := TakeHeader(s, extended);
            h.Success? ==> h.value.0.frameNumber < 0x1_0000
                           && (h.value.0.attached.Some? ==> InRange(h.value.0.attached.value))
  {
    hide TakeBits, TakeBool, TakeStructure, InRange, Pow2;
    SixteenBits();
    if TakeHeader(s, extended).Success? {
      var frame := TakeBits(TakeBits(s, 2).value.1, 6).value.1;
      TakenBelow(frame, 16);
      if extended {
        var a := TakeBool(TakeBits(frame, 16).value.1).value.1;
        var b := TakeBool(TakeBool(a).value.1).value.1;
        StructureBelow(TakeBool(TakeBool(b).value.1).value.1);
      }
    }
  }

  lemma SixteenBits()
    ensures Pow2(16) == 0x1_0000
  {
    EightBits();
    Pow2Add(8, 8);
  }

  lemma BodyBelow(s: seq<bool>, h: Header, st: Structure)
    requires InRange(st) && h.frameNumber < 0x1_0000
    ensures TakeBody(s, h, st).Success? ==> TakeBody(s, h, st).value.0.Valid()
  {
    hide TakeBits, TakeMany, TakeSized;
    EightBits();
    if TakeBody(s, h, st).Success? {
      var a := TakeBits(s, if h.activeTargets then st.numDecodeTargets else 0).value.1;
      var t := st.templates[(h.templateId + MAX_TEMPLATES - st.templateIdOffset) % MAX_TEMPLATES];
      assert Below(t.chainDiffs, 16);
      var b := TakeMany(a, if h.customDtis then st.numDecodeTargets else 0, 2).value.1;
      ManyBelow(if h.customFdiffs then TakeSized(b).value.1 else b, st.numChains, 8);
    }
  }

  /** Whatever the bytes, a descriptor that comes out has fields of their width. */
  lemma ParsedInRange(st: Option<Structure>, ext: seq<Byte>)
    requires st.Some? ==> InRange(st.value)
    ensures var (st', r) := Parsed(st, ext);
            (st'.Some? ==> InRange(st'.value)) && (r.Success? && r.value.Some? ==> r.value.value.Valid())
  {
    hide TakeHeader, TakeBody, InRange, Descriptor.Valid;
    if ext != [] {
      var h := TakeHeader(Bits(ext), |ext| > 3);
      HeaderBelow(Bits(ext), |ext| > 3);
      if h.Success? {
        var st' := if h.value.0.attached.Some? then h.value.0.attached else st;
        if st'.Some? { BodyBelow(h.value.1, h.value.0, st'.value); }
      }
    }
  }
}
