/** What the encoder writes, the parser reads back. */
module DescriptorRoundTrip {
  import opened Arith
  import opened Basics
  import opened BitStrings
  import opened BitReading
  import opened DependencyDescriptors
  import opened DescriptorEncoding

  lemma BitsBack(v: nat, n: nat, rest: seq<bool>)
    requires v < Pow2(n)
    ensures TakeBits(BitsOf(v, n) + rest, n) == Success((v, rest))
  {
    TakeBitsExactly(BitsOf(v, n) + rest, n, v, rest);
  }

  lemma BoolBack(b: bool, rest: seq<bool>)
    ensures TakeBool([b] + rest) == Success((b, rest))
  {
  }

  lemma {:induction false} ManyMore(vs: seq<nat>, m: nat, width: nat, rest: seq<bool>)
    requires Below(vs, Pow2(width))
    ensures TakeMany(PutMany(vs, width, rest), |vs| + m, width) == Prefixed(vs, TakeMany(rest, m, width))
  {
    hide TakeBits, BitsOf;
    var t := TakeMany(rest, m, width);
    if vs == [] {
      if t.Success? { assert [] + t.value.0 == t.value.0; }
    } else {
      BitsBack(vs[0], width, PutMany(vs[1..], width, rest));
      ManyMore(vs[1..], m, width, rest);
      if t.Success? { assert [vs[0]] + (vs[1..] + t.value.0) == vs + t.value.0; }
    }
  }

  lemma ManyBack(vs: seq<nat>, width: nat, rest: seq<bool>)
    requires Below(vs, Pow2(width))
    ensures TakeMany(PutMany(vs, width, rest), |vs|, width) == Success((vs, rest))
  {
    ManyMore(vs, 0, width, rest);
    assert vs + [] == vs;
  }

  lemma {:induction false} ManyNsBack(vs: seq<nat>, n: nat, rest: seq<bool>)
    requires n > 0 && Below(vs, n)
    ensures TakeManyNs(PutManyNs(vs, n, rest), |vs|, n) == Success((vs, rest))
  {
    hide TakeNs, NsBits;
    if vs != [] {
      var tail := PutManyNs(vs[1..], n, rest);
      NsExactly(NsBits(vs[0], n) + tail, n, vs[0], tail);
      ManyNsBack(vs[1..], n, rest);
      assert [vs[0]] + vs[1..] == vs;
    }
  }

  lemma {:induction false} FdiffsBack(fs: seq<nat>, rest: seq<bool>)
    requires forall i :: 0 <= i < |fs| ==> 1 <= fs[i] <= 16
    ensures TakeFdiffs(PutFdiffs(fs, rest)) == Success((fs, rest))
  {
    hide TakeBits, TakeBool, BitsOf;
    if fs == [] {
      BoolBack(false, rest);
    } else {
      var tail := PutFdiffs(fs[1..], rest);
      BoolBack(true, BitsOf(fs[0] - 1, 4) + tail);
      assert Pow2(4) == 16;
      BitsBack(fs[0] - 1, 4, tail);
      FdiffsBack(fs[1..], rest);
      assert [fs[0]] + fs[1..] == fs;
    }
  }

  function Fdiffs(ts: seq<FrameTemplate>): seq<seq<nat>> {
    seq(|ts|, i requires 0 <= i < |ts| => ts[i].fdiffs)
  }

  function Chains(ts: seq<FrameTemplate>): seq<seq<nat>> {
    seq(|ts|, i requires 0 <= i < |ts| => ts[i].chains)
  }

  function Temporals(ts: seq<FrameTemplate>): seq<nat> {
    seq(|ts|, i requires 0 <= i < |ts| => ts[i].temporal)
  }

  lemma {:induction false} AllFdiffsBack(ts: seq<FrameTemplate>, rest: seq<bool>)
    requires forall i :: 0 <= i < |ts| ==> forall j :: 0 <= j < |ts[i].fdiffs| ==> 1 <= ts[i].fdiffs[j] <= 16
    ensures TakeAllFdiffs(PutAllFdiffs(ts, rest), |ts|) == Success((Fdiffs(ts), rest))
  {
    hide TakeFdiffs, PutFdiffs;
    if ts == [] {
      assert Fdiffs(ts) == [];
    } else {
      FdiffsBack(ts[0].fdiffs, PutAllFdiffs(ts[1..], rest));
      AllFdiffsBack(ts[1..], rest);
      assert [ts[0].fdiffs] + Fdiffs(ts[1..]) == Fdiffs(ts);
    }
  }

  lemma {:induction false} AllChainsBack(ts: seq<FrameTemplate>, chains: nat, rest: seq<bool>)
    requires forall i :: 0 <= i < |ts| ==> |ts[i].chains| == chains && Below(ts[i].chains, 16)
    ensures TakeAllChains(PutAllChains(ts, rest), |ts|, chains) == Success((Chains(ts), rest))
  {
    hide TakeMany, PutMany;
    if ts != [] {
      assert Pow2(4) == 16;
      ManyBack(ts[0].chains, 4, PutAllChains(ts[1..], rest));
      AllChainsBack(ts[1..], chains, rest);
      assert [ts[0].chains] + Chains(ts[1..]) == Chains(ts);
    }
  }

  lemma {:induction false} DtisBack(ts: seq<FrameTemplate>, targets: nat, rest: seq<bool>)
    requires forall i :: 0 <= i < |ts| ==> |ts[i].dtis| == targets && Below(ts[i].dtis, 4)
    ensures var t := TakeMany(PutDtis(ts, rest), |ts| * targets, 2); t.Success? && t.value.1 == rest
  {
    hide TakeMany, PutMany;
    if ts == [] {
      ManyBack([], 2, rest);
      NothingPut(2, rest);
    } else {
      DtisBack(ts[1..], targets, rest);
      assert Pow2(2) == 4;
      ManyMore(ts[0].dtis, |ts[1..]| * targets, 2, PutDtis(ts[1..], rest));
      Distrib(targets, |ts[1..]|, 1);
      assert |ts| * targets == |ts[0].dtis| + |ts[1..]| * targets;
    }
  }

  lemma NothingPut(width: nat, rest: seq<bool>)
    ensures PutMany([], width, rest) == rest && TakeMany(rest, 0, width) == Success(([], rest))
  {
  }

  lemma {:induction false} SizedBack(fs: seq<(nat, nat)>, rest: seq<bool>)
    requires forall i :: 0 <= i < |fs| ==> SizedOk(fs[i])
    ensures TakeSized(PutSized(fs, rest)) == Success((|fs|, rest))
  {
    hide TakeBits, BitsOf;
    assert Pow2(2) == 4;
    if fs == [] {
      BitsBack(0, 2, rest);
    } else {
      var tail := PutSized(fs[1..], rest);
      BitsBack(fs[0].0, 2, BitsOf(fs[0].1, 4 * fs[0].0) + tail);
      BitsBack(fs[0].1, 4 * fs[0].0, tail);
      SizedBack(fs[1..], rest);
    }
  }

  lemma {:induction false} SizesBack(sizes: seq<(nat, nat)>, rest: seq<bool>)
    requires forall i :: 0 <= i < |sizes| ==> sizes[i].0 < 65536 && sizes[i].1 < 65536
    ensures var t := TakeMany(PutSizes(sizes, rest), 2 * |sizes|, 16); t.Success? && t.value.1 == rest
  {
    hide TakeBits, BitsOf;
    if sizes != [] {
      SmallPowers();
      var tail := PutSizes(sizes[1..], rest);
      BitsBack(sizes[0].0, 16, BitsOf(sizes[0].1, 16) + tail);
      BitsBack(sizes[0].1, 16, tail);
      SizesBack(sizes[1..], rest);
    }
  }

  lemma {:induction false} LayersBack(ts: seq<FrameTemplate>, done: nat, rest: seq<bool>)
    requires ts != [] && InOrder(ts) && done + |ts| <= MAX_TEMPLATES
    ensures TakeLayers(PutLayers(ts, rest), done, ts[0].spatial, ts[0].temporal)
            == Success(((Temporals(ts), ts[|ts| - 1].spatial), rest))
  {
    hide TakeBits, BitsOf;
    assert Pow2(2) == 4;
    if |ts| == 1 {
      BitsBack(3, 2, rest);
      assert Temporals(ts) == [ts[0].temporal];
    } else {
      var idc, tail := LayerStepIdc(ts[0], ts[1]), PutLayers(ts[1..], rest);
      assert Follows(ts[0], ts[1]);
      BitsBack(idc, 2, tail);
      assert InOrder(ts[1..]) by {
        forall i, j | 0 <= i && j == i + 1 < |ts[1..]|
          ensures Follows(ts[1..][i], ts[1..][j])
        {
          assert Follows(ts[i + 1], ts[j + 1]);
        }
      }
      LayersBack(ts[1..], done + 1, rest);
      assert tail != [];
      assert Temporals(ts) == [ts[0].temporal] + Temporals(ts[1..]);
    }
  }

  lemma ChainsBack(s: FrameStructure, rest: seq<bool>)
    requires StructureOk(s)
    ensures TakeChains(PutChains(s, rest), s.targets, |s.templates|) == Success(((s.chains, Chains(s.templates)), rest))
  {
    hide TakeNs, NsBits, TakeManyNs, PutManyNs, TakeAllChains, PutAllChains, InOrder;
    assert forall i :: 0 <= i < |s.templates| ==> TemplateOk(s.templates[i], s.targets, s.chains);
    var all := PutAllChains(s.templates, rest);
    var tail := if s.chains == 0 then rest else PutManyNs(s.protectors, s.chains, all);
    NsExactly(NsBits(s.chains, s.targets + 1) + tail, s.targets + 1, s.chains, tail);
    if s.chains > 0 {
      ManyNsBack(s.protectors, s.chains, all);
      AllChainsBack(s.templates, s.chains, rest);
    } else {
      assert forall i :: 0 <= i < |s.templates| ==> s.templates[i].chains == [];
      assert Chains(s.templates) == NoChains(|s.templates|);
    }
  }

  lemma StructureBack(s: FrameStructure, rest: seq<bool>)
    requires StructureOk(s)
    ensures TakeStructure(PutStructure(s, rest)) == Success((MeaningOf(s), rest))
  {
    hide TakeBits, BitsOf, TakeBool, TakeMany, TakeLayers, PutLayers, PutDtis, TakeAllFdiffs, PutAllFdiffs, TakeChains,
         PutChains, PutSizes, InOrder, Pow2, Templates, Fdiffs, Chains, Temporals;
    SmallPowers();
    MeaningTemplates(s);
    var ts, n := s.templates, |s.templates|;
    assert forall i :: 0 <= i < n ==> TemplateOk(ts[i], s.targets, s.chains);
    var e := if s.sizes.Some? then PutSizes(s.sizes.value, rest) else rest;
    var d := [s.sizes.Some?] + e;
    var c := PutChains(s, d);
    var b := PutAllFdiffs(ts, c);
    var a := PutDtis(ts, b);
    BitsBack(s.offset, 6, BitsOf(s.targets - 1, 5) + PutLayers(ts, a));
    BitsBack(s.targets - 1, 5, PutLayers(ts, a));
    LayersBack(ts, 0, a);
    DtisBack(ts, s.targets, b);
    AllFdiffsBack(ts, c);
    ChainsBack(s, d);
    BoolBack(s.sizes.Some?, e);
    if s.sizes.Some? { SizesBack(s.sizes.value, rest); } else { NothingPut(16, rest); }
  }

  lemma MeaningTemplates(s: FrameStructure)
    ensures Templates(Temporals(s.templates), Fdiffs(s.templates), Chains(s.templates)) == MeaningOf(s).templates
    ensures |Temporals(s.templates)| == |s.templates|
  {
  }

  lemma SmallPowers()
    ensures Pow2(2) == 4 && Pow2(4) == 16 && Pow2(5) == 32 && Pow2(6) == 64 && Pow2(8) == 256 && Pow2(16) == 65536
  {
    assert Pow2(4) == 16;
    EightBits();
    Pow2Add(8, 8);
  }

  lemma BodyBack(p: Packet, s: FrameStructure, h: Header, rest: seq<bool>)
    requires PacketOk(p, s) && h.templateId == (s.offset + p.template) % 64 && h.frameNumber == p.frameNumber
    requires h.activeTargets == p.activeTargets.Some? && h.customDtis == p.dtis.Some?
    requires h.customFdiffs == p.fdiffs.Some? && h.customChains == p.chains.Some?
             && h.attached.Some? == p.attached.Some?
    ensures TakeBody(PutBody(p, s, rest), h, MeaningOf(s)) == Success((Expected(p, s), rest))
  {
    hide TakeBits, BitsOf, TakeMany, PutMany, TakeSized, PutSized, InOrder, StructureOk, SizedOk, Pow2;
    SmallPowers();
    var st := MeaningOf(s);
    var vs := if p.chains.Some? then p.chains.value else [];
    var ds := if p.dtis.Some? then p.dtis.value else [];
    var c := PutMany(vs, 8, rest);
    var f := if p.fdiffs.Some? then PutSized(p.fdiffs.value, c) else c;
    var d := PutMany(ds, 2, f);
    if p.activeTargets.Some? { BitsBack(p.activeTargets.value, s.targets, d); } else { NoBits(d); }
    ManyBack(ds, 2, f);
    if p.fdiffs.Some? { SizedBack(p.fdiffs.value, c); }
    ManyBack(vs, 8, rest);
    NothingPut(8, rest);
    TemplateFound(s, p.template);
  }

  lemma NoBits(rest: seq<bool>)
    ensures TakeBits(rest, 0) == Success((0, rest)) && [] + rest == rest
  {
    assert rest[0..] == rest;
  }

  lemma TemplateFound(s: FrameStructure, i: nat)
    requires StructureOk(s) && i < |s.templates|
    ensures ((s.offset + i) % 64 + MAX_TEMPLATES - s.offset) % MAX_TEMPLATES == i
  {
  }

  lemma HeaderBack(p: Packet, s: FrameStructure, rest: seq<bool>)
    requires PacketOk(p, s)
    ensures var h := Header((s.offset + p.template) % 64, p.frameNumber, p.activeTargets.Some?, p.dtis.Some?,
                            p.fdiffs.Some?, p.chains.Some?, if p.attached.Some? then Some(MeaningOf(s)) else None);
            TakeHeader(PutPacket(p, s, rest), p.extended)
            == Success((h, if p.extended then PutBody(p, s, rest) else rest))
  {
    hide TakeBits, BitsOf, TakeStructure, PutStructure, PutBody, StructureOk, TakeBool, Pow2;
    SmallPowers();
    var body := PutBody(p, s, rest);
    var structure := if p.attached.Some? then PutStructure(s, body) else body;
    var tail := if !p.extended then rest else PutFlags(p, structure);
    var ends := (if p.starts then 2 else 0) + (if p.ends then 1 else 0);
    BitsBack(ends, 2, BitsOf((s.offset + p.template) % 64, 6) + (BitsOf(p.frameNumber, 16) + tail));
    BitsBack((s.offset + p.template) % 64, 6, BitsOf(p.frameNumber, 16) + tail);
    BitsBack(p.frameNumber, 16, tail);
    if p.extended {
      FlagsBack(p, structure);
      if p.attached.Some? { StructureBack(s, body); }
    }
  }

  lemma FlagsBack(p: Packet, rest: seq<bool>)
    ensures var chains := [p.chains.Some?] + rest;
            var fdiffs := [p.fdiffs.Some?] + chains;
            var dtis := [p.dtis.Some?] + fdiffs;
            var active := [p.activeTargets.Some?] + dtis;
            && TakeBool(PutFlags(p, rest)) == Success((p.attached.Some?, active))
            && TakeBool(active) == Success((p.activeTargets.Some?, dtis))
               && TakeBool(dtis) == Success((p.dtis.Some?, fdiffs))
            && TakeBool(fdiffs) == Success((p.fdiffs.Some?, chains))
               && TakeBool(chains) == Success((p.chains.Some?, rest))
  {
    var chains := [p.chains.Some?] + rest;
    var fdiffs := [p.fdiffs.Some?] + chains;
    var dtis := [p.dtis.Some?] + fdiffs;
    BoolBack(p.attached.Some?, [p.activeTargets.Some?] + dtis);
    BoolBack(p.activeTargets.Some?, dtis);
    BoolBack(p.dtis.Some?, fdiffs);
    BoolBack(p.fdiffs.Some?, chains);
    BoolBack(p.chains.Some?, rest);
  }

  ghost function Kept(s: Option<FrameStructure>): Option<Structure> {
    if s.Some? then Some(MeaningOf(s.value)) else None
  }

  /** The structure in effect for a packet. */
  function InEffect(before: Option<FrameStructure>, p: Packet): Option<FrameStructure> {
    if p.attached.Some? then p.attached else before
  }

  lemma PacketLength(p: Packet, s: FrameStructure, rest: seq<bool>)
    requires PacketOk(p, s)
    ensures if p.extended then |PutPacket(p, s, rest)| > 24 else |PutPacket(p, s, rest)| == 24 + |rest|
  {
    hide PutBody, PutStructure, StructureOk;
  }

  /** One packet that can be read: its descriptor is what was written, and its structure is kept. */
  lemma PacketBack(before: Option<FrameStructure>, p: Packet, ext: seq<Byte>)
    requires InEffect(before, p).Some? && PacketOk(p, InEffect(before, p).value)
    requires Encodes(ext, p, InEffect(before, p).value)
    ensures Parsed(Kept(before), ext)
            == (Kept(InEffect(before, p)), Success(Some(Expected(p, InEffect(before, p).value))))
  {
    hide TakeHeader, TakeBody, PutBody, PutPacket, PacketOk, MeaningOf, Expected, Bits;
    var s := InEffect(before, p).value;
    var padding: nat :| Bits(ext) == PutPacket(p, s, Zeros(padding)) && (!p.extended ==> padding == 0);
    PacketLength(p, s, Zeros(padding));
    HeaderBack(p, s, Zeros(padding));
    if p.extended {
      BodyBackHere(p, s, Zeros(padding));
    } else {
      PlainBody(p, s, Zeros(padding));
    }
  }

  /** A packet of its fixed fields alone has no body. */
  lemma PlainBody(p: Packet, s: FrameStructure, rest: seq<bool>)
    requires PacketOk(p, s) && !p.extended
    ensures TakeBody(rest, HeaderOf(p, s), MeaningOf(s)) == Success((Expected(p, s), rest))
  {
    BodyBackHere(p, s, rest);
    assert PutBody(p, s, rest) == rest by { NothingPut(2, rest); NothingPut(8, rest); }
  }

  function HeaderOf(p: Packet, s: FrameStructure): Header {
    Header((s.offset + p.template) % 64, p.frameNumber, p.activeTargets.Some?, p.dtis.Some?, p.fdiffs.Some?,
           p.chains.Some?, if p.attached.Some? then Some(MeaningOf(s)) else None)
  }

  lemma BodyBackHere(p: Packet, s: FrameStructure, rest: seq<bool>)
    requires PacketOk(p, s)
    ensures TakeBody(PutBody(p, s, rest), HeaderOf(p, s), MeaningOf(s)) == Success((Expected(p, s), rest))
  {
    BodyBack(p, s, HeaderOf(p, s), rest);
  }

  // ---- Whole streams ----

  /** Packets, some without the extension, each encoded with the structure then in effect. */
  ghost predicate Stream(before: Option<FrameStructure>, packets: seq<Option<Packet>>, exts: seq<seq<Byte>>)
    decreases |packets|
  {
    && |packets| == |exts|
    && (packets != [] ==>
          var p := packets[0];
          if p.None? then exts[0] == [] && Stream(before, packets[1..], exts[1..])
          else
            var s := InEffect(before, p.value);
            && s.Some? && PacketOk(p.value, s.value) && Encodes(exts[0], p.value, s.value)
            && Stream(s, packets[1..], exts[1..]))
  }

  function ParsedAll(st: Option<Structure>, exts: seq<seq<Byte>>): seq<Outcome<Option<Descriptor>>>
    decreases |exts|
  {
    if exts == [] then []
    else
      var (st', r) := Parsed(st, exts[0]);
      [r] + ParsedAll(st', exts[1..])
  }

  ghost function ExpectedAll(before: Option<FrameStructure>, packets: seq<Option<Packet>>, exts: seq<seq<Byte>>)
    : seq<Outcome<Option<Descriptor>>>
    requires Stream(before, packets, exts)
    decreases |packets|
  {
    if packets == [] then []
    else if packets[0].None? then [Success(None)] + ExpectedAll(before, packets[1..], exts[1..])
    else
      var s := InEffect(before, packets[0].value);
      [Success(Some(Expected(packets[0].value, s.value)))] + ExpectedAll(s, packets[1..], exts[1..])
  }

  /** Over any stream of packets the parser returns what each one was made from. */
  lemma {:induction false} StreamBack(before: Option<FrameStructure>, packets: seq<Option<Packet>>,
                                      exts: seq<seq<Byte>>)
    requires Stream(before, packets, exts)
    ensures ParsedAll(Kept(before), exts) == ExpectedAll(before, packets, exts)
    decreases |packets|
  {
    hide Parsed, PacketOk, Encodes, Kept, Expected;
    if packets != [] {
      var p := packets[0];
      if p.None? {
        NoExtension(Kept(before));
        StreamBack(before, packets[1..], exts[1..]);
      } else {
        PacketBack(before, p.value, exts[0]);
        StreamBack(InEffect(before, p.value), packets[1..], exts[1..]);
      }
    }
  }

  /** A structure that is attached is kept whatever comes after it, and whatever was kept before;
      the packet itself is refused if it names none of the new templates. */
  lemma AttachedIsKept(st: Option<Structure>, ext: seq<Byte>, s: FrameStructure, rest: seq<bool>)
    requires Attaches(ext) && StructureOk(s) && Bits(ext)[29..] == PutStructure(s, rest)
    ensures var (st', r) := Parsed(st, ext);
            && st' == Some(MeaningOf(s))
            && (r.Success? ==> Known(MeaningOf(s), ext[0] % 64) && r.value.Some? && r.value.value.attachesStructure)
            && r != Failure(NoStructure)
  {
    hide TakeHeader, TakeBody, TakeStructure, PutStructure, Bits, StructureOk, MeaningOf, Known;
    StructureBack(s, rest);
    HeaderTaken(ext);
    var h := TakeHeader(Bits(ext), true).value;
    TemplateLookup(h.1, h.0, MeaningOf(s));
  }

  lemma NoExtension(st: Option<Structure>)
    ensures Parsed(st, []) == (st, Success(None))
  {
  }

  // ---- Every packet can be written: what is put before a text has a length of its own ----

  lemma {:induction false} ManyLength(vs: seq<nat>, width: nat, a: seq<bool>, b: seq<bool>)
    ensures |PutMany(vs, width, a)| - |a| == |PutMany(vs, width, b)| - |b|
  {
    if vs != [] { ManyLength(vs[1..], width, a, b); }
  }

  lemma {:induction false} ManyNsLength(vs: seq<nat>, n: nat, a: seq<bool>, b: seq<bool>)
    ensures |PutManyNs(vs, n, a)| - |a| == |PutManyNs(vs, n, b)| - |b|
  {
    if vs != [] { ManyNsLength(vs[1..], n, a, b); }
  }

  lemma {:induction false} FdiffsLength(fs: seq<nat>, a: seq<bool>, b: seq<bool>)
    requires forall i :: 0 <= i < |fs| ==> 1 <= fs[i]
    ensures |PutFdiffs(fs, a)| - |a| == |PutFdiffs(fs, b)| - |b|
  {
    if fs != [] { FdiffsLength(fs[1..], a, b); }
  }

  lemma {:induction false} SizedLength(fs: seq<(nat, nat)>, a: seq<bool>, b: seq<bool>)
    ensures |PutSized(fs, a)| - |a| == |PutSized(fs, b)| - |b|
  {
    if fs != [] { SizedLength(fs[1..], a, b); }
  }

  lemma {:induction false} SizesLength(sizes: seq<(nat, nat)>, a: seq<bool>, b: seq<bool>)
    ensures |PutSizes(sizes, a)| - |a| == |PutSizes(sizes, b)| - |b|
  {
    if sizes != [] { SizesLength(sizes[1..], a, b); }
  }

  lemma {:induction false} LayersLength(ts: seq<FrameTemplate>, a: seq<bool>, b: seq<bool>)
    requires ts != []
    ensures |PutLayers(ts, a)| - |a| == |PutLayers(ts, b)| - |b|
  {
    if |ts| > 1 { LayersLength(ts[1..], a, b); }
  }

  lemma {:induction false} TemplatesLength(ts: seq<FrameTemplate>, a: seq<bool>, b: seq<bool>)
    requires forall i :: 0 <= i < |ts| ==> forall j :: 0 <= j < |ts[i].fdiffs| ==> 1 <= ts[i].fdiffs[j]
    ensures |PutDtis(ts, a)| - |a| == |PutDtis(ts, b)| - |b|
    ensures |PutAllChains(ts, a)| - |a| == |PutAllChains(ts, b)| - |b|
    ensures |PutAllFdiffs(ts, a)| - |a| == |PutAllFdiffs(ts, b)| - |b|
  {
    if ts != [] {
      TemplatesLength(ts[1..], a, b);
      ManyLength(ts[0].dtis, 2, PutDtis(ts[1..], a), PutDtis(ts[1..], b));
      ManyLength(ts[0].chains, 4, PutAllChains(ts[1..], a), PutAllChains(ts[1..], b));
      FdiffsLength(ts[0].fdiffs, PutAllFdiffs(ts[1..], a), PutAllFdiffs(ts[1..], b));
    }
  }

  lemma StructureLength(s: FrameStructure, a: seq<bool>, b: seq<bool>)
    requires StructureOk(s)
    ensures |PutStructure(s, a)| - |a| == |PutStructure(s, b)| - |b|
  {
    hide PutLayers, PutDtis, PutAllFdiffs, PutManyNs, PutAllChains, PutSizes, InOrder, BitsOf, NsBits;
    var ts := s.templates;
    assert forall i :: 0 <= i < |ts| ==> TemplateOk(ts[i], s.targets, s.chains);
    var (sa, sb) := if s.sizes.Some? then (PutSizes(s.sizes.value, a), PutSizes(s.sizes.value, b)) else (a, b);
    if s.sizes.Some? { SizesLength(s.sizes.value, a, b); }
    var (da, db) := ([s.sizes.Some?] + sa, [s.sizes.Some?] + sb);
    TemplatesLength(ts, da, db);
    ManyNsLength(s.protectors, s.chains, PutAllChains(ts, da), PutAllChains(ts, db));
    var (ca, cb) := (PutChains(s, da), PutChains(s, db));
    TemplatesLength(ts, ca, cb);
    TemplatesLength(ts, PutAllFdiffs(ts, ca), PutAllFdiffs(ts, cb));
    LayersLength(ts, PutDtis(ts, PutAllFdiffs(ts, ca)), PutDtis(ts, PutAllFdiffs(ts, cb)));
  }

  lemma BodyLength(p: Packet, s: FrameStructure, a: seq<bool>, b: seq<bool>)
    ensures |PutBody(p, s, a)| - |a| == |PutBody(p, s, b)| - |b|
  {
    hide PutMany, PutSized, BitsOf;
    var vs := if p.chains.Some? then p.chains.value else [];
    var ds := if p.dtis.Some? then p.dtis.value else [];
    var (ca, cb) := (PutMany(vs, 8, a), PutMany(vs, 8, b));
    ManyLength(vs, 8, a, b);
    if p.fdiffs.Some? {
      SizedLength(p.fdiffs.value, ca, cb);
      ManyLength(ds, 2, PutSized(p.fdiffs.value, ca), PutSized(p.fdiffs.value, cb));
    } else {
      ManyLength(ds, 2, ca, cb);
    }
  }

  lemma PutLength(p: Packet, s: FrameStructure, a: seq<bool>, b: seq<bool>)
    requires PacketOk(p, s)
    ensures |PutPacket(p, s, a)| - |a| == |PutPacket(p, s, b)| - |b|
  {
    hide PutBody, PutStructure, StructureOk, BitsOf;
    BodyLength(p, s, a, b);
    StructureLength(s, PutBody(p, s, a), PutBody(p, s, b));
  }

  lemma CanEncode(p: Packet, s: FrameStructure)
    requires PacketOk(p, s)
    ensures exists ext :: Encodes(ext, p, s)
  {
    hide PutPacket, PacketOk;
    var n := |PutPacket(p, s, Zeros(0))|;
    PacketLength(p, s, Zeros(0));
    var padding := if p.extended then (8 - n % 8) % 8 else 0;
    PutLength(p, s, Zeros(0), Zeros(padding));
    var bits := PutPacket(p, s, Zeros(padding));
    BitsOfPacked(bits);
    assert Encodes(Packed(bits), p, s);
  }
}
