/** Dependency descriptors as appendix A of the RTP payload format for AV1 writes them. */
module DescriptorEncoding {
  import opened Arith
  import opened Basics
  import opened BitStrings
  import opened BitReading
  import opened DependencyDescriptors

  datatype FrameTemplate = FrameTemplate(spatial: nat, temporal: nat, dtis: seq<nat>, fdiffs: seq<nat>,
                                         chains: seq<nat>)

  /** `protectors` names the chain of each decode target, `sizes` width and height less one
      of each spatial layer. */
  datatype FrameStructure = FrameStructure(offset: nat, targets: nat, templates: seq<FrameTemplate>, chains: nat,
                                           protectors: seq<nat>, sizes: Option<seq<(nat, nat)>>)

  /** `fdiffs` come with the size they are written in. */
  datatype Packet = Packet(starts: bool, ends: bool, template: nat, frameNumber: nat, extended: bool,
                           attached: Option<FrameStructure>, activeTargets: Option<nat>, dtis: Option<seq<nat>>,
                           fdiffs: Option<seq<(nat, nat)>>, chains: Option<seq<nat>>)

  // ---- What can be written ----

  /** The layers of the next template: the same, the next temporal or the next spatial one. */
  predicate Follows(a: FrameTemplate, b: FrameTemplate) {
    || (b.spatial == a.spatial && b.temporal in [a.temporal, a.temporal + 1])
    || (b.spatial == a.spatial + 1 && b.temporal == 0)
  }

  ghost predicate InOrder(ts: seq<FrameTemplate>) {
    forall i, j :: 0 <= i && j == i + 1 < |ts| ==> Follows(ts[i], ts[j])
  }

  ghost predicate TemplateOk(t: FrameTemplate, targets: nat, chains: nat) {
    && |t.dtis| == targets && Below(t.dtis, 4) && |t.chains| == chains && Below(t.chains, 16)
    && forall i :: 0 <= i < |t.fdiffs| ==> 1 <= t.fdiffs[i] <= 16
  }

  ghost predicate StructureOk(s: FrameStructure) {
    && s.offset < 64 && 1 <= s.targets <= 32 && 1 <= |s.templates| <= 64 && s.chains <= s.targets
    && s.templates[0].spatial == 0 == s.templates[0].temporal && InOrder(s.templates)
    && (forall i :: 0 <= i < |s.templates| ==> TemplateOk(s.templates[i], s.targets, s.chains))
    && (s.chains > 0 ==> |s.protectors| == s.targets && Below(s.protectors, s.chains))
    && (s.sizes.Some? ==>
          && |s.sizes.value| == s.templates[|s.templates| - 1].spatial + 1
          && forall i :: 0 <= i < |s.sizes.value| ==> s.sizes.value[i].0 < 65536 && s.sizes.value[i].1 < 65536)
  }

  /** `s` is the structure in effect, the packet's own if it attaches one. */
  ghost predicate PacketOk(p: Packet, s: FrameStructure) {
    && StructureOk(s) && p.template < |s.templates| && p.frameNumber < 65536
    && (!p.extended ==> p.attached.None? && p.activeTargets.None? && p.dtis.None? && p.fdiffs.None? && p.chains.None?)
    && (p.attached.Some? ==> p.attached.value == s)
    && (p.activeTargets.Some? ==> p.activeTargets.value < Pow2(s.targets))
    && (p.dtis.Some? ==> |p.dtis.value| == s.targets && Below(p.dtis.value, 4))
    && (p.fdiffs.Some? ==> forall i :: 0 <= i < |p.fdiffs.value| ==> SizedOk(p.fdiffs.value[i]))
    && (p.chains.Some? ==> |p.chains.value| == s.chains && Below(p.chains.value, 256))
  }

  predicate SizedOk(f: (nat, nat)) {
    1 <= f.0 <= 3 && f.1 < Pow2(4 * f.0)
  }

  // ---- Writing: each function puts its bits before `rest` ----

  function PutMany(vs: seq<nat>, width: nat, rest: seq<bool>): seq<bool> {
    if vs == [] then rest else BitsOf(vs[0], width) + PutMany(vs[1..], width, rest)
  }

  function PutManyNs(vs: seq<nat>, n: nat, rest: seq<bool>): seq<bool> {
    if vs == [] then rest else NsBits(vs[0], n) + PutManyNs(vs[1..], n, rest)
  }

  function PutFdiffs(fs: seq<nat>, rest: seq<bool>): seq<bool>
    requires forall i :: 0 <= i < |fs| ==> 1 <= fs[i]
  {
    if fs == [] then [false] + rest else [true] + (BitsOf(fs[0] - 1, 4) + PutFdiffs(fs[1..], rest))
  }

  function PutSized(fs: seq<(nat, nat)>, rest: seq<bool>): seq<bool> {
    if fs == [] then BitsOf(0, 2) + rest
    else BitsOf(fs[0].0, 2) + (BitsOf(fs[0].1, 4 * fs[0].0) + PutSized(fs[1..], rest))
  }

  /** How the layers of the next template differ. */
  function LayerStepIdc(a: FrameTemplate, b: FrameTemplate): nat {
    if b.spatial > a.spatial then 2 else if b.temporal > a.temporal then 1 else 0
  }

  function PutLayers(ts: seq<FrameTemplate>, rest: seq<bool>): seq<bool>
    requires ts != []
  {
    if |ts| == 1 then BitsOf(3, 2) + rest else BitsOf(LayerStepIdc(ts[0], ts[1]), 2) + PutLayers(ts[1..], rest)
  }

  function PutDtis(ts: seq<FrameTemplate>, rest: seq<bool>): seq<bool> {
    if ts == [] then rest else PutMany(ts[0].dtis, 2, PutDtis(ts[1..], rest))
  }

  function PutAllFdiffs(ts: seq<FrameTemplate>, rest: seq<bool>): seq<bool>
    requires forall i :: 0 <= i < |ts| ==> forall j :: 0 <= j < |ts[i].fdiffs| ==> 1 <= ts[i].fdiffs[j]
  {
    if ts == [] then rest else PutFdiffs(ts[0].fdiffs, PutAllFdiffs(ts[1..], rest))
  }

  function PutAllChains(ts: seq<FrameTemplate>, rest: seq<bool>): seq<bool> {
    if ts == [] then rest else PutMany(ts[0].chains, 4, PutAllChains(ts[1..], rest))
  }

  function PutChains(s: FrameStructure, rest: seq<bool>): seq<bool> {
    NsBits(s.chains, s.targets + 1)
    + if s.chains == 0 then rest else PutManyNs(s.protectors, s.chains, PutAllChains(s.templates, rest))
  }

  function PutSizes(sizes: seq<(nat, nat)>, rest: seq<bool>): seq<bool> {
    if sizes == [] then rest else BitsOf(sizes[0].0, 16) + (BitsOf(sizes[0].1, 16) + PutSizes(sizes[1..], rest))
  }

  function PutStructure(s: FrameStructure, rest: seq<bool>): seq<bool>
    requires StructureOk(s)
  {
    BitsOf(s.offset, 6) + (BitsOf(s.targets - 1, 5)
    + PutLayers(s.templates, PutDtis(s.templates, PutAllFdiffs(s.templates, PutChains(s,
        [s.sizes.Some?] + if s.sizes.Some? then PutSizes(s.sizes.value, rest) else rest)))))
  }

  function PutFlags(p: Packet, rest: seq<bool>): seq<bool> {
    [p.attached.Some?] + ([p.activeTargets.Some?] + ([p.dtis.Some?] + ([p.fdiffs.Some?] + ([p.chains.Some?] + rest))))
  }

  /** The packet's own frame dependencies, where it does not go by its template. */
  function PutBody(p: Packet, s: FrameStructure, rest: seq<bool>): seq<bool> {
    (if p.activeTargets.Some? then BitsOf(p.activeTargets.value, s.targets) else [])
    + PutMany(if p.dtis.Some? then p.dtis.value else [], 2,
              var chains := PutMany(if p.chains.Some? then p.chains.value else [], 8, rest);
              if p.fdiffs.Some? then PutSized(p.fdiffs.value, chains) else chains)
  }

  function PutPacket(p: Packet, s: FrameStructure, rest: seq<bool>): seq<bool>
    requires PacketOk(p, s)
  {
    BitsOf((if p.starts then 2 else 0) + (if p.ends then 1 else 0), 2) + (BitsOf((s.offset + p.template) % 64, 6)
    + (BitsOf(p.frameNumber, 16)
    + if !p.extended then rest
      else PutFlags(p, if p.attached.Some? then PutStructure(s, PutBody(p, s, rest)) else PutBody(p, s, rest))))
  }

  /** The extension is the packet's bits in whole bytes; what is left over is zero. */
  ghost predicate Encodes(ext: seq<Byte>, p: Packet, s: FrameStructure)
    requires PacketOk(p, s)
  {
    exists padding: nat ::
      && Bits(ext) == PutPacket(p, s, Zeros(padding))
      && (!p.extended ==> padding == 0)
  }

  function Zeros(n: nat): seq<bool> {
    seq(n, _ => false)
  }

  // ---- What it means ----

  function MeaningOf(s: FrameStructure): Structure {
    Structure(s.offset, s.targets, s.chains,
      seq(|s.templates|, i requires 0 <= i < |s.templates| =>
        Template(s.templates[i].temporal, s.templates[i].fdiffs, s.templates[i].chains)))
  }

  function Expected(p: Packet, s: FrameStructure): Descriptor
    requires p.template < |s.templates|
  {
    var t := s.templates[p.template];
    Descriptor(p.frameNumber, t.temporal, if p.fdiffs.Some? then p.fdiffs.value == [] else t.fdiffs == [],
               p.attached.Some?, if p.chains.Some? then p.chains.value else t.chains)
  }
}
