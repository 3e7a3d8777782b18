/** The parser's loops, against what they take off the bits. */
module DdParsing {
  import opened Arith
  import opened Basics
  import opened BitReading
  import opened DependencyDescriptors

  lemma PrefixedTwice<T>(a: seq<T>, b: seq<T>, t: Taken<seq<T>>)
    ensures Prefixed(a, Prefixed(b, t)) == Prefixed(a + b, t)
  {
    if t.Success? { assert a + (b + t.value.0) == (a + b) + t.value.0; }
  }

  lemma PrefixedNone<T>(a: seq<T>, s: seq<bool>, t: Taken<seq<T>>)
    ensures Prefixed([], t) == t && Prefixed(a, Success(([], s))) == Success((a, s))
  {
    assert a + [] == a;
    if t.Success? { assert [] + t.value.0 == t.value.0; }
  }

  method ReadMany(br: BitReader, count: nat, width: nat) returns (r: Outcome<seq<nat>>)
    requires br.Valid()
    modifies br
    ensures br.Valid() && Matches(r, TakeMany(old(br.Rest()), count, width), br.Rest())
  {
    hide TakeBits, Prefixed, BitReader.Rest;
    var vs: seq<nat> := [];
    ghost var whole := TakeMany(br.Rest(), count, width);
    PrefixedNone([], [], whole);
    for i := 0 to count
      invariant br.Valid() && whole == Prefixed(vs, TakeMany(br.Rest(), count - i, width))
    {
      ghost var rest := br.Rest();
      var v := br.Read(width);
      if v.Failure? {
        PrefixedFails(vs, TakeMany(rest, count - i, width));
        return Failure(v.error);
      }
      PrefixedTwice(vs, [v.value], TakeMany(br.Rest(), count - i - 1, width));
      vs := vs + [v.value];
    }
    PrefixedNone(vs, br.Rest(), whole);
    return Success(vs);
  }

  lemma PrefixedFails<T>(a: seq<T>, t: Taken<seq<T>>)
    ensures t.Failure? ==> Prefixed(a, t) == Failure(t.error)
  {
  }

  method ReadManyNs(br: BitReader, count: nat, n: nat) returns (r: Outcome<seq<nat>>)
    requires br.Valid() && n < 0x8000_0000
    modifies br
    ensures br.Valid() && Matches(r, TakeManyNs(old(br.Rest()), count, n), br.Rest())
  {
    hide TakeNs, Prefixed, BitReader.Rest;
    var vs: seq<nat> := [];
    ghost var whole := TakeManyNs(br.Rest(), count, n);
    PrefixedNone([], [], whole);
    for i := 0 to count
      invariant br.Valid() && whole == Prefixed(vs, TakeManyNs(br.Rest(), count - i, n))
    {
      ghost var rest := br.Rest();
      var v := br.Ns(n);
      if v.Failure? {
        PrefixedFails(vs, TakeManyNs(rest, count - i, n));
        return Failure(v.error);
      }
      PrefixedTwice(vs, [v.value], TakeManyNs(br.Rest(), count - i - 1, n));
      vs := vs + [v.value];
    }
    PrefixedNone(vs, br.Rest(), whole);
    return Success(vs);
  }

  method ReadFdiffs(br: BitReader) returns (r: Outcome<seq<nat>>)
    requires br.Valid()
    modifies br
    ensures br.Valid() && Matches(r, TakeFdiffs(old(br.Rest())), br.Rest())
  {
    hide TakeBits, TakeBool, TakeFdiffs, Prefixed, BitReader.Rest;
    var fs: seq<nat> := [];
    ghost var whole := TakeFdiffs(br.Rest());
    PrefixedNone([], [], whole);
    while true
      invariant br.Valid() && whole == Prefixed<nat>(fs, TakeFdiffs(br.Rest()))
      decreases br.Remaining()
    {
      ghost var s := br.Rest();
      PrefixedFails(fs, TakeFdiffs(s));
      FdiffStep(s);
      var follows := br.Bool();
      if follows.Failure? {
        return Failure(follows.error);
      }
      if !follows.value {
        break;
      }
      var v := br.Read(4);
      if v.Failure? {
        return Failure(v.error);
      }
      var fdiff: nat := v.value + 1;
      PrefixedTwice<nat>(fs, [fdiff], TakeFdiffs(br.Rest()));
      fs := fs + [fdiff];
    }
    PrefixedNone(fs, br.Rest(), whole);
    return Success(fs);
  }

  lemma FdiffStep(s: seq<bool>)
    ensures TakeBool(s).Success? ==> |TakeBool(s).value.1| < |s|
    ensures TakeBool(s).Failure? ==> TakeFdiffs(s) == Failure(TakeBool(s).error)
    ensures TakeBool(s).Success? && !TakeBool(s).value.0 ==> TakeFdiffs(s) == Success(([], TakeBool(s).value.1))
    ensures TakeBool(s).Success? && TakeBool(s).value.0 ==>
              var t := TakeBits(TakeBool(s).value.1, 4);
              if t.Failure? then TakeFdiffs(s) == Failure(t.error)
              else TakeFdiffs(s) == Prefixed<nat>([t.value.0 + 1], TakeFdiffs(t.value.1)) && |t.value.1| < |s|
  {
  }

  method ReadAllFdiffs(br: BitReader, count: nat) returns (r: Outcome<seq<seq<nat>>>)
    requires br.Valid()
    modifies br
    ensures br.Valid() && Matches(r, TakeAllFdiffs(old(br.Rest()), count), br.Rest())
  {
    hide TakeFdiffs, Prefixed, BitReader.Rest;
    var fs: seq<seq<nat>> := [];
    ghost var whole := TakeAllFdiffs(br.Rest(), count);
    PrefixedNone([], [], whole);
    for i := 0 to count
      invariant br.Valid() && whole == Prefixed(fs, TakeAllFdiffs(br.Rest(), count - i))
    {
      ghost var rest := br.Rest();
      var f := ReadFdiffs(br);
      if f.Failure? {
        PrefixedFails(fs, TakeAllFdiffs(rest, count - i));
        return Failure(f.error);
      }
      PrefixedTwice(fs, [f.value], TakeAllFdiffs(br.Rest(), count - i - 1));
      fs := fs + [f.value];
    }
    PrefixedNone(fs, br.Rest(), whole);
    return Success(fs);
  }

  method ReadAllChains(br: BitReader, count: nat, chains: nat) returns (r: Outcome<seq<seq<nat>>>)
    requires br.Valid()
    modifies br
    ensures br.Valid() && Matches(r, TakeAllChains(old(br.Rest()), count, chains), br.Rest())
  {
    hide TakeMany, Prefixed, BitReader.Rest;
    var cs: seq<seq<nat>> := [];
    ghost var whole := TakeAllChains(br.Rest(), count, chains);
    PrefixedNone([], [], whole);
    for i := 0 to count
      invariant br.Valid() && whole == Prefixed(cs, TakeAllChains(br.Rest(), count - i, chains))
    {
      ghost var rest := br.Rest();
      var c := ReadMany(br, chains, 4);
      if c.Failure? {
        PrefixedFails(cs, TakeAllChains(rest, count - i, chains));
        return Failure(c.error);
      }
      PrefixedTwice(cs, [c.value], TakeAllChains(br.Rest(), count - i - 1, chains));
      cs := cs + [c.value];
    }
    PrefixedNone(cs, br.Rest(), whole);
    return Success(cs);
  }

  /** `n` more than what is still to be counted. */
  function Counted(n: nat, t: Taken<nat>): Taken<nat> {
    var (m, s) :- t;
    Success((n + m, s))
  }

  method ReadSized(br: BitReader) returns (r: Outcome<nat>)
    requires br.Valid()
    modifies br
    ensures br.Valid() && Matches(r, TakeSized(old(br.Rest())), br.Rest())
  {
    hide TakeBits, BitReader.Rest;
    var n := 0;
    ghost var whole := TakeSized(br.Rest());
    while true
      invariant br.Valid() && n >= 0 && whole == Counted(n, TakeSized(br.Rest()))
      decreases br.Remaining()
    {
      SizedStep(br.Rest());
      var size := br.Read(2);
      if size.Failure? {
        return Failure(size.error);
      }
      if size.value == 0 {
        break;
      }
      var v := br.Read(4 * size.value);
      if v.Failure? {
        return Failure(v.error);
      }
      n := n + 1;
    }
    return Success(n);
  }

  lemma SizedStep(s: seq<bool>)
    ensures TakeBits(s, 2).Success? ==> |TakeBits(s, 2).value.1| < |s|
    ensures TakeBits(s, 2).Success? ==>
              var (size, t) := TakeBits(s, 2).value;
              TakeBits(t, 4 * size).Success? ==> |TakeBits(t, 4 * size).value.1| <= |t|
  {
  }

  /** The layers already read come before those still to be read. */
  function Ahead(done: seq<nat>, t: Taken<(seq<nat>, nat)>): Taken<(seq<nat>, nat)> {
    var ((more, last), s) :- t;
    Success(((done + more, last), s))
  }

  method ReadLayers(br: BitReader) returns (r: Outcome<(seq<nat>, nat)>)
    requires br.Valid()
    modifies br
    ensures br.Valid() && Matches(r, TakeLayers(old(br.Rest()), 0, 0, 0), br.Rest())
  {
    hide TakeBits, TakeLayers, Ahead, BitReader.Rest;
    var temporals: seq<nat>, spatial: nat, temporal: nat := [], 0, 0;
    ghost var whole := TakeLayers(br.Rest(), 0, 0, 0);
    AheadNone(whole);
    while true
      invariant br.Valid() && whole == Ahead(temporals, TakeLayers(br.Rest(), |temporals|, spatial, temporal))
      decreases br.Remaining()
    {
      LayerStep(br.Rest(), temporals, spatial, temporal);
      if |temporals| >= MAX_TEMPLATES {
        return Failure(TooManyTemplates);
      }
      temporals := temporals + [temporal];
      var idc := br.Read(2);
      if idc.Failure? {
        return Failure(idc.error);
      }
      match idc.value {
        case 1 =>
          temporal := temporal + 1;
        case 2 =>
          spatial := spatial + 1;
          temporal := 0;
        case _ =>
      }
      if idc.value == 3 || br.Remaining() == 0 {
        break;
      }
    }
    return Success((temporals, spatial));
  }

  lemma AheadNone(t: Taken<(seq<nat>, nat)>)
    ensures Ahead([], t) == t
  {
    if t.Success? { assert [] + t.value.0.0 == t.value.0.0; }
  }

  lemma LayerStep(s: seq<bool>, done: seq<nat>, spatial: nat, temporal: nat)
    ensures |done| >= MAX_TEMPLATES ==>
              Ahead(done, TakeLayers(s, |done|, spatial, temporal)) == Failure(TooManyTemplates)
    ensures |done| < MAX_TEMPLATES ==>
              var t := Ahead(done, TakeLayers(s, |done|, spatial, temporal));
              var idc := TakeBits(s, 2);
              if idc.Failure? then t == Failure(idc.error)
              else
                var (v, rest) := idc.value;
                var spatial' := if v == 2 then spatial + 1 else spatial;
                var temporal' := if v == 1 then temporal + 1 else if v == 2 then 0 else temporal;
                && |rest| < |s|
                && t == if v == 3 || rest == [] then Success(((done + [temporal], spatial'), rest))
                        else Ahead(done + [temporal], TakeLayers(rest, |done + [temporal]|, spatial', temporal'))
  {
    var idc := TakeBits(s, 2);
    if |done| < MAX_TEMPLATES && idc.Success? {
      var (v, rest) := idc.value;
      if v != 3 && rest != [] {
        var spatial' := if v == 2 then spatial + 1 else spatial;
        var temporal' := if v == 1 then temporal + 1 else if v == 2 then 0 else temporal;
        var next := TakeLayers(rest, |done| + 1, spatial', temporal');
        if next.Success? {
          assert (done + [temporal]) + next.value.0.0 == done + ([temporal] + next.value.0.0);
        }
      }
    }
  }

  method ReadChains(br: BitReader, targets: nat, count: nat) returns (r: Outcome<(nat, seq<seq<nat>>)>)
    requires br.Valid() && targets < 0x4000_0000
    modifies br
    ensures br.Valid() && Matches(r, TakeChains(old(br.Rest()), targets, count), br.Rest())
  {
    hide TakeNs, TakeManyNs, TakeAllChains, BitReader.Rest;
    var n := br.Ns(targets + 1);
    if n.Failure? {
      return Failure(n.error);
    }
    if n.value == 0 {
      return Success((0, NoChains(count)));
    }
    var shields := ReadManyNs(br, targets, n.value);
    if shields.Failure? {
      return Failure(shields.error);
    }
    var chains := ReadAllChains(br, count, n.value);
    return if chains.Failure? then Failure(chains.error) else Success((n.value, chains.value));
  }

  /** template_dependency_structure of appendix A.2 of the RTP payload format for AV1. */
  method ParseStructure(br: BitReader) returns (r: Outcome<Structure>)
    requires br.Valid()
    modifies br
    ensures br.Valid() && Matches(r, TakeStructure(old(br.Rest())), br.Rest())
  {
    hide TakeBits, TakeBool, TakeMany, TakeAllFdiffs, TakeLayers, TakeChains, Templates, BitReader.Rest;
    var offset :- br.Read(6);
    var dt :- br.Read(5);
    assert dt < 32 by { assert Pow2(5) == 32; }
    var layers :- ReadLayers(br);
    var (temporals, spatial) := layers;
    var dtis :- ReadMany(br, |temporals| * (dt + 1), 2);
    var fdiffs :- ReadAllFdiffs(br, |temporals|);
    var chains :- ReadChains(br, dt + 1, |temporals|);
    var sized :- br.Bool();
    var sizes :- ReadMany(br, if sized then 2 * (spatial + 1) else 0, 16);
    return Success(Structure(offset, dt + 1, chains.0, Templates(temporals, fdiffs, chains.1)));
  }

  method ReadHeader(br: BitReader, extended: bool) returns (r: Outcome<Header>)
    requires br.Valid()
    modifies br
    ensures br.Valid() && Matches(r, TakeHeader(old(br.Rest()), extended), br.Rest())
  {
    hide TakeBits, TakeBool, TakeStructure, BitReader.Rest;
    var ends :- br.Read(2);
    var id :- br.Read(6);
    var frame :- br.Read(16);
    if !extended {
      return Success(Header(id, frame, false, false, false, false, None));
    }
    var present :- br.Bool();
    var active :- br.Bool();
    var dtis :- br.Bool();
    var fdiffs :- br.Bool();
    var chains :- br.Bool();
    if !present {
      return Success(Header(id, frame, active, dtis, fdiffs, chains, None));
    }
    var structure :- ParseStructure(br);
    return Success(Header(id, frame, active, dtis, fdiffs, chains, Some(structure)));
  }

  method ReadBody(br: BitReader, h: Header, st: Structure) returns (r: Outcome<Descriptor>)
    requires br.Valid()
    modifies br
    ensures br.Valid() && Matches(r, TakeBody(old(br.Rest()), h, st), br.Rest())
  {
    hide TakeBits, TakeMany, TakeSized, BitReader.Rest;
    var active :- br.Read(if h.activeTargets then st.numDecodeTargets else 0);
    var i := (h.templateId + MAX_TEMPLATES - st.templateIdOffset) % MAX_TEMPLATES;
    if i >= |st.templates| {
      return Failure(InvalidTemplate);
    }
    var t := st.templates[i];
    var dtis :- ReadMany(br, if h.customDtis then st.numDecodeTargets else 0, 2);
    var n := |t.fdiffs|;
    if h.customFdiffs {
      n :- ReadSized(br);
    }
    var chains := t.chainDiffs;
    if h.customChains {
      chains :- ReadMany(br, st.numChains, 8);
    }
    return Success(Descriptor(h.frameNumber, t.temporal, n == 0, h.attached.Some?, chains));
  }

  class Parser {
    var structure: Option<Structure>

    constructor ()
      ensures structure == None
    {
      structure := None;
    }

    /** A structure that arrives complete is kept, even if the rest of its packet is bad. */
    method Parse(ext: seq<Byte>) returns (r: Outcome<Option<Descriptor>>)
      modifies this
      ensures (structure, r) == Parsed(old(structure), ext)
    {
      hide TakeHeader, TakeBody, BitReader.Rest;
      if ext == [] {
        return Success(None);
      }
      var br := new BitReader(ext);
      var h :- ReadHeader(br, |ext| > 3);
      if h.attached.Some? {
        structure := h.attached;
      }
      if structure.None? {
        return Failure(NoStructure);
      }
      var d :- ReadBody(br, h, structure.value);
      return Success(Some(d));
    }
  }
}
