/** The client's end of the slot announcements, and the two ends together. */
module SlotReplication {
  import opened Basics
  import opened SlotPool

  /** The media of a slot's stream, as it arrived from the connection. */
  type Media = nat

  /** `bound` is the net effect of the callbacks: which peer is heard through what. */
  datatype Client = Client(owners: map<string, PeerId>, media: map<string, Media>, bound: map<PeerId, Media>)

  function Bind(c: Client, slot: string): Client {
    if slot in c.owners && slot in c.media then c.(bound := c.bound[c.owners[slot] := c.media[slot]]) else c
  }

  function Assign(c: Client, a: Assignment): Client {
    var prev := if a.slot in c.owners then Some(c.owners[a.slot]) else None;
    if prev == a.peer then c
    else
      var c := c.(owners := if a.peer.None? then c.owners - {a.slot} else c.owners[a.slot := a.peer.value]);
      var c := if prev.Some? then c.(bound := c.bound - {prev.value}) else c;
      Bind(c, a.slot)
  }

  function AssignAll(c: Client, notes: seq<Assignment>): Client
    decreases |notes|
  {
    if notes == [] then c else AssignAll(Assign(c, notes[0]), notes[1..])
  }

  function Arrive(c: Client, slot: string, m: Media): Client {
    Bind(c.(media := c.media[slot := m]), slot)
  }

  class AudioClient {
    /** The owner of each slot; a slot without one is kept with None. */
    var slotOwners: map<string, Option<PeerId>>
    var slotMedia: map<string, Media>
    /** What the callbacks have bound so far. */
    var bound: map<PeerId, Media>

    function State(): Client
      reads this
    {
      Client(map s | s in slotOwners && slotOwners[s].Some? :: slotOwners[s].value, slotMedia, bound)
    }

    constructor ()
      ensures State() == Client(map[], map[], map[])
    {
      slotOwners, slotMedia, bound := map[], map[], map[];
    }

    method OnTrack(peer: PeerId, m: Media)
      modifies this`bound
      ensures bound == old(bound)[peer := m]
    {
      bound := bound[peer := m];
    }

    method OnTrackRemoved(peer: PeerId)
      modifies this`bound
      ensures bound == old(bound) - {peer}
    {
      bound := bound - {peer};
    }

    method BindSlot(slot: string)
      modifies this`bound
      ensures State() == Bind(old(State()), slot)
    {
      if slot in slotOwners && slotOwners[slot].Some? && slot in slotMedia {
        OnTrack(slotOwners[slot].value, slotMedia[slot]);
      }
    }

    method AssignSlots(notes: seq<Assignment>)
      modifies this`slotOwners, this`bound
      ensures State() == AssignAll(old(State()), notes)
    {
      for i := 0 to |notes|
        invariant AssignAll(State(), notes[i..]) == AssignAll(old(State()), notes)
      {
        AssignSlot(notes[i]);
        assert notes[i..][0] == notes[i] && notes[i..][1..] == notes[i + 1..];
        hide State, Assign;
      }
    }

    /** One entry: nothing, if the slot has that owner already. */
    method AssignSlot(a: Assignment)
      modifies this`slotOwners, this`bound
      ensures State() == Assign(old(State()), a)
    {
      ghost var c := State();
      var prev := if a.slot in slotOwners then slotOwners[a.slot] else None;
      if prev != a.peer {
        slotOwners := slotOwners[a.slot := a.peer];
        assert State().owners == (if a.peer.None? then c.owners - {a.slot} else c.owners[a.slot := a.peer.value]);
        if prev.Some? {
          OnTrackRemoved(prev.value);
        }
        BindSlot(a.slot);
      }
    }

    /** The connection's track event. */
    method TrackArrives(slot: string, m: Media)
      modifies this`slotMedia, this`bound
      ensures State() == Arrive(old(State()), slot, m)
    {
      slotMedia := slotMedia[slot := m];
      BindSlot(slot);
    }
  }

  // ---- What the client's callbacks amount to ----

  ghost predicate OneOwnerEach(o: map<string, PeerId>) {
    forall s, t :: s in o && t in o && o[s] == o[t] ==> s == t
  }

  /** A peer is heard through a stream exactly when it owns the slot and the stream is there. */
  ghost predicate Exact(c: Client) {
    && OneOwnerEach(c.owners)
    && (forall s :: s in c.owners && s in c.media ==> c.owners[s] in c.bound && c.bound[c.owners[s]] == c.media[s])
    && (forall p :: p in c.bound ==> exists s :: s in c.owners && s in c.media && c.owners[s] == p)
  }

  function Owned(o: map<string, PeerId>, a: Assignment): map<string, PeerId> {
    if a.peer.None? then o - {a.slot} else o[a.slot := a.peer.value]
  }

  function OwnedAll(o: map<string, PeerId>, notes: seq<Assignment>): map<string, PeerId>
    decreases |notes|
  {
    if notes == [] then o else OwnedAll(Owned(o, notes[0]), notes[1..])
  }

  /** No entry gives a slot to a peer that has another one at that point. */
  ghost predicate Orderly(o: map<string, PeerId>, notes: seq<Assignment>)
    decreases |notes|
  {
    notes == []
    || var a := notes[0];
       && (a.peer.Some? ==> forall s :: s in o && s != a.slot ==> o[s] != a.peer.value)
       && Orderly(Owned(o, a), notes[1..])
  }

  /** The slot's owner goes, and with it what it was heard through. */
  function Free(c: Client, slot: string): Client {
    if slot in c.owners then c.(owners := c.owners - {slot}, bound := c.bound - {c.owners[slot]}) else c
  }

  function Give(c: Client, slot: string, p: PeerId): Client {
    Bind(c.(owners := c.owners[slot := p]), slot)
  }

  lemma FreeExact(c: Client, slot: string)
    requires Exact(c)
    ensures Exact(Free(c, slot)) && slot !in Free(c, slot).owners
  {
    var d := Free(c, slot);
    forall p | p in d.bound
      ensures exists s :: s in d.owners && s in d.media && d.owners[s] == p
    {
      var s :| s in c.owners && s in c.media && c.owners[s] == p;
      assert s in d.owners && s in d.media && d.owners[s] == p;
    }
  }

  lemma GiveExact(c: Client, slot: string, p: PeerId)
    requires Exact(c) && slot !in c.owners && forall s :: s in c.owners ==> c.owners[s] != p
    ensures Exact(Give(c, slot, p))
  {
    var d := Give(c, slot, p);
    forall q | q in d.bound
      ensures exists s :: s in d.owners && s in d.media && d.owners[s] == q
    {
      if q in c.bound {
        var s :| s in c.owners && s in c.media && c.owners[s] == q;
        assert s in d.owners && s in d.media && d.owners[s] == q;
      } else {
        assert slot in d.owners && slot in d.media && d.owners[slot] == q;
      }
    }
  }

  lemma AssignExact(c: Client, a: Assignment)
    requires Exact(c) && (a.peer.Some? ==> forall s :: s in c.owners && s != a.slot ==> c.owners[s] != a.peer.value)
    ensures Exact(Assign(c, a)) && Assign(c, a).owners == Owned(c.owners, a) && Assign(c, a).media == c.media
  {
    var prev := if a.slot in c.owners then Some(c.owners[a.slot]) else None;
    if prev != a.peer {
      FreeExact(c, a.slot);
      if a.peer.Some? {
        GiveExact(Free(c, a.slot), a.slot, a.peer.value);
        assert (c.owners - {a.slot})[a.slot := a.peer.value] == c.owners[a.slot := a.peer.value];
      }
      hide Exact;
    }
  }

  lemma {:induction false} AssignAllExact(c: Client, notes: seq<Assignment>)
    requires Exact(c) && Orderly(c.owners, notes)
    ensures var d := AssignAll(c, notes); Exact(d) && d.owners == OwnedAll(c.owners, notes) && d.media == c.media
    decreases |notes|
  {
    if notes != [] {
      AssignExact(c, notes[0]);
      AssignAllExact(Assign(c, notes[0]), notes[1..]);
    }
  }

  lemma ArriveExact(c: Client, slot: string, m: Media)
    requires Exact(c)
    ensures Exact(Arrive(c, slot, m)) && Arrive(c, slot, m).owners == c.owners
  {
    var d := Arrive(c, slot, m);
    forall p | p in d.bound
      ensures exists s :: s in d.owners && s in d.media && d.owners[s] == p
    {
      if p in c.bound {
        var s :| s in c.owners && s in c.media && c.owners[s] == p;
        assert d.owners[s] == p && s in d.media;
      } else {
        assert d.owners[slot] == p && slot in d.media;
      }
    }
  }

  // ---- What the server announces ----

  lemma {:induction false} OwnedConcat(o: map<string, PeerId>, a: seq<Assignment>, b: seq<Assignment>)
    ensures OwnedAll(o, a + b) == OwnedAll(OwnedAll(o, a), b)
    ensures Orderly(o, a + b) <==> Orderly(o, a) && Orderly(OwnedAll(o, a), b)
    decreases |a|
  {
    if a == [] {
      assert a + b == b;
    } else {
      assert (a + b)[0] == a[0] && (a + b)[1..] == a[1..] + b;
      OwnedConcat(Owned(o, a[0]), a[1..], b);
    }
  }

  /** The owners are those of the slots that carry a track, under the slots' names. */
  ghost predicate Mirrors(o: map<string, PeerId>, slots: seq<Slot>) {
    && (forall i :: 0 <= i < |slots| && slots[i].track.Some? ==>
          SlotName(i) in o && o[SlotName(i)] == slots[i].track.value.owner)
    && (forall s :: s in o ==> exists i :: 0 <= i < |slots| && slots[i].track.Some? && s == SlotName(i))
  }

  function OwnerOf(t: Option<Track>): Option<PeerId> {
    if t.Some? then Some(t.value.owner) else None
  }

  /** One entry keeps up with one slot. */
  lemma MirrorsOne(o: map<string, PeerId>, slots: seq<Slot>, i: nat, t: Option<Track>)
    requires Mirrors(o, slots) && i < |slots|
    ensures Mirrors(Owned(o, Assignment(SlotName(i), OwnerOf(t))), slots[i := slots[i].(track := t)])
  {
    hide SlotName;
    var o', r := Owned(o, Assignment(SlotName(i), OwnerOf(t))), slots[i := slots[i].(track := t)];
    forall k | 0 <= k < |r|
      ensures r[k].track.Some? ==> SlotName(k) in o' && o'[SlotName(k)] == r[k].track.value.owner
    {
      SlotNameInjective(i, k);
    }
    forall s | s in o'
      ensures exists k :: 0 <= k < |r| && r[k].track.Some? && s == SlotName(k)
    {
      if s == SlotName(i) {
        assert r[i].track.Some?;
      } else {
        var k :| 0 <= k < |slots| && slots[k].track.Some? && s == SlotName(k);
        assert r[k] == slots[k];
      }
    }
  }

  lemma MirrorsSame(o: map<string, PeerId>, slots: seq<Slot>, r: seq<Slot>)
    requires Mirrors(o, slots) && |slots| <= |r|
    requires forall i :: 0 <= i < |r| ==> r[i].track == if i < |slots| then slots[i].track else None
    ensures Mirrors(o, r)
  {
    hide SlotName;
    forall s | s in o
      ensures exists k :: 0 <= k < |r| && r[k].track.Some? && s == SlotName(k)
    {
      var k :| 0 <= k < |slots| && slots[k].track.Some? && s == SlotName(k);
      assert r[k].track.Some?;
    }
  }

  lemma MirrorsPrefix(o: map<string, PeerId>, slots: seq<Slot>, r: seq<Slot>)
    requires Mirrors(o, slots) && r <= slots && forall i :: |r| <= i < |slots| ==> slots[i].track.None?
    ensures Mirrors(o, r)
  {
    hide SlotName;
    forall s | s in o
      ensures exists k :: 0 <= k < |r| && r[k].track.Some? && s == SlotName(k)
    {
      var k :| 0 <= k < |slots| && slots[k].track.Some? && s == SlotName(k);
      assert r[k] == slots[k];
    }
  }

  /** The entries that free slots, read up to slot `n`. */
  lemma {:induction false} FreesMirror(o: map<string, PeerId>, slots: seq<Slot>, want: set<Track>, n: nat)
    requires Mirrors(o, slots) && Named(slots) && n <= |slots|
    ensures var notes := FreeNotes(slots[..n], want);
            Orderly(o, notes) && Mirrors(OwnedAll(o, notes), Freed(slots, want)[..n] + slots[n..])
  {
    hide SlotName, Mirrors;
    if n == 0 {
      assert Freed(slots, want)[..0] + slots[0..] == slots;
    } else {
      FreesMirror(o, slots, want, n - 1);
      assert slots[..n][..n - 1] == slots[..n - 1];
      var notes, k := FreeNotes(slots[..n - 1], want), n - 1;
      var o1, mixed := OwnedAll(o, notes), Freed(slots, want)[..k] + slots[k..];
      if Departed(slots[k], want) {
        var last := [Assignment(slots[k].streamId, None)];
        OwnedConcat(o, notes, last);
        OneNote(o1, last[0]);
        MirrorsOne(o1, mixed, k, None);
        assert mixed[k := mixed[k].(track := None)] == Freed(slots, want)[..n] + slots[n..];
      } else {
        assert FreeNotes(slots[..n], want) == notes;
        assert mixed == Freed(slots, want)[..n] + slots[n..];
      }
    }
  }

  lemma OneNote(o: map<string, PeerId>, a: Assignment)
    ensures OwnedAll(o, [a]) == Owned(o, a)
    ensures Orderly(o, [a]) <==> (a.peer.Some? ==> forall s :: s in o && s != a.slot ==> o[s] != a.peer.value)
  {
    assert [a][1..] == [];
  }

  /** The entries that fill slots, read up to slot `n`. */
  lemma {:induction false} FillsMirror(o: map<string, PeerId>, slots: seq<Slot>, news: seq<Track>, n: nat)
    requires Mirrors(o, slots) && Named(slots) && OneSlotEach(Filled(slots, news)) && n <= |slots|
    ensures var notes := FillNotes(slots, news, n);
            Orderly(o, notes) && Mirrors(OwnedAll(o, notes), Filled(slots, news)[..n] + slots[n..])
  {
    hide *;
    if n == 0 {
      assert Filled(slots, news)[..0] + slots[0..] == slots;
      NoNotes(o, slots, news);
    } else {
      FillsMirror(o, slots, news, n - 1);
      FillStep(o, slots, news, n - 1);
    }
  }

  lemma NoNotes(o: map<string, PeerId>, slots: seq<Slot>, news: seq<Track>)
    ensures FillNotes(slots, news, 0) == [] && Orderly(o, []) && OwnedAll(o, []) == o
  {
  }

  /** The entry for slot `k`. */
  lemma FillStep(o: map<string, PeerId>, slots: seq<Slot>, news: seq<Track>, k: nat)
    requires Named(slots) && OneSlotEach(Filled(slots, news)) && k < |slots|
    requires var notes := FillNotes(slots, news, k);
             Orderly(o, notes) && Mirrors(OwnedAll(o, notes), Filled(slots, news)[..k] + slots[k..])
    ensures var notes := FillNotes(slots, news, k + 1);
            Orderly(o, notes) && Mirrors(OwnedAll(o, notes), Filled(slots, news)[..k + 1] + slots[k + 1..])
  {
    hide SlotName, Mirrors, OneSlotEach, Filled, Orderly, OwnedAll, Owned, Empties;
    var notes, r := FillNotes(slots, news, k), Filled(slots, news);
    var o1, mixed := OwnedAll(o, notes), r[..k] + slots[k..];
    FilledAt(slots, news, k);
    var next := mixed[k := mixed[k].(track := r[k].track)];
    assert next == r[..k + 1] + slots[k + 1..];
    if slots[k].track.None? && Empties(slots, k) < |news| {
      var last := [Assignment(SlotName(k), OwnerOf(r[k].track))];
      OwnedConcat(o, notes, last);
      OneNote(o1, last[0]);
      FilledKeepsTracks(slots, news);
      NewOwner(o1, mixed, r, k);
      MirrorsOne(o1, mixed, k, r[k].track);
    } else {
      assert FillNotes(slots, news, k + 1) == notes + [] == notes;
      assert next == mixed;
    }
  }

  lemma FilledKeepsTracks(slots: seq<Slot>, news: seq<Track>)
    ensures forall i :: 0 <= i < |slots| && slots[i].track.Some? ==> Filled(slots, news)[i] == slots[i]
  {
  }

  /** The owner put into slot `k` has no other slot. */
  lemma NewOwner(o: map<string, PeerId>, mixed: seq<Slot>, r: seq<Slot>, k: nat)
    requires Mirrors(o, mixed) && OneSlotEach(r) && |mixed| == |r| && k < |r| && r[k].track.Some?
    requires forall i :: 0 <= i < |r| && i != k && mixed[i].track.Some? ==> r[i].track == mixed[i].track
    ensures forall s :: s in o && s != SlotName(k) ==> o[s] != r[k].track.value.owner
  {
    hide SlotName;
    forall s | s in o && s != SlotName(k)
      ensures o[s] != r[k].track.value.owner
    {
      var i :| 0 <= i < |mixed| && mixed[i].track.Some? && s == SlotName(i);
      assert r[i].track == mixed[i].track;
      assert i < k || k < i;
    }
  }

  lemma AllocationMirrors(o: map<string, PeerId>, before: seq<Slot>, want: set<Track>, news: seq<Track>,
                          after: seq<Slot>, notes: seq<Assignment>)
    requires Mirrors(o, before) && Named(before) && Allocated(before, want, news, after, notes)
    requires OneSlotEach(Filled(Freed(before, want), news))
    ensures Orderly(o, notes) && Mirrors(OwnedAll(o, notes), after)
  {
    hide SlotName, Mirrors, OneSlotEach;
    var n, freed := |before|, Freed(before, want);
    FreesMirror(o, before, want, n);
    var a, b := FreeNotes(before, want), FillNotes(freed, news, n);
    assert before[..n] == before && freed[..n] + before[n..] == freed;
    FillsMirror(OwnedAll(o, a), freed, news, n);
    var r := Filled(freed, news);
    assert r[..n] + freed[n..] == r;
    OwnedConcat(o, a, b);
    MirrorsSame(OwnedAll(o, notes), r, after);
  }

  // ---- The two ends together ----

  /** The server's slots, the messages on their way, in order, and the client. */
  datatype System = System(slots: seq<Slot>, pending: bool, flight: seq<Message>, client: Client)

  datatype Step =
    | Sync(tracks: Tracks)
    | Answer(accepted: bool, alive: bool, tracks: Tracks)
    | Deliver
    | TrackEvent(slot: string, media: Media)

  ghost predicate Start(s: System) {
    s == System([], false, [], Client(map[], map[], map[]))
  }

  /** `self` is the peer the connection belongs to. */
  ghost predicate Next(self: PeerId, s: System, step: Step, t: System) {
    match step
    case Sync(tracks) =>
      && !s.pending && t.client == s.client && s.flight <= t.flight
      && Announces(s.slots, Wanted(tracks, self), t.slots, t.pending, t.flight[|s.flight|..])
    case Answer(accepted, alive, tracks) =>
      var kept := if accepted then Opened(s.slots) else OpenOnes(s.slots);
      && s.pending && t.client == s.client && s.flight <= t.flight
      && if !alive then t.slots == kept && !t.pending && t.flight == s.flight
         else Announces(kept, Wanted(tracks, self), t.slots, t.pending, t.flight[|s.flight|..])
    case Deliver =>
      && s.flight != []
      && t == s.(flight := s.flight[1..],
                 client := if s.flight[0].AudioSlots? then AssignAll(s.client, s.flight[0].slots) else s.client)
    case TrackEvent(slot, media) =>
      t == s.(client := Arrive(s.client, slot, media))
  }

  ghost predicate Run(self: PeerId, trace: seq<System>, steps: seq<Step>) {
    && |trace| == |steps| + 1 && Start(trace[0])
    && forall i :: 0 <= i < |steps| ==> Next(self, trace[i], steps[i], trace[i + 1])
  }

  /** All entries on their way. */
  function Entries(flight: seq<Message>): seq<Assignment> {
    if flight == [] then []
    else (if flight[0].AudioSlots? then flight[0].slots else []) + Entries(flight[1..])
  }

  ghost predicate ServerOk(slots: seq<Slot>, pending: bool) {
    (!pending ==> AllOpen(slots)) && OpenPrefix(slots) && Named(slots) && OneSlotEach(slots)
  }

  /** The client is exact for its owners, and what is on its way makes them the server's. */
  ghost predicate Inv(s: System) {
    && ServerOk(s.slots, s.pending) && Exact(s.client)
    && Orderly(s.client.owners, Entries(s.flight))
    && Mirrors(OwnedAll(s.client.owners, Entries(s.flight)), s.slots)
  }

  lemma {:induction false} EntriesConcat(a: seq<Message>, b: seq<Message>)
    ensures Entries(a + b) == Entries(a) + Entries(b)
  {
    if a == [] {
      assert a + b == b;
    } else {
      assert (a + b)[0] == a[0] && (a + b)[1..] == a[1..] + b;
      EntriesConcat(a[1..], b);
    }
  }

  lemma SentEntries(notes: seq<Assignment>, offer: bool)
    ensures Entries((if notes != [] then [AudioSlots(notes)] else []) + (if offer then [Offer] else [])) == notes
  {
    EntriesConcat(if notes != [] then [AudioSlots(notes)] else [], if offer then [Offer] else []);
  }

  lemma FreedOneSlotEach(slots: seq<Slot>, want: set<Track>)
    requires OneSlotEach(slots)
    ensures OneSlotEach(Freed(slots, want))
  {
  }

  /** The slots after an allocation are as they should be. */
  lemma AnnouncedOk(before: seq<Slot>, want: set<Track>, news: seq<Track>, after: seq<Slot>, notes: seq<Assignment>)
    requires AllOpen(before) && Named(before) && OneSlotEach(before) && Allocated(before, want, news, after, notes)
    requires forall t, u :: t in want && u in want && t.owner == u.owner ==> t == u
    ensures ServerOk(after, |after| > |before|) && OneSlotEach(Filled(Freed(before, want), news))
  {
    hide AllOpen, Named, OneSlotEach, OpenPrefix, Freed, Filled, Newcomers, Grown, SlotName;
    FreedOneSlotEach(before, want);
    FilledOneSlotEach(before, want, news);
    FilledKeeps(before, want, news);
    var r, n := Filled(Freed(before, want), news), |after| - |before|;
    GrownOk(r, n);
    assert n == 0 ==> r == after;
  }

  lemma GrownOk(slots: seq<Slot>, n: nat)
    requires AllOpen(slots) && Named(slots) && OneSlotEach(slots)
    ensures OpenPrefix(Grown(slots, n)) && Named(Grown(slots, n)) && OneSlotEach(Grown(slots, n))
  {
    hide SlotName;
  }

  /** What an allocation sends keeps the client on the way to the server's slots. */
  lemma AnnouncesKeeps(o: map<string, PeerId>, flight: seq<Message>, before: seq<Slot>, want: set<Track>,
                       after: seq<Slot>, pending: bool, out: seq<Message>)
    requires AllOpen(before) && Named(before) && OneSlotEach(before) && Announces(before, want, after, pending, out)
    requires Orderly(o, Entries(flight)) && Mirrors(OwnedAll(o, Entries(flight)), before)
    requires forall t, u :: t in want && u in want && t.owner == u.owner ==> t == u
    ensures ServerOk(after, pending)
    ensures Orderly(o, Entries(flight + out)) && Mirrors(OwnedAll(o, Entries(flight + out)), after)
  {
    hide AllOpen, Named, OneSlotEach, OpenPrefix, Allocated, Orderly, Mirrors, OwnedAll, Entries, ServerOk;
    var news, notes :|
      && Allocated(before, want, news, after, notes) && (pending <==> |after| > |before|)
      && out == (if notes != [] then [AudioSlots(notes)] else []) + (if pending then [Offer] else []);
    AnnouncedOk(before, want, news, after, notes);
    AllocationMirrors(OwnedAll(o, Entries(flight)), before, want, news, after, notes);
    SentEntries(notes, pending);
    EntriesConcat(flight, out);
    OwnedConcat(o, Entries(flight), notes);
  }

  /** The client's answer changes no slot that carries a track. */
  lemma AnswerMirrors(o: map<string, PeerId>, slots: seq<Slot>)
    requires Mirrors(o, slots) && OpenPrefix(slots) && Named(slots) && OneSlotEach(slots)
    ensures forall r :: r == Opened(slots) || r == OpenOnes(slots) ==>
                          AllOpen(r) && OpenPrefix(r) && Named(r) && OneSlotEach(r) && Mirrors(o, r)
  {
    hide SlotName, Mirrors;
    OpenOnesPrefix(slots);
    MirrorsSame(o, slots, Opened(slots));
    MirrorsPrefix(o, slots, OpenOnes(slots));
  }

  lemma StepKeeps(self: PeerId, s: System, step: Step, t: System)
    requires Inv(s) && Next(self, s, step, t)
    ensures Inv(t)
  {
    hide AllOpen, Named, OneSlotEach, OpenPrefix, Orderly, Mirrors, OwnedAll, Exact, Announces, Opened, OpenOnes,
         AssignAll, Arrive, Wanted;
    var o := s.client.owners;
    match step
    case Sync(tracks) =>
      OneTrackEach(tracks, self);
      var out := t.flight[|s.flight|..];
      AnnouncesKeeps(o, s.flight, s.slots, Wanted(tracks, self), t.slots, t.pending, out);
      assert t.flight == s.flight + out;
    case Answer(accepted, alive, tracks) =>
      AnswerMirrors(OwnedAll(o, Entries(s.flight)), s.slots);
      if alive {
        OneTrackEach(tracks, self);
        var kept, out := if accepted then Opened(s.slots) else OpenOnes(s.slots), t.flight[|s.flight|..];
        AnnouncesKeeps(o, s.flight, kept, Wanted(tracks, self), t.slots, t.pending, out);
        assert t.flight == s.flight + out;
      }
    case Deliver =>
      if s.flight[0].AudioSlots? {
        OwnedConcat(o, s.flight[0].slots, Entries(s.flight[1..]));
        AssignAllExact(s.client, s.flight[0].slots);
      } else {
        assert Entries(s.flight) == [] + Entries(t.flight) == Entries(t.flight);
      }
    case TrackEvent(slot, media) =>
      ArriveExact(s.client, slot, media);
  }

  lemma StartInv(s: System)
    requires Start(s)
    ensures Inv(s)
  {
  }

  lemma {:induction false} RunInv(self: PeerId, trace: seq<System>, steps: seq<Step>, i: nat)
    requires Run(self, trace, steps) && i < |trace|
    ensures Inv(trace[i])
  {
    hide Inv, Next, Start;
    if i == 0 {
      StartInv(trace[0]);
    } else {
      RunInv(self, trace, steps, i - 1);
      StepKeeps(self, trace[i - 1], steps[i - 1], trace[i]);
    }
  }

  /** Step `j` brought the stream of this name, and no later one did. */
  predicate BroughtBy(steps: seq<Step>, i: nat, slot: string, m: Media, j: nat)
    requires j < i <= |steps|
  {
    && steps[j] == TrackEvent(slot, m)
    && forall k :: j < k < i ==> !(steps[k].TrackEvent? && steps[k].slot == slot)
  }

  /** `m` is the stream that came last under this name in the first `i` steps. */
  ghost predicate CameLast(steps: seq<Step>, i: nat, slot: string, m: Media)
    requires i <= |steps|
  {
    exists j :: 0 <= j < i && BroughtBy(steps, i, slot, m, j)
  }

  lemma CameLastStep(steps: seq<Step>, i: nat, slot: string, m: Media)
    requires i < |steps|
    ensures CameLast(steps, i + 1, slot, m)
            <==> if steps[i].TrackEvent? && steps[i].slot == slot then steps[i].media == m
                 else CameLast(steps, i, slot, m)
  {
    if steps[i] == TrackEvent(slot, m) {
      assert BroughtBy(steps, i + 1, slot, m, i);
    } else if !(steps[i].TrackEvent? && steps[i].slot == slot) {
      if j :| 0 <= j < i && BroughtBy(steps, i, slot, m, j) {
        assert BroughtBy(steps, i + 1, slot, m, j);
      }
      var n := i + 1;
      if j :| 0 <= j < n && BroughtBy(steps, n, slot, m, j) {
        assert BroughtBy(steps, i, slot, m, j);
      }
    }
  }

  ghost predicate HasMedia(c: Client, slot: string, m: Media) {
    slot in c.media && c.media[slot] == m
  }

  lemma MediaStep(self: PeerId, s: System, step: Step, t: System, slot: string, m: Media)
    requires Next(self, s, step, t)
    ensures HasMedia(t.client, slot, m)
            <==> if step.TrackEvent? && step.slot == slot then step.media == m else HasMedia(s.client, slot, m)
  {
    hide Announces, AssignAll;
    if step.Deliver? && s.flight[0].AudioSlots? {
      AssignAllMedia(s.client, s.flight[0].slots);
    }
  }

  lemma {:induction false} AssignAllMedia(c: Client, notes: seq<Assignment>)
    ensures AssignAll(c, notes).media == c.media
    decreases |notes|
  {
    if notes != [] { AssignAllMedia(Assign(c, notes[0]), notes[1..]); }
  }

  lemma {:induction false} MediaIsLast(self: PeerId, trace: seq<System>, steps: seq<Step>, i: nat, slot: string,
                                       m: Media)
    requires Run(self, trace, steps) && i < |trace|
    ensures HasMedia(trace[i].client, slot, m) <==> CameLast(steps, i, slot, m)
  {
    hide Next, CameLast, HasMedia, Start;
    if i == 0 {
      NothingCame(trace[0], steps, slot, m);
    } else {
      MediaIsLast(self, trace, steps, i - 1, slot, m);
      MediaStep(self, trace[i - 1], steps[i - 1], trace[i], slot, m);
      CameLastStep(steps, i - 1, slot, m);
    }
  }

  lemma NothingCame(s: System, steps: seq<Step>, slot: string, m: Media)
    requires Start(s)
    ensures !HasMedia(s.client, slot, m) && !CameLast(steps, 0, slot, m)
  {
  }

  /** On every run, whenever nothing is on its way, a peer is heard through a stream exactly when the
      server has the peer's track in a slot and the stream is the last that came under its name. */
  lemma HeardExactly(self: PeerId, trace: seq<System>, steps: seq<Step>, i: nat, p: PeerId, m: Media)
    requires Run(self, trace, steps) && i < |trace| && trace[i].flight == []
    ensures var s := trace[i];
            p in s.client.bound && s.client.bound[p] == m
            <==> exists k :: 0 <= k < |s.slots| && s.slots[k].track.Some? && s.slots[k].track.value.owner == p
                             && CameLast(steps, i, SlotName(k), m)
  {
    RunInv(self, trace, steps, i);
    var s := trace[i];
    HeardWhenMirrored(s.slots, s.client, p, m);
    hide Inv, Next, Start, CameLast, SlotName;
    forall k | 0 <= k < |s.slots|
      ensures HasMedia(s.client, SlotName(k), m) <==> CameLast(steps, i, SlotName(k), m)
    {
      MediaIsLast(self, trace, steps, i, SlotName(k), m);
    }
  }

  lemma HeardWhenMirrored(slots: seq<Slot>, c: Client, p: PeerId, m: Media)
    requires Exact(c) && Mirrors(c.owners, slots)
    ensures p in c.bound && c.bound[p] == m
            <==> exists k :: 0 <= k < |slots| && slots[k].track.Some? && slots[k].track.value.owner == p
                             && SlotName(k) in c.media && c.media[SlotName(k)] == m
  {
    hide SlotName;
    if p in c.bound && c.bound[p] == m {
      var s :| s in c.owners && s in c.media && c.owners[s] == p;
      var k :| 0 <= k < |slots| && slots[k].track.Some? && s == SlotName(k);
      assert slots[k].track.value.owner == p && c.media[SlotName(k)] == m;
    }
  }

  // ---- Nobody hears itself ----

  ghost predicate NotBack(notes: seq<Assignment>, self: PeerId) {
    forall k :: 0 <= k < |notes| ==> notes[k].peer != Some(self)
  }

  ghost predicate OtherVoices(s: System, self: PeerId) {
    && NotOwn(s.slots, self) && NotBack(Entries(s.flight), self)
    && (forall slot :: slot in s.client.owners ==> s.client.owners[slot] != self) && self !in s.client.bound
  }

  lemma {:induction false} FreeNotesNotBack(slots: seq<Slot>, want: set<Track>, self: PeerId)
    ensures NotBack(FreeNotes(slots, want), self)
  {
    if slots != [] { FreeNotesNotBack(slots[..|slots| - 1], want, self); }
  }

  lemma {:induction false} FillNotesNotBack(slots: seq<Slot>, news: seq<Track>, n: nat, self: PeerId)
    requires n <= |slots| && forall k :: 0 <= k < |news| ==> news[k].owner != self
    ensures NotBack(FillNotes(slots, news, n), self)
  {
    if n > 0 { FillNotesNotBack(slots, news, n - 1, self); }
  }

  lemma AnnouncedOthers(before: seq<Slot>, tracks: Tracks, self: PeerId, after: seq<Slot>, pending: bool,
                        out: seq<Message>)
    requires Announces(before, Wanted(tracks, self), after, pending, out)
    ensures NotOwn(after, self) && FromRoom(after, tracks, self) && NotBack(Entries(out), self)
  {
    var news, notes :|
      && Allocated(before, Wanted(tracks, self), news, after, notes) && (pending <==> |after| > |before|)
      && out == (if notes != [] then [AudioSlots(notes)] else []) + (if pending then [Offer] else []);
    AllocatedFromRoom(before, tracks, self, news, after, notes);
    SentEntries(notes, pending);
    NewsOfOthers(before, tracks, self, news);
    FreeNotesNotBack(before, Wanted(tracks, self), self);
    var freed := Freed(before, Wanted(tracks, self));
    FillNotesNotBack(freed, news, |freed|, self);
    hide FreeNotes, FillNotes;
  }

  lemma NewsOfOthers(before: seq<Slot>, tracks: Tracks, self: PeerId, news: seq<Track>)
    requires Newcomers(Freed(before, Wanted(tracks, self)), Wanted(tracks, self), news)
    ensures forall k :: 0 <= k < |news| ==> news[k].owner != self
  {
    forall k | 0 <= k < |news|
      ensures news[k].owner != self
    {
      assert news[k] in news && news[k] in Wanted(tracks, self);
    }
  }

  lemma {:induction false} AssignAllOthers(c: Client, notes: seq<Assignment>, self: PeerId)
    requires NotBack(notes, self) && self !in c.bound && forall s :: s in c.owners ==> c.owners[s] != self
    ensures var d := AssignAll(c, notes); self !in d.bound && forall s :: s in d.owners ==> d.owners[s] != self
    decreases |notes|
  {
    if notes != [] { AssignAllOthers(Assign(c, notes[0]), notes[1..], self); }
  }

  lemma StepOthers(self: PeerId, s: System, step: Step, t: System)
    requires OtherVoices(s, self) && Next(self, s, step, t) && OpenPrefix(s.slots)
    ensures OtherVoices(t, self)
  {
    hide Announces, Opened, OpenOnes, AssignAll, Wanted, NotOwn, FromRoom, OpenPrefix;
    match step
    case Sync(tracks) =>
      var out := t.flight[|s.flight|..];
      AnnouncedOthers(s.slots, tracks, self, t.slots, t.pending, out);
      assert t.flight == s.flight + out;
      EntriesConcat(s.flight, out);
    case Answer(accepted, alive, tracks) =>
      AnswerNotOwn(s.slots, self);
      if alive {
        var out := t.flight[|s.flight|..];
        AnnouncedOthers(if accepted then Opened(s.slots) else OpenOnes(s.slots), tracks, self, t.slots, t.pending, out);
        assert t.flight == s.flight + out;
        EntriesConcat(s.flight, out);
      }
    case Deliver =>
      if s.flight[0].AudioSlots? {
        NotBackSplit(s.flight[0].slots, Entries(s.flight[1..]), self);
        AssignAllOthers(s.client, s.flight[0].slots, self);
      } else {
        assert Entries(s.flight) == [] + Entries(t.flight) == Entries(t.flight);
      }
    case TrackEvent(slot, media) =>
  }

  lemma NotBackSplit(a: seq<Assignment>, b: seq<Assignment>, self: PeerId)
    ensures NotBack(a + b, self) <==> NotBack(a, self) && NotBack(b, self)
  {
    if NotBack(a + b, self) {
      assert forall k :: 0 <= k < |a| ==> (a + b)[k] == a[k];
      assert forall k :: 0 <= k < |b| ==> (a + b)[|a| + k] == b[k];
    }
  }

  lemma {:induction false} RunOthers(self: PeerId, trace: seq<System>, steps: seq<Step>, i: nat)
    requires Run(self, trace, steps) && i < |trace|
    ensures OtherVoices(trace[i], self)
  {
    hide Next, Start;
    if i == 0 {
      StartOthers(trace[0], self);
    } else {
      hide OtherVoices;
      RunOthers(self, trace, steps, i - 1);
      RunInv(self, trace, steps, i - 1);
      StepOthers(self, trace[i - 1], steps[i - 1], trace[i]);
    }
  }

  lemma StartOthers(s: System, self: PeerId)
    requires Start(s)
    ensures OtherVoices(s, self)
  {
  }

  /** In every state of every run, with messages under way or not, a client is not bound to its own peer. */
  lemma NeverItself(self: PeerId, trace: seq<System>, steps: seq<Step>, i: nat)
    requires Run(self, trace, steps) && i < |trace|
    ensures self !in trace[i].client.bound
    ensures forall k :: 0 <= k < |trace[i].slots| && trace[i].slots[k].track.Some? ==>
                          trace[i].slots[k].track.value.owner != self
  {
    RunOthers(self, trace, steps, i);
  }

  /** Whatever the slots held before, after a sync with the room they hold its tracks and no others. */
  lemma SyncedFromRoom(self: PeerId, trace: seq<System>, steps: seq<Step>, i: nat, tracks: Tracks)
    requires Run(self, trace, steps) && i < |steps| && steps[i] == Sync(tracks)
    ensures FromRoom(trace[i + 1].slots, tracks, self)
  {
    hide Announces;
    var s, t := trace[i], trace[i + 1];
    assert Next(self, s, steps[i], t);
    AnnouncedOthers(s.slots, tracks, self, t.slots, t.pending, t.flight[|s.flight|..]);
  }
}
