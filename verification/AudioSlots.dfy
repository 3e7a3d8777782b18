/** The pool of slots of one audio connection: the server's allocator. */
module SlotPool {
  import opened Basics

  const INITIAL_SLOTS: nat := 8
  const SLOT_GROWTH: nat := 4

  /** Peer identifiers; their order is that of the fixed-width hexadecimal names. */
  type PeerId = nat

  /** A published microphone; `id` is the identity of the object. */
  datatype Track = Track(owner: PeerId, id: nat)

  /** The room's tracks, by owner. */
  type Tracks = m: map<PeerId, Track> | forall p :: p in m ==> m[p].owner == p

  datatype Slot = Slot(streamId: string, track: Option<Track>, open: bool)

  /** One entry of an `audio-slots` message: the slot's new owner, or none. */
  datatype Assignment = Assignment(slot: string, peer: Option<PeerId>)

  datatype Message = AudioSlots(slots: seq<Assignment>) | Offer

  // ---- Names ----

  function Digit(d: nat): char
    requires d < 10
  {
    "0123456789"[d]
  }

  function Decimal(n: nat): (s: string)
    ensures s != ""
  {
    if n < 10 then [Digit(n)] else Decimal(n / 10) + [Digit(n % 10)]
  }

  function SlotName(i: nat): string {
    "slot-" + Decimal(i)
  }

  lemma {:induction false} DecimalInjective(m: nat, n: nat)
    ensures Decimal(m) == Decimal(n) ==> m == n
  {
    var a, b := Decimal(m), Decimal(n);
    if a == b {
      assert a[|a| - 1] == Digit(m % 10) && b[|b| - 1] == Digit(n % 10);
      if m >= 10 && n >= 10 {
        assert a[..|a| - 1] == Decimal(m / 10) && b[..|b| - 1] == Decimal(n / 10);
        DecimalInjective(m / 10, n / 10);
      } else {
        assert m < 10 ==> |a| == 1;
        assert n < 10 ==> |b| == 1;
      }
    }
  }

  lemma SlotNameInjective(i: nat, j: nat)
    ensures SlotName(i) == SlotName(j) ==> i == j
  {
    DecimalInjective(i, j);
    assert SlotName(i)[5..] == Decimal(i) && SlotName(j)[5..] == Decimal(j);
  }

  // ---- What the loops of an allocation do ----

  /** Tracks this peer wants: everyone's but its own. */
  function Wanted(tracks: Tracks, self: PeerId): (w: set<Track>) {
    set p | p in tracks && p != self :: tracks[p]
  }

  predicate Departed(s: Slot, want: set<Track>) {
    s.track.Some? && s.track.value !in want
  }

  function Freed(slots: seq<Slot>, want: set<Track>): (r: seq<Slot>)
    ensures |r| == |slots|
  {
    seq(|slots|, i requires 0 <= i < |slots| => if Departed(slots[i], want) then slots[i].(track := None) else slots[i])
  }

  /** One entry for each slot that is freed, in slot order. */
  function FreeNotes(slots: seq<Slot>, want: set<Track>): seq<Assignment> {
    if slots == [] then []
    else
      var n := |slots| - 1;
      FreeNotes(slots[..n], want) + if Departed(slots[n], want) then [Assignment(slots[n].streamId, None)] else []
  }

  /** Slots without a track among the first `n`. */
  function Empties(slots: seq<Slot>, n: nat): (e: nat)
    requires n <= |slots|
    ensures e <= n
  {
    if n == 0 then 0 else Empties(slots, n - 1) + if slots[n - 1].track.None? then 1 else 0
  }

  /** New tracks go into the empty slots, in order, until either runs out. */
  function Filled(slots: seq<Slot>, news: seq<Track>): (r: seq<Slot>)
    ensures |r| == |slots|
  {
    seq(|slots|, i requires 0 <= i < |slots| =>
      if slots[i].track.None? && Empties(slots, i) < |news|
      then slots[i].(track := Some(news[Empties(slots, i)])) else slots[i])
  }

  /** The messages that announce them, for the first `n` slots. */
  function FillNotes(slots: seq<Slot>, news: seq<Track>, n: nat): seq<Assignment>
    requires n <= |slots|
  {
    if n == 0 then []
    else
      var e := Empties(slots, n - 1);
      FillNotes(slots, news, n - 1)
      + if slots[n - 1].track.None? && e < |news|
        then [Assignment(slots[n - 1].streamId, Some(news[e].owner))] else []
  }

  /** Slots to add: the first offer makes at least eight, later ones multiples of four. */
  function Growth(existing: nat, waiting: nat): (g: nat)
    ensures g >= waiting && (g == 0 <==> existing > 0 && waiting == 0)
  {
    if existing == 0 then (if waiting < INITIAL_SLOTS then INITIAL_SLOTS else waiting)
    else (waiting + SLOT_GROWTH - 1) / SLOT_GROWTH * SLOT_GROWTH
  }

  function Grown(slots: seq<Slot>, n: nat): (r: seq<Slot>)
    ensures |r| == |slots| + n && r[..|slots|] == slots
  {
    slots + seq(n, k requires 0 <= k < n => Slot(SlotName(|slots| + k), None, false))
  }

  /** New tracks with the empty slots they go into, in slot order. */
  predicate CanJoin(slots: seq<Slot>, joins: seq<(Track, nat)>) {
    && (forall k :: 0 <= k < |joins| ==> joins[k].1 < |slots| && slots[joins[k].1].track.None?)
    && (forall j, k :: 0 <= j < k < |joins| ==> joins[j].1 < joins[k].1)
  }

  function Joined(slots: seq<Slot>, joins: seq<(Track, nat)>): (r: seq<Slot>)
    requires CanJoin(slots, joins)
    ensures |r| == |slots|
  {
    if joins == [] then slots
    else
      var n := |joins| - 1;
      var r := Joined(slots, joins[..n]);
      r[joins[n].1 := r[joins[n].1].(track := Some(joins[n].0))]
  }

  /** The tracks wanted that have no slot yet, sorted by owner. */
  ghost predicate Newcomers(slots: seq<Slot>, want: set<Track>, news: seq<Track>) {
    && (forall i, j :: 0 <= i < j < |news| ==> news[i].owner < news[j].owner)
    && (forall t :: t in news <==> t in want && !HasSlot(slots, t))
  }

  predicate HasSlot(slots: seq<Slot>, t: Track) {
    exists i :: 0 <= i < |slots| && slots[i].track == Some(t)
  }

  // ---- The state between handlers ----

  ghost predicate Named(slots: seq<Slot>) {
    forall i :: 0 <= i < |slots| ==> slots[i].streamId == SlotName(i)
  }

  /** No track and no owner has two slots. */
  ghost predicate OneSlotEach(slots: seq<Slot>) {
    forall i, j :: 0 <= i < j < |slots| && slots[i].track.Some? && slots[j].track.Some? ==>
                     slots[i].track.value.owner != slots[j].track.value.owner
  }

  /** The client has answered for a prefix of the slots; the rest carry nothing. */
  ghost predicate OpenPrefix(slots: seq<Slot>) {
    && (forall i, j :: 0 <= i < j < |slots| && slots[j].open ==> slots[i].open)
    && (forall i :: 0 <= i < |slots| && !slots[i].open ==> slots[i].track.None?)
  }

  ghost predicate AllOpen(slots: seq<Slot>) {
    forall i :: 0 <= i < |slots| ==> slots[i].open
  }

  /** For every track, the slots this connection is subscribed with: exactly where it sits. */
  ghost predicate Subscribed(slots: seq<Slot>, subs: map<Track, seq<nat>>) {
    && (forall t :: t in subs ==> |subs[t]| == 1 && subs[t][0] < |slots| && slots[subs[t][0]].track == Some(t))
    && (forall i :: 0 <= i < |slots| && slots[i].track.Some? ==>
          slots[i].track.value in subs && subs[slots[i].track.value] == [i])
  }

  /** Nobody is given its own voice. */
  ghost predicate NotOwn(slots: seq<Slot>, self: PeerId) {
    forall i :: 0 <= i < |slots| && slots[i].track.Some? ==> slots[i].track.value.owner != self
  }

  /** A track in a slot is the one the room now has for its owner, who is somebody else. */
  ghost predicate FromRoom(slots: seq<Slot>, tracks: Tracks, self: PeerId) {
    forall i :: 0 <= i < |slots| && slots[i].track.Some? ==>
                  var t := slots[i].track.value; t.owner != self && t.owner in tracks && tracks[t.owner] == t
  }

  /** Everybody else's track is in a slot, unless the `n` slots there were are all in use. */
  ghost predicate EachServed(n: nat, tracks: Tracks, self: PeerId, slots: seq<Slot>)
    requires n <= |slots|
  {
    || (forall i :: 0 <= i < n ==> slots[i].track.Some?)
    || (forall p :: p in tracks && p != self ==> HasSlot(slots, tracks[p]))
  }

  /** A slot whose track the room still has is left as it is. */
  ghost predicate PlacesKept(before: seq<Slot>, tracks: Tracks, self: PeerId, after: seq<Slot>) {
    && |before| <= |after|
    && forall i :: 0 <= i < |before| && before[i].track.Some? ==>
                     var t := before[i].track.value;
                     t.owner != self && t.owner in tracks && tracks[t.owner] == t ==> after[i] == before[i]
  }

  class AudioPeer {
    const peerId: PeerId
    var slots: seq<Slot>
    var pending: bool
    /** This connection's places in the subscriber lists of the tracks. */
    var subs: map<Track, seq<nat>>
    /** Messages to the client, in order. */
    var sent: seq<Message>

    ghost predicate Valid()
      reads this
    {
      && (!pending ==> AllOpen(slots)) && OpenPrefix(slots)
      && Named(slots) && OneSlotEach(slots) && Subscribed(slots, subs) && NotOwn(slots, peerId)
    }

    constructor (id: PeerId)
      ensures Valid() && peerId == id && slots == [] && !pending && sent == []
    {
      peerId, slots, pending, subs, sent := id, [], false, map[], [];
    }

    /** Takes every track that is not in `want` out of its slot. */
    method FreeDeparted(want: set<Track>) returns (notes: seq<Assignment>)
      requires OneSlotEach(slots) && Subscribed(slots, subs)
      modifies this`slots, this`subs
      ensures slots == Freed(old(slots), want) && notes == FreeNotes(old(slots), want)
      ensures OneSlotEach(slots) && Subscribed(slots, subs)
    {
      hide OneSlotEach, Subscribed, Freed;
      notes := [];
      ghost var before := slots;
      for i := 0 to |slots|
        invariant |slots| == |before| && notes == FreeNotes(before[..i], want)
        invariant slots[..i] == Freed(before, want)[..i] && slots[i..] == before[i..]
        invariant OneSlotEach(slots) && Subscribed(slots, subs)
      {
        assert before[..i + 1][..i] == before[..i];
        assert slots[i] == before[i];
        FreedAt(before, want, i);
        var s := slots[i];
        if s.track.Some? && s.track.value !in want {
          Unsubscribe(slots, subs, i);
          subs := subs - {s.track.value};
          notes := notes + [Assignment(s.streamId, None)];
          slots := slots[i := s.(track := None)];
        }
        assert slots[..i + 1] == slots[..i] + [slots[i]] && slots[i + 1..] == before[i + 1..];
        assert Freed(before, want)[..i + 1] == Freed(before, want)[..i] + [Freed(before, want)[i]];
      }
      assert before[..|before|] == before;
    }

    /** Puts new tracks into the empty slots; `taken` of them have found one. */
    method FillEmpty(news: seq<Track>) returns (notes: seq<Assignment>, joins: seq<(Track, nat)>, taken: nat)
      modifies this`slots
      ensures CanJoin(old(slots), joins) && slots == Joined(old(slots), joins)
      ensures slots == Filled(old(slots), news) && notes == FillNotes(old(slots), news, |old(slots)|)
      ensures taken == if Empties(old(slots), |old(slots)|) < |news| then Empties(old(slots), |old(slots)|) else |news|
    {
      hide Filled, CanJoin, Joined;
      NoJoins(slots);
      notes, joins, taken := [], [], 0;
      ghost var before := slots;
      var i := 0;
      while i < |slots| && taken < |news|
        invariant 0 <= i <= |slots| == |before| && taken == Empties(before, i) <= |news|
        invariant notes == FillNotes(before, news, i)
        invariant slots[..i] == Filled(before, news)[..i] && slots[i..] == before[i..]
        invariant CanJoin(before, joins) && slots == Joined(before, joins)
        invariant forall k :: 0 <= k < |joins| ==> joins[k].1 < i
      {
        assert slots[i] == before[i];
        FilledAt(before, news, i);
        if slots[i].track.None? {
          notes := notes + [Assignment(slots[i].streamId, Some(news[taken].owner))];
          JoinOne(before, joins, i, news[taken]);
          joins := joins + [(news[taken], i)];
          slots := slots[i := slots[i].(track := Some(news[taken]))];
          taken := taken + 1;
        }
        assert slots[..i + 1] == slots[..i] + [slots[i]] && slots[i + 1..] == before[i + 1..];
        assert Filled(before, news)[..i + 1] == Filled(before, news)[..i] + [Filled(before, news)[i]];
        i := i + 1;
      }
      NoneLeft(before, news, i);
    }

    /** Subscribes to the tracks that have just been announced. */
    method AddSubs(joins: seq<(Track, nat)>, ghost before: seq<Slot>)
      requires CanJoin(before, joins) && slots == Joined(before, joins)
      requires OneSlotEach(slots) && Subscribed(before, subs)
      modifies this`subs
      ensures Subscribed(slots, subs)
    {
      hide Subscribed, OneSlotEach;
      NoJoins(before);
      assert joins[..0] == [];
      for k := 0 to |joins|
        invariant Subscribed(Joined(before, joins[..k]), subs)
      {
        assert joins[..k + 1][..k] == joins[..k];
        JoinedPrefix(before, joins, k);
        JoinedHere(before, joins, k);
        JoinedOther(before, joins[..k], joins[k].1);
        var (t, mid) := joins[k];
        var places := if t in subs then subs[t] else [];
        Subscribe(Joined(before, joins[..k]), subs, mid, t, slots);
        assert places + [mid] == [mid];
        subs := subs[t := places + [mid]];
      }
      assert joins[..|joins|] == joins;
    }

    /** Frees and fills slots and announces it; `waiting` tracks have found none. */
    method Allocate(want: set<Track>)
      returns (waiting: nat, ghost news: seq<Track>, ghost notes: seq<Assignment>)
      requires OneSlotEach(slots) && Subscribed(slots, subs)
      requires forall t, u :: t in want && u in want && t.owner == u.owner ==> t == u
      modifies this`slots, this`subs, this`sent
      ensures OneSlotEach(slots) && Subscribed(slots, subs)
      ensures Allocated(old(slots), want, news, slots, notes) && |slots| == |old(slots)|
      ensures sent == old(sent) + if notes != [] then [AudioSlots(notes)] else []
      ensures |Waiting(want, slots)| == waiting
      ensures waiting > 0 ==> forall i :: 0 <= i < |slots| ==> slots[i].track.Some?
    {
      hide OneSlotEach, Subscribed, Freed, Filled, FreeNotes, FillNotes, HasSlot, CanJoin, Joined, Empties, Allocated;
      ghost var before := slots;
      var gone := FreeDeparted(want);
      ghost var freed := slots;
      var newcomers := SortByOwner(set t | t in want && !HasSlot(slots, t));
      FilledOneSlotEach(before, want, newcomers);
      var added, joins, taken := FillEmpty(newcomers);
      AllocatedBy(before, want, newcomers);
      if gone + added != [] {
        sent := sent + [AudioSlots(gone + added)];
      }
      AddSubs(joins, freed);
      ServedBy(freed, want, newcomers, taken);
      return |newcomers| - taken, newcomers, gone + added;
    }

    /** Matches the slots to the room's tracks. `alive` says that the room still exists and
        the connection is open, `offerMade` that the connection could produce an offer. */
    method Reconcile(tracks: Tracks, alive: bool, offerMade: bool)
      requires Valid() && !pending
      modifies this`slots, this`subs, this`pending, this`sent
      ensures Valid()
      ensures !alive ==> slots == old(slots) && sent == old(sent) && !pending
      ensures alive ==> Announced(old(slots), tracks, old(sent)) && |old(slots)| <= |slots|
      ensures alive ==> Served(|old(slots)|, Wanted(tracks, peerId), slots, pending, offerMade)
      ensures alive ==> FromRoom(slots, tracks, peerId) && EachServed(|old(slots)|, tracks, peerId, slots)
      ensures alive ==> PlacesKept(old(slots), tracks, peerId, slots)
    {
      hide FromRoom, EachServed, PlacesKept, NotOwn, OneSlotEach, Subscribed, Freed, Filled, FreeNotes, FillNotes,
           Wanted, OpenOnes, Announces, Named, AllOpen, OpenPrefix, Allocated, Waiting, Grown, Growth;
      if !alive {
        return;
      }
      ghost var before, sentBefore := slots, sent;
      var want := Wanted(tracks, peerId);
      OneTrackEach(tracks, peerId);
      var waiting, news, notes := Allocate(want);
      RoomServed(before, tracks, peerId, news, slots, notes);
      AllocatedKeeps(before, want, news, slots, notes);
      var grow := Growth(|slots|, waiting);
      GrownKeeps(slots, subs, grow);
      GrownWaiting(before, slots, want, news, notes, grow);
      RoomServedGrown(before, tracks, peerId, news, slots, notes, grow);
      Announce(before, want, news, slots, notes, false, sentBefore, sent);
      if grow == 0 {
        return;
      }
      RetainOpen(slots, grow);
      slots := Grown(slots, grow);
      if !offerMade {
        slots := OpenOnes(slots);
        return;
      }
      pending := true;
      sent := sent + [Offer];
      Announce(before, want, news, slots, notes, true, sentBefore, sent);
    }

    /** Allocates anew if no offer is pending; otherwise nothing changes until its answer. */
    method Sync(tracks: Tracks, alive: bool, offerMade: bool)
      requires Valid()
      modifies this`slots, this`subs, this`pending, this`sent
      ensures Valid()
      ensures old(pending) || !alive ==> slots == old(slots) && sent == old(sent) && pending == old(pending)
      ensures !old(pending) && alive ==> Announced(old(slots), tracks, old(sent))
      ensures !old(pending) && alive ==> Served(|old(slots)|, Wanted(tracks, peerId), slots, pending, offerMade)
      ensures !old(pending) && alive ==> FromRoom(slots, tracks, peerId)
      ensures !old(pending) && alive ==>
                |old(slots)| <= |slots| && EachServed(|old(slots)|, tracks, peerId, slots)
      ensures !old(pending) && alive ==> PlacesKept(old(slots), tracks, peerId, slots)
    {
      if !pending {
        Reconcile(tracks, alive, offerMade);
      }
    }

    /** Applies the client's answer: the offered slots open, or go if it was refused. */
    method AcceptAnswer(accepted: bool, tracks: Tracks, alive: bool, offerMade: bool)
      requires Valid()
      modifies this`slots, this`subs, this`pending, this`sent
      ensures Valid()
      ensures !old(pending) ==> slots == old(slots) && sent == old(sent)
      ensures old(pending) ==>
                var kept := if accepted then Opened(old(slots)) else OpenOnes(old(slots));
                if !alive then slots == kept && sent == old(sent)
                else Announced(kept, tracks, old(sent))
                     && |kept| <= |slots| && Served(|kept|, Wanted(tracks, peerId), slots, pending, offerMade)
                     && FromRoom(slots, tracks, peerId) && EachServed(|kept|, tracks, peerId, slots)
                     && PlacesKept(kept, tracks, peerId, slots)
    {
      hide NotOwn, FromRoom, EachServed, PlacesKept, AllOpen, OpenPrefix, Named, OneSlotEach, Subscribed, Served,
           Announces, Wanted, Opened, OpenOnes;
      if !pending {
        return;
      }
      pending := false;
      AnswerKeeps(slots, subs);
      AnswerNotOwn(slots, peerId);
      slots := if accepted then Opened(slots) else OpenOnes(slots);
      Reconcile(tracks, alive, offerMade);
    }

    /** The slots are an allocation of `before` to the tracks, and just that has been sent. */
    ghost predicate Announced(before: seq<Slot>, tracks: Tracks, sentBefore: seq<Message>)
      reads this
    {
      sentBefore <= sent && Announces(before, Wanted(tracks, peerId), slots, pending, sent[|sentBefore|..])
    }

    /** Leaves every track this connection was subscribed to. */
    method Close()
      requires Valid()
      modifies this`subs
      ensures subs == map[]
    {
      hide AllOpen, OpenPrefix, Named, OneSlotEach;
      for i := 0 to |slots|
        invariant forall t :: t in subs ==>
                                |subs[t]| == 1 && i <= subs[t][0] < |slots| && slots[subs[t][0]].track == Some(t)
      {
        if slots[i].track.Some? {
          subs := subs - {slots[i].track.value};
        }
      }
    }
  }

  function Opened(slots: seq<Slot>): (r: seq<Slot>)
    ensures |r| == |slots|
  {
    seq(|slots|, i requires 0 <= i < |slots| => slots[i].(open := true))
  }

  /** The slots the client has answered for. */
  function OpenOnes(slots: seq<Slot>): seq<Slot> {
    if slots == [] then []
    else
      var n := |slots| - 1;
      OpenOnes(slots[..n]) + if slots[n].open then [slots[n]] else []
  }

  lemma {:induction false} OpenOnesPrefix(slots: seq<Slot>)
    requires OpenPrefix(slots)
    ensures var r := OpenOnes(slots); r <= slots && forall i :: |r| <= i < |slots| ==> !slots[i].open
    ensures forall i :: 0 <= i < |OpenOnes(slots)| ==> slots[i].open
  {
    if slots != [] {
      var n := |slots| - 1;
      OpenOnesPrefix(slots[..n]);
      if slots[n].open {
        assert forall i :: 0 <= i < n ==> slots[..n][i].open;
      }
    }
  }

  /** Slots added for an offer that could not be made go again. */
  lemma RetainOpen(slots: seq<Slot>, n: nat)
    requires AllOpen(slots)
    ensures OpenOnes(Grown(slots, n)) == slots
  {
    var r := Grown(slots, n);
    OpenOnesPrefix(r);
    var k := |OpenOnes(r)|;
    assert |slots| < |r| ==> !r[|slots|].open;
    assert k < |r| ==> !r[k].open;
  }

  /** Either way the slots with tracks stay what they were. */
  lemma AnswerKeeps(slots: seq<Slot>, subs: map<Track, seq<nat>>)
    requires OpenPrefix(slots) && Named(slots) && OneSlotEach(slots) && Subscribed(slots, subs)
    ensures var r := Opened(slots);
            AllOpen(r) && OpenPrefix(r) && Named(r) && OneSlotEach(r) && Subscribed(r, subs)
    ensures var r := OpenOnes(slots);
            AllOpen(r) && OpenPrefix(r) && Named(r) && OneSlotEach(r) && Subscribed(r, subs)
  {
    OpenOnesPrefix(slots);
  }

  lemma AnswerNotOwn(slots: seq<Slot>, self: PeerId)
    requires OpenPrefix(slots) && NotOwn(slots, self)
    ensures NotOwn(Opened(slots), self) && NotOwn(OpenOnes(slots), self)
  {
    OpenOnesPrefix(slots);
  }

  /** An allocation leaves the room's tracks in the slots and no others. */
  lemma AllocatedFromRoom(before: seq<Slot>, tracks: Tracks, self: PeerId, news: seq<Track>, after: seq<Slot>,
                          notes: seq<Assignment>)
    requires Allocated(before, Wanted(tracks, self), news, after, notes)
    ensures FromRoom(after, tracks, self) && NotOwn(after, self)
  {
    var freed := Freed(before, Wanted(tracks, self));
    forall i | 0 <= i < |after| && after[i].track.Some?
      ensures after[i].track.value in Wanted(tracks, self)
    {
      assert i < |before| && after[i] == Filled(freed, news)[i];
      FreedAt(before, Wanted(tracks, self), i);
      FilledAt(freed, news, i);
      if freed[i].track.None? { assert after[i].track.value in news; }
    }
  }

  lemma AllocatedInPlace(before: seq<Slot>, tracks: Tracks, self: PeerId, news: seq<Track>, after: seq<Slot>,
                         notes: seq<Assignment>)
    requires Allocated(before, Wanted(tracks, self), news, after, notes)
    ensures PlacesKept(before, tracks, self, after)
  {
    var want := Wanted(tracks, self);
    var freed := Freed(before, want);
    forall i | 0 <= i < |before| && before[i].track.Some? && before[i].track.value in want
      ensures after[i] == before[i]
    {
      assert after[i] == Filled(freed, news)[i];
      FreedAt(before, want, i);
      FilledAt(freed, news, i);
    }
    hide Freed, Filled;
  }

  lemma RoomServed(before: seq<Slot>, tracks: Tracks, self: PeerId, news: seq<Track>, after: seq<Slot>,
                   notes: seq<Assignment>)
    requires Allocated(before, Wanted(tracks, self), news, after, notes) && |after| == |before|
    requires Waiting(Wanted(tracks, self), after) == {} || forall i :: 0 <= i < |before| ==> after[i].track.Some?
    ensures FromRoom(after, tracks, self) && NotOwn(after, self) && EachServed(|before|, tracks, self, after)
    ensures PlacesKept(before, tracks, self, after)
  {
    AllocatedFromRoom(before, tracks, self, news, after, notes);
    AllocatedInPlace(before, tracks, self, news, after, notes);
    if Waiting(Wanted(tracks, self), after) == {} {
      forall p | p in tracks && p != self
        ensures HasSlot(after, tracks[p])
      {
        assert tracks[p] in Wanted(tracks, self);
        assert tracks[p] !in Waiting(Wanted(tracks, self), after);
      }
    }
  }

  lemma RoomServedGrown(before: seq<Slot>, tracks: Tracks, self: PeerId, news: seq<Track>, slots: seq<Slot>,
                        notes: seq<Assignment>, n: nat)
    requires Allocated(before, Wanted(tracks, self), news, slots, notes) && |slots| == |before|
    requires EachServed(|before|, tracks, self, slots) && PlacesKept(before, tracks, self, slots)
    ensures var r := Grown(slots, n);
            && FromRoom(r, tracks, self) && NotOwn(r, self) && EachServed(|before|, tracks, self, r)
            && PlacesKept(before, tracks, self, r)
  {
    var r := Grown(slots, n);
    AllocatedFromRoom(before, tracks, self, news, slots, notes);
    assert forall i :: 0 <= i < |slots| ==> r[i] == slots[i];
    if forall p :: p in tracks && p != self ==> HasSlot(slots, tracks[p]) {
      forall p | p in tracks && p != self
        ensures HasSlot(r, tracks[p])
      {
        var i :| 0 <= i < |slots| && slots[i].track == Some(tracks[p]);
        assert r[i] == slots[i];
      }
    }
  }

  lemma AllocatedBy(before: seq<Slot>, want: set<Track>, news: seq<Track>)
    requires Newcomers(Freed(before, want), want, news)
    ensures var freed := Freed(before, want);
            Allocated(before, want, news, Filled(freed, news),
              FreeNotes(before, want) + FillNotes(freed, news, |freed|))
  {
    var r := Filled(Freed(before, want), news);
    assert r == Grown(r, 0);
  }

  lemma AllocatedKeeps(before: seq<Slot>, want: set<Track>, news: seq<Track>, after: seq<Slot>, notes: seq<Assignment>)
    requires Allocated(before, want, news, after, notes) && |after| == |before| && AllOpen(before) && Named(before)
    ensures AllOpen(after) && Named(after) && OpenPrefix(after)
  {
    FilledKeeps(before, want, news);
    assert after == Filled(Freed(before, want), news);
  }

  /** New slots are empty, so they change neither the allocation nor who waits. */
  lemma GrownWaiting(before: seq<Slot>, slots: seq<Slot>, want: set<Track>, news: seq<Track>, notes: seq<Assignment>,
                     n: nat)
    requires Allocated(before, want, news, slots, notes) && |slots| == |before|
    ensures Allocated(before, want, news, Grown(slots, n), notes)
    ensures Waiting(want, Grown(slots, n)) == Waiting(want, slots) && |Grown(slots, n)| == |slots| + n
    ensures Grown(slots, n)[..|slots|] == slots
  {
    var r := Grown(slots, n);
    assert slots == Filled(Freed(before, want), news);
    forall t | t in want
      ensures HasSlot(r, t) <==> HasSlot(slots, t)
    {
      if HasSlot(slots, t) {
        var i :| 0 <= i < |slots| && slots[i].track == Some(t);
        assert r[i] == slots[i];
      }
      if HasSlot(r, t) {
        var i :| 0 <= i < |r| && r[i].track == Some(t);
        assert i < |slots| && r[i] == slots[i];
      }
    }
  }

  /** Selection by the smallest owner; owners differ. */
  method SortByOwner(s: set<Track>) returns (r: seq<Track>)
    requires forall t, u :: t in s && u in s && t.owner == u.owner ==> t == u
    ensures forall i, j :: 0 <= i < j < |r| ==> r[i].owner < r[j].owner
    ensures forall t :: t in r <==> t in s
  {
    r := [];
    var rest := s;
    while rest != {}
      invariant rest <= s
      invariant forall t :: t in s <==> t in r || t in rest
      invariant forall i, j :: 0 <= i < j < |r| ==> r[i].owner < r[j].owner
      invariant forall i, t :: 0 <= i < |r| && t in rest ==> r[i].owner < t.owner
      decreases |rest|
    {
      FirstExists(rest);
      var t :| t in rest && forall u :: u in rest ==> t.owner <= u.owner;
      r := r + [t];
      rest := rest - {t};
    }
  }

  lemma {:induction false} FirstExists(s: set<Track>)
    requires s != {}
    ensures exists t :: t in s && forall u :: u in s ==> t.owner <= u.owner
    decreases |s|
  {
    var x :| x in s;
    if s == {x} {
      assert forall u :: u in s ==> x.owner <= u.owner;
    } else {
      assert s - {x} != {};
      FirstExists(s - {x});
      var y :| y in s - {x} && forall u :: u in s - {x} ==> y.owner <= u.owner;
      var z := if x.owner <= y.owner then x else y;
      assert forall u :: u in s ==> u == x || u in s - {x};
      assert z in s && forall u :: u in s ==> z.owner <= u.owner;
    }
  }

  /** What an allocation does to the slots, and the entries it announces. */
  ghost predicate Allocated(before: seq<Slot>, want: set<Track>, news: seq<Track>, after: seq<Slot>,
                            notes: seq<Assignment>)
  {
    var freed := Freed(before, want);
    && Newcomers(freed, want, news)
    && |before| <= |after| && after == Grown(Filled(freed, news), |after| - |before|)
    && notes == FreeNotes(before, want) + FillNotes(freed, news, |freed|)
  }

  /** `out` tells the client what an allocation did, and offers the slots it added. */
  ghost predicate Announces(before: seq<Slot>, want: set<Track>, after: seq<Slot>, pending: bool, out: seq<Message>) {
    exists news, notes ::
      && Allocated(before, want, news, after, notes) && (pending <==> |after| > |before|)
      && out == (if notes != [] then [AudioSlots(notes)] else []) + (if pending then [Offer] else [])
  }

  lemma Announce(before: seq<Slot>, want: set<Track>, news: seq<Track>, after: seq<Slot>, notes: seq<Assignment>,
                 pending: bool, sentBefore: seq<Message>, sent: seq<Message>)
    requires Allocated(before, want, news, after, notes) && (pending <==> |after| > |before|)
    requires sent == sentBefore + (if notes != [] then [AudioSlots(notes)] else []) + (if pending then [Offer] else [])
    ensures sentBefore <= sent && Announces(before, want, after, pending, sent[|sentBefore|..])
  {
    hide Allocated;
    assert sent[|sentBefore|..]
           == (if notes != [] then [AudioSlots(notes)] else []) + (if pending then [Offer] else []);
  }

  /** Wanted tracks that have no slot. */
  ghost function Waiting(want: set<Track>, slots: seq<Slot>): set<Track> {
    set t | t in want && !HasSlot(slots, t)
  }

  /** Everyone is heard, or every one of the `n` slots there were is in use; an offer that could be
      made is pending when there are none yet or somebody waits, and adds just the slots due. */
  ghost predicate Served(n: nat, want: set<Track>, slots: seq<Slot>, pending: bool, offerMade: bool)
    requires n <= |slots|
  {
    && (Waiting(want, slots) == {} || forall i :: 0 <= i < n ==> slots[i].track.Some?)
    && (pending <==> offerMade && (n == 0 || Waiting(want, slots) != {}))
    && |slots| == n + if pending then Growth(n, |Waiting(want, slots)|) else 0
  }

  /** The slots due are the fewest: at least eight at first, later the next multiple of four. */
  lemma GrowthIsLeast(existing: nat, waiting: nat, g: nat)
    requires g >= waiting && if existing == 0 then g >= INITIAL_SLOTS else g % SLOT_GROWTH == 0
    ensures Growth(existing, waiting) <= g && Growth(existing, waiting) >= waiting
    ensures existing == 0 ==> Growth(existing, waiting) >= INITIAL_SLOTS
    ensures existing > 0 ==> Growth(existing, waiting) % SLOT_GROWTH == 0
  {
    if existing > 0 {
      var h, q := g / SLOT_GROWTH, (waiting + SLOT_GROWTH - 1) / SLOT_GROWTH;
      assert g == 4 * h && Growth(existing, waiting) == 4 * q && 4 * q <= waiting + 3;
    }
  }

  lemma OneTrackEach(tracks: Tracks, self: PeerId)
    ensures forall t, u :: t in Wanted(tracks, self) && u in Wanted(tracks, self) && t.owner == u.owner ==> t == u
  {
  }

  lemma {:induction false} EmptiesStep(slots: seq<Slot>, i: nat, j: nat)
    requires i < j <= |slots| && slots[i].track.None?
    ensures Empties(slots, i) < Empties(slots, j)
  {
    EmptiesMonotone(slots, i + 1, j);
  }

  /** Allocation gives no owner a second slot. */
  lemma FilledOneSlotEach(before: seq<Slot>, want: set<Track>, news: seq<Track>)
    requires OneSlotEach(Freed(before, want)) && Newcomers(Freed(before, want), want, news)
    requires forall t, u :: t in want && u in want && t.owner == u.owner ==> t == u
    ensures OneSlotEach(Filled(Freed(before, want), news))
  {
    var s := Freed(before, want);
    var r := Filled(s, news);
    forall i, j | 0 <= i < j < |r| && r[i].track.Some? && r[j].track.Some?
      ensures r[i].track.value.owner != r[j].track.value.owner
    {
      if s[i].track.None? {
        EmptiesStep(s, i, j);
        assert r[i].track.value in news;
      } else {
        assert HasSlot(s, r[i].track.value);
      }
      if s[j].track.None? {
        assert r[j].track.value in news;
      } else {
        assert HasSlot(s, r[j].track.value);
      }
    }
  }

  lemma FilledKeeps(before: seq<Slot>, want: set<Track>, news: seq<Track>)
    requires AllOpen(before) && Named(before)
    ensures var r := Filled(Freed(before, want), news);
            AllOpen(r) && Named(r) && OpenPrefix(r)
  {
  }

  lemma GrownKeeps(slots: seq<Slot>, subs: map<Track, seq<nat>>, n: nat)
    requires AllOpen(slots) && Named(slots) && OneSlotEach(slots) && Subscribed(slots, subs)
    ensures var r := Grown(slots, n);
            OpenPrefix(r) && Named(r) && OneSlotEach(r) && Subscribed(r, subs)
  {
  }

  lemma {:induction false} FindEmpty(slots: seq<Slot>, n: nat, e: nat) returns (i: nat)
    requires n <= |slots| && e < Empties(slots, n)
    ensures i < n && slots[i].track.None? && Empties(slots, i) == e
  {
    if e < Empties(slots, n - 1) {
      i := FindEmpty(slots, n - 1, e);
    } else {
      i := n - 1;
    }
  }

  lemma {:induction false} SeqSetSize(q: seq<Track>)
    requires forall i, j :: 0 <= i < j < |q| ==> q[i] != q[j]
    ensures |set t | t in q| == |q|
  {
    if q != [] {
      var u := q[..|q| - 1];
      SeqSetSize(u);
      assert q[|q| - 1] !in u;
      assert (set t | t in q) == (set t | t in u) + {q[|q| - 1]};
    }
  }

  /** After an allocation that used up all of `news`, or else all empty slots. */
  lemma ServedBy(slots: seq<Slot>, want: set<Track>, news: seq<Track>, taken: nat)
    requires Newcomers(slots, want, news)
    requires taken == if Empties(slots, |slots|) < |news| then Empties(slots, |slots|) else |news|
    ensures |Waiting(want, Filled(slots, news))| == |news| - taken
    ensures taken < |news| ==> forall i :: 0 <= i < |slots| ==> Filled(slots, news)[i].track.Some?
  {
    var r, rest := Filled(slots, news), news[taken..];
    forall t
      ensures t in Waiting(want, r) <==> t in rest
    {
      if t in Waiting(want, r) { StillWaiting(slots, want, news, taken, t); }
      if t in rest { NotTaken(slots, want, news, taken, t); }
    }
    assert Waiting(want, r) == set t | t in rest;
    SeqSetSize(rest);
    if taken < |news| {
      forall i | 0 <= i < |slots|
        ensures r[i].track.Some?
      {
        if slots[i].track.None? { EmptiesStep(slots, i, |slots|); }
      }
    }
  }

  lemma StillWaiting(slots: seq<Slot>, want: set<Track>, news: seq<Track>, taken: nat, t: Track)
    requires Newcomers(slots, want, news) && taken <= |news| && taken <= Empties(slots, |slots|)
    requires t in Waiting(want, Filled(slots, news))
    ensures t in news[taken..]
  {
    if HasSlot(slots, t) {
      var i :| 0 <= i < |slots| && slots[i].track == Some(t);
      FilledAt(slots, news, i);
    } else {
      var e :| 0 <= e < |news| && news[e] == t;
      if e < taken {
        var i := FindEmpty(slots, |slots|, e);
        FilledAt(slots, news, i);
      }
    }
  }

  lemma NotTaken(slots: seq<Slot>, want: set<Track>, news: seq<Track>, taken: nat, t: Track)
    requires Newcomers(slots, want, news) && taken <= |news| && (taken < |news| ==> taken == Empties(slots, |slots|))
    requires t in news[taken..]
    ensures t in Waiting(want, Filled(slots, news))
  {
    var r := Filled(slots, news);
    var f :| taken <= f < |news| && news[f] == t;
    if HasSlot(r, t) {
      var i :| 0 <= i < |r| && r[i].track == Some(t);
      FilledAt(slots, news, i);
      if slots[i].track.None? {
        EmptiesStep(slots, i, |slots|);
        assert false;
      } else {
        assert HasSlot(slots, t);
        assert false;
      }
    }
  }

  lemma NoJoins(slots: seq<Slot>)
    ensures CanJoin(slots, []) && Joined(slots, []) == slots
  {
  }

  lemma JoinOne(slots: seq<Slot>, joins: seq<(Track, nat)>, i: nat, t: Track)
    requires CanJoin(slots, joins) && i < |slots| && slots[i].track.None?
    requires forall k :: 0 <= k < |joins| ==> joins[k].1 < i
    ensures CanJoin(slots, joins + [(t, i)])
    ensures Joined(slots, joins + [(t, i)]) == Joined(slots, joins)[i := slots[i].(track := Some(t))]
  {
    assert (joins + [(t, i)])[..|joins|] == joins;
    JoinedOther(slots, joins, i);
  }

  lemma {:induction false} JoinedOther(slots: seq<Slot>, joins: seq<(Track, nat)>, i: nat)
    requires CanJoin(slots, joins) && i < |slots| && forall k :: 0 <= k < |joins| ==> joins[k].1 != i
    ensures Joined(slots, joins)[i] == slots[i]
  {
    if joins != [] {
      JoinedOther(slots, joins[..|joins| - 1], i);
    }
  }

  lemma {:induction false} JoinedHere(slots: seq<Slot>, joins: seq<(Track, nat)>, k: nat)
    requires CanJoin(slots, joins) && k < |joins|
    ensures Joined(slots, joins)[joins[k].1] == slots[joins[k].1].(track := Some(joins[k].0))
  {
    var n := |joins| - 1;
    if k < n {
      JoinedHere(slots, joins[..n], k);
    } else {
      JoinedOther(slots, joins[..n], joins[n].1);
    }
  }

  lemma JoinStays(slots: seq<Slot>, joins: seq<(Track, nat)>, n: nat, i: nat)
    requires n <= |joins| && i < |slots| && CanJoin(slots, joins) && CanJoin(slots, joins[..n])
    requires Joined(slots, joins[..n])[i].track.Some?
    ensures Joined(slots, joins)[i] == Joined(slots, joins[..n])[i]
  {
    hide Joined;
    if k :| 0 <= k < |joins| && joins[k].1 == i {
      JoinedHere(slots, joins, k);
      if k < n { JoinedHere(slots, joins[..n], k); } else { JoinedOther(slots, joins[..n], i); }
    } else {
      JoinedOther(slots, joins, i);
      JoinedOther(slots, joins[..n], i);
    }
  }

  /** What some of the joins leave in a slot stays there. */
  lemma JoinedPrefix(slots: seq<Slot>, joins: seq<(Track, nat)>, n: nat)
    requires CanJoin(slots, joins) && n <= |joins|
    ensures CanJoin(slots, joins[..n])
    ensures forall i :: 0 <= i < |slots| && Joined(slots, joins[..n])[i].track.Some? ==>
                          Joined(slots, joins)[i] == Joined(slots, joins[..n])[i]
  {
    forall i | 0 <= i < |slots| && Joined(slots, joins[..n])[i].track.Some?
      ensures Joined(slots, joins)[i] == Joined(slots, joins[..n])[i]
    {
      JoinStays(slots, joins, n, i);
    }
  }

  lemma Subscribe(slots: seq<Slot>, subs: map<Track, seq<nat>>, i: nat, t: Track, final: seq<Slot>)
    requires Subscribed(slots, subs) && i < |slots| == |final| && slots[i].track.None?
    requires OneSlotEach(final) && final[i].track == Some(t)
    requires forall k :: 0 <= k < |slots| && slots[k].track.Some? ==> final[k] == slots[k]
    ensures t !in subs && Subscribed(slots[i := slots[i].(track := Some(t))], subs[t := [i]])
  {
  }

  lemma FreedAt(slots: seq<Slot>, want: set<Track>, i: nat)
    requires i < |slots|
    ensures Freed(slots, want)[i] == if Departed(slots[i], want) then slots[i].(track := None) else slots[i]
  {
  }

  lemma FilledAt(slots: seq<Slot>, news: seq<Track>, i: nat)
    requires i < |slots|
    ensures Filled(slots, news)[i]
            == if slots[i].track.None? && Empties(slots, i) < |news|
               then slots[i].(track := Some(news[Empties(slots, i)])) else slots[i]
  {
  }

  lemma Unsubscribe(slots: seq<Slot>, subs: map<Track, seq<nat>>, i: nat)
    requires OneSlotEach(slots) && Subscribed(slots, subs) && i < |slots| && slots[i].track.Some?
    ensures OneSlotEach(slots[i := slots[i].(track := None)])
    ensures Subscribed(slots[i := slots[i].(track := None)], subs - {slots[i].track.value})
  {
  }

  /** Once the new tracks have run out the remaining slots stay as they are. */
  lemma {:induction false} NoneLeft(slots: seq<Slot>, news: seq<Track>, i: nat)
    requires i <= |slots| && Empties(slots, i) <= |news| && (i < |slots| ==> Empties(slots, i) == |news|)
    ensures Filled(slots, news)[i..] == slots[i..]
    ensures FillNotes(slots, news, |slots|) == FillNotes(slots, news, i)
    ensures i < |slots| ==> Empties(slots, |slots|) >= |news|
    decreases |slots| - i
  {
    forall k | i <= k < |slots|
      ensures Filled(slots, news)[k] == slots[k]
    {
      EmptiesMonotone(slots, i, k);
    }
    NotesStop(slots, news, i, |slots|);
    EmptiesMonotone(slots, i, |slots|);
  }

  lemma {:induction false} EmptiesMonotone(slots: seq<Slot>, i: nat, j: nat)
    requires i <= j <= |slots|
    ensures Empties(slots, i) <= Empties(slots, j)
    decreases j
  {
    if i < j { EmptiesMonotone(slots, i, j - 1); }
  }

  lemma {:induction false} NotesStop(slots: seq<Slot>, news: seq<Track>, i: nat, j: nat)
    requires i <= j <= |slots| && (i < j ==> Empties(slots, i) >= |news|)
    ensures FillNotes(slots, news, j) == FillNotes(slots, news, i)
    decreases j
  {
    if i < j {
      NotesStop(slots, news, i, j - 1);
      EmptiesMonotone(slots, i, j - 1);
    }
  }
}
