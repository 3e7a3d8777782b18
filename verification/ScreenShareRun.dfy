/** What every handler of a room keeps, and what follows over whole runs. */
module ScreenShareRuns {
  import opened Basics
  import opened ScreenShare

  // ---- What holds between handlers ----

  /** Who owns what: an owner is its session's publisher, a live session is registered under its
      own token and owned by its publisher while that is present, no two live sessions have the
      same publisher, and only a session without its publisher waits for it. */
  ghost predicate Owners(st: State) {
    && (forall p :: SessionOf(st, p).Some? ==>
          IsLive(st, SessionOf(st, p).value) && st.sessions[SessionOf(st, p).value].publisher == p)
    && (forall s :: IsLive(st, s) ==>
          && st.sessions[s].token in st.byToken && st.byToken[st.sessions[s].token] == s
          && (st.sessions[s].publisher in st.peers ==> SessionOf(st, st.sessions[s].publisher) == Some(s)))
    && (forall t :: t in st.byToken ==> IsLive(st, st.byToken[t]) && st.sessions[st.byToken[t]].token == t)
    && (forall s, r :: IsLive(st, s) && IsLive(st, r) && s != r ==>
       st.sessions[s].publisher != st.sessions[r].publisher)
    && (forall s :: s in st.sessions && st.sessions[s].grace ==> IsLive(st, s) && st.sessions[s].publisher !in st.peers)
  }

  predicate IsLive(st: State, s: SessionId) {
    s in st.sessions && !st.sessions[s].closed
  }

  /** A viewer's entry is the matching subscriber of the live session its key names. */
  ghost predicate EntryOk(st: State, v: PeerId, k: PeerId, x: SubId) {
    && x in st.subs && st.subs[x].viewer == v && !st.subs[x].closed && st.subs[x].session in st.sessions
    && var s := st.subs[x].session;
       !st.sessions[s].closed && st.sessions[s].publisher == k && SubscriberAt(st, Some(s), v) == Some(x)
  }

  /** The two maps of subscriptions agree; those in `leaving` belong to viewers that have gone. */
  ghost predicate Mirror(st: State, leaving: set<SubId>) {
    Refs(st, leaving) && Entries(st) && Places(st, leaving)
  }

  ghost predicate Refs(st: State, leaving: set<SubId>) {
    && (forall x :: x in st.subs ==> st.subs[x].session in st.sessions)
    && (forall x :: x in leaving && x in st.subs ==> st.subs[x].viewer !in st.peers)
  }

  ghost predicate Entries(st: State) {
    forall v, k :: EntryAt(st, v, k).Some? ==> EntryOk(st, v, k, EntryAt(st, v, k).value)
  }

  ghost predicate Places(st: State, leaving: set<SubId>) {
    forall s, v :: SubscriberAt(st, Some(s), v).Some? ==> PlaceOk(st, leaving, s, v, SubscriberAt(st, Some(s), v).value)
  }

  /** A subscriber's place in a session; while the publisher is present the connection is open
      and its viewer has the entry. */
  ghost predicate PlaceOk(st: State, leaving: set<SubId>, s: SessionId, v: PeerId, x: SubId) {
    && s in st.sessions && x in st.subs && st.subs[x].viewer == v && st.subs[x].session == s && !st.sessions[s].closed
    && (st.sessions[s].publisher in st.peers ==> !st.subs[x].closed)
    && (x !in leaving && st.sessions[s].publisher in st.peers ==> EntryAt(st, v, st.sessions[s].publisher) == Some(x))
  }

  /** The peer is present and its session has a subscriber. */
  predicate Watched(st: State, p: PeerId) {
    SessionOf(st, p).Some? && SessionOf(st, p).value in st.sessions && st.sessions[SessionOf(st, p).value].subs != map[]
  }

  /** A publisher that is being watched has been told to send. */
  ghost predicate Encoders(st: State) {
    forall p :: Watched(st, p) ==> p in st.encode && st.encode[p] == EncodeResume
  }

  ghost predicate Known(st: State) {
    && (forall p :: p in st.peers ==> p in st.used)
    && (forall s :: s in st.sessions ==> st.sessions[s].publisher in st.used)
  }

  ghost predicate Inv(st: State, leaving: set<SubId>) {
    Owners(st) && Mirror(st, leaving) && Encoders(st) && Known(st)
  }

  // ---- Ownership does not depend on who watches ----

  ghost predicate SameOwners(a: State, b: State) {
    && a.byToken == b.byToken && a.used == b.used && a.peers.Keys == b.peers.Keys && a.sessions.Keys == b.sessions.Keys
    && (forall p :: p in a.peers ==> a.peers[p].session == b.peers[p].session && a.peers[p].client == b.peers[p].client)
    && (forall s :: s in a.sessions ==> a.sessions[s] == b.sessions[s].(subs := a.sessions[s].subs))
  }

  lemma SameOwnersKeep(a: State, b: State)
    requires SameOwners(a, b)
    ensures Owners(a) ==> Owners(b)
    ensures Known(a) ==> Known(b)
  {
    assert forall p :: SessionOf(b, p) == SessionOf(a, p);
    assert forall s :: IsLive(b, s) == IsLive(a, s);
    hide SessionOf, IsLive;
    if Owners(a) {
      forall s | s in b.sessions && b.sessions[s].grace
        ensures IsLive(b, s) && b.sessions[s].publisher !in b.peers
      {
        assert a.sessions[s].grace;
      }
    }
  }

  lemma SameOwnersTwice(a: State, b: State, c: State)
    requires SameOwners(a, b) && SameOwners(b, c)
    ensures SameOwners(a, c)
  {
  }

  lemma PartsSameOwners(st: State, v: PeerId, pub: PeerId, s: SessionId, x: SubId, e: Encode)
    ensures SameOwners(st, st) && SameOwners(st, Marked(st, x)) && SameOwners(st, Sent(st, pub, e))
    ensures s in st.sessions ==> SameOwners(st, WithoutSubscriber(st, s, v))
    ensures SameOwners(st, WithoutEntry(st, v, pub))
  {
    hide WithoutEntry, WithoutSubscriber, SameOwners;
    EntrySameOwners(st, v, pub);
    RestSameOwners(st, st);
    RestSameOwners(st, Marked(st, x));
    RestSameOwners(st, Sent(st, pub, e));
    if s in st.sessions { SubscriberSameOwners(st, s, v); }
  }

  lemma RestSameOwners(a: State, b: State)
    requires a.peers == b.peers && a.byToken == b.byToken && a.sessions == b.sessions && a.used == b.used
    ensures SameOwners(a, b)
  {
  }

  lemma SubscriberSameOwners(st: State, s: SessionId, v: PeerId)
    requires s in st.sessions
    ensures SameOwners(st, WithoutSubscriber(st, s, v))
  {
  }

  lemma EntrySameOwners(st: State, v: PeerId, pub: PeerId)
    ensures SameOwners(st, WithoutEntry(st, v, pub))
  {
  }

  // ---- One connection closes ----

  /** The viewer's entry goes, if it is for this connection. */
  function EntryGone(st: State, v: PeerId, pub: PeerId, x: SubId): State {
    if EntryAt(st, v, pub) == Some(x) then WithoutEntry(st, v, pub) else st
  }

  /** Its place in the publisher's session goes, and the encoder rests when it was the last. */
  function PlaceGone(st: State, v: PeerId, pub: PeerId, x: SubId): State {
    var s := SessionOf(st, pub);
    if SubscriberAt(st, s, v) != Some(x) then st
    else
      var b := WithoutSubscriber(st, s.value, v);
      if b.sessions[s.value].subs == map[] then Sent(b, pub, EncodePause) else b
  }

  /** What closing an open connection does. */
  lemma ClosedIs(st: State, x: SubId)
    requires x in st.subs && !st.subs[x].closed && st.subs[x].session in st.sessions
    ensures var v, pub := st.subs[x].viewer, st.sessions[st.subs[x].session].publisher;
            Closed(st, x) == PlaceGone(EntryGone(Marked(st, x), v, pub, x), v, pub, x)
  {
    hide Sent;
    var v, pub, m := st.subs[x].viewer, st.sessions[st.subs[x].session].publisher, Marked(st, x);
    var a := EntryGone(m, v, pub, x);
    MarkedAgain(m, x);
    MarkedAgain(WithoutEntry(m, v, pub), x);
    var s := SessionOf(m, pub);
    assert SessionOf(a, pub) == s && SubscriberAt(a, s, v) == SubscriberAt(m, s, v);
    if SubscriberAt(m, s, v) == Some(x) { MarkedAgain(WithoutSubscriber(a, s.value, v), x); }
  }

  lemma ClosedSameOwners(st: State, x: SubId)
    ensures SameOwners(st, Closed(st, x))
  {
    hide SameOwners, Closed, Marked, WithoutEntry, WithoutSubscriber, Sent;
    PartsSameOwners(st, 0, 0, 0, x, EncodePause);
    if x in st.subs && !st.subs[x].closed && st.subs[x].session in st.sessions {
      ClosedIs(st, x);
      var v, pub, m := st.subs[x].viewer, st.sessions[st.subs[x].session].publisher, Marked(st, x);
      var a := EntryGone(m, v, pub, x);
      PartsSameOwners(m, v, pub, 0, 0, EncodePause);
      SameOwnersTwice(st, m, a);
      PlaceSameOwners(a, v, pub, x);
      SameOwnersTwice(st, a, PlaceGone(a, v, pub, x));
    } else {
      NotClosed(st, x);
    }
  }

  lemma NotClosed(st: State, x: SubId)
    requires x !in st.subs || st.subs[x].closed || st.subs[x].session !in st.sessions
    ensures Closed(st, x) == st
  {
  }

  lemma PlaceSameOwners(st: State, v: PeerId, pub: PeerId, x: SubId)
    ensures SameOwners(st, PlaceGone(st, v, pub, x))
  {
    hide SameOwners, WithoutSubscriber, Sent;
    PartsSameOwners(st, v, pub, 0, 0, EncodePause);
    var s := SessionOf(st, pub);
    if SubscriberAt(st, s, v) == Some(x) {
      PartsSameOwners(st, v, pub, s.value, 0, EncodePause);
      var b := WithoutSubscriber(st, s.value, v);
      PartsSameOwners(b, v, pub, 0, 0, EncodePause);
      SameOwnersTwice(st, b, Sent(b, pub, EncodePause));
    }
  }

  /** Closing takes `x` out of both maps and leaves the rest of them. */
  lemma ClosedMirror(st: State, x: SubId, leaving: set<SubId>)
    requires Owners(st) && Mirror(st, leaving) && x in st.subs && !st.subs[x].closed
    ensures Mirror(Closed(st, x), leaving - {x})
  {
    hide Closed, Owners, Entries, Places, Marked, EntryGone, PlaceGone;
    ClosedEntries(st, x, leaving);
    ClosedPlaces(st, x, leaving);
    ClosedSameOwners(st, x);
    ClosedSubs(st, x);
  }

  lemma ClosedSubs(st: State, x: SubId)
    requires x in st.subs && !st.subs[x].closed && st.subs[x].session in st.sessions
    ensures Closed(st, x).subs == st.subs[x := st.subs[x].(closed := true)]
  {
    hide Closed;
    ClosedIs(st, x);
  }

  /** What is left of the two maps, one place at a time. */
  lemma ClosedAt(st: State, x: SubId, v: PeerId, k: PeerId, s: SessionId)
    requires x in st.subs && !st.subs[x].closed && st.subs[x].session in st.sessions
    ensures var w, pub, t := st.subs[x].viewer, st.sessions[st.subs[x].session].publisher, Closed(st, x);
            && EntryAt(t, v, k)
               == (if v == w && k == pub && EntryAt(st, v, k) == Some(x) then None else EntryAt(st, v, k))
            && SubscriberAt(t, Some(s), v)
               == if v == w && Some(s) == SessionOf(st, pub) && SubscriberAt(st, Some(s), v) == Some(x) then None
                  else SubscriberAt(st, Some(s), v)
  {
    hide Closed;
    ClosedIs(st, x);
    var w, pub := st.subs[x].viewer, st.sessions[st.subs[x].session].publisher;
    var m := Marked(st, x);
    EntryGoneAt(m, w, pub, x, v, k, s);
    PlaceGoneAt(EntryGone(m, w, pub, x), w, pub, x, v, k, s);
  }

  lemma EntryGoneAt(st: State, w: PeerId, pub: PeerId, x: SubId, v: PeerId, k: PeerId, s: SessionId)
    ensures var t := EntryGone(st, w, pub, x);
            && EntryAt(t, v, k)
               == (if v == w && k == pub && EntryAt(st, v, k) == Some(x) then None else EntryAt(st, v, k))
            && SubscriberAt(t, Some(s), v) == SubscriberAt(st, Some(s), v) && SessionOf(t, k) == SessionOf(st, k)
            && SessionOf(t, pub) == SessionOf(st, pub)
  {
  }

  lemma PlaceGoneAt(st: State, w: PeerId, pub: PeerId, x: SubId, v: PeerId, k: PeerId, s: SessionId)
    ensures var t := PlaceGone(st, w, pub, x);
            && EntryAt(t, v, k) == EntryAt(st, v, k)
            && SubscriberAt(t, Some(s), v)
               == if v == w && Some(s) == SessionOf(st, pub) && SubscriberAt(st, Some(s), v) == Some(x) then None
                  else SubscriberAt(st, Some(s), v)
  {
  }

  lemma ClosedEntries(st: State, x: SubId, leaving: set<SubId>)
    requires Mirror(st, leaving) && x in st.subs && !st.subs[x].closed
    ensures Entries(Closed(st, x))
  {
    hide Places, Closed, EntryAt, SubscriberAt;
    var t := Closed(st, x);
    ClosedSubs(st, x);
    ClosedSameOwners(st, x);
    forall v, k | EntryAt(t, v, k).Some?
      ensures EntryOk(t, v, k, EntryAt(t, v, k).value)
    {
      ClosedAt(st, x, v, k, 0);
      var y := EntryAt(t, v, k).value;
      assert EntryOk(st, v, k, y);
      ClosedAt(st, x, v, k, st.subs[y].session);
    }
  }

  lemma ClosedPlaces(st: State, x: SubId, leaving: set<SubId>)
    requires Owners(st) && Mirror(st, leaving) && x in st.subs && !st.subs[x].closed
    ensures Places(Closed(st, x), leaving - {x})
  {
    hide Entries, Closed, EntryAt, SubscriberAt, Owners;
    var t := Closed(st, x);
    ClosedSubs(st, x);
    ClosedSameOwners(st, x);
    forall s, v | SubscriberAt(t, Some(s), v).Some?
      ensures PlaceOk(t, leaving - {x}, s, v, SubscriberAt(t, Some(s), v).value)
    {
      ClosedAt(st, x, v, 0, s);
      var y := SubscriberAt(t, Some(s), v).value;
      assert PlaceOk(st, leaving, s, v, y);
      ClosedAt(st, x, v, st.sessions[s].publisher, s);
      if st.sessions[s].publisher in st.peers { OwnerSession(st, s); }
    }
  }

  lemma OwnerSession(st: State, s: SessionId)
    requires Owners(st) && s in st.sessions && !st.sessions[s].closed && st.sessions[s].publisher in st.peers
    ensures SessionOf(st, st.sessions[s].publisher) == Some(s)
  {
  }

  lemma ClosedEncoders(st: State, x: SubId)
    requires Encoders(st) && x in st.subs && !st.subs[x].closed && st.subs[x].session in st.sessions
    requires Owners(st)
    ensures Encoders(Closed(st, x))
  {
    hide Closed, Owners;
    OwnersPublish(st);
    ClosedIs(st, x);
    var w, pub := st.subs[x].viewer, st.sessions[st.subs[x].session].publisher;
    var a := EntryGone(Marked(st, x), w, pub, x);
    var t := PlaceGone(a, w, pub, x);
    assert forall q :: SessionOf(a, q) == SessionOf(st, q);
    forall p | Watched(t, p)
      ensures p in t.encode && t.encode[p] == EncodeResume
    {
      assert SessionOf(a, p) == SessionOf(st, p) && a.sessions == st.sessions && a.encode == st.encode;
      PlaceGoneWatched(a, w, pub, x, p);
      assert Watched(st, p);
    }
  }

  lemma OwnersPublish(st: State)
    requires Owners(st)
    ensures forall q :: SessionOf(st, q).Some? && SessionOf(st, q).value in st.sessions ==>
                          st.sessions[SessionOf(st, q).value].publisher == q
  {
  }

  lemma PlaceGoneWatched(st: State, w: PeerId, pub: PeerId, x: SubId, p: PeerId)
    requires forall q :: SessionOf(st, q).Some? && SessionOf(st, q).value in st.sessions ==>
                           st.sessions[SessionOf(st, q).value].publisher == q
    ensures var t := PlaceGone(st, w, pub, x);
            Watched(t, p) ==>
              Watched(st, p) && (p in t.encode <==> p in st.encode) && (p in st.encode ==> t.encode[p] == st.encode[p])
  {
  }

  /** Closing a connection, of any viewer, keeps everything. */
  lemma ClosedKeeps(st: State, x: SubId, leaving: set<SubId>)
    requires Inv(st, leaving)
    ensures Inv(Closed(st, x), leaving - {x})
  {
    hide Owners, Known, Encoders, Entries, Closed;
    ClosedSameOwners(st, x);
    SameOwnersKeep(st, Closed(st, x));
    if x in st.subs && !st.subs[x].closed {
      ClosedMirror(st, x, leaving);
      ClosedEncoders(st, x);
    } else {
      NotClosed(st, x);
      ClosedHasNoPlace(st, x, leaving);
    }
  }

  /** A closed connection is in no place that counts. */
  lemma ClosedHasNoPlace(st: State, x: SubId, leaving: set<SubId>)
    requires Owners(st) && Mirror(st, leaving) && (x in st.subs ==> st.subs[x].closed)
    ensures Mirror(st, leaving - {x})
  {
  }

  lemma {:induction false} CloseAllKeeps(st: State, order: seq<SubId>, leaving: set<SubId>)
    requires Inv(st, leaving) && forall x :: x in leaving ==> x in order
    ensures Inv(CloseAll(st, order), {})
    decreases |order|
  {
    hide Inv, Closed;
    if order == [] {
      assert leaving == {};
    } else {
      ClosedKeeps(st, order[0], leaving);
      CloseAllKeeps(Closed(st, order[0]), order[1..], leaving - {order[0]});
    }
  }

  // ---- A session's connections are dropped together ----

  predicate Views(st: State, order: seq<SubId>, v: PeerId) {
    exists x :: x in order && x in st.subs && st.subs[x].viewer == v
  }

  /** The viewers of `order` lose their entries under `key`, and its connections are closed. */
  function Dropped(st: State, order: seq<SubId>, key: PeerId): State {
    st.(peers := map v | v in st.peers ::
                   if Views(st, order, v) then st.peers[v].(subs := st.peers[v].subs - {key}) else st.peers[v],
        subs := map x | x in st.subs :: if x in order then st.subs[x].(closed := true) else st.subs[x])
  }

  /** The connection has no place in a session and no entry but under `key`. */
  ghost predicate Loose(st: State, x: SubId, key: PeerId) {
    && x in st.subs && st.subs[x].session in st.sessions
    && (forall s, v :: SubscriberAt(st, Some(s), v) != Some(x))
    && (forall v, k :: EntryAt(st, v, k) == Some(x) ==> k == key)
  }

  /** One of them. */
  function DropOne(st: State, x: SubId, key: PeerId): State {
    var a := Closed(st, x);
    if x in a.subs then WithoutEntry(a, a.subs[x].viewer, key) else a
  }

  lemma DropOneIs(st: State, x: SubId, key: PeerId)
    requires Loose(st, x, key)
    ensures DropOne(st, x, key) == WithoutEntry(Marked(st, x), st.subs[x].viewer, key)
  {
    hide Closed;
    var v, pub, m := st.subs[x].viewer, st.sessions[st.subs[x].session].publisher, Marked(st, x);
    if st.subs[x].closed {
      MarkedAgain(st, x);
      NotClosed(st, x);
    } else {
      ClosedIs(st, x);
      assert SubscriberAt(st, SessionOf(st, pub), v) != Some(x);
      assert Closed(st, x) == EntryGone(m, v, pub, x);
      if EntryAt(m, v, pub) == Some(x) {
        assert EntryAt(st, v, pub) == Some(x);
        EntryGoneTwice(m, v, key);
      }
    }
  }

  lemma EntryGoneTwice(st: State, v: PeerId, k: PeerId)
    ensures WithoutEntry(WithoutEntry(st, v, k), v, k) == WithoutEntry(st, v, k)
  {
    if v in st.peers {
      var a := WithoutEntry(st, v, k);
      assert a.peers[v].subs - {k} == a.peers[v].subs;
      assert a.peers[v := a.peers[v].(subs := a.peers[v].subs - {k})] == a.peers;
    }
  }

  lemma StillLoose(st: State, x: SubId, key: PeerId, y: SubId)
    requires Loose(st, x, key) && Loose(st, y, key)
    ensures Loose(DropOne(st, x, key), y, key)
  {
    hide Closed;
    DropOneIs(st, x, key);
    var t := DropOne(st, x, key);
    forall v, k | EntryAt(t, v, k) == Some(y)
      ensures k == key
    {
      assert EntryAt(st, v, k) == Some(y);
    }
    assert forall s, v :: SubscriberAt(t, Some(s), v) == SubscriberAt(st, Some(s), v);
  }

  lemma DroppedMore(st: State, x: SubId, rest: seq<SubId>, key: PeerId)
    requires Loose(st, x, key)
    ensures Dropped(DropOne(st, x, key), rest, key) == Dropped(st, [x] + rest, key)
  {
    hide Closed, Views, Loose, Marked, WithoutEntry;
    DropOneIs(st, x, key);
    LooseKnown(st, x, key);
    var t := WithoutEntry(Marked(st, x), st.subs[x].viewer, key);
    var a, b := Dropped(t, rest, key), Dropped(st, [x] + rest, key);
    OneDropped(st, x, key);
    forall v | v in st.peers
      ensures a.peers[v] == b.peers[v]
    {
      DroppedMoreAt(st, x, rest, key, v);
    }
    assert a.peers == b.peers;
    assert a.subs == b.subs;
  }

  lemma OneDropped(st: State, x: SubId, key: PeerId)
    requires x in st.subs
    ensures var t := WithoutEntry(Marked(st, x), st.subs[x].viewer, key);
            && t.peers.Keys == st.peers.Keys && t.subs == st.subs[x := st.subs[x].(closed := true)]
            && t == st.(peers := t.peers, subs := t.subs)
  {
  }

  lemma DroppedMoreAt(st: State, x: SubId, rest: seq<SubId>, key: PeerId, v: PeerId)
    requires x in st.subs && v in st.peers
    ensures var t := WithoutEntry(Marked(st, x), st.subs[x].viewer, key);
            v in t.peers && Dropped(t, rest, key).peers[v] == Dropped(st, [x] + rest, key).peers[v]
  {
    hide Views;
    var t := WithoutEntry(Marked(st, x), st.subs[x].viewer, key);
    ViewsMore(st, x, rest, v);
    ViewsSame(st, t, rest, v);
    assert st.peers[v].subs - {key} - {key} == st.peers[v].subs - {key};
  }

  lemma LooseKnown(st: State, x: SubId, key: PeerId)
    requires Loose(st, x, key)
    ensures x in st.subs
  {
  }

  lemma ViewsMore(st: State, x: SubId, rest: seq<SubId>, v: PeerId)
    requires x in st.subs
    ensures Views(st, [x] + rest, v) <==> st.subs[x].viewer == v || Views(st, rest, v)
  {
    if Views(st, rest, v) {
      var y :| y in rest && y in st.subs && st.subs[y].viewer == v;
      assert y in [x] + rest;
    }
    if st.subs[x].viewer == v { assert x in [x] + rest; }
  }

  lemma ViewsSame(st: State, t: State, rest: seq<SubId>, v: PeerId)
    requires t.subs.Keys == st.subs.Keys && forall x :: x in st.subs ==> t.subs[x].viewer == st.subs[x].viewer
    ensures Views(t, rest, v) <==> Views(st, rest, v)
  {
  }

  lemma {:induction false} DropAllIs(st: State, order: seq<SubId>, key: PeerId)
    requires forall x :: x in order ==> Loose(st, x, key)
    ensures DropAll(st, order, key) == Dropped(st, order, key)
    decreases |order|
  {
    hide Closed, Loose, DropOne, Dropped;
    if order == [] {
      NothingDropped(st, key);
    } else {
      var x, rest := order[0], order[1..];
      forall y | y in rest
        ensures Loose(DropOne(st, x, key), y, key)
      {
        StillLoose(st, x, key, y);
      }
      DropAllIs(DropOne(st, x, key), rest, key);
      DroppedMore(st, x, rest, key);
      assert order == [x] + rest;
      DropAllStep(st, order, key);
    }
  }

  lemma DropAllStep(st: State, order: seq<SubId>, key: PeerId)
    requires order != []
    ensures DropAll(st, order, key) == DropAll(DropOne(st, order[0], key), order[1..], key)
  {
    hide Closed;
  }

  lemma NothingDropped(st: State, key: PeerId)
    ensures Dropped(st, [], key) == st == DropAll(st, [], key)
  {
    assert forall v :: !Views(st, [], v);
    assert Dropped(st, [], key).peers == st.peers && Dropped(st, [], key).subs == st.subs;
  }

  lemma DroppedAt(st: State, order: seq<SubId>, key: PeerId, v: PeerId, k: PeerId, s: Option<SessionId>)
    ensures var t := Dropped(st, order, key);
            && EntryAt(t, v, k) == (if Views(st, order, v) && k == key then None else EntryAt(st, v, k))
            && SubscriberAt(t, s, v) == SubscriberAt(st, s, v) && SessionOf(t, v) == SessionOf(st, v)
  {
  }

  // ---- A session ends, or moves to a new publisher ----

  /** `b` is `a` but for the session `s`, which has lost its subscribers, and for who owns what. */
  ghost predicate Emptied(a: State, b: State, s: SessionId) {
    && b.subs == a.subs && b.peers.Keys == a.peers.Keys && b.sessions.Keys == a.sessions.Keys
    && (forall v :: v in a.peers ==> b.peers[v].subs == a.peers[v].subs)
    && (forall r :: r in a.sessions && r != s ==> b.sessions[r] == a.sessions[r])
    && s in b.sessions && b.sessions[s].subs == map[]
  }

  /** A live session with its publisher and the order its connections are closed in. */
  ghost predicate Ending(st: State, s: SessionId, order: seq<SubId>) {
    && Owners(st) && Mirror(st, {}) && s in st.sessions && !st.sessions[s].closed
    && Enumerates(order, st.sessions[s].subs.Values)
  }

  lemma EmptiedAt(a: State, b: State, s: SessionId, v: PeerId, k: PeerId, r: SessionId)
    requires Emptied(a, b, s)
    ensures EntryAt(b, v, k) == EntryAt(a, v, k)
    ensures SubscriberAt(b, Some(r), v) == if r == s then None else SubscriberAt(a, Some(r), v)
  {
  }

  lemma OrderLoose(a: State, b: State, s: SessionId, order: seq<SubId>, x: SubId)
    requires Ending(a, s, order) && Emptied(a, b, s) && x in order
    ensures Loose(b, x, a.sessions[s].publisher) && a.subs[x].session == s
  {
    hide Owners, EntryAt, Emptied;
    InOrder(a, s, order, x);
    EmptiedAt(a, b, s, 0, 0, 0);
    forall r, v
      ensures SubscriberAt(b, Some(r), v) != Some(x)
    {
      EmptiedAt(a, b, s, v, 0, r);
      if SubscriberAt(a, Some(r), v) == Some(x) { assert PlaceOk(a, {}, r, v, x); }
    }
    forall v, k | EntryAt(b, v, k) == Some(x)
      ensures k == a.sessions[s].publisher
    {
      EmptiedAt(a, b, s, v, k, 0);
      assert EntryOk(a, v, k, x);
    }
    assert b.subs == a.subs && s in b.sessions by { EmptiedKnown(a, b, s); }
  }

  lemma EmptiedKnown(a: State, b: State, s: SessionId)
    requires Emptied(a, b, s)
    ensures b.subs == a.subs && s in b.sessions && b.sessions.Keys == a.sessions.Keys && b.peers.Keys == a.peers.Keys
    ensures forall r :: r in a.sessions && r != s ==> b.sessions[r] == a.sessions[r]
  {
  }

  lemma InOrder(st: State, s: SessionId, order: seq<SubId>, x: SubId)
    requires Ending(st, s, order) && x in order
    ensures x in st.subs && st.subs[x].session == s && SubscriberAt(st, Some(s), st.subs[x].viewer) == Some(x)
  {
    hide Owners, Entries;
    var v :| v in st.sessions[s].subs && st.sessions[s].subs[v] == x;
    assert SubscriberAt(st, Some(s), v) == Some(x) && PlaceOk(st, {}, s, v, x);
  }

  /** An entry under the publisher's id is for this session: nobody else has such an entry. */
  lemma UnderKey(st: State, s: SessionId, order: seq<SubId>, v: PeerId)
    requires Ending(st, s, order) && EntryAt(st, v, st.sessions[s].publisher).Some?
    ensures Views(st, order, v)
  {
    hide Places;
    var x := EntryAt(st, v, st.sessions[s].publisher).value;
    assert EntryOk(st, v, st.sessions[s].publisher, x);
    assert st.subs[x].session == s;
    assert x in st.sessions[s].subs.Values;
  }

  /** Dropping its connections takes the session out of the viewers' maps and nothing else. */
  lemma DroppedMirror(a: State, b: State, s: SessionId, order: seq<SubId>)
    requires Ending(a, s, order) && Emptied(a, b, s)
    ensures var key := a.sessions[s].publisher;
            var t := Dropped(b, order, key);
            && DropAll(b, order, key) == t && Mirror(t, {})
            && forall v :: EntryAt(t, v, key) == None
  {
    var key := a.sessions[s].publisher;
    hide Ending, Emptied, Dropped, Views, Loose, Entries, Places;
    forall x | x in order
      ensures Loose(b, x, key)
    {
      OrderLoose(a, b, s, order, x);
    }
    DropAllIs(b, order, key);
    DroppedEntries(a, b, s, order);
    DroppedPlaces(a, b, s, order);
    DroppedRefs(a, b, s, order);
    forall v
      ensures EntryAt(Dropped(b, order, key), v, key) == None
    {
      DroppedAt(b, order, key, v, key, None);
      EmptiedAt(a, b, s, v, key, s);
      if EntryAt(a, v, key).Some? {
        UnderKey(a, s, order, v);
        EmptiedKnown(a, b, s);
        ViewsSame(a, b, order, v);
      }
    }
  }

  lemma DroppedRefs(a: State, b: State, s: SessionId, order: seq<SubId>)
    requires Ending(a, s, order) && Emptied(a, b, s)
    ensures Refs(Dropped(b, order, a.sessions[s].publisher), {})
  {
    hide Views, Entries, Places, Owners;
  }

  lemma DroppedEntries(a: State, b: State, s: SessionId, order: seq<SubId>)
    requires Ending(a, s, order) && Emptied(a, b, s)
    ensures Entries(Dropped(b, order, a.sessions[s].publisher))
  {
    hide Emptied, Views, EntryAt, SubscriberAt, Owners, Places, Enumerates;
    var key := a.sessions[s].publisher;
    var t := Dropped(b, order, key);
    EmptiedKnown(a, b, s);
    forall v, k | EntryAt(t, v, k).Some?
      ensures EntryOk(t, v, k, EntryAt(t, v, k).value)
    {
      DroppedAt(b, order, key, v, k, None);
      EmptiedAt(a, b, s, v, k, s);
      var x := EntryAt(t, v, k).value;
      assert EntryOk(a, v, k, x);
      if k == key {
        UnderKey(a, s, order, v);
        ViewsSame(a, b, order, v);
      }
      var r := a.subs[x].session;
      if x in order { InOrder(a, s, order, x); }
      EmptiedAt(a, b, s, v, k, r);
      DroppedAt(b, order, key, v, k, Some(r));
    }
  }

  lemma DroppedPlaces(a: State, b: State, s: SessionId, order: seq<SubId>)
    requires Ending(a, s, order) && Emptied(a, b, s)
    ensures Places(Dropped(b, order, a.sessions[s].publisher), {})
  {
    hide Emptied, Views, EntryAt, SubscriberAt, Owners, Entries, Enumerates;
    var key := a.sessions[s].publisher;
    var t := Dropped(b, order, key);
    EmptiedKnown(a, b, s);
    forall r, v | SubscriberAt(t, Some(r), v).Some?
      ensures PlaceOk(t, {}, r, v, SubscriberAt(t, Some(r), v).value)
    {
      DroppedAt(b, order, key, v, 0, Some(r));
      EmptiedAt(a, b, s, v, 0, r);
      var x := SubscriberAt(t, Some(r), v).value;
      assert PlaceOk(a, {}, r, v, x);
      if x in order { InOrder(a, s, order, x); }
      var k := a.sessions[r].publisher;
      EmptiedAt(a, b, s, v, k, r);
      DroppedAt(b, order, key, v, k, Some(r));
      DifferentPublishers(a, s, r);
    }
  }

  lemma DifferentPublishers(st: State, s: SessionId, r: SessionId)
    requires Owners(st) && s in st.sessions && r in st.sessions && s != r && !st.sessions[s].closed
             && !st.sessions[r].closed
    ensures st.sessions[s].publisher != st.sessions[r].publisher
  {
  }

  /** The maps of subscriptions of `b` are those of `a`. */
  lemma MirrorSame(a: State, b: State, leaving: set<SubId>)
    requires Mirror(a, leaving) && b.subs == a.subs && b.peers.Keys == a.peers.Keys
             && b.sessions.Keys == a.sessions.Keys
    requires forall v :: v in a.peers ==> b.peers[v].subs == a.peers[v].subs
    requires forall s :: s in a.sessions ==>
                           && b.sessions[s].subs == a.sessions[s].subs && b.sessions[s].closed == a.sessions[s].closed
                           && b.sessions[s].publisher == a.sessions[s].publisher
    ensures Mirror(b, leaving)
  {
    assert forall v, k :: EntryAt(b, v, k) == EntryAt(a, v, k);
    assert forall s, v :: SubscriberAt(b, Some(s), v) == SubscriberAt(a, Some(s), v);
    hide EntryAt, SubscriberAt;
    forall v, k | EntryAt(b, v, k).Some?
      ensures EntryOk(b, v, k, EntryAt(b, v, k).value)
    {
      assert EntryOk(a, v, k, EntryAt(a, v, k).value);
    }
    forall s, v | SubscriberAt(b, Some(s), v).Some?
      ensures PlaceOk(b, leaving, s, v, SubscriberAt(b, Some(s), v).value)
    {
      assert PlaceOk(a, leaving, s, v, SubscriberAt(a, Some(s), v).value);
    }
  }

  /** Nobody is watched that was not, and nobody's encoder hears anything. */
  lemma EncodersSame(a: State, b: State)
    requires Encoders(a) && b.encode == a.encode && forall p :: Watched(b, p) ==> Watched(a, p)
    ensures Encoders(b)
  {
  }

  lemma ShutEmptied(st: State, s: SessionId)
    requires s in st.sessions
    ensures Emptied(st, Shut(st, s), s)
  {
  }

  lemma EndedIs(st: State, s: SessionId, order: seq<SubId>)
    requires Ending(st, s, order)
    ensures s in Dropped(Shut(st, s), order, st.sessions[s].publisher).sessions
    ensures Ended(st, s, order) == Unregistered(Dropped(Shut(st, s), order, st.sessions[s].publisher), s)
    ensures Mirror(Dropped(Shut(st, s), order, st.sessions[s].publisher), {})
  {
    hide Emptied, Owners, Mirror, Enumerates, DropAll;
    ShutEmptied(st, s);
    DroppedMirror(st, Shut(st, s), s, order);
  }

  /** All of who owns what that a session's end changes. */
  ghost predicate OwnersEnded(st: State, t: State, s: SessionId)
    requires s in st.sessions
  {
    && t.byToken == st.byToken - {st.sessions[s].token} && t.used == st.used && t.encode == st.encode
    && t.peers.Keys == st.peers.Keys && t.sessions.Keys == st.sessions.Keys
    && (forall p :: p in t.peers && p != st.sessions[s].publisher ==> t.peers[p].session == st.peers[p].session)
    && (st.sessions[s].publisher in t.peers ==>
          var was := st.peers[st.sessions[s].publisher].session;
          t.peers[st.sessions[s].publisher].session == if was == Some(s) then None else was)
    && (forall r :: r in t.sessions && r != s ==> t.sessions[r] == st.sessions[r])
    && t.sessions[s] == Shut(st, s).sessions[s]
  }

  lemma OwnersEndedKeep(st: State, t: State, s: SessionId)
    requires Owners(st) && s in st.sessions && !st.sessions[s].closed && OwnersEnded(st, t, s)
    ensures Owners(t)
  {
    assert IsLive(st, s);
    EndedSessions(st, t, s);
    OwnersEndedFrom(st, t, s);
  }

  lemma EndedSessions(st: State, t: State, s: SessionId)
    requires Owners(st) && IsLive(st, s) && OwnersEnded(st, t, s)
    ensures forall q :: SessionOf(t, q) == if SessionOf(st, q) == Some(s) then None else SessionOf(st, q)
    ensures forall r :: IsLive(t, r) <==> r != s && IsLive(st, r)
    ensures !t.sessions[s].grace
  {
  }

  lemma OwnersEndedFrom(st: State, t: State, s: SessionId)
    requires Owners(st) && IsLive(st, s) && s in t.sessions && t.byToken == st.byToken - {st.sessions[s].token}
    requires t.peers.Keys == st.peers.Keys && t.sessions.Keys == st.sessions.Keys
    requires forall r :: r in t.sessions && r != s ==> t.sessions[r] == st.sessions[r]
    requires forall q :: SessionOf(t, q) == if SessionOf(st, q) == Some(s) then None else SessionOf(st, q)
    requires forall r :: IsLive(t, r) <==> r != s && IsLive(st, r)
    requires !t.sessions[s].grace
    ensures Owners(t)
  {
    hide SessionOf;
  }

  lemma EndedShape(st: State, s: SessionId, order: seq<SubId>, key: PeerId)
    requires s in st.sessions && key == st.sessions[s].publisher
    ensures OwnersEnded(st, Unregistered(Dropped(Shut(st, s), order, key), s), s)
  {
    hide Views;
  }

  lemma EndedKeeps(st: State, s: SessionId, order: seq<SubId>)
    requires Inv(st, {}) && s in st.sessions && Enumerates(order, st.sessions[s].subs.Values)
    ensures Inv(Ended(st, s, order), {})
  {
    hide Owners, Mirror, Enumerates, OwnersEnded, Dropped, Unregistered, Encoders, Known;
    if !st.sessions[s].closed {
      EndedIs(st, s, order);
      var key := st.sessions[s].publisher;
      var a := Dropped(Shut(st, s), order, key);
      EndedShape(st, s, order, key);
      OwnersEndedKeep(st, Unregistered(a, s), s);
      EndedRest(st, s, order, key);
    }
  }

  lemma EndedRest(st: State, s: SessionId, order: seq<SubId>, key: PeerId)
    requires Encoders(st) && Known(st) && s in st.sessions && key == st.sessions[s].publisher
    requires Mirror(Dropped(Shut(st, s), order, key), {})
    ensures var t := Unregistered(Dropped(Shut(st, s), order, key), s);
            Mirror(t, {}) && Encoders(t) && Known(t)
  {
    hide Mirror, Views;
    var a := Dropped(Shut(st, s), order, key);
    var t := Unregistered(a, s);
    UnregisteredMirror(a, s);
    EncodersSame(st, t);
  }

  lemma UnregisteredMirror(st: State, s: SessionId)
    requires s in st.sessions && Mirror(st, {})
    ensures Mirror(Unregistered(st, s), {})
  {
    hide Mirror;
    MirrorSame(st, Unregistered(st, s), {});
  }

  // ---- Resuming ----

  lemma ReboundEmptied(st: State, p: PeerId, s: SessionId)
    requires s in st.sessions && p in st.peers
    ensures Emptied(st, Rebound(st, p, s), s)
  {
  }

  lemma ResumedIs(st: State, p: PeerId, token: Token, order: seq<SubId>)
    requires Owners(st) && Mirror(st, {}) && Claims(st, p, token).Claimed?
    requires Enumerates(order, st.sessions[st.byToken[token]].subs.Values)
    ensures var s := st.byToken[token];
            var t := Dropped(Rebound(st, p, s), order, st.sessions[s].publisher);
            && Resumed(st, p, token, order) == t && Mirror(t, {})
            && forall v :: EntryAt(t, v, st.sessions[s].publisher) == None
  {
    hide Emptied, Mirror, Enumerates, DropAll;
    var s := st.byToken[token];
    ReboundEmptied(st, p, s);
    DroppedMirror(st, Rebound(st, p, s), s, order);
  }

  /** All of who owns what that a resume changes. */
  ghost predicate OwnersResumed(st: State, t: State, p: PeerId, s: SessionId)
    requires s in st.sessions
  {
    && t.byToken == st.byToken && t.used == st.used && t.encode == st.encode
    && t.peers.Keys == st.peers.Keys && t.sessions.Keys == st.sessions.Keys
    && (forall q :: q in t.peers && q != p ==> t.peers[q].session == st.peers[q].session)
    && p in t.peers && t.peers[p].session == Some(s)
    && (forall r :: r in t.sessions && r != s ==> t.sessions[r] == st.sessions[r])
    && t.sessions[s] == st.sessions[s].(publisher := p, subs := map[], grace := false)
  }

  lemma OwnersResumedKeep(st: State, t: State, p: PeerId, token: Token)
    requires Owners(st) && Claims(st, p, token).Claimed? && OwnersResumed(st, t, p, st.byToken[token])
    ensures Owners(t)
  {
    var s := st.byToken[token];
    assert IsLive(st, s);
    forall r | IsLive(st, r) && r != s
      ensures st.sessions[r].publisher != p
    {
      if st.sessions[r].publisher == p {
        OwnerSession(st, r);
        assert false;
      }
    }
    assert forall q :: SessionOf(t, q) == if q == p then Some(s) else SessionOf(st, q);
    assert forall q :: SessionOf(st, q) == Some(s) ==> q == p;
    assert forall r :: IsLive(t, r) <==> IsLive(st, r);
    hide SessionOf, IsLive, Claims;
  }

  lemma ResumedShape(st: State, p: PeerId, s: SessionId, order: seq<SubId>, key: PeerId)
    requires s in st.sessions && p in st.peers
    ensures OwnersResumed(st, Dropped(Rebound(st, p, s), order, key), p, s)
  {
    hide Views;
  }

  lemma ResumedKeeps(st: State, p: PeerId, token: Token, order: seq<SubId>)
    requires Inv(st, {})
    requires Claims(st, p, token).Claimed? ==> Enumerates(order, st.sessions[st.byToken[token]].subs.Values)
    ensures Inv(Resumed(st, p, token, order), {})
  {
    hide Owners, Mirror, Enumerates, Dropped, OwnersResumed;
    if Claims(st, p, token).Claimed? {
      var s := st.byToken[token];
      ResumedIs(st, p, token, order);
      ResumedShape(st, p, s, order, st.sessions[s].publisher);
      OwnersResumedKeep(st, Resumed(st, p, token, order), p, token);
      ResumedRest(st, Resumed(st, p, token, order), p, s);
    }
  }

  lemma ResumedRest(st: State, t: State, p: PeerId, s: SessionId)
    requires Encoders(st) && Known(st) && s in st.sessions && p in st.peers && OwnersResumed(st, t, p, s)
    ensures Encoders(t) && Known(t)
  {
    EncodersSame(st, t);
  }

  // ---- Peers come and go ----

  /** Peers go, and their connections, which `leaving` names, are still to be closed. */
  lemma GoneKeeps(st: State, t: State, leaving: set<SubId>)
    requires Inv(st, {}) && t == st.(peers := t.peers, used := t.used) && forall p :: p in st.used ==> p in t.used
    requires forall p :: p in t.peers ==>
                           if p in st.peers then t.peers[p] == st.peers[p]
                           else t.peers[p].session == None && t.peers[p].subs == map[] && p !in st.used && p in t.used
    requires forall x :: x in leaving <==>
                           exists q, k :: q in st.peers && q !in t.peers && k in st.peers[q].subs
                                          && st.peers[q].subs[k] == x
    ensures Inv(t, leaving)
  {
    hide Inv, Mirror;
    assert Owners(t) && Encoders(t) && Known(t) by { GoneOwners(st, t); }
    assert Mirror(t, leaving) by { GoneMirror(st, t, leaving); }
    InvOf(t, leaving);
  }

  lemma InvOf(st: State, leaving: set<SubId>)
    requires Owners(st) && Mirror(st, leaving) && Encoders(st) && Known(st)
    ensures Inv(st, leaving)
  {
  }

  lemma GoneOwners(st: State, t: State)
    requires Inv(st, {}) && t == st.(peers := t.peers, used := t.used) && forall p :: p in st.used ==> p in t.used
    requires forall p :: p in t.peers ==>
                           if p in st.peers then t.peers[p] == st.peers[p]
                           else t.peers[p].session == None && t.peers[p].subs == map[] && p !in st.used && p in t.used
    ensures Owners(t) && Encoders(t) && Known(t)
  {
    hide Mirror, Owners;
    assert forall q :: SessionOf(t, q) == if q in t.peers then SessionOf(st, q) else None;
    assert forall r :: IsLive(t, r) <==> IsLive(st, r);
    EncodersSame(st, t);
    FewerOwners(st, t);
  }

  lemma FewerOwners(st: State, t: State)
    requires Owners(st) && t.byToken == st.byToken && t.sessions == st.sessions
    requires forall q :: SessionOf(t, q) == if q in t.peers then SessionOf(st, q) else None
    requires forall r :: IsLive(t, r) <==> IsLive(st, r)
    requires forall r :: IsLive(st, r) && st.sessions[r].publisher in t.peers ==> st.sessions[r].publisher in st.peers
    requires forall s :: s in st.sessions && st.sessions[s].publisher !in st.peers ==>
                           st.sessions[s].publisher !in t.peers
    ensures Owners(t)
  {
    forall r
      ensures IsLive(t, r) ==> r in st.sessions
    {
    }
    hide SessionOf, IsLive;
  }

  lemma GoneMirror(st: State, t: State, leaving: set<SubId>)
    requires Inv(st, {}) && t == st.(peers := t.peers, used := t.used)
    requires forall p :: p in t.peers ==>
                           if p in st.peers then t.peers[p] == st.peers[p]
                           else t.peers[p].session == None && t.peers[p].subs == map[] && p !in st.used && p in t.used
    requires forall x :: x in leaving <==>
                           exists q, k :: q in st.peers && q !in t.peers && k in st.peers[q].subs
                                          && st.peers[q].subs[k] == x
    ensures Mirror(t, leaving)
  {
    hide Owners, Encoders;
    assert forall v, k :: EntryAt(t, v, k) == if v in t.peers then EntryAt(st, v, k) else None;
    assert forall s, v :: SubscriberAt(t, Some(s), v) == SubscriberAt(st, Some(s), v);
    forall x | x in leaving
      ensures x in t.subs && t.subs[x].viewer !in t.peers
    {
      var q, k :| q in st.peers && q !in t.peers && k in st.peers[q].subs && st.peers[q].subs[k] == x;
      assert EntryAt(st, q, k) == Some(x) && EntryOk(st, q, k, x);
    }
    forall v, k | EntryAt(t, v, k).Some?
      ensures EntryOk(t, v, k, EntryAt(t, v, k).value)
    {
      assert EntryOk(st, v, k, EntryAt(st, v, k).value);
    }
    forall s, v | SubscriberAt(t, Some(s), v).Some?
      ensures PlaceOk(t, leaving, s, v, SubscriberAt(t, Some(s), v).value)
    {
      var x := SubscriberAt(st, Some(s), v).value;
      assert PlaceOk(st, {}, s, v, x);
      var pub := st.sessions[s].publisher;
      if pub in t.peers && v !in t.peers {
        assert EntryAt(st, v, pub) == Some(x);
        assert v in st.peers && pub in st.peers[v].subs && st.peers[v].subs[pub] == x;
      }
    }
  }

  lemma LeftKeeps(st: State, p: PeerId, order: seq<SubId>)
    requires Inv(st, {}) && (p in st.peers ==> Enumerates(order, st.peers[p].subs.Values))
    ensures Inv(Left(st, p, order), {})
  {
    hide Inv, CloseAll, Graced;
    if p in st.peers {
      var t := st.(peers := st.peers - {p});
      var leaving := set x | x in order;
      GoneKeeps(st, t, leaving);
      CloseAllKeeps(t, order, leaving);
      CloseAllSameOwners(t, order);
      GracedKeeps(st, CloseAll(t, order), p);
    }
  }

  lemma {:induction false} CloseAllSameOwners(st: State, order: seq<SubId>)
    ensures SameOwners(st, CloseAll(st, order))
    decreases |order|
  {
    hide SameOwners, Closed;
    if order == [] {
      PartsSameOwners(st, 0, 0, 0, 0, EncodePause);
    } else {
      ClosedSameOwners(st, order[0]);
      CloseAllSameOwners(Closed(st, order[0]), order[1..]);
      SameOwnersTwice(st, Closed(st, order[0]), CloseAll(st, order));
    }
  }

  /** The session of a peer that has gone may wait for it. */
  lemma GracedKeeps(st: State, t: State, p: PeerId)
    requires Inv(st, {}) && Inv(t, {}) && p in st.peers && SameOwners(st.(peers := st.peers - {p}), t)
    ensures Inv(Graced(t, st.peers[p].session), {})
  {
    hide Mirror, Encoders, Owners, Known, SameOwners;
    var r := Graced(t, st.peers[p].session);
    MirrorSame(t, r, {});
    assert forall q :: Watched(r, q) ==> Watched(t, q);
    EncodersSame(t, r);
    GracedOwners(st, t, p);
  }

  lemma GracedOwners(st: State, t: State, p: PeerId)
    requires Owners(st) && Owners(t) && Known(t) && p in st.peers && SameOwners(st.(peers := st.peers - {p}), t)
    ensures Owners(Graced(t, st.peers[p].session)) && Known(Graced(t, st.peers[p].session))
  {
    var s := st.peers[p].session;
    if s.Some? && s.value in t.sessions && !t.sessions[s.value].closed {
      assert SessionOf(st, p) == s && IsLive(st, s.value);
      assert t.sessions[s.value].publisher == p && p !in t.peers;
      OneSessionKeeps(t, Graced(t, s), s.value);
    }
  }

  /** A session changes in what ownership does not ask about, or starts to wait. */
  lemma OneSessionKeeps(a: State, b: State, s: SessionId)
    requires Owners(a) && s in a.sessions && b.peers == a.peers && b.byToken == a.byToken
    requires exists n :: b.sessions == a.sessions[s := n] && n.publisher == a.sessions[s].publisher
                         && n.token == a.sessions[s].token && n.closed == a.sessions[s].closed
                         && (n.grace ==> a.sessions[s].grace || (!n.closed && n.publisher !in a.peers))
    ensures Owners(b)
  {
    hide Owners;
    var n :| b.sessions == a.sessions[s := n] && n.publisher == a.sessions[s].publisher
             && n.token == a.sessions[s].token && n.closed == a.sessions[s].closed
             && (n.grace ==> a.sessions[s].grace || (!n.closed && n.publisher !in a.peers));
    assert forall q :: SessionOf(b, q) == SessionOf(a, q);
    assert forall r :: IsLive(b, r) <==> IsLive(a, r);
    assert IsLive(a, s) <==> !a.sessions[s].closed;
    forall r | r in b.sessions
      ensures r in a.sessions && b.sessions[r].publisher == a.sessions[r].publisher
      ensures b.sessions[r].token == a.sessions[r].token
      ensures b.sessions[r].grace ==> a.sessions[r].grace || (IsLive(a, r) && a.sessions[r].publisher !in a.peers)
    {
    }
    OwnersFrom(a, b);
  }

  /** The same owners and tokens, sessions that differ in nothing ownership asks about. */
  lemma OwnersFrom(a: State, b: State)
    requires Owners(a) && b.peers == a.peers && b.byToken == a.byToken && b.sessions.Keys == a.sessions.Keys
    requires forall q :: SessionOf(b, q) == SessionOf(a, q)
    requires forall r :: IsLive(b, r) <==> IsLive(a, r)
    requires forall r :: r in b.sessions ==>
                           && b.sessions[r].publisher == a.sessions[r].publisher
                           && b.sessions[r].token == a.sessions[r].token
                           && (b.sessions[r].grace ==>
                                 a.sessions[r].grace || (IsLive(a, r) && a.sessions[r].publisher !in a.peers))
    ensures Owners(b)
  {
    forall r
      ensures IsLive(b, r) ==> r in a.sessions
    {
    }
    hide SessionOf, IsLive;
  }

  lemma JoinedKeeps(st: State, p: PeerId, client: string, order: seq<SubId>)
    requires Inv(st, {}) && p !in st.used && Covers(order, st, EvictedPeers(st, client))
    ensures Inv(Joined(st, p, client, order), {})
  {
    hide Inv, CloseAll, Evicted;
    var t := st.(peers := Staying(st, client)[p := Entry(client, None, map[])], used := st.used + {p});
    var leaving := set x | x in order;
    assert p !in st.peers by { KnownPeers(st, p); }
    GoneKeeps(st, t, leaving);
    CloseAllKeeps(t, order, leaving);
  }

  lemma KnownPeers(st: State, p: PeerId)
    requires Inv(st, {}) && p !in st.used
    ensures p !in st.peers
  {
  }

  // ---- Sharing, watching, and the first packet ----

  lemma StartedKeeps(st: State, p: PeerId, s: SessionId, token: Token)
    requires Inv(st, {}) && s !in st.sessions && token !in st.byToken
    ensures Inv(Started(st, p, s, token), {})
  {
    hide Mirror, Owners, Known, Encoders;
    if p in st.peers && st.peers[p].session.None? {
      StartedMirror(st, p, s, token);
      StartedOwners(st, p, s, token);
      StartedEncoders(st, p, s, token);
    }
  }

  lemma StartedOwners(st: State, p: PeerId, s: SessionId, token: Token)
    requires Owners(st) && s !in st.sessions && token !in st.byToken && p in st.peers && st.peers[p].session.None?
    ensures Owners(Started(st, p, s, token))
  {
    hide Owners;
    StartedSessions(st, p, s, token);
    assert forall r :: IsLive(st, r) ==> st.sessions[r].publisher != p by { NotSharing(st, p); }
    StartedFrom(st, Started(st, p, s, token), p, s, token);
  }

  lemma NotSharing(st: State, p: PeerId)
    requires Owners(st) && p in st.peers && st.peers[p].session.None?
    ensures forall r :: IsLive(st, r) ==> st.sessions[r].publisher != p
  {
  }

  lemma StartedSessions(st: State, p: PeerId, s: SessionId, token: Token)
    requires s !in st.sessions && p in st.peers && st.peers[p].session.None?
    ensures var t := Started(st, p, s, token);
            && (forall q :: SessionOf(t, q) == if q == p then Some(s) else SessionOf(st, q))
            && (forall r :: IsLive(t, r) <==> r == s || IsLive(st, r))
            && t.byToken == st.byToken[token := s] && t.peers.Keys == st.peers.Keys
            && t.sessions == st.sessions[s := Session(p, token, map[], false, false, false)]
  {
  }

  lemma StartedFrom(st: State, t: State, p: PeerId, s: SessionId, token: Token)
    requires Owners(st) && s !in st.sessions && token !in st.byToken && p in st.peers
    requires forall q :: SessionOf(t, q) == if q == p then Some(s) else SessionOf(st, q)
    requires forall r :: IsLive(t, r) <==> r == s || IsLive(st, r)
    requires t.byToken == st.byToken[token := s] && t.peers.Keys == st.peers.Keys
    requires t.sessions == st.sessions[s := Session(p, token, map[], false, false, false)]
    requires forall r :: IsLive(st, r) ==> st.sessions[r].publisher != p
    ensures Owners(t)
  {
    forall r | IsLive(t, r)
      ensures t.sessions[r].token in t.byToken && t.byToken[t.sessions[r].token] == r
      ensures t.sessions[r].publisher in t.peers ==> SessionOf(t, t.sessions[r].publisher) == Some(r)
    {
      if r != s { LiveIs(st, r); }
    }
    forall q | SessionOf(t, q).Some?
      ensures IsLive(t, SessionOf(t, q).value) && t.sessions[SessionOf(t, q).value].publisher == q
    {
      if q != p { assert IsLive(st, SessionOf(st, q).value); }
    }
    hide SessionOf;
  }

  lemma LiveIs(st: State, s: SessionId)
    requires Owners(st) && IsLive(st, s)
    ensures st.sessions[s].token in st.byToken && st.byToken[st.sessions[s].token] == s
    ensures st.sessions[s].publisher in st.peers ==> SessionOf(st, st.sessions[s].publisher) == Some(s)
  {
  }

  lemma StartedEncoders(st: State, p: PeerId, s: SessionId, token: Token)
    requires Encoders(st) && Known(st) && s !in st.sessions && p in st.peers && st.peers[p].session.None?
    ensures Encoders(Started(st, p, s, token)) && Known(Started(st, p, s, token))
  {
    EncodersSame(st, Started(st, p, s, token));
  }

  lemma StartedMirror(st: State, p: PeerId, s: SessionId, token: Token)
    requires Mirror(st, {}) && s !in st.sessions && p in st.peers && st.peers[p].session.None?
    ensures Mirror(Started(st, p, s, token), {})
  {
    var t := Started(st, p, s, token);
    assert forall v, k :: EntryAt(t, v, k) == EntryAt(st, v, k);
    assert forall r, v :: SubscriberAt(t, Some(r), v) == SubscriberAt(st, Some(r), v);
    hide EntryAt, SubscriberAt;
    forall v, k | EntryAt(t, v, k).Some?
      ensures EntryOk(t, v, k, EntryAt(t, v, k).value)
    {
      assert EntryOk(st, v, k, EntryAt(st, v, k).value);
    }
    forall r, v | SubscriberAt(t, Some(r), v).Some?
      ensures PlaceOk(t, {}, r, v, SubscriberAt(t, Some(r), v).value)
    {
      assert PlaceOk(st, {}, r, v, SubscriberAt(st, Some(r), v).value);
    }
  }

  lemma FirstVideoKeeps(st: State, s: SessionId)
    requires Inv(st, {}) && s in st.sessions
    ensures Inv(FirstVideo(st, s), {})
  {
    hide Mirror, Owners, Known, Encoders;
    var t := FirstVideo(st, s);
    MirrorSame(st, t, {});
    assert t.sessions == st.sessions[s := st.sessions[s].(firstVideo := true)];
    FirstVideoOwners(st, t, s);
    FirstVideoEncoders(st, s);
  }

  lemma FirstVideoOwners(st: State, t: State, s: SessionId)
    requires Owners(st) && Known(st) && s in st.sessions && t == st.(sessions := t.sessions, encode := t.encode)
    requires t.sessions == st.sessions[s := st.sessions[s].(firstVideo := true)]
    ensures Owners(t) && Known(t)
  {
    hide Owners;
    OneSessionKeeps(st, t, s);
  }

  lemma FirstVideoEncoders(st: State, s: SessionId)
    requires Owners(st) && Encoders(st) && s in st.sessions
    ensures Encoders(FirstVideo(st, s))
  {
    hide Owners;
    OwnersPublish(st);
    var t := FirstVideo(st, s);
    forall p | Watched(t, p)
      ensures p in t.encode && t.encode[p] == EncodeResume
    {
      assert Watched(st, p);
      if p == st.sessions[s].publisher && !st.sessions[s].closed { OwnerSession(st, s); }
    }
  }

  /** In these states an unsubscribe closes the connection of the entry, if there is one. */
  lemma UnsubscribedIs(st: State, v: PeerId, pub: PeerId)
    requires Inv(st, {})
    ensures Removed(st, v, pub, None)
            == if EntryAt(st, v, pub).Some? then Closed(st, EntryAt(st, v, pub).value) else st
  {
    hide Owners, Encoders, Known;
    var e, s := EntryAt(st, v, pub), SessionOf(st, pub);
    var y := SubscriberAt(st, s, v);
    if y.Some? {
      assert PlaceOk(st, {}, s.value, v, y.value);
      OwnersPublish(st);
      assert e == y;
    }
    if e.Some? {
      var x := e.value;
      assert EntryOk(st, v, pub, x);
      ClosedIs(st, x);
      if y.Some? { MarkedAgain(WithoutSubscriber(Marked(WithoutEntry(st, v, pub), x), s.value, v), x); }
      if s.Some? && y.None? { OwnerSession(st, st.subs[x].session); }
    }
  }

  lemma UnsubscribedKeeps(st: State, v: PeerId, pub: PeerId)
    requires Inv(st, {})
    ensures Inv(Removed(st, v, pub, None), {})
  {
    hide Inv, Closed, Removed;
    UnsubscribedIs(st, v, pub);
    if EntryAt(st, v, pub).Some? {
      var x := EntryAt(st, v, pub).value;
      ClosedKeeps(st, x, {});
      assert {} - {x} == {};
    }
  }

  /** A viewer without an entry has no place in the publisher's session. */
  lemma NoPlaceYet(st: State, v: PeerId, pub: PeerId)
    requires Owners(st) && Mirror(st, {}) && SessionOf(st, pub).Some? && EntryAt(st, v, pub).None?
    ensures SubscriberAt(st, SessionOf(st, pub), v) == None
    ensures SessionOf(st, pub).value in st.sessions && !st.sessions[SessionOf(st, pub).value].closed
    ensures st.sessions[SessionOf(st, pub).value].publisher == pub
  {
    hide Entries, PlaceOk;
    var s := SessionOf(st, pub);
    if SubscriberAt(st, s, v).Some? {
      PlaceHasEntry(st, s.value, v, SubscriberAt(st, s, v).value);
      assert false;
    }
  }

  lemma PlaceHasEntry(st: State, s: SessionId, v: PeerId, x: SubId)
    requires PlaceOk(st, {}, s, v, x) && st.sessions[s].publisher in st.peers
    ensures EntryAt(st, v, st.sessions[s].publisher) == Some(x)
  {
  }

  lemma SubscribedKeeps(st: State, v: PeerId, pub: PeerId, x: SubId)
    requires Inv(st, {}) && x !in st.subs
    ensures Inv(Subscribed(st, v, pub, x), {})
  {
    hide Owners, Known, Encoders, Mirror, SameOwners;
    var s := SessionOf(st, pub);
    if s.Some? && EntryAt(st, v, pub).None? {
      NoPlaceYet(st, v, pub);
      if v in st.peers {
        WatchedNow(st, v, pub, x, s.value);
      } else {
        GoneMeanwhile(st, v, pub, x, s.value);
      }
    }
  }

  /** The viewer has gone: the connection is closed and nothing else is different. */
  lemma GoneMeanwhile(st: State, v: PeerId, pub: PeerId, x: SubId, s: SessionId)
    requires Inv(st, {}) && x !in st.subs && v !in st.peers && SessionOf(st, pub) == Some(s) && s in st.sessions
    requires SubscriberAt(st, Some(s), v) == None && !st.sessions[s].closed
    ensures Inv(Subscribed(st, v, pub, x), {})
  {
    hide Owners, Known, Encoders, Mirror, SameOwners, Subscribed;
    var t := Subscribed(st, v, pub, x);
    GoneShape(st, v, pub, x, s);
    RestSameOwners(st, t);
    SameOwnersKeep(st, t);
    OneMoreSub(st, t, x);
    OnlyIdlePaused(st, t, pub, s);
  }

  lemma GoneShape(st: State, v: PeerId, pub: PeerId, x: SubId, s: SessionId)
    requires x !in st.subs && v !in st.peers && SessionOf(st, pub) == Some(s) && s in st.sessions
    requires SubscriberAt(st, Some(s), v) == None && !st.sessions[s].closed
    ensures var t := Subscribed(st, v, pub, x);
            && t.sessions == st.sessions && t.peers == st.peers && t.byToken == st.byToken && t.used == st.used
            && t.subs == st.subs[x := Sub(v, s, true)]
            && t.encode == if st.sessions[s].subs == map[] then st.encode[pub := EncodePause] else st.encode
  {
    hide Removed;
    var n := st.sessions[s].subs;
    var a := st.(subs := st.subs[x := Sub(v, s, false)],
                 sessions := st.sessions[s := st.sessions[s].(subs := n[v := x])]);
    assert EntryAt(st, v, pub) == None;
    assert Subscribed(st, v, pub, x) == Removed(a, v, pub, Some(x));
    OnlyPlaceRemoved(a, v, pub, x, s);
    assert n[v := x] - {v} == n;
    assert st.sessions[s := st.sessions[s].(subs := n)] == st.sessions;
  }

  lemma OnlyPlaceRemoved(st: State, v: PeerId, pub: PeerId, x: SubId, s: SessionId)
    requires EntryAt(st, v, pub) == None && SessionOf(st, pub) == Some(s) && SubscriberAt(st, Some(s), v) == Some(x)
    ensures var b := Marked(WithoutSubscriber(st, s, v), x);
            Removed(st, v, pub, Some(x)) == if b.sessions[s].subs == map[] then Sent(b, pub, EncodePause) else b
  {
  }

  lemma OneMoreSub(st: State, t: State, x: SubId)
    requires Mirror(st, {}) && x !in st.subs && t.peers == st.peers && t.sessions == st.sessions
    requires t.subs.Keys == st.subs.Keys + {x} && t.subs[x].session in st.sessions
    requires forall y :: y in st.subs ==> t.subs[y] == st.subs[y]
    ensures Mirror(t, {})
  {
    assert forall v, k :: EntryAt(t, v, k) == EntryAt(st, v, k);
    assert forall r, v :: SubscriberAt(t, Some(r), v) == SubscriberAt(st, Some(r), v);
    hide EntryAt, SubscriberAt;
    forall v, k | EntryAt(t, v, k).Some?
      ensures EntryOk(t, v, k, EntryAt(t, v, k).value)
    {
      assert EntryOk(st, v, k, EntryAt(st, v, k).value);
    }
    forall r, v | SubscriberAt(t, Some(r), v).Some?
      ensures PlaceOk(t, {}, r, v, SubscriberAt(t, Some(r), v).value)
    {
      assert PlaceOk(st, {}, r, v, SubscriberAt(st, Some(r), v).value);
    }
  }

  lemma OnlyIdlePaused(st: State, t: State, pub: PeerId, s: SessionId)
    requires Encoders(st) && t.peers == st.peers && t.sessions == st.sessions && SessionOf(st, pub) == Some(s)
             && s in st.sessions
    requires t.encode == st.encode || (t.encode == st.encode[pub := EncodePause] && st.sessions[s].subs == map[])
    ensures Encoders(t)
  {
    assert forall p :: Watched(t, p) == Watched(st, p);
  }

  /** The connection is in both maps; the first viewer wakes the encoder. */
  lemma WatchedNow(st: State, v: PeerId, pub: PeerId, x: SubId, s: SessionId)
    requires Inv(st, {}) && x !in st.subs && v in st.peers && SessionOf(st, pub) == Some(s) && s in st.sessions
    requires EntryAt(st, v, pub) == None && SubscriberAt(st, Some(s), v) == None
    requires !st.sessions[s].closed && st.sessions[s].publisher == pub
    ensures Inv(Subscribed(st, v, pub, x), {})
  {
    hide Owners, Known, Encoders, Mirror, SameOwners;
    var t := Subscribed(st, v, pub, x);
    var n := st.sessions[s].subs[v := x];
    assert t.subs == st.subs[x := Sub(v, s, false)];
    assert t.sessions == st.sessions[s := st.sessions[s].(subs := n)];
    assert t.peers == st.peers[v := st.peers[v].(subs := st.peers[v].subs[pub := x])];
    AddedSameOwners(st, t, v, pub, x, s);
    SameOwnersKeep(st, t);
    AddedMirror(st, t, v, pub, x, s);
    AddedEncoders(st, v, pub, x, s);
  }

  lemma AddedSameOwners(st: State, t: State, v: PeerId, pub: PeerId, x: SubId, s: SessionId)
    requires v in st.peers && s in st.sessions && t.byToken == st.byToken && t.used == st.used
    requires t.sessions == st.sessions[s := st.sessions[s].(subs := st.sessions[s].subs[v := x])]
    requires t.peers == st.peers[v := st.peers[v].(subs := st.peers[v].subs[pub := x])]
    ensures SameOwners(st, t)
  {
  }

  lemma AddedMirror(st: State, t: State, v: PeerId, pub: PeerId, x: SubId, s: SessionId)
    requires Mirror(st, {}) && x !in st.subs && v in st.peers && s in st.sessions
    requires !st.sessions[s].closed && st.sessions[s].publisher == pub
    requires t.subs == st.subs[x := Sub(v, s, false)]
    requires t.sessions == st.sessions[s := st.sessions[s].(subs := st.sessions[s].subs[v := x])]
    requires t.peers == st.peers[v := st.peers[v].(subs := st.peers[v].subs[pub := x])]
    requires EntryAt(st, v, pub) == None && SubscriberAt(st, Some(s), v) == None
    ensures Mirror(t, {})
  {
    assert forall w, k :: EntryAt(t, w, k) == if w == v && k == pub then Some(x) else EntryAt(st, w, k);
    assert forall r, w :: SubscriberAt(t, Some(r), w)
                          == if r == s && w == v then Some(x) else SubscriberAt(st, Some(r), w);
    hide EntryAt, SubscriberAt;
    forall w, k | EntryAt(t, w, k).Some?
      ensures EntryOk(t, w, k, EntryAt(t, w, k).value)
    {
      if !(w == v && k == pub) { assert EntryOk(st, w, k, EntryAt(st, w, k).value); }
    }
    forall r, w | SubscriberAt(t, Some(r), w).Some?
      ensures PlaceOk(t, {}, r, w, SubscriberAt(t, Some(r), w).value)
    {
      if !(r == s && w == v) { assert PlaceOk(st, {}, r, w, SubscriberAt(st, Some(r), w).value); }
    }
  }

  lemma AddedEncoders(st: State, v: PeerId, pub: PeerId, x: SubId, s: SessionId)
    requires Owners(st) && Encoders(st) && v in st.peers && SessionOf(st, pub) == Some(s) && s in st.sessions
    requires EntryAt(st, v, pub) == None && SubscriberAt(st, Some(s), v) == None && pub in st.peers
    ensures Encoders(Subscribed(st, v, pub, x))
  {
    hide Owners;
    OwnersPublish(st);
    var t, m := Subscribed(st, v, pub, x), st.sessions[s].subs;
    assert |m[v := x]| == |m| + 1;
    forall p | Watched(t, p)
      ensures p in t.encode && t.encode[p] == EncodeResume
    {
      assert SessionOf(t, p) == SessionOf(st, p);
      if p == pub {
        if m != map[] { assert Watched(st, p); }
      } else {
        assert Watched(st, p);
      }
    }
  }

  // ---- Whole runs ----

  datatype Step =
    | Start(peer: PeerId, session: SessionId, token: Token)
    | Stop(peer: PeerId, order: seq<SubId>)
    | PublisherPcClosed(session: SessionId, order: seq<SubId>)
    | GraceExpired(session: SessionId, order: seq<SubId>)
    | Resume(peer: PeerId, token: Token, order: seq<SubId>)
    | Subscribe(peer: PeerId, publisher: PeerId, sub: SubId)
    | Unsubscribe(peer: PeerId, publisher: PeerId)
    | SubPcClosed(sub: SubId)
    | FirstPacket(session: SessionId)
    | Join(peer: PeerId, client: string, order: seq<SubId>)
    | Leave(peer: PeerId, order: seq<SubId>)

  /** `order` is the session's subscribers in the order the map gives them. */
  ghost predicate Ends(st: State, s: SessionId, order: seq<SubId>, t: State) {
    s in st.sessions && Enumerates(order, st.sessions[s].subs.Values) && t == Ended(st, s, order)
  }

  ghost predicate Next(st: State, step: Step, t: State) {
    match step
    case Start(p, s, token) => s !in st.sessions && token !in st.byToken && t == Started(st, p, s, token)
    case Stop(p, order) => SessionOf(st, p).Some? && Ends(st, SessionOf(st, p).value, order, t)
    case PublisherPcClosed(s, order) =>
      s in st.sessions && st.sessions[s].token in st.byToken && st.byToken[st.sessions[s].token] == s
        && Ends(st, s, order, t)
    case GraceExpired(s, order) => s in st.sessions && st.sessions[s].grace && Ends(st, s, order, t)
    case Resume(p, token, order) =>
      && (Claims(st, p, token).Claimed? ==> Enumerates(order, st.sessions[st.byToken[token]].subs.Values))
      && t == Resumed(st, p, token, order)
    case Subscribe(v, pub, x) => x !in st.subs && t == Subscribed(st, v, pub, x)
    case Unsubscribe(v, pub) => t == Removed(st, v, pub, None)
    case SubPcClosed(x) => t == Closed(st, x)
    case FirstPacket(s) => s in st.sessions && t == FirstVideo(st, s)
    case Join(p, client, order) =>
      p !in st.used && Covers(order, st, EvictedPeers(st, client)) && t == Joined(st, p, client, order)
    case Leave(p, order) => p in st.peers && Enumerates(order, st.peers[p].subs.Values) && t == Left(st, p, order)
  }

  ghost predicate Run(trace: seq<State>, steps: seq<Step>) {
    && |trace| == |steps| + 1 && trace[0] == State(map[], map[], map[], map[], map[], {})
    && forall i, j :: 0 <= i < |steps| && j == i + 1 ==> Next(trace[i], steps[i], trace[j])
  }

  lemma StepKeeps(st: State, step: Step, t: State)
    requires Inv(st, {}) && Next(st, step, t)
    ensures Inv(t, {})
  {
    hide Inv, Ended, Closed, Removed, Resumed, Left, Joined, Started, Subscribed, FirstVideo, Enumerates, Covers,
         Claims;
    match step
    case Start(p, s, token) => StartedKeeps(st, p, s, token);
    case Stop(p, order) => EndedKeeps(st, SessionOf(st, p).value, order);
    case PublisherPcClosed(s, order) => EndedKeeps(st, s, order);
    case GraceExpired(s, order) => EndedKeeps(st, s, order);
    case Resume(p, token, order) => ResumedKeeps(st, p, token, order);
    case Subscribe(v, pub, x) => SubscribedKeeps(st, v, pub, x);
    case Unsubscribe(v, pub) => UnsubscribedKeeps(st, v, pub);
    case SubPcClosed(x) =>
      ClosedKeeps(st, x, {});
      assert {} - {x} == {};
    case FirstPacket(s) => FirstVideoKeeps(st, s);
    case Join(p, client, order) => JoinedKeeps(st, p, client, order);
    case Leave(p, order) => LeftKeeps(st, p, order);
  }

  lemma {:induction false} RunInv(trace: seq<State>, steps: seq<Step>, i: nat)
    requires Run(trace, steps) && i < |trace|
    ensures Inv(trace[i], {})
  {
    hide Next;
    if i > 0 {
      hide Inv;
      RunInv(trace, steps, i - 1);
      StepKeeps(trace[i - 1], steps[i - 1], trace[i]);
    }
  }

  /** A session has one present owner at most, the peer it names; it is live and its token finds it. */
  lemma OneOwner(trace: seq<State>, steps: seq<Step>, i: nat, p: PeerId, s: SessionId)
    requires Run(trace, steps) && i < |trace| && SessionOf(trace[i], p) == Some(s)
    ensures var st := trace[i];
            && s in st.sessions && st.sessions[s].publisher == p && !st.sessions[s].closed
            && st.sessions[s].token in st.byToken && st.byToken[st.sessions[s].token] == s
            && forall q :: SessionOf(st, q) == Some(s) ==> q == p
  {
    RunInv(trace, steps, i);
  }

  /** A viewer's entry is its place in the session of the publisher it names; and in the session
      of a present publisher nobody else has a place. */
  lemma MapsAgree(trace: seq<State>, steps: seq<Step>, i: nat, v: PeerId, pub: PeerId)
    requires Run(trace, steps) && i < |trace|
    ensures var st := trace[i];
            && (EntryAt(st, v, pub).Some? ==>
                  exists s :: s in st.sessions && !st.sessions[s].closed && st.sessions[s].publisher == pub
                              && SubscriberAt(st, Some(s), v) == EntryAt(st, v, pub))
            && (SessionOf(st, pub).Some? ==> SubscriberAt(st, SessionOf(st, pub), v) == EntryAt(st, v, pub))
  {
    RunInv(trace, steps, i);
    var st := trace[i];
    if EntryAt(st, v, pub).Some? {
      var x := EntryAt(st, v, pub).value;
      assert EntryOk(st, v, pub, x);
      assert SubscriberAt(st, Some(st.subs[x].session), v) == EntryAt(st, v, pub);
      if SessionOf(st, pub).Some? { OwnerSession(st, st.subs[x].session); }
    } else if SessionOf(st, pub).Some? {
      NoPlaceYet(st, v, pub);
    }
  }

  /** While a present publisher is watched, the last its encoder heard is not a pause. */
  lemma EncoderAwake(trace: seq<State>, steps: seq<Step>, i: nat, p: PeerId)
    requires Run(trace, steps) && i < |trace| && Watched(trace[i], p)
    ensures p in trace[i].encode && trace[i].encode[p] == EncodeResume
  {
    RunInv(trace, steps, i);
  }

  /** A grace window never runs for a session whose publisher is there. */
  lemma GraceIsForOrphans(trace: seq<State>, steps: seq<Step>, i: nat, s: SessionId)
    requires Run(trace, steps) && i < |trace| && s in trace[i].sessions && trace[i].sessions[s].grace
    ensures !trace[i].sessions[s].closed && forall p :: SessionOf(trace[i], p) != Some(s)
  {
    RunInv(trace, steps, i);
  }

  /** A resume succeeds just when the token is that of a live session, the peer is there and owns
      no other session, and no other peer owns this one. */
  lemma ResumeExactly(trace: seq<State>, steps: seq<Step>, i: nat, p: PeerId, token: Token)
    requires Run(trace, steps) && i < |trace|
    ensures var st := trace[i];
            Claims(st, p, token).Claimed?
            <==> p in st.peers
                 && exists s :: s in st.sessions && !st.sessions[s].closed && st.sessions[s].token == token
                                && (st.peers[p].session.None? || st.peers[p].session == Some(s))
                                && forall q :: SessionOf(st, q) == Some(s) ==> q == p
  {
    RunInv(trace, steps, i);
    var st := trace[i];
    if p in st.peers && token in st.byToken {
      var s := st.byToken[token];
      if st.sessions[s].publisher in st.peers { OwnerSession(st, s); }
    }
  }

  /** The room's methods can be called in every state of a run. */
  lemma RunLinked(trace: seq<State>, steps: seq<Step>, i: nat)
    requires Run(trace, steps) && i < |trace|
    ensures Linked(trace[i])
  {
    RunInv(trace, steps, i);
    var st := trace[i];
    forall p | p in st.peers && st.peers[p].session.Some?
      ensures st.peers[p].session.value in st.sessions && st.sessions[st.peers[p].session.value].publisher == p
    {
      assert SessionOf(st, p) == st.peers[p].session && IsLive(st, st.peers[p].session.value);
    }
    forall v, k | v in st.peers && k in st.peers[v].subs
      ensures st.peers[v].subs[k] in st.subs && st.subs[st.peers[v].subs[k]].viewer == v
    {
      assert EntryAt(st, v, k) == Some(st.peers[v].subs[k]) && EntryOk(st, v, k, st.peers[v].subs[k]);
    }
    forall s, v | s in st.sessions && v in st.sessions[s].subs
      ensures var x := st.sessions[s].subs[v]; x in st.subs && st.subs[x].viewer == v && st.subs[x].session == s
    {
      assert SubscriberAt(st, Some(s), v) == Some(st.sessions[s].subs[v])
             && PlaceOk(st, {}, s, v, st.sessions[s].subs[v]);
    }
  }
}
