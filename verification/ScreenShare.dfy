/** Screen shares: who owns a session, who watches it, and what the publisher's encoder was
    told. Every handler runs as one step here; closing a connection re-enters the room. */
module ScreenShare {
  import opened Basics

  /** Peer ids are random and never come back. */
  type PeerId = nat
  type SessionId = nat
  type SubId = nat
  type Token = nat

  datatype Encode = EncodePause | EncodeResume

  /** A present peer: the session it owns and its subscriptions, by the publisher's id. */
  datatype Entry = Entry(client: string, session: Option<SessionId>, subs: map<PeerId, SubId>)

  /** A session: its publisher and its subscribers, by the viewer's id. */
  datatype Session = Session(publisher: PeerId, token: Token, subs: map<PeerId, SubId>, grace: bool, closed: bool,
                             firstVideo: bool)

  /** A viewer's connection for one session. */
  datatype Sub = Sub(viewer: PeerId, session: SessionId, closed: bool)

  /** `encode` is the last word each peer's encoder got, `used` all ids so far. */
  datatype State = State(peers: map<PeerId, Entry>, byToken: map<Token, SessionId>, sessions: map<SessionId, Session>,
                         subs: map<SubId, Sub>, encode: map<PeerId, Encode>, used: set<PeerId>)

  // ---- Looking things up ----

  function SessionOf(st: State, p: PeerId): Option<SessionId> {
    if p in st.peers then st.peers[p].session else None
  }

  function EntryAt(st: State, v: PeerId, pub: PeerId): Option<SubId> {
    if v in st.peers && pub in st.peers[v].subs then Some(st.peers[v].subs[pub]) else None
  }

  function SubscriberAt(st: State, s: Option<SessionId>, v: PeerId): Option<SubId> {
    if s.Some? && s.value in st.sessions && v in st.sessions[s.value].subs then Some(st.sessions[s.value].subs[v])
    else None
  }

  /** `only` limits a removal to one connection. */
  predicate Matches(x: Option<SubId>, only: Option<SubId>) {
    x.Some? && (only.None? || only == x)
  }

  // ---- Single changes ----

  function WithoutEntry(st: State, v: PeerId, pub: PeerId): State {
    if v in st.peers then st.(peers := st.peers[v := st.peers[v].(subs := st.peers[v].subs - {pub})]) else st
  }

  function WithoutSubscriber(st: State, s: SessionId, v: PeerId): State
    requires s in st.sessions
  {
    st.(sessions := st.sessions[s := st.sessions[s].(subs := st.sessions[s].subs - {v})])
  }

  function Marked(st: State, x: SubId): State {
    if x in st.subs then st.(subs := st.subs[x := st.subs[x].(closed := true)]) else st
  }

  function Sent(st: State, pub: PeerId, e: Encode): State {
    if pub in st.peers then st.(encode := st.encode[pub := e]) else st
  }

  // ---- What removing and closing amount to ----

  /** A viewer's subscription is removed on both sides and its connection closed; the encoder
      is paused when nobody is left. */
  function Removed(st: State, v: PeerId, pub: PeerId, only: Option<SubId>): State {
    var e := EntryAt(st, v, pub);
    var a := if Matches(e, only) then Marked(WithoutEntry(st, v, pub), e.value) else st;
    var s := SessionOf(st, pub);
    var x := SubscriberAt(st, s, v);
    if !Matches(x, only) then a
    else
      var b := Marked(WithoutSubscriber(a, s.value, v), x.value);
      if b.sessions[s.value].subs == map[] then Sent(b, pub, EncodePause) else b
  }

  /** A connection closes once; that takes its subscription away. */
  function Closed(st: State, x: SubId): State {
    if x !in st.subs || st.subs[x].closed || st.subs[x].session !in st.sessions then st
    else Removed(Marked(st, x), st.subs[x].viewer, st.sessions[st.subs[x].session].publisher, Some(x))
  }

  function CloseAll(st: State, order: seq<SubId>): State
    decreases |order|
  {
    if order == [] then st else CloseAll(Closed(st, order[0]), order[1..])
  }

  /** Closes connections and takes the entries under `key` away from their viewers. */
  function DropAll(st: State, order: seq<SubId>, key: PeerId): State
    decreases |order|
  {
    if order == [] then st
    else
      var a := Closed(st, order[0]);
      var b := if order[0] in a.subs then WithoutEntry(a, a.subs[order[0]].viewer, key) else a;
      DropAll(b, order[1..], key)
  }

  // ---- Handlers ----

  function Started(st: State, p: PeerId, s: SessionId, token: Token): State {
    if p in st.peers && st.peers[p].session.None? then
      st.(peers := st.peers[p := st.peers[p].(session := Some(s))], byToken := st.byToken[token := s],
          sessions := st.sessions[s := Session(p, token, map[], false, false, false)])
    else st
  }

  /** Closed for good, its subscribers taken out. */
  function Shut(st: State, s: SessionId): State
    requires s in st.sessions
  {
    st.(sessions := st.sessions[s := st.sessions[s].(closed := true, subs := map[], grace := false)])
  }

  function Unregistered(st: State, s: SessionId): State
    requires s in st.sessions
  {
    var pub := st.sessions[s].publisher;
    var a := st.(byToken := st.byToken - {st.sessions[s].token});
    if SessionOf(a, pub) == Some(s) then a.(peers := a.peers[pub := a.peers[pub].(session := None)]) else a
  }

  function Ended(st: State, s: SessionId, order: seq<SubId>): State
    requires s in st.sessions
  {
    if st.sessions[s].closed then st
    else
      var a := DropAll(Shut(st, s), order, st.sessions[s].publisher);
      if s in a.sessions then Unregistered(a, s) else a
  }

  predicate Evicted(st: State, q: PeerId, client: string)
    requires q in st.peers
  {
    client != "" && st.peers[q].client == client
  }

  function Staying(st: State, client: string): map<PeerId, Entry> {
    map q | q in st.peers && !Evicted(st, q, client) :: st.peers[q]
  }

  function EvictedPeers(st: State, client: string): set<PeerId> {
    set q | q in st.peers && Evicted(st, q, client)
  }

  /** `order` are the subscriptions of these peers. */
  ghost predicate Covers(order: seq<SubId>, st: State, ids: set<PeerId>) {
    forall x :: x in order <==>
                  exists q, k :: q in ids && q in st.peers && k in st.peers[q].subs && st.peers[q].subs[k] == x
  }

  /** A new peer; those of the same client are evicted, and `order` are their subscriptions. */
  function Joined(st: State, p: PeerId, client: string, order: seq<SubId>): State {
    CloseAll(st.(peers := Staying(st, client)[p := Entry(client, None, map[])], used := st.used + {p}), order)
  }

  /** A session that is not closed waits for its publisher to come back. */
  function Graced(st: State, s: Option<SessionId>): State {
    if s.Some? && s.value in st.sessions && !st.sessions[s.value].closed
    then st.(sessions := st.sessions[s.value := st.sessions[s.value].(grace := true)]) else st
  }

  function Left(st: State, p: PeerId, order: seq<SubId>): State {
    if p !in st.peers then st
    else Graced(CloseAll(st.(peers := st.peers - {p}), order), st.peers[p].session)
  }

  datatype Claim = Claimed | InvalidToken | AlreadyPublishing | Gone

  function Claims(st: State, p: PeerId, token: Token): Claim {
    if token !in st.byToken || st.byToken[token] !in st.sessions then InvalidToken
    else
      var s := st.byToken[token];
      if st.sessions[s].publisher in st.peers && st.sessions[s].publisher != p then InvalidToken
      else if p !in st.peers then Gone
      else if st.peers[p].session.Some? && st.peers[p].session != Some(s) then AlreadyPublishing
      else if st.sessions[s].closed then InvalidToken
      else Claimed
  }

  /** The session has a new publisher and no subscribers. */
  function Rebound(st: State, p: PeerId, s: SessionId): State
    requires s in st.sessions && p in st.peers
  {
    st.(sessions := st.sessions[s := st.sessions[s].(publisher := p, subs := map[], grace := false)],
        peers := st.peers[p := st.peers[p].(session := Some(s))])
  }

  function Resumed(st: State, p: PeerId, token: Token, order: seq<SubId>): State {
    if !Claims(st, p, token).Claimed? then st
    else
      var s := st.byToken[token];
      DropAll(Rebound(st, p, s), order, st.sessions[s].publisher)
  }

  /** Both sides get the connection; a viewer that has gone meanwhile loses it again. A session that
      turns out closed gets none. */
  function Subscribed(st: State, v: PeerId, pub: PeerId, x: SubId): State {
    var s := SessionOf(st, pub);
    if s.None? || s.value !in st.sessions || EntryAt(st, v, pub).Some? then st
    else if st.sessions[s.value].closed then st
    else
      var n := st.sessions[s.value].(subs := st.sessions[s.value].subs[v := x]);
      var a := st.(subs := st.subs[x := Sub(v, s.value, false)], sessions := st.sessions[s.value := n]);
      if v !in a.peers then Removed(a, v, pub, Some(x))
      else
        var b := a.(peers := a.peers[v := a.peers[v].(subs := a.peers[v].subs[pub := x])]);
        if |n.subs| == 1 then Sent(b, pub, EncodeResume) else b
  }

  /** The first packet of a session: nobody watching means the encoder can rest. */
  function FirstVideo(st: State, s: SessionId): State
    requires s in st.sessions
  {
    var a := st.(sessions := st.sessions[s := st.sessions[s].(firstVideo := true)]);
    if st.sessions[s].firstVideo || st.sessions[s].closed || st.sessions[s].subs != map[] then a
    else Sent(a, st.sessions[s].publisher, EncodePause)
  }

  // ---- The room's methods ----

  /** All references lead somewhere, and an owner is its session's publisher. */
  ghost predicate Linked(st: State) {
    && (forall x :: x in st.subs ==> st.subs[x].session in st.sessions)
    && (forall v, k :: v in st.peers && k in st.peers[v].subs ==>
          st.peers[v].subs[k] in st.subs && st.subs[st.peers[v].subs[k]].viewer == v)
    && (forall s, v :: s in st.sessions && v in st.sessions[s].subs ==>
          && st.sessions[s].subs[v] in st.subs
          && st.subs[st.sessions[s].subs[v]] == Sub(v, s, st.subs[st.sessions[s].subs[v]].closed))
    && (forall p :: p in st.peers && st.peers[p].session.Some? ==>
          st.peers[p].session.value in st.sessions && st.sessions[st.peers[p].session.value].publisher == p)
  }

  /** The entry removed, if there is one, is for a session of this publisher. */
  ghost predicate Keyed(st: State, v: PeerId, pub: PeerId, only: Option<SubId>)
    requires Linked(st)
  {
    Matches(EntryAt(st, v, pub), only) ==>
      st.sessions[st.subs[EntryAt(st, v, pub).value].session].publisher == pub
  }

  ghost function OpenSubs(st: State): set<SubId> {
    set x | x in st.subs && !st.subs[x].closed
  }

  class Room {
    var st: State

    /** Marks the connection closed and tells its handler, which removes the subscription. */
    method ClosePc(x: SubId)
      requires Linked(st) && x in st.subs
      modifies this
      ensures st == Closed(old(st), x) && Linked(st) && OpenSubs(st) <= OpenSubs(old(st))
      decreases |OpenSubs(st)|, 0
    {
      if st.subs[x].closed {
        return;
      }
      MarkedLess(st, x);
      st := Marked(st, x);
      var pub := st.sessions[st.subs[x].session].publisher;
      RemoveScreenSub(st.subs[x].viewer, pub, Some(x));
    }

    method RemoveScreenSub(v: PeerId, pub: PeerId, only: Option<SubId>)
      requires Linked(st) && Keyed(st, v, pub, only)
      modifies this
      ensures st == Removed(old(st), v, pub, only) && Linked(st) && OpenSubs(st) <= OpenSubs(old(st))
      decreases |OpenSubs(st)|, 1
    {
      hide Linked, Closed, Removed, Keyed, OpenSubs;
      ghost var before := st;
      TwoHalves(st, v, pub, only);
      var e := EntryAt(st, v, pub);
      var sub := if Matches(e, only) then e else None;
      if sub.Some? {
        st := WithoutEntry(st, v, pub);
      }
      var session := SessionOf(st, pub);
      if sub.Some? {
        EntryLinked(before, v, pub);
        ClosePc(sub.value);
      }
      var wentIdle := false;
      var removed := SubscriberAt(st, session, v);
      if Matches(removed, only) {
        SubscriberLinked(st, session, v, pub);
        SubsetSize(OpenSubs(st), OpenSubs(before));
        st := WithoutSubscriber(st, session.value, v);
        wentIdle := st.sessions[session.value].subs == map[];
        ClosePc(removed.value);
      }
      if wentIdle {
        st := Sent(st, pub, EncodePause);
      }
    }

    method CloseEach(order: seq<SubId>)
      requires Linked(st) && forall x :: x in order ==> x in st.subs
      modifies this
      ensures st == CloseAll(old(st), order) && Linked(st)
    {
      hide Linked, Closed;
      for i := 0 to |order|
        invariant Linked(st) && CloseAll(st, order[i..]) == CloseAll(old(st), order)
        invariant forall x :: x in order ==> x in st.subs
      {
        assert order[i..][0] == order[i] && order[i..][1..] == order[i + 1..];
        ClosedKeys(st, order[i]);
        ClosePc(order[i]);
      }
    }

    /** The loop that ends or moves a session for its viewers. */
    method DropEach(order: seq<SubId>, key: PeerId)
      requires Linked(st) && forall x :: x in order ==> x in st.subs
      modifies this
      ensures st == DropAll(old(st), order, key) && Linked(st)
    {
      hide Linked, Closed, WithoutEntry;
      for i := 0 to |order|
        invariant Linked(st) && DropAll(st, order[i..], key) == DropAll(old(st), order, key)
        invariant forall x :: x in order ==> x in st.subs
      {
        assert order[i..][0] == order[i] && order[i..][1..] == order[i + 1..];
        ClosedKeys(st, order[i]);
        ClosePc(order[i]);
        EntryLinked(st, st.subs[order[i]].viewer, key);
        st := WithoutEntry(st, st.subs[order[i]].viewer, key);
      }
    }

    /** screen-share-start, once the connection is negotiated. */
    method HandleStart(p: PeerId, s: SessionId, token: Token) returns (started: bool)
      requires Linked(st) && s !in st.sessions
      modifies this
      ensures st == Started(old(st), p, s, token) && Linked(st)
      ensures started <==> p in old(st).peers && old(st).peers[p].session.None?
    {
      started := p in st.peers && st.peers[p].session.None?;
      if started {
        var e := st.peers[p];
        st := st.(peers := st.peers[p := e.(session := Some(s))], byToken := st.byToken[token := s],
                  sessions := st.sessions[s := Session(p, token, map[], false, false, false)]);
      }
    }

    method EndSession(s: SessionId) returns (ghost order: seq<SubId>)
      requires Linked(st) && s in st.sessions
      modifies this
      ensures Linked(st) && st == Ended(old(st), s, order) && Enumerates(order, old(st).sessions[s].subs.Values)
    {
      hide Linked, DropAll;
      var drained := Listing(st.sessions[s].subs.Values);
      order := drained;
      if st.sessions[s].closed {
        return;
      }
      SubscribersKnown(st, s, drained);
      ShutLinked(st, s);
      DropAllSessions(Shut(st, s), drained, st.sessions[s].publisher);
      var pub := st.sessions[s].publisher;
      st := Shut(st, s);
      DropEach(drained, pub);
      UnregisteredLinked(st, s);
      st := Unregistered(st, s);
    }

    method HandleStop(p: PeerId) returns (ghost order: seq<SubId>)
      requires Linked(st)
      modifies this
      ensures Linked(st)
      ensures st == if SessionOf(old(st), p).Some? then Ended(old(st), SessionOf(old(st), p).value, order) else old(st)
      ensures SessionOf(old(st), p).Some? ==>
                Enumerates(order, old(st).sessions[SessionOf(old(st), p).value].subs.Values)
    {
      order := [];
      var s := SessionOf(st, p);
      if s.Some? {
        order := EndSession(s.value);
      }
    }

    /** The publisher's socket is gone: its subscriptions close and its session waits. */
    method RemovePeer(p: PeerId) returns (ghost order: seq<SubId>)
      requires Linked(st)
      modifies this
      ensures Linked(st) && st == Left(old(st), p, order)
      ensures p in old(st).peers ==> Enumerates(order, old(st).peers[p].subs.Values)
    {
      hide Linked, CloseAll, Graced;
      order := [];
      if p !in st.peers {
        return;
      }
      var entry := st.peers[p];
      var subs := Listing(entry.subs.Values);
      order := subs;
      EntriesKnown(st, p, subs);
      FewerPeersLinked(st, {p});
      st := st.(peers := st.peers - {p});
      CloseEach(subs);
      GracedLinked(st, entry.session);
      st := Graced(st, entry.session);
    }

    /** Removes the client's peers; `subs` are their subscriptions. */
    method EvictClient(client: string) returns (subs: seq<SubId>)
      requires Linked(st)
      modifies this
      ensures Linked(st) && st == old(st).(peers := Staying(old(st), client))
      ensures Covers(subs, old(st), EvictedPeers(old(st), client)) && forall x :: x in subs ==> x in st.subs
      ensures st == old(st).(peers := st.peers) && OnlyClientGoes(old(st), st, client)
      ensures forall x :: x in subs <==> BelongsToGone(old(st), st, x)
    {
      hide Linked, Covers, Staying, Enumerates, EvictedPeers;
      ghost var before := st;
      subs := [];
      var rest := EvictedPeers(st, client);
      ghost var gone := {};
      assert gone + rest == rest;
      CoversNone(before);
      while rest != {}
        invariant gone + rest == EvictedPeers(before, client) && gone !! rest
        invariant Linked(st) && st == before.(peers := before.peers - gone)
        invariant Covers(subs, before, gone) && forall x :: x in subs ==> x in st.subs
        decreases |rest|
      {
        var q :| q in rest;
        assert q in gone + rest;
        EvictedPresent(before, client, q);
        assert q in st.peers && st.peers[q] == before.peers[q];
        var more := Listing(st.peers[q].subs.Values);
        EntriesKnown(st, q, more);
        FewerPeersLinked(st, {q});
        CoversMore(subs, before, gone, more, q);
        subs := subs + more;
        PeersGone(before, gone, rest, q);
        rest := rest - {q};
        st := st.(peers := st.peers - {q});
        gone := gone + {q};
      }
      assert gone + {} == gone;
      StayingIs(before, client);
      EvictedAre(before, st, client);
      GoneAre(before, st, subs, EvictedPeers(before, client));
    }

    /** A new peer; the client's earlier ones go at once and their subscriptions close. */
    method AddPeer(p: PeerId, client: string) returns (ghost order: seq<SubId>)
      requires Linked(st) && p !in st.peers
      modifies this
      ensures Linked(st) && st == Joined(old(st), p, client, order)
      ensures Covers(order, old(st), EvictedPeers(old(st), client))
      ensures p in st.peers && st.peers[p] == Entry(client, None, map[]) && OnlyClientGoes(old(st), st, client)
      ensures st.subs.Keys == old(st).subs.Keys
      ensures forall x :: x in st.subs ==>
                            (st.subs[x].closed <==> old(st).subs[x].closed || BelongsToGone(old(st), st, x))
    {
      hide Linked, CloseAll, Covers, Staying, OnlyClientGoes, BelongsToGone;
      ghost var before := st;
      var subs := EvictClient(client);
      ghost var left := st;
      PeerAddedLinked(st, p, Entry(client, None, map[]));
      st := st.(peers := st.peers[p := Entry(client, None, map[])], used := st.used + {p});
      order := subs;
      ghost var joined := st;
      LinkedSubs(joined);
      CloseEach(subs);
      CloseAllMarks(joined, subs);
      JoinedAre(before, left, st, p, client);
    }

    /** The first packet of the session's video. */
    method FirstScreenVideo(s: SessionId)
      requires Linked(st) && s in st.sessions
      modifies this
      ensures Linked(st) && st == FirstVideo(old(st), s)
    {
      var session := st.sessions[s];
      st := st.(sessions := st.sessions[s := session.(firstVideo := true)]);
      if session.firstVideo || session.closed {
        return;
      }
      if session.publisher !in st.peers {
        return;
      }
      if session.subs == map[] {
        st := Sent(st, session.publisher, EncodePause);
      }
    }

    method HandleResume(p: PeerId, token: Token) returns (claim: Claim, ghost order: seq<SubId>)
      requires Linked(st)
      modifies this
      ensures Linked(st) && st == Resumed(old(st), p, token, order) && claim == Claims(old(st), p, token)
      ensures claim.Claimed? ==> Enumerates(order, old(st).sessions[old(st).byToken[token]].subs.Values)
    {
      hide Linked, DropAll;
      order := [];
      claim := Claims(st, p, token);
      if !claim.Claimed? {
        return;
      }
      var s := st.byToken[token];
      var former := st.sessions[s].publisher;
      var stale := Listing(st.sessions[s].subs.Values);
      order := stale;
      SubscribersKnown(st, s, stale);
      ReboundLinked(st, p, s);
      st := Rebound(st, p, s);
      DropEach(stale, former);
    }

    method HandleSubscribe(v: PeerId, pub: PeerId, x: SubId)
      requires Linked(st) && x !in st.subs
      modifies this
      ensures Linked(st) && st == Subscribed(old(st), v, pub, x)
      ensures NoneAfterEnd(old(st), st)
    {
      EndedGetsNone(st, v, pub, x);
      hide Linked, Closed, Removed, Keyed, NoneAfterEnd;
      ghost var before := st;
      var s := SessionOf(st, pub);
      OwnerLinked(st, pub);
      if s.None? || EntryAt(st, v, pub).Some? {
        return;
      }
      var session := st.sessions[s.value];
      if session.closed {
        return;
      }
      var n := session.(subs := session.subs[v := x]);
      SubscribeLinked(st, v, pub, x);
      st := st.(subs := st.subs[x := Sub(v, s.value, false)], sessions := st.sessions[s.value := n]);
      if v !in st.peers {
        RemoveScreenSub(v, pub, Some(x));
        return;
      }
      var e := st.peers[v];
      st := st.(peers := st.peers[v := e.(subs := e.subs[pub := x])]);
      if |n.subs| == 1 {
        st := Sent(st, pub, EncodeResume);
      }
    }
  }

  /** A session that has ended is left as it is and gets no connections. */
  ghost predicate NoneAfterEnd(a: State, b: State) {
    && (forall s :: s in a.sessions && a.sessions[s].closed ==> s in b.sessions && b.sessions[s] == a.sessions[s])
    && (forall x :: x in b.subs && x !in a.subs ==>
          b.subs[x].session in a.sessions && !a.sessions[b.subs[x].session].closed)
  }

  lemma EndedGetsNone(st: State, v: PeerId, pub: PeerId, x: SubId)
    ensures NoneAfterEnd(st, Subscribed(st, v, pub, x))
  {
    hide Removed;
    var s := SessionOf(st, pub);
    if s.Some? && s.value in st.sessions && !st.sessions[s.value].closed && v !in st.peers {
      var n := st.sessions[s.value].(subs := st.sessions[s.value].subs[v := x]);
      var a := st.(subs := st.subs[x := Sub(v, s.value, false)], sessions := st.sessions[s.value := n]);
      RemovedElsewhere(a, v, pub, Some(x), s.value);
    }
  }

  /** The same sessions but for `s`, and the same connections to them. */
  ghost predicate Alike(a: State, b: State, s: Option<SessionId>) {
    && a.sessions.Keys == b.sessions.Keys && a.subs.Keys == b.subs.Keys
    && (forall r :: r in a.sessions && s != Some(r) ==> b.sessions[r] == a.sessions[r])
    && forall x :: x in a.subs ==> b.subs[x].session == a.subs[x].session
  }

  lemma OneAlike(st: State, v: PeerId, pub: PeerId, s: SessionId, x: SubId)
    ensures Alike(st, Marked(st, x), Some(s)) && Alike(st, WithoutEntry(st, v, pub), Some(s))
    ensures s in st.sessions ==> Alike(st, WithoutSubscriber(st, s, v), Some(s))
    ensures Alike(st, Sent(st, pub, EncodePause), Some(s))
  {
  }

  lemma AlikeTwice(a: State, b: State, c: State, s: SessionId)
    requires Alike(a, b, Some(s)) && Alike(b, c, Some(s))
    ensures Alike(a, c, Some(s)) && c.sessions.Keys == a.sessions.Keys
  {
  }

  lemma RemovedElsewhere(st: State, v: PeerId, pub: PeerId, only: Option<SubId>, s: SessionId)
    requires SessionOf(st, pub) == Some(s) && s in st.sessions
    ensures Alike(st, Removed(st, v, pub, only), Some(s))
  {
    var e, y := EntryAt(st, v, pub), SubscriberAt(st, Some(s), v);
    hide EntryAt, SubscriberAt, Marked, WithoutEntry, WithoutSubscriber, Sent, Alike;
    var w := WithoutEntry(st, v, pub);
    var m := st;
    AlikeSelf(st, s);
    OneAlike(st, v, pub, s, 0);
    if Matches(e, only) {
      m := Marked(w, e.value);
      OneAlike(w, v, pub, s, e.value);
      AlikeTwice(st, w, m, s);
    }
    if Matches(y, only) {
      var n := WithoutSubscriber(m, s, v);
      var o := Marked(n, y.value);
      OneAlike(m, v, pub, s, 0);
      OneAlike(n, v, pub, s, y.value);
      OneAlike(o, v, pub, s, 0);
      AlikeTwice(st, m, n, s);
      AlikeTwice(st, n, o, s);
      AlikeTwice(st, o, Sent(o, pub, EncodePause), s);
    }
  }

  lemma AlikeSelf(st: State, s: SessionId)
    ensures Alike(st, st, Some(s))
  {
  }

  ghost predicate Enumerates(order: seq<SubId>, subs: set<SubId>) {
    forall x :: x in order <==> x in subs
  }

  method Listing(subs: set<SubId>) returns (order: seq<SubId>)
    ensures Enumerates(order, subs)
  {
    order := [];
    var rest := subs;
    while rest != {}
      invariant rest <= subs && forall x :: x in order <==> x in subs - rest
      decreases |rest|
    {
      var x :| x in rest;
      order := order + [x];
      rest := rest - {x};
    }
  }

  lemma {:induction false} DropAllSessions(st: State, order: seq<SubId>, key: PeerId)
    ensures DropAll(st, order, key).sessions.Keys == st.sessions.Keys
    decreases |order|
  {
    hide Closed;
    if order != [] {
      ClosedKeys(st, order[0]);
      var a := Closed(st, order[0]);
      DropAllSessions(if order[0] in a.subs then WithoutEntry(a, a.subs[order[0]].viewer, key) else a, order[1..], key);
    }
  }

  lemma OwnerLinked(st: State, pub: PeerId)
    requires Linked(st)
    ensures SessionOf(st, pub).Some? ==>
              SessionOf(st, pub).value in st.sessions && st.sessions[SessionOf(st, pub).value].publisher == pub
  {
  }

  lemma SubscribeLinked(st: State, v: PeerId, pub: PeerId, x: SubId)
    requires Linked(st) && x !in st.subs && SessionOf(st, pub).Some? && SessionOf(st, pub).value in st.sessions
    ensures var s := SessionOf(st, pub).value;
            var n := st.sessions[s].(subs := st.sessions[s].subs[v := x]);
            var a := st.(subs := st.subs[x := Sub(v, s, false)], sessions := st.sessions[s := n]);
            && Linked(a) && (v !in st.peers ==> Keyed(a, v, pub, Some(x)))
            && (v in st.peers ==>
                  var b := a.(peers := a.peers[v := a.peers[v].(subs := a.peers[v].subs[pub := x])]);
                  Linked(b) && Linked(Sent(b, pub, EncodeResume)))
  {
    var s := SessionOf(st, pub).value;
    var n := st.sessions[s].(subs := st.sessions[s].subs[v := x]);
    var a := st.(subs := st.subs[x := Sub(v, s, false)], sessions := st.sessions[s := n]);
    assert Linked(a);
    if v in st.peers {
      EntryAdded(a, v, pub, x);
      StaysLinked(a.(peers := a.peers[v := a.peers[v].(subs := a.peers[v].subs[pub := x])]), v, pub, 0, 0,
        EncodeResume);
    }
  }

  lemma EntryAdded(st: State, v: PeerId, pub: PeerId, x: SubId)
    requires Linked(st) && v in st.peers && x in st.subs && st.subs[x].viewer == v
    ensures Linked(st.(peers := st.peers[v := st.peers[v].(subs := st.peers[v].subs[pub := x])]))
  {
  }

  lemma PeerAddedLinked(st: State, p: PeerId, e: Entry)
    requires Linked(st) && e.session.None? && e.subs == map[]
    ensures Linked(st.(peers := st.peers[p := e], used := st.used + {p}))
  {
  }

  /** Of the peers of `a` just those of this client are not in `b`; nobody is of the empty one. */
  ghost predicate OnlyClientGoes(a: State, b: State, client: string) {
    forall q :: q in a.peers ==> (q in b.peers <==> client == "" || a.peers[q].client != client)
  }

  /** The connection is the subscription of a peer of `a` that is not in `b`. */
  ghost predicate BelongsToGone(a: State, b: State, x: SubId) {
    exists q, k :: q in a.peers && q !in b.peers && EntryAt(a, q, k) == Some(x)
  }

  lemma EvictedAre(a: State, b: State, client: string)
    requires b.peers == Staying(a, client)
    ensures OnlyClientGoes(a, b, client) && a.peers.Keys - b.peers.Keys == EvictedPeers(a, client)
  {
  }

  lemma GoneAre(a: State, b: State, order: seq<SubId>, ids: set<PeerId>)
    requires Covers(order, a, ids) && a.peers.Keys - b.peers.Keys == ids
    ensures forall x :: x in order <==> BelongsToGone(a, b, x)
  {
    forall x
      ensures x in order <==> BelongsToGone(a, b, x)
    {
      if x in order {
        var q, k :| q in ids && q in a.peers && k in a.peers[q].subs && a.peers[q].subs[k] == x;
        assert EntryAt(a, q, k) == Some(x);
      }
      if BelongsToGone(a, b, x) {
        var q, k :| q in a.peers && q !in b.peers && EntryAt(a, q, k) == Some(x);
        assert q in ids && k in a.peers[q].subs && a.peers[q].subs[k] == x;
      }
    }
  }

  lemma LinkedSubs(st: State)
    requires Linked(st)
    ensures forall x :: x in st.subs ==> st.subs[x].session in st.sessions
  {
  }

  /** Closing marks the connection and no other. */
  lemma ClosedMarks(st: State, x: SubId)
    requires x in st.subs ==> st.subs[x].session in st.sessions
    ensures Closed(st, x).subs == (if x in st.subs then st.subs[x := st.subs[x].(closed := true)] else st.subs)
    ensures Closed(st, x).peers.Keys == st.peers.Keys
    ensures forall q :: q in st.peers && st.peers[q].subs == map[] ==> Closed(st, x).peers[q] == st.peers[q]
  {
    hide Removed;
    if x in st.subs && !st.subs[x].closed {
      var m := Marked(st, x);
      RemovedMarks(m, st.subs[x].viewer, st.sessions[st.subs[x].session].publisher, x);
    }
  }

  lemma RemovedMarks(st: State, v: PeerId, pub: PeerId, x: SubId)
    requires x in st.subs && st.subs[x].closed
    ensures var t := Removed(st, v, pub, Some(x));
            && t.subs == st.subs && t.peers.Keys == st.peers.Keys
            && forall q :: q in st.peers && st.peers[q].subs == map[] ==> t.peers[q] == st.peers[q]
  {
    assert st.subs[x := st.subs[x].(closed := true)] == st.subs;
  }

  lemma {:induction false} CloseAllMarks(st: State, order: seq<SubId>)
    requires forall x :: x in st.subs ==> st.subs[x].session in st.sessions
    ensures var t := CloseAll(st, order);
            && t.subs.Keys == st.subs.Keys && t.peers.Keys == st.peers.Keys
            && (forall x :: x in st.subs ==> t.subs[x] == st.subs[x].(closed := st.subs[x].closed || x in order))
            && forall q :: q in st.peers && st.peers[q].subs == map[] ==> t.peers[q] == st.peers[q]
    decreases |order|
  {
    hide Closed;
    if order != [] {
      ClosedMarks(st, order[0]);
      ClosedKeys(st, order[0]);
      CloseAllMarks(Closed(st, order[0]), order[1..]);
    }
  }

  lemma JoinedAre(before: State, left: State, st: State, p: PeerId, client: string)
    requires p !in before.peers && OnlyClientGoes(before, left, client) && st.peers.Keys == left.peers.Keys + {p}
    ensures OnlyClientGoes(before, st, client)
    ensures forall x :: BelongsToGone(before, st, x) <==> BelongsToGone(before, left, x)
  {
  }

  lemma StayingIs(st: State, client: string)
    ensures Staying(st, client) == st.peers - EvictedPeers(st, client)
  {
  }

  lemma PeersGone(st: State, gone: set<PeerId>, rest: set<PeerId>, q: PeerId)
    ensures st.peers - gone - {q} == st.peers - (gone + {q})
    ensures q in rest ==> gone + {q} + (rest - {q}) == gone + rest
  {
  }

  lemma EvictedPresent(st: State, client: string, q: PeerId)
    ensures q in EvictedPeers(st, client) ==> q in st.peers
  {
  }

  lemma CoversNone(st: State)
    ensures Covers([], st, {})
  {
  }

  lemma CoversMore(order: seq<SubId>, st: State, ids: set<PeerId>, more: seq<SubId>, q: PeerId)
    requires Covers(order, st, ids) && q in st.peers && Enumerates(more, st.peers[q].subs.Values)
    ensures Covers(order + more, st, ids + {q})
  {
    forall x
      ensures x in order + more <==>
                exists r, k :: r in ids + {q} && r in st.peers && k in st.peers[r].subs && st.peers[r].subs[k] == x
    {
      if x in more {
        var k :| k in st.peers[q].subs && st.peers[q].subs[k] == x;
      }
    }
  }

  lemma SubscribersKnown(st: State, s: SessionId, order: seq<SubId>)
    requires Linked(st) && s in st.sessions && Enumerates(order, st.sessions[s].subs.Values)
    ensures forall x :: x in order ==> x in st.subs
  {
  }

  lemma EntriesKnown(st: State, v: PeerId, order: seq<SubId>)
    requires Linked(st) && v in st.peers && Enumerates(order, st.peers[v].subs.Values)
    ensures forall x :: x in order ==> x in st.subs
  {
  }

  lemma ShutLinked(st: State, s: SessionId)
    requires Linked(st) && s in st.sessions
    ensures Linked(Shut(st, s))
  {
  }

  lemma UnregisteredLinked(st: State, s: SessionId)
    requires Linked(st) && s in st.sessions
    ensures Linked(Unregistered(st, s))
  {
  }

  lemma FewerPeersLinked(st: State, gone: set<PeerId>)
    requires Linked(st)
    ensures Linked(st.(peers := st.peers - gone))
  {
  }

  lemma GracedLinked(st: State, s: Option<SessionId>)
    requires Linked(st)
    ensures Linked(Graced(st, s))
  {
  }

  lemma ReboundLinked(st: State, p: PeerId, s: SessionId)
    requires Linked(st) && s in st.sessions && p in st.peers
    requires st.sessions[s].publisher in st.peers ==> st.sessions[s].publisher == p
    ensures Linked(Rebound(st, p, s))
  {
  }

  /** The viewer's side of a removal. */
  function ViewerHalf(st: State, v: PeerId, pub: PeerId, only: Option<SubId>): State {
    var e := EntryAt(st, v, pub);
    if Matches(e, only) then Closed(WithoutEntry(st, v, pub), e.value) else st
  }

  /** The session's side. */
  function SessionHalf(st: State, s: Option<SessionId>, v: PeerId, pub: PeerId, only: Option<SubId>): State {
    var x := SubscriberAt(st, s, v);
    if !Matches(x, only) then st
    else
      var a := WithoutSubscriber(st, s.value, v);
      var b := Closed(a, x.value);
      if a.sessions[s.value].subs == map[] then Sent(b, pub, EncodePause) else b
  }

  lemma MarkedAgain(st: State, x: SubId)
    requires x in st.subs && st.subs[x].closed
    ensures Marked(st, x) == st
  {
    assert st.subs[x := st.subs[x].(closed := true)] == st.subs;
  }

  /** The viewer's half removes the entry, and what closing the connection finds in the session. */
  lemma ViewerHalfIs(st: State, v: PeerId, pub: PeerId, only: Option<SubId>)
    requires Linked(st) && Keyed(st, v, pub, only) && Matches(EntryAt(st, v, pub), only)
    ensures var x, s := EntryAt(st, v, pub), SessionOf(st, pub);
            var m := Marked(WithoutEntry(st, v, pub), x.value);
            ViewerHalf(st, v, pub, only)
            == if st.subs[x.value].closed || SubscriberAt(st, s, v) != x then m
               else
                 var b := WithoutSubscriber(m, s.value, v);
                 if b.sessions[s.value].subs == map[] then Sent(b, pub, EncodePause) else b
  {
    var x, s := EntryAt(st, v, pub).value, SessionOf(st, pub);
    var a := WithoutEntry(st, v, pub);
    var m := Marked(a, x);
    if st.subs[x].closed {
      MarkedAgain(a, x);
    } else {
      assert Closed(a, x) == Removed(m, v, pub, Some(x));
      assert EntryAt(m, v, pub) == None && SessionOf(m, pub) == s && SubscriberAt(m, s, v) == SubscriberAt(st, s, v);
      if SubscriberAt(m, s, v) == Some(x) {
        MarkedAgain(WithoutSubscriber(m, s.value, v), x);
      }
    }
  }

  /** Closing a connection that has no entry and no place in the session only marks it. */
  lemma ClosedAlone(st: State, x: SubId)
    requires x in st.subs && st.subs[x].session in st.sessions
    requires var v, pub := st.subs[x].viewer, st.sessions[st.subs[x].session].publisher;
             EntryAt(st, v, pub) != Some(x) && SubscriberAt(st, SessionOf(st, pub), v) != Some(x)
    ensures Closed(st, x) == Marked(st, x)
  {
    if st.subs[x].closed { MarkedAgain(st, x); }
  }

  lemma SessionHalfIs(st: State, s: Option<SessionId>, v: PeerId, pub: PeerId, only: Option<SubId>)
    requires Linked(st) && s == SessionOf(st, pub) && Matches(SubscriberAt(st, s, v), only)
    requires EntryAt(st, v, pub) != SubscriberAt(st, s, v)
    ensures var b := Marked(WithoutSubscriber(st, s.value, v), SubscriberAt(st, s, v).value);
            SessionHalf(st, s, v, pub, only)
            == if b.sessions[s.value].subs == map[] then Sent(b, pub, EncodePause) else b
  {
    var x := SubscriberAt(st, s, v).value;
    ClosedAlone(WithoutSubscriber(st, s.value, v), x);
  }

  /** Taking things away leaves no reference dangling. */
  lemma StaysLinked(st: State, v: PeerId, pub: PeerId, s: SessionId, x: SubId, e: Encode)
    requires Linked(st)
    ensures Linked(WithoutEntry(st, v, pub)) && Linked(Marked(st, x)) && Linked(Sent(st, pub, e))
    ensures s in st.sessions ==> Linked(WithoutSubscriber(st, s, v))
  {
    hide Linked, WithoutEntry, WithoutSubscriber, Marked;
    EntryLeaves(st, v, pub);
    MarkedLinked(st, x);
    if s in st.sessions { SubscriberLeaves(st, s, v); }
    SentLinked(st, pub, e);
  }

  lemma EntryLeaves(st: State, v: PeerId, pub: PeerId)
    requires Linked(st)
    ensures Linked(WithoutEntry(st, v, pub))
  {
  }

  lemma MarkedLinked(st: State, x: SubId)
    requires Linked(st)
    ensures Linked(Marked(st, x))
  {
  }

  lemma SubscriberLeaves(st: State, s: SessionId, v: PeerId)
    requires Linked(st) && s in st.sessions
    ensures Linked(WithoutSubscriber(st, s, v))
  {
  }

  lemma SentLinked(st: State, pub: PeerId, e: Encode)
    requires Linked(st)
    ensures Linked(Sent(st, pub, e))
  {
  }

  lemma HalvesLinked(st: State, v: PeerId, pub: PeerId, only: Option<SubId>)
    requires Linked(st) && Keyed(st, v, pub, only)
    ensures Linked(ViewerHalf(st, v, pub, only)) && Linked(Removed(st, v, pub, only))
  {
    hide Linked, WithoutEntry, WithoutSubscriber, Marked, Sent, Closed;
    var e, s := EntryAt(st, v, pub), SessionOf(st, pub);
    var w := WithoutEntry(st, v, pub);
    StaysLinked(st, v, pub, 0, 0, EncodePause);
    var m := if Matches(e, only) then Marked(w, e.value) else st;
    if Matches(e, only) {
      ViewerHalfIs(st, v, pub, only);
      StaysLinked(w, v, pub, 0, e.value, EncodePause);
    }
    var y := SubscriberAt(st, s, v);
    if y.Some? {
      SameSessions(st, v, pub, e);
      StaysLinked(m, v, pub, s.value, 0, EncodePause);
      var b := WithoutSubscriber(m, s.value, v);
      StaysLinked(b, v, pub, 0, y.value, EncodePause);
      StaysLinked(Marked(b, y.value), v, pub, 0, 0, EncodePause);
    }
  }

  lemma SameSessions(st: State, v: PeerId, pub: PeerId, e: Option<SubId>)
    ensures WithoutEntry(st, v, pub).sessions == st.sessions
    ensures e.Some? ==> Marked(WithoutEntry(st, v, pub), e.value).sessions == st.sessions
  {
  }

  /** A removal is its two halves, one after the other, however the closing re-enters. */
  lemma TwoHalves(st: State, v: PeerId, pub: PeerId, only: Option<SubId>)
    requires Linked(st) && Keyed(st, v, pub, only)
    ensures var a := ViewerHalf(st, v, pub, only);
            Linked(a) && SessionHalf(a, SessionOf(st, pub), v, pub, only) == Removed(st, v, pub, only)
    ensures Linked(Removed(st, v, pub, only)) && OpenSubs(Removed(st, v, pub, only)) <= OpenSubs(st)
  {
    hide Linked, Closed, Removed, SessionHalf, OpenSubs, Keyed;
    HalvesLinked(st, v, pub, only);
    RemovedShrinks(st, v, pub, only);
    if Matches(EntryAt(st, v, pub), only) {
      EntryLinked(st, v, pub);
      TwoHalvesEntry(st, v, pub, only);
    } else {
      TwoHalvesNoEntry(st, v, pub, only);
    }
  }

  lemma TwoHalvesNoEntry(st: State, v: PeerId, pub: PeerId, only: Option<SubId>)
    requires Linked(st) && !Matches(EntryAt(st, v, pub), only)
    ensures SessionHalf(st, SessionOf(st, pub), v, pub, only) == Removed(st, v, pub, only)
  {
    hide Linked, Closed;
    var s := SessionOf(st, pub);
    if Matches(SubscriberAt(st, s, v), only) { SessionHalfIs(st, s, v, pub, only); }
  }

  lemma TwoHalvesEntry(st: State, v: PeerId, pub: PeerId, only: Option<SubId>)
    requires Linked(st) && Keyed(st, v, pub, only) && Matches(EntryAt(st, v, pub), only)
    requires Linked(ViewerHalf(st, v, pub, only)) && EntryAt(st, v, pub).value in st.subs
    ensures SessionHalf(ViewerHalf(st, v, pub, only), SessionOf(st, pub), v, pub, only) == Removed(st, v, pub, only)
  {
    hide Linked, Closed, ViewerHalf;
    var x, s := EntryAt(st, v, pub).value, SessionOf(st, pub);
    var m := Marked(WithoutEntry(st, v, pub), x);
    var y := SubscriberAt(st, s, v);
    ViewerHalfIs(st, v, pub, only);
    assert SubscriberAt(m, s, v) == y && SessionOf(m, pub) == s;
    if y == Some(x) && !st.subs[x].closed {
      MarkedAgain(WithoutSubscriber(m, s.value, v), x);
      assert SubscriberAt(ViewerHalf(st, v, pub, only), s, v) == None;
    } else if Matches(y, only) {
      SessionHalfIs(m, s, v, pub, only);
    }
  }

  lemma EntryLinked(st: State, v: PeerId, pub: PeerId)
    requires Linked(st)
    ensures var a := WithoutEntry(st, v, pub);
            Linked(a) && a.subs == st.subs && OpenSubs(a) == OpenSubs(st)
              && (EntryAt(st, v, pub).Some? ==> EntryAt(st, v, pub).value in a.subs)
  {
  }

  lemma SubscriberLinked(st: State, s: Option<SessionId>, v: PeerId, pub: PeerId)
    requires Linked(st) && SubscriberAt(st, s, v).Some?
    ensures var a := WithoutSubscriber(st, s.value, v);
            && Linked(a) && OpenSubs(a) == OpenSubs(st) && SubscriberAt(st, s, v).value in a.subs
            && s.value in Closed(a, SubscriberAt(st, s, v).value).sessions
  {
    hide Closed;
    StaysLinked(st, v, pub, s.value, 0, EncodePause);
    ClosedKeys(WithoutSubscriber(st, s.value, v), SubscriberAt(st, s, v).value);
  }

  /** A removal opens nothing and loses no session. */
  lemma RemovedShrinks(st: State, v: PeerId, pub: PeerId, only: Option<SubId>)
    ensures OpenSubs(Removed(st, v, pub, only)) <= OpenSubs(st)
    ensures Removed(st, v, pub, only).sessions.Keys == st.sessions.Keys
    ensures Removed(st, v, pub, only).subs.Keys == st.subs.Keys
  {
    hide Marked, WithoutEntry, WithoutSubscriber, OpenSubs, Sent;
    var e, s := EntryAt(st, v, pub), SessionOf(st, pub);
    var w := WithoutEntry(st, v, pub);
    var m := if Matches(e, only) then Marked(w, e.value) else st;
    OneShrinks(st, v, pub, 0, 0);
    if e.Some? { OneShrinks(w, v, pub, 0, e.value); }
    var y := SubscriberAt(st, s, v);
    if Matches(y, only) {
      OneShrinks(m, v, pub, s.value, 0);
      OneShrinks(WithoutSubscriber(m, s.value, v), v, pub, 0, y.value);
      OneShrinks(Marked(WithoutSubscriber(m, s.value, v), y.value), v, pub, 0, 0);
    }
  }

  lemma OneShrinks(st: State, v: PeerId, pub: PeerId, s: SessionId, x: SubId)
    ensures forall a :: a in [WithoutEntry(st, v, pub), Marked(st, x), Sent(st, pub, EncodePause)] ==>
                          OpenSubs(a) <= OpenSubs(st) && a.sessions == st.sessions && a.subs.Keys == st.subs.Keys
    ensures s in st.sessions ==>
              OpenSubs(WithoutSubscriber(st, s, v)) <= OpenSubs(st)
              && WithoutSubscriber(st, s, v).sessions.Keys == st.sessions.Keys
              && WithoutSubscriber(st, s, v).subs == st.subs
  {
  }

  lemma ClosedKeys(st: State, x: SubId)
    ensures Closed(st, x).sessions.Keys == st.sessions.Keys && Closed(st, x).subs.Keys == st.subs.Keys
  {
    hide Removed;
    if x in st.subs && st.subs[x].session in st.sessions {
      RemovedShrinks(Marked(st, x), st.subs[x].viewer, st.sessions[st.subs[x].session].publisher, Some(x));
    }
  }

  lemma MarkedLess(st: State, x: SubId)
    requires Linked(st) && x in st.subs && !st.subs[x].closed
    ensures Linked(Marked(st, x)) && |OpenSubs(Marked(st, x))| < |OpenSubs(st)|
  {
    assert OpenSubs(Marked(st, x)) == OpenSubs(st) - {x};
  }
}
