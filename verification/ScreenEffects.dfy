/** What every step of a room does to whatever can be seen of it, and what that means for the
    connections and encoders over a whole run. */
module ScreenEffects {
  import opened Basics
  import opened ScreenShare
  import opened ScreenShareRuns

  // ---- What can be seen ----

  function Heard(st: State, p: PeerId): Option<Encode> {
    if p in st.encode then Some(st.encode[p]) else None
  }

  function ClientOf(st: State, p: PeerId): Option<string> {
    if p in st.peers then Some(st.peers[p].client) else None
  }

  function Spared(x: Option<SubId>, gone: set<SubId>): Option<SubId> {
    if x.Some? && x.value in gone then None else x
  }

  ghost function SubscriptionsOf(st: State, ids: set<PeerId>): set<SubId> {
    set q, k | q in ids && q in st.peers && k in st.peers[q].subs :: st.peers[q].subs[k]
  }

  ghost function Elements(order: seq<SubId>): set<SubId> {
    set x | x in order
  }

  /** Exactly the connections in `gone` are closed besides those that were. */
  ghost predicate Closes(a: State, b: State, gone: set<SubId>) {
    && b.subs.Keys == a.subs.Keys
    && forall x :: x in a.subs ==> b.subs[x] == a.subs[x].(closed := a.subs[x].closed || x in gone)
  }

  /** A present publisher that has lost its last viewer hears a pause, and nobody else anything. */
  ghost predicate PausesIdle(a: State, b: State) {
    forall p :: Heard(b, p)
                == if p in b.peers && Watched(a, p) && !Watched(b, p) then Some(EncodePause) else Heard(a, p)
  }

  // ---- The effect of each step ----

  /** The connections in `gone` close: their entries go, and their places with present publishers. */
  ghost predicate Cuts(a: State, b: State, gone: set<SubId>) {
    && SameOwners(a, b) && Closes(a, b, gone) && PausesIdle(a, b)
    && (forall v, k :: EntryAt(b, v, k) == Spared(EntryAt(a, v, k), gone))
    && (forall s, v :: SubscriberAt(b, Some(s), v)
                       == if PublisherPresent(a, s) then Spared(SubscriberAt(a, Some(s), v), gone)
                          else SubscriberAt(a, Some(s), v))
  }

  predicate PublisherPresent(st: State, s: SessionId) {
    s in st.sessions && st.sessions[s].publisher in st.peers
  }

  /** The peers in `gone` have left: their connections close, their entries go, and their places
      with publishers that stay. */
  ghost predicate Departs(a: State, b: State, gone: set<PeerId>) {
    && Closes(a, b, SubscriptionsOf(a, gone)) && PausesIdle(a, b) && PlacesGo(a, b, gone)
    && (forall v, k :: EntryAt(b, v, k) == if v in gone then None else EntryAt(a, v, k))
    && (forall q :: q in b.peers && q in a.peers ==>
       SessionOf(b, q) == SessionOf(a, q) && ClientOf(b, q) == ClientOf(a, q))
  }

  ghost predicate PlacesGo(a: State, b: State, gone: set<PeerId>) {
    forall s: SessionId, v :: SubscriberAt(b, Some(s), v) == PlaceLeft(a, b, gone, s, v)
  }

  function PlaceLeft(a: State, b: State, gone: set<PeerId>, s: SessionId, v: PeerId): Option<SubId> {
    if v in gone && PublisherPresent(b, s) then None else SubscriberAt(a, Some(s), v)
  }

  /** The session's connections close and no viewer has an entry for it any more. */
  ghost predicate DropsViewers(a: State, b: State, s: SessionId)
    requires s in a.sessions
  {
    && Closes(a, b, a.sessions[s].subs.Values) && b.encode == a.encode
    && (forall v, k :: EntryAt(b, v, k) == if k == a.sessions[s].publisher then None else EntryAt(a, v, k))
    && b.peers.Keys == a.peers.Keys && b.used == a.used && forall q :: ClientOf(b, q) == ClientOf(a, q)
  }

  ghost predicate Starts(a: State, b: State, p: PeerId, s: SessionId, token: Token) {
    if p in a.peers && a.peers[p].session.None?
    then
      && b == a.(peers := b.peers, byToken := a.byToken[token := s],
                 sessions := a.sessions[s := Session(p, token, map[], false, false, false)])
      && (forall q :: SessionOf(b, q) == if q == p then Some(s) else SessionOf(a, q))
      && (forall q :: ClientOf(b, q) == ClientOf(a, q)) && forall v, k :: EntryAt(b, v, k) == EntryAt(a, v, k)
    else b == a
  }

  /** A live session is closed and without an owner, its token forgotten. */
  ghost predicate EndsNow(a: State, b: State, s: SessionId) {
    s in a.sessions
    && if a.sessions[s].closed then b == a
       else
         && DropsViewers(a, b, s)
         && (forall q :: SessionOf(b, q) == if SessionOf(a, q) == Some(s) then None else SessionOf(a, q))
         && b.byToken == a.byToken - {a.sessions[s].token}
         && b.sessions == a.sessions[s := a.sessions[s].(closed := true, subs := map[], grace := false)]
  }

  /** A granted resume gives the session, empty, to the peer; a refused one changes nothing. */
  ghost predicate Resumes(a: State, b: State, p: PeerId, token: Token) {
    if !Claims(a, p, token).Claimed? then b == a
    else
      var s := a.byToken[token];
      && DropsViewers(a, b, s)
      && (forall q :: SessionOf(b, q) == if q == p then Some(s) else SessionOf(a, q))
      && b.byToken == a.byToken
      && b.sessions == a.sessions[s := a.sessions[s].(publisher := p, subs := map[], grace := false)]
  }

  /** The connection is in both maps and the first viewer wakes the encoder. A viewer that has
      gone leaves a closed connection behind, and an encoder nobody listens to is paused again. */
  ghost predicate Subscribes(a: State, b: State, v: PeerId, pub: PeerId, x: SubId) {
    var s := SessionOf(a, pub);
    if s.None? || EntryAt(a, v, pub).Some? then b == a
    else
      && SameOwners(a, b) && b.subs == a.subs[x := Sub(v, s.value, v !in a.peers)]
      && (forall p :: Heard(b, p)
                      == if p == pub && !Watched(a, p) then Some(if v in a.peers then EncodeResume else EncodePause)
                         else Heard(a, p))
      && (forall w, k :: EntryAt(b, w, k) == if w == v && k == pub && v in a.peers then Some(x) else EntryAt(a, w, k))
      && (forall r: SessionId, w :: SubscriberAt(b, Some(r), w)
                         == if Some(r) == s && w == v && v in a.peers then Some(x) else SubscriberAt(a, Some(r), w))
  }

  /** Only the first packet counts, and it pauses a present publisher nobody watches. */
  ghost predicate FirstArrives(a: State, b: State, s: SessionId) {
    && s in a.sessions && b == a.(sessions := a.sessions[s := a.sessions[s].(firstVideo := true)], encode := b.encode)
    && forall p :: Heard(b, p) == if SessionOf(a, p) == Some(s) && !a.sessions[s].firstVideo && !Watched(a, p)
                                  then Some(EncodePause) else Heard(a, p)
  }

  /** A peer is there, of those before it just the ones of its client are not, and their connections,
      entries and places go with them. */
  ghost predicate Joins(a: State, b: State, p: PeerId, client: string) {
    && OnlyClientGoes(a, b, client) && Departs(a, b, a.peers.Keys - b.peers.Keys)
    && p in b.peers && b.peers.Keys <= a.peers.Keys + {p} && b.used == a.used + {p}
    && SessionOf(b, p) == None && ClientOf(b, p) == Some(client)
    && b.byToken == a.byToken && b.sessions.Keys == a.sessions.Keys
    && forall s :: s in a.sessions ==> b.sessions[s] == a.sessions[s].(subs := b.sessions[s].subs)
  }

  /** The peer is gone; the session it owned, and no other, starts to wait. */
  ghost predicate Leaves(a: State, b: State, p: PeerId) {
    && Departs(a, b, {p}) && b.peers.Keys == a.peers.Keys - {p} && b.used == a.used
    && b.byToken == a.byToken && b.sessions.Keys == a.sessions.Keys
    && forall s :: s in a.sessions ==>
         b.sessions[s] == a.sessions[s].(subs := b.sessions[s].subs,
                                         grace := a.sessions[s].grace || SessionOf(a, p) == Some(s))
  }

  ghost predicate Effect(a: State, step: Step, b: State) {
    match step
    case Start(p, s, token) => Starts(a, b, p, s, token)
    case Stop(p, _) => SessionOf(a, p).Some? && EndsNow(a, b, SessionOf(a, p).value)
    case PublisherPcClosed(s, _) => EndsNow(a, b, s)
    case GraceExpired(s, _) => EndsNow(a, b, s)
    case Resume(p, token, _) => Resumes(a, b, p, token)
    case Subscribe(v, pub, x) => Subscribes(a, b, v, pub, x)
    case Unsubscribe(v, pub) => Cuts(a, b, if EntryAt(a, v, pub).Some? then {EntryAt(a, v, pub).value} else {})
    case SubPcClosed(x) => Cuts(a, b, {x})
    case FirstPacket(s) => FirstArrives(a, b, s)
    case Join(p, client, _) => Joins(a, b, p, client)
    case Leave(p, _) => Leaves(a, b, p)
  }

  // ---- Closing connections ----

  lemma ClosedCuts(st: State, x: SubId, leaving: set<SubId>)
    requires Inv(st, leaving)
    ensures Cuts(st, Closed(st, x), {x})
  {
    hide Owners, Encoders, Known, Entries, Places, Closed, SameOwners;
    ClosedSameOwners(st, x);
    if x in st.subs && !st.subs[x].closed {
      ClosedSubs(st, x);
      ClosedPauses(st, x);
      forall v, k
        ensures EntryAt(Closed(st, x), v, k) == Spared(EntryAt(st, v, k), {x})
      {
        ClosedAt(st, x, v, k, 0);
        if EntryAt(st, v, k) == Some(x) { EntryIs(st, v, k, x); }
      }
      forall s: SessionId, v
        ensures SubscriberAt(Closed(st, x), Some(s), v)
                == if PublisherPresent(st, s) then Spared(SubscriberAt(st, Some(s), v), {x})
                   else SubscriberAt(st, Some(s), v)
      {
        ClosedAt(st, x, v, 0, s);
        if SubscriberAt(st, Some(s), v) == Some(x) { PlaceIs(st, s, v, x, leaving); }
        if Some(s) == SessionOf(st, st.sessions[st.subs[x].session].publisher) { OwnersPublish(st); }
      }
    } else {
      NotClosed(st, x);
      ClosedNowhere(st, x, leaving);
    }
  }

  lemma EntryIs(st: State, v: PeerId, k: PeerId, x: SubId)
    requires Entries(st) && EntryAt(st, v, k) == Some(x)
    ensures x in st.subs && !st.subs[x].closed && st.subs[x].viewer == v && st.subs[x].session in st.sessions
    ensures var s := st.subs[x].session;
            !st.sessions[s].closed && st.sessions[s].publisher == k && SubscriberAt(st, Some(s), v) == Some(x)
  {
    assert EntryOk(st, v, k, x);
  }

  lemma PlaceIs(st: State, s: SessionId, v: PeerId, x: SubId, leaving: set<SubId>)
    requires Owners(st) && Places(st, leaving) && SubscriberAt(st, Some(s), v) == Some(x)
    ensures s in st.sessions && !st.sessions[s].closed && x in st.subs && st.subs[x].viewer == v
            && st.subs[x].session == s
    ensures PublisherPresent(st, s) ==> SessionOf(st, st.sessions[s].publisher) == Some(s) && !st.subs[x].closed
    ensures PublisherPresent(st, s) && x !in leaving ==> EntryAt(st, v, st.sessions[s].publisher) == Some(x)
  {
    hide Owners;
    assert PlaceOk(st, leaving, s, v, x);
    if PublisherPresent(st, s) { OwnerSession(st, s); }
  }

  /** A connection closed before has no entry, and no place with a present publisher. */
  lemma ClosedNowhere(st: State, x: SubId, leaving: set<SubId>)
    requires Inv(st, leaving) && (x in st.subs ==> st.subs[x].closed)
    ensures Cuts(st, st, {x})
  {
    hide Owners, Encoders, Known, Entries, Places, SameOwners;
    RestSameOwners(st, st);
    forall v, k
      ensures EntryAt(st, v, k) != Some(x)
    {
      if EntryAt(st, v, k) == Some(x) { EntryIs(st, v, k, x); assert false; }
    }
    forall s, v | PublisherPresent(st, s)
      ensures SubscriberAt(st, Some(s), v) != Some(x)
    {
      if SubscriberAt(st, Some(s), v) == Some(x) { PlaceIs(st, s, v, x, leaving); assert false; }
    }
  }

  lemma ClosedPauses(st: State, x: SubId)
    requires Owners(st) && x in st.subs && !st.subs[x].closed && st.subs[x].session in st.sessions
    ensures PausesIdle(st, Closed(st, x))
  {
    hide Closed, Owners;
    ClosedIs(st, x);
    OwnersPublish(st);
    var w, pub := st.subs[x].viewer, st.sessions[st.subs[x].session].publisher;
    var a := EntryGone(Marked(st, x), w, pub, x);
    assert forall q :: SessionOf(a, q) == SessionOf(st, q);
    assert a.sessions == st.sessions && a.encode == st.encode && a.peers.Keys == st.peers.Keys;
    PlaceGonePauses(a, w, pub, x);
    forall p
      ensures Watched(a, p) == Watched(st, p) && Heard(a, p) == Heard(st, p)
    {
    }
  }

  lemma PlaceGonePauses(st: State, w: PeerId, pub: PeerId, x: SubId)
    requires forall q :: SessionOf(st, q).Some? && SessionOf(st, q).value in st.sessions ==>
                           st.sessions[SessionOf(st, q).value].publisher == q
    ensures PausesIdle(st, PlaceGone(st, w, pub, x)) && PlaceGone(st, w, pub, x).peers == st.peers
  {
    forall p
      ensures var t := PlaceGone(st, w, pub, x);
              Heard(t, p)
              == if p in t.peers && Watched(st, p) && !Watched(t, p) then Some(EncodePause) else Heard(st, p)
    {
      PlaceGonePausesOne(st, w, pub, x, p);
    }
  }

  lemma PlaceGonePausesOne(st: State, w: PeerId, pub: PeerId, x: SubId, p: PeerId)
    requires SessionOf(st, p).Some? && SessionOf(st, p).value in st.sessions ==>
               st.sessions[SessionOf(st, p).value].publisher == p
    requires SessionOf(st, pub).Some? && SessionOf(st, pub).value in st.sessions ==>
               st.sessions[SessionOf(st, pub).value].publisher == pub
    ensures var t := PlaceGone(st, w, pub, x);
            Heard(t, p) == if p in t.peers && Watched(st, p) && !Watched(t, p) then Some(EncodePause) else Heard(st, p)
  {
    var s := SessionOf(st, pub);
    assert SessionOf(PlaceGone(st, w, pub, x), p) == SessionOf(st, p);
    if SubscriberAt(st, s, w) == Some(x) && p == pub { assert w in st.sessions[s.value].subs; }
  }

  lemma CutsTwice(a: State, b: State, c: State, g: set<SubId>, h: set<SubId>)
    requires Cuts(a, b, g) && Cuts(b, c, h)
    ensures Cuts(a, c, g + h)
  {
    hide Watched, EntryAt, SubscriberAt, Heard;
    SameOwnersTwice(a, b, c);
    PausesTwice(a, b, c, g, h);
    PublishersStay(a, b);
    hide SameOwners, PausesIdle, PublisherPresent;
  }

  lemma PausesTwice(a: State, b: State, c: State, g: set<SubId>, h: set<SubId>)
    requires Cuts(a, b, g) && Cuts(b, c, h)
    ensures PausesIdle(a, c)
  {
    hide Watched, EntryAt, SubscriberAt, SameOwners, Heard, Closes;
    forall p
      ensures Heard(c, p) == if p in c.peers && Watched(a, p) && !Watched(c, p) then Some(EncodePause) else Heard(a, p)
    {
      CutsWatched(a, b, g, p);
      CutsWatched(b, c, h, p);
    }
  }

  lemma PublishersStay(a: State, b: State)
    requires SameOwners(a, b)
    ensures forall s :: PublisherPresent(b, s) == PublisherPresent(a, s)
  {
  }

  /** Cutting connections makes nobody watched. */
  lemma CutsWatched(a: State, b: State, gone: set<SubId>, p: PeerId)
    requires Cuts(a, b, gone)
    ensures Watched(b, p) ==> Watched(a, p)
    ensures b.peers.Keys == a.peers.Keys
  {
    if Watched(b, p) {
      var s := SessionOf(b, p).value;
      var v :| v in b.sessions[s].subs;
      assert SessionOf(a, p) == Some(s) && SubscriberAt(b, Some(s), v).Some?;
      assert SubscriberAt(a, Some(s), v).Some?;
    }
  }

  lemma {:induction false} CloseAllCuts(st: State, order: seq<SubId>, leaving: set<SubId>)
    requires Inv(st, leaving)
    ensures Cuts(st, CloseAll(st, order), Elements(order))
    decreases |order|
  {
    hide Inv, Closed, Cuts;
    if order == [] {
      NothingCut(st);
      assert CloseAll(st, order) == st;
      assert Elements(order) == {};
    } else {
      var b := Closed(st, order[0]);
      ClosedCuts(st, order[0], leaving);
      ClosedKeeps(st, order[0], leaving);
      CloseAllCuts(b, order[1..], leaving - {order[0]});
      CutsTwice(st, b, CloseAll(b, order[1..]), {order[0]}, Elements(order[1..]));
      assert Elements(order) == {order[0]} + (Elements(order[1..]));
    }
  }

  lemma NothingCut(st: State)
    ensures Cuts(st, st, {})
  {
    RestSameOwners(st, st);
  }

  // ---- Peers go ----

  /** `m` is `st` without the peers in `gone`, and perhaps with a new one. */
  ghost predicate Without(st: State, m: State, gone: set<PeerId>) {
    && m == st.(peers := m.peers, used := m.used) && gone <= st.peers.Keys
    && (forall p :: p in st.peers ==> p in m.peers || p in gone)
    && (forall p :: p in m.peers ==>
          if p in st.peers then p !in gone && m.peers[p] == st.peers[p]
          else m.peers[p].session == None && m.peers[p].subs == map[] && p !in st.used)
  }

  lemma DepartsBy(st: State, m: State, b: State, gone: set<PeerId>)
    requires Inv(st, {}) && Without(st, m, gone) && Cuts(m, b, SubscriptionsOf(st, gone))
    ensures Departs(st, b, gone)
  {
    hide Inv, Without, Cuts, SubscriptionsOf, PublisherPresent, PausesIdle, Closes, PlacesGo;
    forall v, k
      ensures EntryAt(b, v, k) == if v in gone then None else EntryAt(st, v, k)
    {
      DepartsEntry(st, m, b, gone, v, k);
    }
    assert PlacesGo(st, b, gone) by { DepartsPlaces(st, m, b, gone); }
    DepartsHeard(st, m, b, gone);
    DepartsRest(st, m, b, gone);
  }

  lemma DepartsEntry(st: State, m: State, b: State, gone: set<PeerId>, v: PeerId, k: PeerId)
    requires Inv(st, {}) && Without(st, m, gone) && Cuts(m, b, SubscriptionsOf(st, gone))
    ensures EntryAt(b, v, k) == if v in gone then None else EntryAt(st, v, k)
  {
    hide Owners, Encoders, Known, Entries, Places, SubscriptionsOf, SameOwners;
    assert EntryAt(m, v, k) == if v in gone then None else EntryAt(st, v, k);
    if EntryAt(m, v, k).Some? { DeadViewer(st, gone, v, k, EntryAt(m, v, k).value); }
  }

  lemma DepartsPlaces(st: State, m: State, b: State, gone: set<PeerId>)
    requires Inv(st, {}) && Without(st, m, gone) && Cuts(m, b, SubscriptionsOf(st, gone))
    ensures PlacesGo(st, b, gone)
  {
    hide Inv, Without, Cuts, SubscriptionsOf, PlaceLeft, SubscriberAt;
    forall s: SessionId, v
      ensures SubscriberAt(b, Some(s), v) == PlaceLeft(st, b, gone, s, v)
    {
      DepartsPlace(st, m, b, gone, s, v);
    }
  }

  lemma DepartsHeard(st: State, m: State, b: State, gone: set<PeerId>)
    requires Without(st, m, gone) && Cuts(m, b, SubscriptionsOf(st, gone))
    ensures PausesIdle(st, b) && Closes(st, b, SubscriptionsOf(st, gone))
  {
    hide SubscriptionsOf, SameOwners;
    forall p
      ensures Heard(b, p)
              == if p in b.peers && Watched(st, p) && !Watched(b, p) then Some(EncodePause) else Heard(st, p)
    {
      CutsWatched(m, b, SubscriptionsOf(st, gone), p);
      assert Heard(m, p) == Heard(st, p) && (Watched(m, p) <==> p in m.peers && Watched(st, p));
    }
  }

  lemma DepartsRest(st: State, m: State, b: State, gone: set<PeerId>)
    requires Without(st, m, gone) && Cuts(m, b, SubscriptionsOf(st, gone))
    ensures forall q :: q in b.peers && q in st.peers ==>
            SessionOf(b, q) == SessionOf(st, q) && ClientOf(b, q) == ClientOf(st, q)
  {
  }

  /** A connection that goes with its viewer is no one else's. */
  lemma DeadViewer(st: State, gone: set<PeerId>, v: PeerId, k: PeerId, x: SubId)
    requires Entries(st) && EntryAt(st, v, k) == Some(x)
    ensures x in SubscriptionsOf(st, gone) <==> v in gone
  {
    hide Entries;
    EntryIs(st, v, k, x);
    if x in SubscriptionsOf(st, gone) {
      var q, j :| q in gone && q in st.peers && j in st.peers[q].subs && st.peers[q].subs[j] == x;
      EntryIs(st, q, j, x);
    }
  }

  lemma DepartsPlace(st: State, m: State, b: State, gone: set<PeerId>, s: SessionId, v: PeerId)
    requires Inv(st, {}) && Without(st, m, gone) && Cuts(m, b, SubscriptionsOf(st, gone))
    ensures SubscriberAt(b, Some(s), v) == PlaceLeft(st, b, gone, s, v)
  {
    hide Owners, Encoders, Entries, Places, SubscriptionsOf;
    assert SubscriberAt(m, Some(s), v) == SubscriberAt(st, Some(s), v);
    assert PublisherPresent(b, s) == PublisherPresent(m, s);
    if SubscriberAt(st, Some(s), v).Some? && PublisherPresent(m, s) {
      var x := SubscriberAt(st, Some(s), v).value;
      PlaceIs(st, s, v, x, {});
      DeadViewer(st, gone, v, st.sessions[s].publisher, x);
    }
  }

  lemma LeftLeaves(st: State, p: PeerId, order: seq<SubId>)
    requires Inv(st, {}) && p in st.peers && Enumerates(order, st.peers[p].subs.Values)
    ensures Leaves(st, Left(st, p, order), p)
  {
    hide Owners, Mirror, Encoders, CloseAll, Cuts, SubscriptionsOf, Departs, Alike;
    var m := st.(peers := st.peers - {p});
    var leaving := Elements(order);
    assert leaving == SubscriptionsOf(st, {p}) by { ListedAre(st, p, order); }
    LeavingKeeps(st, m, p, order);
    CloseAllCuts(m, order, leaving);
    var c := CloseAll(m, order);
    DepartsBy(st, m, c, {p});
    CutsOwners(m, c, leaving);
    GracedAlike(c, st.peers[p].session);
    DepartsAlike(st, c, Graced(c, st.peers[p].session), {p});
    GracedSessions(st, m, c, p);
  }

  lemma LeavingKeeps(st: State, m: State, p: PeerId, order: seq<SubId>)
    requires Inv(st, {}) && p in st.peers && Enumerates(order, st.peers[p].subs.Values)
             && m == st.(peers := st.peers - {p})
    ensures Inv(m, Elements(order))
  {
    hide Inv;
    GoneKeeps(st, m, Elements(order));
  }

  lemma ListedAre(st: State, p: PeerId, order: seq<SubId>)
    requires p in st.peers && Enumerates(order, st.peers[p].subs.Values)
    ensures Elements(order) == SubscriptionsOf(st, {p})
  {
  }

  lemma CutsOwners(a: State, b: State, gone: set<SubId>)
    requires Cuts(a, b, gone)
    ensures SameOwners(a, b)
  {
  }

  /** The same places, entries, connections, owners and encoders. */
  ghost predicate Alike(a: State, b: State) {
    && b.subs == a.subs && b.peers == a.peers && b.byToken == a.byToken && b.sessions.Keys == a.sessions.Keys
    && b.encode == a.encode
    && (forall s: SessionId, v :: SubscriberAt(b, Some(s), v) == SubscriberAt(a, Some(s), v))
    && (forall s :: PublisherPresent(b, s) == PublisherPresent(a, s))
    && (forall q :: Watched(b, q) == Watched(a, q))
  }

  lemma GracedAlike(st: State, s: Option<SessionId>)
    ensures Alike(st, Graced(st, s))
  {
  }

  lemma DepartsAlike(st: State, a: State, b: State, gone: set<PeerId>)
    requires Departs(st, a, gone) && Alike(a, b)
    ensures Departs(st, b, gone)
  {
    hide SubscriptionsOf, PlacesGo, Watched;
    PlacesAlike(st, a, b, gone);
    assert forall v, k :: EntryAt(b, v, k) == EntryAt(a, v, k);
    assert forall q :: SessionOf(b, q) == SessionOf(a, q) && ClientOf(b, q) == ClientOf(a, q)
                          && Heard(b, q) == Heard(a, q);
  }

  lemma PlacesAlike(st: State, a: State, b: State, gone: set<PeerId>)
    requires PlacesGo(st, a, gone) && Alike(a, b)
    ensures PlacesGo(st, b, gone)
  {
    forall s: SessionId, v
      ensures SubscriberAt(b, Some(s), v) == PlaceLeft(st, b, gone, s, v)
    {
      assert SubscriberAt(b, Some(s), v) == SubscriberAt(a, Some(s), v);
      assert PlaceLeft(st, b, gone, s, v) == PlaceLeft(st, a, gone, s, v);
    }
  }

  lemma GracedSessions(st: State, m: State, c: State, p: PeerId)
    requires Owners(st) && p in st.peers && m == st.(peers := st.peers - {p}) && SameOwners(m, c)
    ensures var t := Graced(c, st.peers[p].session);
            && t.peers.Keys == st.peers.Keys - {p} && t.used == st.used && t.sessions.Keys == st.sessions.Keys
               && t.byToken == st.byToken
            && forall s :: s in st.sessions ==>
                 t.sessions[s] == st.sessions[s].(subs := t.sessions[s].subs,
                                                  grace := st.sessions[s].grace || SessionOf(st, p) == Some(s))
  {
    var own := st.peers[p].session;
    assert SessionOf(st, p) == own;
    if own.Some? { assert IsLive(st, own.value); }
  }

  lemma JoinedJoins(st: State, p: PeerId, client: string, order: seq<SubId>)
    requires Inv(st, {}) && p !in st.used && Covers(order, st, EvictedPeers(st, client))
    ensures Joins(st, Joined(st, p, client, order), p, client)
  {
    hide Owners, Mirror, Encoders, Known, CloseAll, Cuts, SubscriptionsOf, Departs, Covers;
    var gone := EvictedPeers(st, client);
    var m := st.(peers := Staying(st, client)[p := Entry(client, None, map[])], used := st.used + {p});
    var leaving := Elements(order);
    assert leaving == SubscriptionsOf(st, gone) by { CoveredAre(st, gone, order); }
    assert p !in st.peers by { KnownPeers(st, p); }
    JoiningKeeps(st, m, p, client, order);
    CloseAllCuts(m, order, leaving);
    var c := CloseAll(m, order);
    DepartsBy(st, m, c, gone);
    CutsOwners(m, c, leaving);
    JoinedRest(st, m, c, p, client);
    assert st.peers.Keys - c.peers.Keys == gone by { JoinedKeys(st, c, p, client); }
  }

  lemma JoinedKeys(st: State, c: State, p: PeerId, client: string)
    requires p !in st.peers && c.peers.Keys == st.peers.Keys - EvictedPeers(st, client) + {p}
    ensures st.peers.Keys - c.peers.Keys == EvictedPeers(st, client) && OnlyClientGoes(st, c, client)
  {
  }

  lemma JoiningKeeps(st: State, m: State, p: PeerId, client: string, order: seq<SubId>)
    requires Inv(st, {}) && p !in st.used && p !in st.peers && Covers(order, st, EvictedPeers(st, client))
    requires m == st.(peers := Staying(st, client)[p := Entry(client, None, map[])], used := st.used + {p})
    ensures Inv(m, Elements(order))
  {
    hide Inv, Evicted;
    GoneKeeps(st, m, Elements(order));
  }

  lemma CoveredAre(st: State, ids: set<PeerId>, order: seq<SubId>)
    requires Covers(order, st, ids)
    ensures Elements(order) == SubscriptionsOf(st, ids)
  {
  }

  lemma JoinedRest(st: State, m: State, c: State, p: PeerId, client: string)
    requires m == st.(peers := Staying(st, client)[p := Entry(client, None, map[])], used := st.used + {p})
             && p !in st.peers
    requires SameOwners(m, c)
    ensures c.peers.Keys == st.peers.Keys - EvictedPeers(st, client) + {p} && c.used == st.used + {p}
    ensures SessionOf(c, p) == None && ClientOf(c, p) == Some(client)
    ensures c.byToken == st.byToken && c.sessions.Keys == st.sessions.Keys
    ensures forall s :: s in st.sessions ==>
                          s in c.sessions && c.sessions[s] == st.sessions[s].(subs := c.sessions[s].subs)
  {
  }

  // ---- Sessions end and move ----

  ghost predicate SameClients(a: State, b: State) {
    b.peers.Keys == a.peers.Keys && b.used == a.used && forall q :: ClientOf(b, q) == ClientOf(a, q)
  }

  /** Dropping an emptied session's connections takes all entries under its publisher's id. */
  lemma DroppedDropsViewers(st: State, b: State, s: SessionId, order: seq<SubId>)
    requires Ending(st, s, order) && Emptied(st, b, s) && b.encode == st.encode && SameClients(st, b)
    ensures DropsViewers(st, Dropped(b, order, st.sessions[s].publisher), s)
  {
    hide Owners, Mirror, Emptied, Dropped, Views;
    var key := st.sessions[s].publisher;
    var t := Dropped(b, order, key);
    DroppedMirror(st, b, s, order);
    EmptiedKnown(st, b, s);
    forall v, k
      ensures EntryAt(t, v, k) == if k == key then None else EntryAt(st, v, k)
    {
      DroppedAt(b, order, key, v, k, None);
      EmptiedAt(st, b, s, v, k, s);
    }
    DroppedRest(b, order, key);
  }

  lemma DroppedRest(st: State, order: seq<SubId>, key: PeerId)
    ensures var t := Dropped(st, order, key);
            SameClients(st, t) && t.encode == st.encode && t.subs.Keys == st.subs.Keys
            && forall x :: x in st.subs ==> t.subs[x] == st.subs[x].(closed := st.subs[x].closed || x in order)
  {
    hide Views;
  }

  lemma UnregisteredDrops(st: State, a: State, s: SessionId)
    requires s in st.sessions && s in a.sessions && DropsViewers(st, a, s)
    ensures DropsViewers(st, Unregistered(a, s), s)
  {
    var t := Unregistered(a, s);
    assert forall v, k :: EntryAt(t, v, k) == EntryAt(a, v, k);
    assert forall q :: ClientOf(t, q) == ClientOf(a, q);
    hide EntryAt, ClientOf;
  }

  lemma EndedEnds(st: State, s: SessionId, order: seq<SubId>)
    requires Inv(st, {}) && s in st.sessions && Enumerates(order, st.sessions[s].subs.Values)
    ensures EndsNow(st, Ended(st, s, order), s)
  {
    hide Owners, Mirror, Encoders, Known, Emptied, Enumerates, Dropped, Unregistered, DropsViewers, OwnersEnded;
    if !st.sessions[s].closed {
      var key, b := st.sessions[s].publisher, Shut(st, s);
      var a := Dropped(b, order, key);
      EndedIs(st, s, order);
      ShutEmptied(st, s);
      assert SameClients(st, b);
      DroppedDropsViewers(st, b, s, order);
      UnregisteredDrops(st, a, s);
      EndedShape(st, s, order, key);
      assert IsLive(st, s);
      EndedSessions(st, Unregistered(a, s), s);
      EndedTables(st, Unregistered(a, s), s);
    }
  }

  lemma EndedTables(st: State, t: State, s: SessionId)
    requires s in st.sessions && OwnersEnded(st, t, s)
    ensures t.byToken == st.byToken - {st.sessions[s].token}
    ensures t.sessions == st.sessions[s := st.sessions[s].(closed := true, subs := map[], grace := false)]
  {
  }

  lemma ResumedResumes(st: State, p: PeerId, token: Token, order: seq<SubId>)
    requires Inv(st, {})
    requires Claims(st, p, token).Claimed? ==> Enumerates(order, st.sessions[st.byToken[token]].subs.Values)
    ensures Resumes(st, Resumed(st, p, token, order), p, token)
  {
    hide Owners, Mirror, Encoders, Known, Emptied, Enumerates, Dropped, DropsViewers, OwnersResumed;
    if Claims(st, p, token).Claimed? {
      var s := st.byToken[token];
      var key, b := st.sessions[s].publisher, Rebound(st, p, s);
      ResumedIs(st, p, token, order);
      ReboundEmptied(st, p, s);
      assert SameClients(st, b);
      DroppedDropsViewers(st, b, s, order);
      ResumedShape(st, p, s, order, key);
      ResumedTables(st, Resumed(st, p, token, order), p, s);
    }
  }

  lemma ResumedTables(st: State, t: State, p: PeerId, s: SessionId)
    requires s in st.sessions && OwnersResumed(st, t, p, s)
    ensures t.byToken == st.byToken && forall q :: SessionOf(t, q) == if q == p then Some(s) else SessionOf(st, q)
    ensures t.sessions == st.sessions[s := st.sessions[s].(publisher := p, subs := map[], grace := false)]
  {
  }

  // ---- Sharing, watching, and the first packet ----

  lemma StartedStarts(st: State, p: PeerId, s: SessionId, token: Token)
    ensures Starts(st, Started(st, p, s, token), p, s, token)
  {
  }

  lemma SubscribedSubscribes(st: State, v: PeerId, pub: PeerId, x: SubId)
    requires Inv(st, {}) && x !in st.subs
    ensures Subscribes(st, Subscribed(st, v, pub, x), v, pub, x)
  {
    hide Owners, Mirror, Encoders, Known, Subscribed, SameOwners;
    var s := SessionOf(st, pub);
    if s.None? || EntryAt(st, v, pub).Some? {
      RefusedSame(st, v, pub, x);
    } else {
      NoPlaceYet(st, v, pub);
      if v in st.peers {
        WatcherSubscribes(st, v, pub, x, s.value);
      } else {
        GoneSubscribes(st, v, pub, x, s.value);
      }
    }
  }

  lemma WatcherSubscribes(st: State, v: PeerId, pub: PeerId, x: SubId, s: SessionId)
    requires v in st.peers && SessionOf(st, pub) == Some(s) && s in st.sessions
    requires EntryAt(st, v, pub) == None && SubscriberAt(st, Some(s), v) == None && !st.sessions[s].closed
    ensures Subscribes(st, Subscribed(st, v, pub, x), v, pub, x)
  {
    hide Subscribed, SameOwners;
    AddedTables(st, v, pub, x, s);
    AddedSameOwners(st, Subscribed(st, v, pub, x), v, pub, x, s);
    WatchedBy(st, pub, s);
  }

  lemma GoneSubscribes(st: State, v: PeerId, pub: PeerId, x: SubId, s: SessionId)
    requires x !in st.subs && v !in st.peers && SessionOf(st, pub) == Some(s) && s in st.sessions
    requires SubscriberAt(st, Some(s), v) == None && !st.sessions[s].closed
    ensures Subscribes(st, Subscribed(st, v, pub, x), v, pub, x)
  {
    hide Subscribed, SameOwners;
    GoneShape(st, v, pub, x, s);
    RestSameOwners(st, Subscribed(st, v, pub, x));
    WatchedBy(st, pub, s);
  }

  lemma RefusedSame(st: State, v: PeerId, pub: PeerId, x: SubId)
    requires SessionOf(st, pub).None? || EntryAt(st, v, pub).Some?
    ensures Subscribed(st, v, pub, x) == st
  {
  }

  lemma WatchedBy(st: State, p: PeerId, s: SessionId)
    requires SessionOf(st, p) == Some(s) && s in st.sessions
    ensures Watched(st, p) <==> st.sessions[s].subs != map[]
  {
  }

  lemma AddedTables(st: State, v: PeerId, pub: PeerId, x: SubId, s: SessionId)
    requires v in st.peers && SessionOf(st, pub) == Some(s) && s in st.sessions
    requires EntryAt(st, v, pub) == None && SubscriberAt(st, Some(s), v) == None && !st.sessions[s].closed
    ensures var t := Subscribed(st, v, pub, x);
            && t.byToken == st.byToken && t.used == st.used && t.subs == st.subs[x := Sub(v, s, false)]
            && t.sessions == st.sessions[s := st.sessions[s].(subs := st.sessions[s].subs[v := x])]
            && t.peers == st.peers[v := st.peers[v].(subs := st.peers[v].subs[pub := x])]
            && t.encode == if st.sessions[s].subs == map[] then st.encode[pub := EncodeResume] else st.encode
  {
    var m := st.sessions[s].subs;
    assert |m[v := x]| == |m| + 1;
  }

  lemma FirstVideoArrives(st: State, s: SessionId)
    requires Inv(st, {}) && s in st.sessions
    ensures FirstArrives(st, FirstVideo(st, s), s)
  {
    hide Owners, Mirror, Encoders, Known;
    OwnersPublish(st);
    var pub := st.sessions[s].publisher;
    if !st.sessions[s].closed && pub in st.peers {
      OwnerSession(st, s);
      WatchedBy(st, pub, s);
    }
    if st.sessions[s].closed { ClosedUnowned(st, s); }
    assert forall p :: SessionOf(st, p) == Some(s) ==> p == pub;
  }

  lemma ClosedUnowned(st: State, s: SessionId)
    requires Owners(st) && s in st.sessions && st.sessions[s].closed
    ensures forall p :: SessionOf(st, p) != Some(s)
  {
  }

  // ---- Every step ----

  lemma NextEffect(st: State, step: Step, t: State)
    requires Inv(st, {}) && Next(st, step, t)
    ensures Effect(st, step, t)
  {
    hide Inv, Ended, Closed, Removed, Resumed, Left, Joined, Started, Subscribed, FirstVideo, Enumerates, Covers,
         Claims;
    hide Starts, EndsNow, Resumes, Subscribes, FirstArrives, Joins, Leaves, Cuts;
    match step
    case Start(p, s, token) => StartedStarts(st, p, s, token);
    case Stop(p, order) => EndedEnds(st, SessionOf(st, p).value, order);
    case PublisherPcClosed(s, order) => EndedEnds(st, s, order);
    case GraceExpired(s, order) => EndedEnds(st, s, order);
    case Resume(p, token, order) => ResumedResumes(st, p, token, order);
    case Subscribe(v, pub, x) => SubscribedSubscribes(st, v, pub, x);
    case Unsubscribe(v, pub) =>
      UnsubscribedIs(st, v, pub);
      NothingCut(st);
      if EntryAt(st, v, pub).Some? { ClosedCuts(st, EntryAt(st, v, pub).value, {}); }
    case SubPcClosed(x) => ClosedCuts(st, x, {});
    case FirstPacket(s) => FirstVideoArrives(st, s);
    case Join(p, client, order) => JoinedJoins(st, p, client, order);
    case Leave(p, order) => LeftLeaves(st, p, order);
  }

  /** Every step of every run has exactly its effect on owners, tokens, windows, entries, places,
      connections and encoders. */
  lemma StepEffect(trace: seq<State>, steps: seq<Step>, i: nat)
    requires Run(trace, steps) && i < |steps|
    ensures Effect(trace[i], steps[i], trace[i + 1])
  {
    hide Inv, Next, Effect;
    RunInv(trace, steps, i);
    assert Next(trace[i], steps[i], trace[i + 1]);
    NextEffect(trace[i], steps[i], trace[i + 1]);
  }

  // ---- No connection is left over ----

  /** An open connection is its viewer's entry for the publisher it is for. */
  ghost predicate Kept(st: State, x: SubId)
    requires x in st.subs
  {
    st.subs[x].session in st.sessions
    && EntryAt(st, st.subs[x].viewer, st.sessions[st.subs[x].session].publisher) == Some(x)
  }

  ghost predicate NoLeaks(st: State) {
    forall x :: x in st.subs && !st.subs[x].closed ==> Kept(st, x)
  }

  lemma CutsNoLeaks(a: State, b: State, gone: set<SubId>)
    requires NoLeaks(a) && Cuts(a, b, gone)
    ensures NoLeaks(b)
  {
    forall x | x in b.subs && !b.subs[x].closed
      ensures Kept(b, x)
    {
      assert Kept(a, x);
    }
  }

  lemma DepartsNoLeaks(a: State, b: State, gone: set<PeerId>)
    requires Entries(a) && NoLeaks(a) && Departs(a, b, gone)
    requires forall s :: s in a.sessions ==> s in b.sessions && b.sessions[s].publisher == a.sessions[s].publisher
    ensures NoLeaks(b)
  {
    hide Entries, SubscriptionsOf, PlacesGo;
    forall x | x in b.subs && !b.subs[x].closed
      ensures Kept(b, x)
    {
      assert Kept(a, x);
      DeadViewer(a, gone, a.subs[x].viewer, a.sessions[a.subs[x].session].publisher, x);
    }
  }

  /** The session whose viewers are dropped has no connection open, the others keep theirs. */
  lemma DropsNoLeaks(a: State, b: State, s: SessionId)
    requires Inv(a, {}) && NoLeaks(a) && s in a.sessions && !a.sessions[s].closed && DropsViewers(a, b, s)
    requires b.sessions.Keys == a.sessions.Keys
    requires forall r :: r in a.sessions && r != s ==> b.sessions[r] == a.sessions[r]
    ensures NoLeaks(b)
  {
    hide Owners, Encoders, Known, Entries, Places;
    forall x | x in b.subs && !b.subs[x].closed
      ensures Kept(b, x)
    {
      assert Kept(a, x);
      var r := a.subs[x].session;
      EntryIs(a, a.subs[x].viewer, a.sessions[r].publisher, x);
      if r == s {
        assert false;
      } else {
        DifferentPublishers(a, s, r);
      }
    }
  }

  lemma SubscribesNoLeaks(a: State, b: State, v: PeerId, pub: PeerId, x: SubId)
    requires Inv(a, {}) && NoLeaks(a) && x !in a.subs && Subscribes(a, b, v, pub, x)
    ensures NoLeaks(b)
  {
    hide Encoders, Known, Entries, Places, Owners;
    OwnersPublish(a);
    OwnedKnown(a, pub);
    forall y | y in b.subs && !b.subs[y].closed
      ensures Kept(b, y)
    {
      if y in a.subs { assert Kept(a, y); }
    }
  }

  lemma OwnedKnown(st: State, p: PeerId)
    requires Owners(st)
    ensures SessionOf(st, p).Some? ==> IsLive(st, SessionOf(st, p).value)
  {
  }

  lemma StepNoLeaks(a: State, step: Step, b: State)
    requires Inv(a, {}) && NoLeaks(a) && Next(a, step, b)
    ensures NoLeaks(b)
  {
    hide Owners, Mirror, Encoders, Known, NoLeaks, DropsViewers, Departs, Cuts, Subscribes;
    hide Ended, Closed, Removed, Resumed, Left, Joined, Started, Subscribed, FirstVideo, Enumerates, Covers;
    NextEffect(a, step, b);
    match step
    case Start(p, s, token) => UntouchedNoLeaks(a, b);
    case Stop(p, _) => EndsNoLeaks(a, b, SessionOf(a, p).value);
    case PublisherPcClosed(s, _) => EndsNoLeaks(a, b, s);
    case GraceExpired(s, _) => EndsNoLeaks(a, b, s);
    case Resume(p, token, _) => if b != a { DropsNoLeaks(a, b, a.byToken[token]); }
    case Subscribe(v, pub, x) => SubscribesNoLeaks(a, b, v, pub, x);
    case Unsubscribe(v, pub) => CutsNoLeaks(a, b, if EntryAt(a, v, pub).Some? then {EntryAt(a, v, pub).value} else {});
    case SubPcClosed(x) => CutsNoLeaks(a, b, {x});
    case FirstPacket(_) => UntouchedNoLeaks(a, b);
    case Join(p, client, _) => GoneNoLeaks(a, b, a.peers.Keys - b.peers.Keys);
    case Leave(p, _) => GoneNoLeaks(a, b, {p});
  }

  lemma EndsNoLeaks(a: State, b: State, s: SessionId)
    requires Inv(a, {}) && NoLeaks(a) && EndsNow(a, b, s)
    ensures NoLeaks(b)
  {
    hide Inv, NoLeaks, DropsViewers;
    if b != a { DropsNoLeaks(a, b, s); }
  }

  lemma GoneNoLeaks(a: State, b: State, gone: set<PeerId>)
    requires Inv(a, {}) && NoLeaks(a) && Departs(a, b, gone)
    requires forall s :: s in a.sessions ==> s in b.sessions && b.sessions[s].publisher == a.sessions[s].publisher
    ensures NoLeaks(b)
  {
    hide Owners, Encoders, Known, Entries, Places, Departs, NoLeaks;
    DepartsNoLeaks(a, b, gone);
  }

  lemma UntouchedNoLeaks(a: State, b: State)
    requires NoLeaks(a) && b.subs == a.subs && forall v, k :: EntryAt(b, v, k) == EntryAt(a, v, k)
    requires forall s :: s in a.sessions ==> s in b.sessions && b.sessions[s].publisher == a.sessions[s].publisher
    ensures NoLeaks(b)
  {
    hide EntryAt;
    forall x | x in b.subs && !b.subs[x].closed
      ensures Kept(b, x)
    {
      assert Kept(a, x);
    }
  }

  lemma {:induction false} RunNoLeaks(trace: seq<State>, steps: seq<Step>, i: nat)
    requires Run(trace, steps) && i < |trace|
    ensures NoLeaks(trace[i])
  {
    hide Next;
    if i > 0 {
      hide Inv, NoLeaks;
      RunNoLeaks(trace, steps, i - 1);
      RunInv(trace, steps, i - 1);
      StepNoLeaks(trace[i - 1], steps[i - 1], trace[i]);
    }
  }

  /** An open connection always belongs to a present viewer and a live session, and both list it:
      however a viewer or a session goes, its connections are closed. */
  lemma NoneLeftOpen(trace: seq<State>, steps: seq<Step>, i: nat, x: SubId)
    requires Run(trace, steps) && i < |trace| && x in trace[i].subs && !trace[i].subs[x].closed
    ensures var st, v, s := trace[i], trace[i].subs[x].viewer, trace[i].subs[x].session;
            && v in st.peers && s in st.sessions && !st.sessions[s].closed
            && EntryAt(st, v, st.sessions[s].publisher) == Some(x) && SubscriberAt(st, Some(s), v) == Some(x)
  {
    hide Run, Owners, Encoders, Known, Entries, Places;
    RunInv(trace, steps, i);
    RunNoLeaks(trace, steps, i);
    assert Kept(trace[i], x);
    EntryIs(trace[i], trace[i].subs[x].viewer, trace[i].sessions[trace[i].subs[x].session].publisher, x);
  }

  // ---- Encoders nobody listens to ----

  /** The peer's session has had its first packet and nobody watches it. */
  predicate Idle(st: State, p: PeerId) {
    SessionOf(st, p).Some? && SessionOf(st, p).value in st.sessions && st.sessions[SessionOf(st, p).value].firstVideo
    && !Watched(st, p)
  }

  /** A viewer that has gone subscribes to the peer, which pauses the encoder once more. */
  predicate PausedAgain(st: State, step: Step, p: PeerId) {
    step.Subscribe? && step.publisher == p && step.peer !in st.peers
  }

  /** A publisher that becomes idle is told to pause, but by a resume it is told nothing. */
  ghost predicate IdleEffect(a: State, step: Step, b: State, p: PeerId) {
    Idle(b, p) ==>
      Heard(b, p) == if (if Idle(a, p) then PausedAgain(a, step, p) else !step.Resume?) then Some(EncodePause)
        else Heard(a, p)
  }

  /** Where a peer's session has the same places, it is watched as before. */
  lemma SameWatch(a: State, b: State, p: PeerId)
    requires SessionOf(b, p) == SessionOf(a, p) && b.sessions.Keys == a.sessions.Keys
    requires SessionOf(a, p).Some? ==> forall w ::
             SubscriberAt(b, SessionOf(a, p), w) == SubscriberAt(a, SessionOf(a, p), w)
    ensures Watched(b, p) <==> Watched(a, p)
  {
    var s := SessionOf(a, p);
    if Watched(a, p) {
      var w :| w in a.sessions[s.value].subs;
      assert SubscriberAt(b, s, w).Some?;
    }
    if Watched(b, p) {
      var w :| w in b.sessions[s.value].subs;
      assert SubscriberAt(a, s, w).Some?;
    }
  }

  lemma StepIdle(a: State, step: Step, b: State, p: PeerId)
    requires Inv(a, {}) && Next(a, step, b)
    ensures IdleEffect(a, step, b, p)
  {
    hide Owners, Mirror, Encoders, Known, DropsViewers, Departs, Cuts, Subscribes, IdleEffect;
    hide Ended, Closed, Removed, Resumed, Left, Joined, Started, Subscribed, FirstVideo, Enumerates, Covers;
    NextEffect(a, step, b);
    match step
    case Start(q, s, token) => StartsIdle(a, step, b, p);
    case Stop(q, _) => EndsIdle(a, step, b, SessionOf(a, q).value, p);
    case PublisherPcClosed(s, _) => EndsIdle(a, step, b, s, p);
    case GraceExpired(s, _) => EndsIdle(a, step, b, s, p);
    case Resume(q, token, _) => ResumesIdle(a, step, b, p);
    case Subscribe(v, pub, x) => SubscribesIdle(a, step, b, p);
    case Unsubscribe(v, pub) =>
      CutsIdle(a, step, b, if EntryAt(a, v, pub).Some? then {EntryAt(a, v, pub).value} else {}, p);
    case SubPcClosed(x) => CutsIdle(a, step, b, {x}, p);
    case FirstPacket(s) => FirstIdle(a, step, b, p);
    case Join(q, client, _) => DepartsIdle(a, step, b, a.peers.Keys - b.peers.Keys, p);
    case Leave(q, _) => DepartsIdle(a, step, b, {q}, p);
  }

  lemma StartsIdle(a: State, step: Step, b: State, p: PeerId)
    requires step.Start? && Starts(a, b, step.peer, step.session, step.token)
    ensures IdleEffect(a, step, b, p)
  {
  }

  lemma EndsIdle(a: State, step: Step, b: State, s: SessionId, p: PeerId)
    requires !step.Subscribe? && !step.Resume? && EndsNow(a, b, s)
    ensures IdleEffect(a, step, b, p)
  {
  }

  lemma ResumesIdle(a: State, step: Step, b: State, p: PeerId)
    requires Owners(a) && step.Resume? && Resumes(a, b, step.peer, step.token)
    ensures IdleEffect(a, step, b, p)
  {
    hide Owners;
    OwnersPublish(a);
  }

  lemma SubscribesIdle(a: State, step: Step, b: State, p: PeerId)
    requires Owners(a) && step.Subscribe? && Subscribes(a, b, step.peer, step.publisher, step.sub)
    ensures IdleEffect(a, step, b, p)
  {
    hide Owners, Watched;
    OwnersPublish(a);
    OwnedKnown(a, p);
    OwnedKnown(a, step.publisher);
    var s := SessionOf(a, p);
    if b != a && s.Some? {
      if p == step.publisher && step.peer in a.peers {
        assert SubscriberAt(b, s, step.peer).Some?;
        WatchedBy(b, p, s.value);
      } else {
        SameWatch(a, b, p);
      }
    }
  }

  lemma CutsIdle(a: State, step: Step, b: State, gone: set<SubId>, p: PeerId)
    requires !step.Subscribe? && !step.Resume? && Cuts(a, b, gone)
    ensures IdleEffect(a, step, b, p)
  {
  }

  lemma FirstIdle(a: State, step: Step, b: State, p: PeerId)
    requires step.FirstPacket? && FirstArrives(a, b, step.session)
    ensures IdleEffect(a, step, b, p)
  {
  }

  lemma DepartsIdle(a: State, step: Step, b: State, gone: set<PeerId>, p: PeerId)
    requires !step.Subscribe? && !step.Resume? && Departs(a, b, gone) && b.sessions.Keys == a.sessions.Keys
    requires p in b.peers && p !in a.peers ==> SessionOf(b, p) == None
    requires forall s :: s in a.sessions ==> b.sessions[s].firstVideo == a.sessions[s].firstVideo
    ensures IdleEffect(a, step, b, p)
  {
    hide SubscriptionsOf, PlacesGo, Closes, Watched;
  }

  /** Whenever nobody watches a publisher that has begun to send, it became idle at some step `k`,
      and the last its encoder heard is to pause exactly when that step was no resume, or it was
      pausing then, or a viewer that had gone has subscribed to it since. */
  lemma PausedExactly(trace: seq<State>, steps: seq<Step>, i: nat, p: PeerId) returns (k: nat)
    requires Run(trace, steps) && i < |trace| && Idle(trace[i], p)
    ensures k < i && !Idle(trace[k], p) && forall j :: k < j <= i ==> Idle(trace[j], p)
    ensures Heard(trace[i], p) == Some(EncodePause)
            <==> || !steps[k].Resume? || Heard(trace[k], p) == Some(EncodePause)
                 || exists j :: k < j < i && PausedAgain(trace[j], steps[j], p)
  {
    hide Next, Inv, Idle, PausedAgain;
    assert !Idle(trace[0], p) by { NothingIdle(trace[0], p); }
    var n := i - 1;
    StepAtIdle(trace, steps, n, p);
    if Idle(trace[n], p) {
      k := PausedExactly(trace, steps, n, p);
      if exists j :: k < j < i && PausedAgain(trace[j], steps[j], p) {
        var j :| k < j < i && PausedAgain(trace[j], steps[j], p);
        assert j == n || j < n;
      }
    } else {
      k := n;
    }
  }

  lemma NothingIdle(st: State, p: PeerId)
    requires st.peers == map[]
    ensures !Idle(st, p)
  {
  }

  lemma StepAtIdle(trace: seq<State>, steps: seq<Step>, i: nat, p: PeerId)
    requires Run(trace, steps) && i < |steps|
    ensures IdleEffect(trace[i], steps[i], trace[i + 1], p)
  {
    hide Next, Inv, IdleEffect;
    RunInv(trace, steps, i);
    StepIdle(trace[i], steps[i], trace[i + 1], p);
  }

  /** So a resume leaves an encoder running that nobody listens to: a publisher that is watched and
      claims its own session again loses all viewers, and still the last it heard is to send. */
  lemma ResumeLeavesAwake(trace: seq<State>, steps: seq<Step>, i: nat, p: PeerId, token: Token, order: seq<SubId>)
    requires Run(trace, steps) && i < |steps| && steps[i] == Resume(p, token, order)
    requires Claims(trace[i], p, token).Claimed? && Watched(trace[i], p)
    ensures SessionOf(trace[i + 1], p) == SessionOf(trace[i], p) && !Watched(trace[i + 1], p)
    ensures Heard(trace[i + 1], p) == Some(EncodeResume)
  {
    hide Next, Owners, Mirror, Known;
    RunInv(trace, steps, i);
    StepEffect(trace, steps, i);
  }

  // A share that moves to a new connection, step by step.

  const NOBODY := State(map[], map[], map[], map[], map[], {})
  const CAME := NOBODY.(peers := map[0 := Entry("", None, map[])], used := {0})
  const SHARED := CAME.(peers := map[0 := Entry("", Some(0), map[])], byToken := map[0 := 0],
                        sessions := map[0 := Session(0, 0, map[], false, false, false)])
  const FLOWING := SHARED.(sessions := map[0 := Session(0, 0, map[], false, false, true)],
                   encode := map[0 := EncodePause])
  const WAITING := FLOWING.(peers := map[], sessions := map[0 := Session(0, 0, map[], true, false, true)])
  const CAME_BACK := WAITING.(peers := map[1 := Entry("", None, map[])], used := {0, 1})
  const RESUMED := CAME_BACK.(peers := map[1 := Entry("", Some(0), map[])],
                              sessions := map[0 := Session(1, 0, map[], false, false, true)])

  /** And a publisher that comes back under a new id is never told to pause, watched or not. */
  lemma ReturnsAwake() returns (trace: seq<State>, steps: seq<Step>)
    ensures Run(trace, steps) && |steps| == 6 && Idle(trace[6], 1) && Heard(trace[6], 1) == None
  {
    trace := [NOBODY, CAME, SHARED, FLOWING, WAITING, CAME_BACK, RESUMED];
    steps := [Join(0, "", []), Start(0, 0, 0), FirstPacket(0), Leave(0, []), Join(1, "", []), Resume(1, 0, [])];
    Comes();
    Shares();
    Flows();
    Goes();
    ComesBack();
    Reclaims();
    hide Next;
    forall i, j | 0 <= i < |steps| && j == i + 1
      ensures Next(trace[i], steps[i], trace[j])
    {
    }
  }

  lemma Comes()
    ensures Next(NOBODY, Join(0, "", []), CAME)
  {
    assert Staying(NOBODY, "") == map[];
  }

  lemma Shares()
    ensures Next(CAME, Start(0, 0, 0), SHARED)
  {
  }

  lemma Flows()
    ensures Next(SHARED, FirstPacket(0), FLOWING)
  {
  }

  lemma Goes()
    ensures Next(FLOWING, Leave(0, []), WAITING)
  {
    assert FLOWING.peers - {0} == map[];
  }

  lemma ComesBack()
    ensures Next(WAITING, Join(1, "", []), CAME_BACK)
  {
    assert Staying(WAITING, "") == map[];
  }

  lemma Reclaims()
    ensures Next(CAME_BACK, Resume(1, 0, []), RESUMED)
  {
  }
}
