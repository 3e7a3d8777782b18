/** Rooms, hub and clients together. Rooms change under their own locks, the hub pushes later
    under its lock and in any order, and a snapshot asks the rooms one after the other. */
module PresenceRuns {
  import opened Basics
  import opened Presence

  datatype Key = Key(room: Slug, id: string)

  /** What is queued for a client, what is on the wire, and what it shows. */
  datatype Watcher = Watcher(queue: seq<Frame>, wire: seq<Frame>, view: View)

  /** What the holder of the hub's lock is doing; `waiting` have not been offered the frame. */
  datatype Work = Subscribing | Pushing(frame: Frame, waiting: set<nat>)

  datatype Lock = Free | Held(work: Work, listed: map<Slug, seq<PeerInfo>>)

  /** `pending` are the changes of each peer that have not been pushed, oldest first. */
  datatype System = System(rooms: map<Key, PeerInfo>, pending: map<Key, seq<Frame>>, watchers: map<nat, Watcher>,
                           nextId: nat, lock: Lock)

  datatype Step =
    | Join(room: Slug, peer: PeerInfo)
    | Update(room: Slug, peer: PeerInfo)
    | Leave(room: Slug, peerId: string)
    | PushBegin(key: Key, index: nat)
    | List(room: Slug, peers: seq<PeerInfo>)
    | Offer(watcher: nat)
    | PushEnd
    | SubscribeBegin
    | SubscribeEnd(view: View)
    | Unsubscribe(watcher: nat)
    | Write(watcher: nat)
    | Receive(watcher: nat)

  // ---- Steps ----

  function Pending(s: System, k: Key): seq<Frame> {
    if k in s.pending then s.pending[k] else []
  }

  function Changed(s: System, k: Key, f: Frame): System {
    s.(pending := s.pending[k := Pending(s, k) + [f]])
  }

  /** The peers of a room, in any order. */
  ghost predicate Lists(peers: seq<PeerInfo>, rooms: map<Key, PeerInfo>, room: Slug) {
    && (forall i :: 0 <= i < |peers| ==> Key(room, peers[i].id) in rooms && rooms[Key(room, peers[i].id)] == peers[i])
    && (forall k :: k in rooms && k.room == room ==> rooms[k] in peers)
    && (forall i, j :: 0 <= i < j < |peers| ==> peers[i].id != peers[j].id)
  }

  predicate Complete(listed: map<Slug, seq<PeerInfo>>) {
    Room1 in listed && Room2 in listed && Room3 in listed
  }

  ghost predicate Next(s: System, step: Step, t: System) {
    match step
    case Join(room, peer) =>
      var k := Key(room, peer.id);
      t == Changed(s.(rooms := s.rooms[k := peer]), k, PeerJoined(room, peer))
    case Update(room, peer) =>
      var k := Key(room, peer.id);
      k in s.rooms && t == Changed(s.(rooms := s.rooms[k := peer]), k, PeerUpdated(room, peer))
    case Leave(room, id) =>
      var k := Key(room, id);
      k in s.rooms && t == Changed(s.(rooms := s.rooms - {k}), k, PeerLeft(room, id))
    case PushBegin(k, i) =>
      && s.lock.Free? && i < |Pending(s, k)|
      && t == s.(pending := s.pending[k := s.pending[k][..i] + s.pending[k][i + 1..]],
                 lock := Held(Pushing(s.pending[k][i], s.watchers.Keys), map[]))
    case List(room, peers) =>
      && s.lock.Held? && room !in s.lock.listed && Lists(peers, s.rooms, room)
      && t == s.(lock := s.lock.(listed := s.lock.listed[room := peers]))
    case Offer(id) =>
      && s.lock.Held? && s.lock.work.Pushing? && id in s.lock.work.waiting && id in s.watchers
      && var w := s.watchers[id];
      && (|w.queue| >= OUT_BUF_LEN ==> Complete(s.lock.listed))
      && var queue := Offered(w.queue, s.lock.work.frame, Snapshot(s.lock.listed));
         t == s.(watchers := s.watchers[id := w.(queue := queue)],
                 lock := s.lock.(work := s.lock.work.(waiting := s.lock.work.waiting - {id})))
    case PushEnd =>
      s.lock.Held? && s.lock.work.Pushing? && s.lock.work.waiting == {} && t == s.(lock := Free)
    case SubscribeBegin =>
      s.lock.Free? && t == s.(lock := Held(Subscribing, map[]))
    case SubscribeEnd(view) =>
      && s.lock.Held? && s.lock.work.Subscribing? && Complete(s.lock.listed)
      && t == s.(nextId := s.nextId + 1, lock := Free,
                 watchers := s.watchers[s.nextId + 1 := Watcher([Snapshot(s.lock.listed)], [], view)])
    case Unsubscribe(id) =>
      s.lock.Free? && t == s.(watchers := s.watchers - {id})
    case Write(id) =>
      && id in s.watchers && s.watchers[id].queue != []
      && var w := s.watchers[id];
         t == s.(watchers := s.watchers[id := w.(queue := w.queue[1..], wire := w.wire + [w.queue[0]])])
    case Receive(id) =>
      && id in s.watchers && s.watchers[id].wire != []
      && var w := s.watchers[id];
         t == s.(watchers := s.watchers[id := w.(wire := w.wire[1..], view := Merged(w.view, w.wire[0]))])
  }

  ghost predicate Start(s: System) {
    s == System(map[], map[], map[], 0, Free)
  }

  ghost predicate Run(trace: seq<System>, steps: seq<Step>) {
    && |trace| == |steps| + 1 && Start(trace[0])
    && forall i, j :: 0 <= i < |steps| && j == i + 1 ==> Next(trace[i], steps[i], trace[j])
  }

  /** The oldest change of a peer is pushed first. */
  predicate Orderly(step: Step) {
    step.PushBegin? ==> step.index == 0
  }

  ghost predicate InOrder(steps: seq<Step>) {
    forall i :: 0 <= i < |steps| ==> Orderly(steps[i])
  }

  // ---- What holds in every state, if each peer's changes are pushed in order ----

  /** The frame tells of this peer. */
  predicate About(f: Frame, k: Key) {
    match f
    case Snapshot(_) => false
    case PeerJoined(room, peer) => k == Key(room, peer.id)
    case PeerUpdated(room, peer) => k == Key(room, peer.id)
    case PeerLeft(room, id) => k == Key(room, id)
  }

  /** What the frame says of the peer it tells of. */
  function Told(f: Frame): Option<Summary> {
    if f.PeerJoined? || f.PeerUpdated? then Some(ParsePeer(f.peer)) else None
  }

  /** The word on a peer after further changes. */
  function After(now: Option<Summary>, changes: seq<Frame>): Option<Summary> {
    if changes == [] then now else Told(changes[|changes| - 1])
  }

  function Actual(rooms: map<Key, PeerInfo>, k: Key): Option<Summary> {
    if k in rooms then Some(ParsePeer(rooms[k])) else None
  }

  function Shown(v: View, k: Key): Option<Summary> {
    Lookup(v.At(k.room), k.id)
  }

  /** The client's view once it has everything that is queued for it. */
  function Final(w: Watcher): View {
    MergedAll(w.view, w.wire + w.queue)
  }

  /** The changes of a peer that this watcher has still to be offered. */
  function Todo(s: System, id: nat, k: Key): seq<Frame> {
    if s.lock.Held? && s.lock.work.Pushing? && id in s.lock.work.waiting && About(s.lock.work.frame, k)
    then [s.lock.work.frame] + Pending(s, k) else Pending(s, k)
  }

  ghost predicate Tidy(v: View) {
    Distinct(v.room1) && Distinct(v.room2) && Distinct(v.room3)
  }

  ghost predicate WatcherOk(s: System, id: nat)
    requires id in s.watchers
  {
    && |s.watchers[id].queue| <= OUT_BUF_LEN && Tidy(Final(s.watchers[id]))
    && forall k :: After(Shown(Final(s.watchers[id]), k), Todo(s, id, k)) == Actual(s.rooms, k)
  }

  /** A list read from a room, brought up to date by what is pending for it. */
  ghost predicate ListOk(s: System, room: Slug, peers: seq<PeerInfo>) {
    && Distinct(ParsePeers(peers))
    && forall id :: After(Lookup(ParsePeers(peers), id), Pending(s, Key(room, id))) == Actual(s.rooms, Key(room, id))
  }

  ghost predicate PendingOk(s: System) {
    forall k, i :: 0 <= i < |Pending(s, k)| ==> About(Pending(s, k)[i], k)
  }

  /** The last change pending for a peer is how it is now. */
  ghost predicate PendingCurrent(s: System) {
    forall k :: Pending(s, k) != [] ==> Told(Pending(s, k)[|Pending(s, k)| - 1]) == Actual(s.rooms, k)
  }

  ghost predicate LockOk(s: System) {
    s.lock.Held? ==>
      && (forall r :: r in s.lock.listed ==> ListOk(s, r, s.lock.listed[r]))
      && (s.lock.work.Pushing? ==> !s.lock.work.frame.Snapshot? && s.lock.work.waiting <= s.watchers.Keys)
  }

  ghost predicate Inv(s: System) {
    && (forall k :: k in s.rooms ==> s.rooms[k].id == k.id)
    && (forall id :: id in s.watchers ==> id <= s.nextId)
    && PendingOk(s) && PendingCurrent(s) && LockOk(s)
    && forall id :: id in s.watchers ==> WatcherOk(s, id)
  }

  // ---- Merging ----

  /** A change replaces the word on its peer and on nobody else. */
  lemma MergedShown(v: View, f: Frame, k: Key)
    requires !f.Snapshot?
    ensures Shown(Merged(v, f), k) == if About(f, k) then Told(f) else Shown(v, k)
  {
    match f
    case PeerJoined(room, peer) => UpsertShown(v.At(room), ParsePeer(peer), k.id);
    case PeerUpdated(room, peer) => UpsertShown(v.At(room), ParsePeer(peer), k.id);
    case PeerLeft(room, id) => LookupWithout(v.At(room), id, k.id);
  }

  lemma UpsertShown(ps: seq<Summary>, s: Summary, id: string)
    ensures Lookup(Without(ps, s.id) + [s], id) == if id == s.id then Some(s) else Lookup(ps, id)
  {
    LookupWithout(ps, s.id, id);
    LookupConcat(Without(ps, s.id), [s], id);
    assert [s][1..] == [];
  }

  lemma MergedTidy(v: View, f: Frame)
    requires !f.Snapshot? && Tidy(v)
    ensures Tidy(Merged(v, f))
  {
    hide Distinct, Without;
    match f
    case PeerJoined(room, peer) => UpsertDistinct(v.At(room), ParsePeer(peer));
    case PeerUpdated(room, peer) => UpsertDistinct(v.At(room), ParsePeer(peer));
    case PeerLeft(room, id) => WithoutDistinct(v.At(room), id);
  }

  /** A frame offered at the end of the queue is the last to be merged. */
  lemma FinalOffered(w: Watcher, f: Frame)
    ensures Final(w.(queue := w.queue + [f])) == Merged(Final(w), f)
    ensures f.Snapshot? ==> Final(w.(queue := [f])) == Viewed(f.rooms)
  {
    assert w.wire + (w.queue + [f]) == (w.wire + w.queue) + [f];
    MergedConcat(w.view, w.wire + w.queue, [f]);
    MergedConcat(w.view, w.wire, [f]);
    assert [f][..0] == [];
    assert forall v :: MergedAll(v, [f]) == Merged(MergedAll(v, []), f);
  }

  /** Writing and receiving move frames along without loss. */
  lemma FinalMoves(w: Watcher)
    ensures w.queue != [] ==> Final(w.(queue := w.queue[1..], wire := w.wire + [w.queue[0]])) == Final(w)
    ensures w.wire != [] ==> Final(w.(wire := w.wire[1..], view := Merged(w.view, w.wire[0]))) == Final(w)
  {
    if w.queue != [] {
      assert (w.wire + [w.queue[0]]) + w.queue[1..] == w.wire + w.queue;
    }
    if w.wire != [] {
      var f, rest := w.wire[0], w.wire[1..] + w.queue;
      assert w.wire + w.queue == [f] + rest;
      MergedConcat(w.view, [f], rest);
      assert [f][..0] == [];
      assert MergedAll(w.view, [f]) == Merged(MergedAll(w.view, []), f);
    }
  }

  // ---- Every step keeps it ----

  /** A change of a room: everyone will hear of it. */
  lemma ChangeKeeps(s: System, rooms: map<Key, PeerInfo>, k: Key, f: Frame)
    requires Inv(s) && About(f, k) && Actual(rooms, k) == Told(f)
    requires forall q :: q != k ==> Actual(rooms, q) == Actual(s.rooms, q)
    requires forall q :: q in rooms ==> rooms[q].id == q.id
    ensures Inv(Changed(s.(rooms := rooms), k, f))
  {
    hide Told, Actual, WatcherOk, ListOk;
    var t := Changed(s.(rooms := rooms), k, f);
    assert forall q :: Pending(t, q) == if q == k then Pending(s, k) + [f] else Pending(s, q);
    forall id | id in t.watchers
      ensures WatcherOk(t, id)
    {
      ChangeToWatcher(s, rooms, k, f, id);
    }
    forall r | t.lock.Held? && r in s.lock.listed
      ensures ListOk(t, r, s.lock.listed[r])
    {
      ChangeToList(s, rooms, k, f, r, s.lock.listed[r]);
    }
  }

  lemma ChangeToWatcher(s: System, rooms: map<Key, PeerInfo>, k: Key, f: Frame, id: nat)
    requires id in s.watchers && WatcherOk(s, id) && Actual(rooms, k) == Told(f)
    requires forall q :: q != k ==> Actual(rooms, q) == Actual(s.rooms, q)
    ensures WatcherOk(Changed(s.(rooms := rooms), k, f), id)
  {
    hide Tidy, Final, Shown, Told, About, Actual;
    var t := Changed(s.(rooms := rooms), k, f);
    forall q
      ensures After(Shown(Final(t.watchers[id]), q), Todo(t, id, q)) == Actual(t.rooms, q)
    {
      if q == k {
        assert Todo(t, id, q) == Todo(s, id, q) + [f];
      } else {
        assert Todo(t, id, q) == Todo(s, id, q);
      }
    }
  }

  lemma ChangeToList(s: System, rooms: map<Key, PeerInfo>, k: Key, f: Frame, r: Slug, peers: seq<PeerInfo>)
    requires ListOk(s, r, peers) && Actual(rooms, k) == Told(f)
    requires forall q :: q != k ==> Actual(rooms, q) == Actual(s.rooms, q)
    ensures ListOk(Changed(s.(rooms := rooms), k, f), r, peers)
  {
    hide Told, Actual, Lookup, ParsePeers, Distinct;
    var t := Changed(s.(rooms := rooms), k, f);
    assert forall q :: Pending(t, q) == if q == k then Pending(s, k) + [f] else Pending(s, q);
  }

  lemma FirstTaken(s: System, k: Key, t: System)
    requires Next(s, PushBegin(k, 0), t)
    ensures forall q :: Pending(t, q) == if q == k then Pending(s, k)[1..] else Pending(s, q)
    ensures Pending(s, k) != [] && t.lock == Held(Pushing(Pending(s, k)[0], s.watchers.Keys), map[]) && s.lock.Free?
    ensures t == s.(pending := t.pending, lock := t.lock)
  {
    assert s.pending[k][..0] + s.pending[k][1..] == s.pending[k][1..];
  }

  /** A change tells of one peer. */
  lemma AboutOne(f: Frame, k: Key, q: Key)
    requires About(f, k)
    ensures !f.Snapshot? && (About(f, q) <==> q == k)
  {
  }

  lemma PushBeginKeeps(s: System, k: Key, t: System)
    requires Inv(s) && Next(s, PushBegin(k, 0), t)
    ensures Inv(t)
  {
    hide About, Told, Actual, ListOk, WatcherOk;
    FirstTaken(s, k, t);
    assert About(Pending(s, k)[0], k);
    AboutOne(Pending(s, k)[0], k, k);
    hide Next, Pending;
    forall id | id in t.watchers
      ensures WatcherOk(t, id)
    {
      PushToWatcher(s, k, t, id);
    }
  }

  /** A watcher has the change ahead of it, be it pending or being pushed. */
  lemma PushToWatcher(s: System, k: Key, t: System, id: nat)
    requires id in s.watchers && WatcherOk(s, id) && Next(s, PushBegin(k, 0), t)
    requires Pending(s, k) != [] && About(Pending(s, k)[0], k)
    ensures WatcherOk(t, id)
  {
    hide About, Tidy, Final, Shown, Actual, After;
    FirstTaken(s, k, t);
    hide Next, Pending;
    forall q
      ensures Todo(t, id, q) == Todo(s, id, q)
    {
      AboutOne(Pending(s, k)[0], k, q);
      assert q == k ==> [Pending(s, k)[0]] + Pending(s, k)[1..] == Pending(s, k);
    }
  }

  lemma ListsLookup(s: System, room: Slug, peers: seq<PeerInfo>, id: string)
    requires Lists(peers, s.rooms, room) && forall k :: k in s.rooms ==> s.rooms[k].id == k.id
    ensures Distinct(ParsePeers(peers)) && Lookup(ParsePeers(peers), id) == Actual(s.rooms, Key(room, id))
  {
    hide ParsePeer;
    IdKept(peers);
    var ps, k := ParsePeers(peers), Key(room, id);
    LookupIn(ps, id);
    if k in s.rooms {
      var i :| 0 <= i < |peers| && peers[i] == s.rooms[k];
      LookupOf(ps, i);
    } else {
      forall i | 0 <= i < |ps|
        ensures ps[i].id != id
      {
        assert Key(room, peers[i].id) in s.rooms;
      }
    }
  }

  lemma IdKept(peers: seq<PeerInfo>)
    ensures forall i :: 0 <= i < |peers| ==> ParsePeers(peers)[i].id == peers[i].id
  {
  }

  lemma ListKeeps(s: System, room: Slug, peers: seq<PeerInfo>, t: System)
    requires Inv(s) && Next(s, List(room, peers), t)
    ensures Inv(t)
  {
    hide Tidy, Final, Shown, Told, Actual, Lookup, ParsePeers, Distinct, Lists;
    assert forall q :: Pending(t, q) == Pending(s, q);
    forall id | id in t.watchers
      ensures WatcherOk(t, id)
    {
      assert WatcherOk(s, id);
      assert forall q :: Todo(t, id, q) == Todo(s, id, q);
    }
    forall r | r in t.lock.listed
      ensures ListOk(t, r, t.lock.listed[r])
    {
      if r == room {
        ListFresh(s, room, peers);
      } else {
        assert ListOk(s, r, s.lock.listed[r]);
      }
    }
  }

  /** A list just read agrees with the rooms; what is pending for it ends there too. */
  lemma ListFresh(s: System, room: Slug, peers: seq<PeerInfo>)
    requires Inv(s) && Lists(peers, s.rooms, room)
    ensures ListOk(s, room, peers)
  {
    hide Tidy, Final, Shown, Told, Actual, Lookup, ParsePeers, Distinct, Lists, WatcherOk, LockOk, PendingOk;
    ListsLookup(s, room, peers, "");
    forall id
      ensures After(Lookup(ParsePeers(peers), id), Pending(s, Key(room, id))) == Actual(s.rooms, Key(room, id))
    {
      ListsLookup(s, room, peers, id);
    }
  }

  lemma OfferKeeps(s: System, id: nat, t: System)
    requires Inv(s) && Next(s, Offer(id), t)
    ensures Inv(t)
  {
    hide Tidy, Final, Shown, Told, Actual, After, ListOk, Merged, Viewed, About;
    var w, f, w' := s.watchers[id], s.lock.work.frame, t.watchers[id];
    assert forall q :: Pending(t, q) == Pending(s, q);
    assert WatcherOk(s, id);
    if |w.queue| < OUT_BUF_LEN {
      FrameOffered(s, id, t);
    } else {
      SnapshotOffered(s, id, t);
    }
    forall other | other in t.watchers
      ensures WatcherOk(t, other)
    {
      if other != id {
        assert WatcherOk(s, other) && t.watchers[other] == s.watchers[other];
        assert forall q :: Todo(t, other, q) == Todo(s, other, q);
      }
    }
    forall r | r in t.lock.listed
      ensures ListOk(t, r, t.lock.listed[r])
    {
      SameLists(s, t, r, t.lock.listed[r]);
    }
  }

  lemma FrameOffered(s: System, id: nat, t: System)
    requires Inv(s) && Next(s, Offer(id), t) && |s.watchers[id].queue| < OUT_BUF_LEN
    ensures WatcherOk(t, id)
  {
    hide Tidy, Final, Shown, Told, Actual, ListOk, Merged, About;
    var w, f := s.watchers[id], s.lock.work.frame;
    FinalOffered(w, f);
    assert WatcherOk(s, id);
    MergedTidy(Final(w), f);
    forall q
      ensures After(Shown(Final(t.watchers[id]), q), Todo(t, id, q)) == Actual(t.rooms, q)
    {
      MergedShown(Final(w), f, q);
      assert After(Shown(Final(w), q), Todo(s, id, q)) == Actual(s.rooms, q);
      assert Pending(t, q) == Pending(s, q);
    }
  }

  lemma SnapshotOffered(s: System, id: nat, t: System)
    requires Inv(s) && Next(s, Offer(id), t) && |s.watchers[id].queue| >= OUT_BUF_LEN
    ensures WatcherOk(t, id)
  {
    hide Tidy, Final, Shown, Told, Actual, ListOk, Merged, About, After;
    var w, listed := s.watchers[id], s.lock.listed;
    FinalOffered(w, Snapshot(listed));
    ListedShown(s, listed);
    assert forall q :: Pending(t, q) == Pending(s, q) == Todo(t, id, q);
  }

  /** A complete snapshot, with what is pending, says what is so. */
  lemma ListedShown(s: System, listed: map<Slug, seq<PeerInfo>>)
    requires Complete(listed) && forall r :: r in listed ==> ListOk(s, r, listed[r])
    ensures Tidy(Viewed(listed))
    ensures forall k :: After(Shown(Viewed(listed), k), Pending(s, k)) == Actual(s.rooms, k)
  {
    hide Actual, After, Lookup, ParsePeers, Distinct;
    assert ListOk(s, Room1, listed[Room1]) && ListOk(s, Room2, listed[Room2]) && ListOk(s, Room3, listed[Room3]);
    forall k: Key
      ensures After(Shown(Viewed(listed), k), Pending(s, k)) == Actual(s.rooms, k)
    {
      assert k.room in listed by { assert k.room == Room1 || k.room == Room2 || k.room == Room3; }
      assert ListOk(s, k.room, listed[k.room]);
      assert k == Key(k.room, k.id);
    }
  }

  lemma SubscribeEndKeeps(s: System, view: View, t: System)
    requires Inv(s) && Next(s, SubscribeEnd(view), t)
    ensures Inv(t)
  {
    hide Tidy, Final, Shown, Told, Actual, After, ListOk, Viewed, About;
    var id, listed := s.nextId + 1, s.lock.listed;
    assert forall q :: Pending(t, q) == Pending(s, q);
    FinalOffered(Watcher([], [], view), Snapshot(listed));
    ListedShown(s, listed);
    forall other | other in t.watchers
      ensures WatcherOk(t, other)
    {
      assert forall q :: Todo(t, other, q) == Pending(t, q);
      if other != id {
        assert WatcherOk(s, other) && t.watchers[other] == s.watchers[other];
        assert forall q :: Todo(s, other, q) == Pending(s, q);
      }
    }
  }

  /** Steps that leave rooms and pending changes alone and no view other than it was. */
  lemma QuietKeeps(s: System, t: System)
    requires Inv(s) && t.rooms == s.rooms && t.pending == s.pending && t.nextId == s.nextId && LockOk(t)
    requires forall id :: id in t.watchers ==>
                            && id in s.watchers && |t.watchers[id].queue| <= OUT_BUF_LEN
                            && Final(t.watchers[id]) == Final(s.watchers[id])
                            && forall k :: Todo(t, id, k) == Todo(s, id, k)
    ensures Inv(t)
  {
    hide Tidy, Final, Shown, Told, Actual, After, LockOk, Todo;
    assert forall q :: Pending(t, q) == Pending(s, q);
    forall id | id in t.watchers
      ensures WatcherOk(t, id)
    {
      assert WatcherOk(s, id);
    }
  }

  lemma StepKeeps(s: System, step: Step, t: System)
    requires Inv(s) && Next(s, step, t) && Orderly(step)
    ensures Inv(t)
  {
    hide Inv, WatcherOk, LockOk, Lists;
    match step
    case Join(room, peer) => RoomStepKeeps(s, step, t);
    case Update(room, peer) => RoomStepKeeps(s, step, t);
    case Leave(room, id) => RoomStepKeeps(s, step, t);
    case PushBegin(k, _) => PushBeginKeeps(s, k, t);
    case List(room, peers) => ListKeeps(s, room, peers, t);
    case Offer(id) => OfferKeeps(s, id, t);
    case SubscribeEnd(view) => SubscribeEndKeeps(s, view, t);
    case PushEnd => QuietStepKeeps(s, step, t);
    case SubscribeBegin => QuietStepKeeps(s, step, t);
    case Unsubscribe(id) => QuietStepKeeps(s, step, t);
    case Write(id) => QuietStepKeeps(s, step, t);
    case Receive(id) => QuietStepKeeps(s, step, t);
  }

  lemma RoomStepKeeps(s: System, step: Step, t: System)
    requires Inv(s) && Next(s, step, t) && (step.Join? || step.Update? || step.Leave?)
    ensures Inv(t)
  {
    hide WatcherOk, LockOk, Lists, PendingOk, PendingCurrent, ParsePeer;
    match step
    case Join(room, peer) =>
      ChangeKeeps(s, s.rooms[Key(room, peer.id) := peer], Key(room, peer.id), PeerJoined(room, peer));
    case Update(room, peer) =>
      ChangeKeeps(s, s.rooms[Key(room, peer.id) := peer], Key(room, peer.id), PeerUpdated(room, peer));
    case Leave(room, id) =>
      ChangeKeeps(s, s.rooms - {Key(room, id)}, Key(room, id), PeerLeft(room, id));
  }

  lemma QuietStepKeeps(s: System, step: Step, t: System)
    requires Inv(s) && Next(s, step, t)
    requires step.PushEnd? || step.SubscribeBegin? || step.Unsubscribe? || step.Write? || step.Receive?
    ensures Inv(t)
  {
    hide Tidy, Final, Shown, Told, Actual, After, Merged, PendingOk, PendingCurrent, ListOk;
    assert forall q :: Pending(t, q) == Pending(s, q);
    forall id | id in t.watchers
      ensures id in s.watchers && |t.watchers[id].queue| <= OUT_BUF_LEN
              && Final(t.watchers[id]) == Final(s.watchers[id])
    {
      assert WatcherOk(s, id);
      FinalMoves(s.watchers[id]);
    }
    forall r | t.lock.Held? && r in t.lock.listed
      ensures ListOk(t, r, t.lock.listed[r])
    {
      assert ListOk(s, r, s.lock.listed[r]);
      SameLists(s, t, r, t.lock.listed[r]);
    }
    QuietKeeps(s, t);
  }

  lemma SameLists(s: System, t: System, r: Slug, peers: seq<PeerInfo>)
    requires ListOk(s, r, peers) && t.rooms == s.rooms && t.pending == s.pending
    ensures ListOk(t, r, peers)
  {
    assert forall q :: Pending(t, q) == Pending(s, q);
  }

  lemma StartInv(s: System)
    requires Start(s)
    ensures Inv(s)
  {
  }

  lemma {:induction false} RunInv(trace: seq<System>, steps: seq<Step>, i: nat)
    requires Run(trace, steps) && InOrder(steps) && i < |trace|
    ensures Inv(trace[i])
  {
    hide Inv, Next, Start;
    if i == 0 {
      StartInv(trace[0]);
    } else {
      RunInv(trace, steps, i - 1);
      StepKeeps(trace[i - 1], steps[i - 1], trace[i]);
    }
  }

  /** If each peer's changes are pushed in order, then in every state a client that merged what is
      queued for it and then the changes it has not been offered would show every peer as it is. */
  lemma WatcherAgrees(trace: seq<System>, steps: seq<Step>, i: nat, id: nat, k: Key)
    requires Run(trace, steps) && InOrder(steps) && i < |trace| && id in trace[i].watchers
    ensures var s := trace[i];
            && After(Shown(Final(s.watchers[id]), k), Todo(s, id, k)) == Actual(s.rooms, k)
            && |s.watchers[id].queue| <= OUT_BUF_LEN
  {
    RunInv(trace, steps, i);
    assert WatcherOk(trace[i], id);
  }

  /** Once all has been pushed and read, the client lists each room's peers, each of them once. */
  lemma ListsExactly(trace: seq<System>, steps: seq<Step>, i: nat, id: nat, room: Slug)
    requires Run(trace, steps) && InOrder(steps) && i < |trace| && id in trace[i].watchers
    requires var s := trace[i];
             s.lock.Free? && s.watchers[id].queue == [] == s.watchers[id].wire && forall k :: Pending(s, k) == []
    ensures var s := trace[i];
            var shown := s.watchers[id].view.At(room);
            && Distinct(shown)
            && (forall p :: p in shown ==> Key(room, p.id) in s.rooms && p == ParsePeer(s.rooms[Key(room, p.id)]))
            && (forall k :: k in s.rooms && k.room == room ==> ParsePeer(s.rooms[k]) in shown)
  {
    RunInv(trace, steps, i);
    var s := trace[i];
    var w := s.watchers[id];
    assert WatcherOk(s, id);
    assert Final(w) == w.view by { assert w.wire + w.queue == []; }
    Settled(s, id, room);
  }

  lemma Settled(s: System, id: nat, room: Slug)
    requires id in s.watchers && WatcherOk(s, id) && Final(s.watchers[id]) == s.watchers[id].view
    requires s.lock.Free? && forall k :: Pending(s, k) == []
    requires forall k :: k in s.rooms ==> s.rooms[k].id == k.id
    ensures var shown := s.watchers[id].view.At(room);
            && Distinct(shown)
            && (forall p :: p in shown ==> Key(room, p.id) in s.rooms && p == ParsePeer(s.rooms[Key(room, p.id)]))
            && (forall k :: k in s.rooms && k.room == room ==> ParsePeer(s.rooms[k]) in shown)
  {
    hide ParsePeer;
    var shown := s.watchers[id].view.At(room);
    forall k: Key
      ensures Shown(s.watchers[id].view, k) == Actual(s.rooms, k)
    {
      assert Todo(s, id, k) == [];
    }
    forall p | p in shown
      ensures Key(room, p.id) in s.rooms && p == ParsePeer(s.rooms[Key(room, p.id)])
    {
      var i :| 0 <= i < |shown| && shown[i] == p;
      LookupOf(shown, i);
      assert Shown(s.watchers[id].view, Key(room, p.id)) == Some(p);
    }
    forall k | k in s.rooms && k.room == room
      ensures ParsePeer(s.rooms[k]) in shown
    {
      LookupIn(shown, k.id);
      assert Shown(s.watchers[id].view, k) == Actual(s.rooms, k);
    }
  }
}
