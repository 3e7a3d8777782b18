/** Changes of one peer that are pushed in any order, and when the clients agree with the rooms
    all the same. */
module PresenceOrders {
  import opened Basics
  import opened Presence
  import opened PresenceRuns

  // ---- What has happened in a run ----

  /** The step that began the last push of a peer's change, or -1. */
  function LastPush(steps: seq<Step>, i: nat, k: Key): (n: int)
    requires i <= |steps|
    ensures -1 <= n < i
  {
    if i == 0 then -1
    else if steps[i - 1].PushBegin? && steps[i - 1].key == k then i - 1
    else LastPush(steps, i - 1, k)
  }

  /** The last change of the peer that was pushed. */
  function LastPushed(trace: seq<System>, steps: seq<Step>, i: nat, k: Key): Option<Frame>
    requires i <= |steps| < |trace|
  {
    if i == 0 then None
    else if steps[i - 1].PushBegin? && steps[i - 1].key == k && steps[i - 1].index < |Pending(trace[i - 1], k)|
    then Some(Pending(trace[i - 1], k)[steps[i - 1].index])
    else LastPushed(trace, steps, i - 1, k)
  }

  /** The change a step makes to a peer. */
  function Makes(step: Step, k: Key): Option<Frame> {
    match step
    case Join(room, peer) => if k == Key(room, peer.id) then Some(PeerJoined(room, peer)) else None
    case Update(room, peer) => if k == Key(room, peer.id) then Some(PeerUpdated(room, peer)) else None
    case Leave(room, id) => if k == Key(room, id) then Some(PeerLeft(room, id)) else None
    case _ => None
  }

  function LastMade(steps: seq<Step>, i: nat, k: Key): Option<Frame>
    requires i <= |steps|
  {
    if i == 0 then None else if Makes(steps[i - 1], k).Some? then Makes(steps[i - 1], k) else LastMade(steps, i - 1, k)
  }

  /** The step that last read a room's list, or -1. */
  function LastList(steps: seq<Step>, i: nat, room: Slug): (n: int)
    requires i <= |steps|
    ensures -1 <= n < i && (n >= 0 ==> steps[n].List?)
  {
    if i == 0 then -1
    else if steps[i - 1].List? && steps[i - 1].room == room then i - 1
    else LastList(steps, i - 1, room)
  }

  /** The step gives the watcher a snapshot: at first, or in place of a full queue. */
  predicate Resyncs(s: System, step: Step, id: nat) {
    || (step.SubscribeEnd? && id == s.nextId + 1)
    || (step.Offer? && id == step.watcher && id in s.watchers && |s.watchers[id].queue| >= OUT_BUF_LEN)
  }

  /** The step that read the room's list in the watcher's last snapshot, or -1. */
  function ReadAt(trace: seq<System>, steps: seq<Step>, i: nat, id: nat, room: Slug): (n: int)
    requires i <= |steps| < |trace|
    ensures -1 <= n < i && (n >= 0 ==> steps[n].List?)
  {
    if i == 0 then -1
    else if Resyncs(trace[i - 1], steps[i - 1], id) then LastList(steps, i - 1, room)
    else ReadAt(trace, steps, i - 1, id, room)
  }

  /** The step that took the hub's lock last, or -1. */
  function LockedAt(steps: seq<Step>, i: nat): (n: int)
    requires i <= |steps|
    ensures -1 <= n < i
  {
    if i == 0 then -1
    else if steps[i - 1].PushBegin? || steps[i - 1].SubscribeBegin? then i - 1
    else LockedAt(steps, i - 1)
  }

  function Tells(f: Option<Frame>): Option<Summary> {
    if f.Some? then Told(f.value) else None
  }

  // ---- What holds in every state, whatever the order ----

  /** The watcher has still to be offered the change of this peer that is being pushed. */
  predicate Awaits(s: System, id: nat, k: Key) {
    s.lock.Held? && s.lock.work.Pushing? && id in s.lock.work.waiting && About(s.lock.work.frame, k)
  }

  ghost predicate Basic(s: System) {
    PendingOk(s) && Bounded(s) && LockSound(s)
  }

  ghost predicate Bounded(s: System) {
    && (forall k :: k in s.rooms ==> s.rooms[k].id == k.id)
    && (forall id :: id in s.watchers ==> id <= s.nextId && |s.watchers[id].queue| <= OUT_BUF_LEN)
  }

  ghost predicate LockSound(s: System) {
    s.lock.Held? && s.lock.work.Pushing? ==>
      !s.lock.work.frame.Snapshot? && s.lock.work.waiting <= s.watchers.Keys
  }

  /** What the holder of the lock has read is from after it took the lock. A push under way is the
      last of its peer, and those who wait for it have their snapshots from before. */
  ghost predicate LockKnown(trace: seq<System>, steps: seq<Step>, i: nat)
    requires i <= |steps| < |trace|
  {
    trace[i].lock.Held? ==>
      && (forall r :: r in trace[i].lock.listed ==> ListKnown(trace, steps, i, r, trace[i].lock.listed[r]))
      && (forall k :: LastPush(steps, i, k) <= LockedAt(steps, i))
      && (trace[i].lock.work.Pushing? ==> PushKnown(trace, steps, i, trace[i].lock.work))
  }

  ghost predicate ListKnown(trace: seq<System>, steps: seq<Step>, i: nat, room: Slug, peers: seq<PeerInfo>)
    requires i <= |steps| < |trace|
  {
    var n := LastList(steps, i, room);
    n > LockedAt(steps, i) && n >= 0 && Lists(peers, trace[n].rooms, room)
  }

  ghost predicate PushKnown(trace: seq<System>, steps: seq<Step>, i: nat, work: Work)
    requires i <= |steps| < |trace| && work.Pushing?
  {
    && (forall k :: About(work.frame, k) ==>
          LastPush(steps, i, k) == LockedAt(steps, i) && LastPushed(trace, steps, i, k) == Some(work.frame))
    && (forall id, r :: id in work.waiting ==> ReadAt(trace, steps, i, id, r) < LockedAt(steps, i))
  }

  /** The word a watcher will have on a peer: what its last list of the room said, or else the last
      change pushed since. */
  ghost predicate WordKnown(trace: seq<System>, steps: seq<Step>, i: nat, id: nat, k: Key)
    requires i <= |steps| < |trace| && id in trace[i].watchers
  {
    var word, n := Shown(Final(trace[i].watchers[id]), k), ReadAt(trace, steps, i, id, k.room);
    && n >= 0
    && if LastPush(steps, i, k) < n then word == Actual(trace[n].rooms, k)
       else !Awaits(trace[i], id, k) ==>
              LastPushed(trace, steps, i, k).Some? && word == Tells(LastPushed(trace, steps, i, k))
  }

  lemma BasicStep(s: System, step: Step, t: System)
    requires Basic(s) && Next(s, step, t)
    ensures Basic(t)
  {
    hide Next, Bounded, LockSound;
    forall k
      ensures forall i :: 0 <= i < |Pending(t, k)| ==> About(Pending(t, k)[i], k)
    {
      PendingAbout(s, step, t, k);
    }
    BoundedStep(s, step, t);
    LockSoundStep(s, step, t);
  }

  lemma BoundedStep(s: System, step: Step, t: System)
    requires Bounded(s) && Next(s, step, t)
    ensures Bounded(t)
  {
    hide Lists, Complete, Merged;
  }

  lemma LockSoundStep(s: System, step: Step, t: System)
    requires PendingOk(s) && LockSound(s) && Next(s, step, t)
    ensures LockSound(t)
  {
    hide Lists, Complete, Merged, Offered;
    if step.PushBegin? { assert About(Pending(s, step.key)[step.index], step.key); }
  }

  lemma PendingAbout(s: System, step: Step, t: System, k: Key)
    requires PendingOk(s) && Next(s, step, t)
    ensures forall i :: 0 <= i < |Pending(t, k)| ==> About(Pending(t, k)[i], k)
  {
    assert forall i :: 0 <= i < |Pending(s, k)| ==> About(Pending(s, k)[i], k);
    PendingStep(s, step, t, k);
    hide PendingOk, Next;
  }

  /** A peer's pending changes gain the one a step makes and lose the one it pushes. */
  lemma PendingStep(s: System, step: Step, t: System, k: Key)
    requires Next(s, step, t)
    ensures Pending(t, k)
            == if Makes(step, k).Some? then Pending(s, k) + [Makes(step, k).value]
               else if step.PushBegin? && step.key == k
                 then Pending(s, k)[..step.index] + Pending(s, k)[step.index + 1..]
               else Pending(s, k)
    ensures Makes(step, k).Some? ==> About(Makes(step, k).value, k)
    ensures step.PushBegin? && step.key == k ==> step.index < |Pending(s, k)|
  {
    hide Lists, Complete, Offered, Merged, Pending;
    match step
    case Join(room, peer) =>
      PendingGains(s, s.rooms[Key(room, peer.id) := peer], Key(room, peer.id), PeerJoined(room, peer), k);
    case Update(room, peer) =>
      PendingGains(s, s.rooms[Key(room, peer.id) := peer], Key(room, peer.id), PeerUpdated(room, peer), k);
    case Leave(room, id) =>
      PendingGains(s, s.rooms - {Key(room, id)}, Key(room, id), PeerLeft(room, id), k);
    case PushBegin(q, n) => PendingLoses(s, q, n, t, k);
    case _ => PendingSame(s, t, k);
  }

  lemma PendingGains(s: System, rooms: map<Key, PeerInfo>, q: Key, f: Frame, k: Key)
    ensures Pending(Changed(s.(rooms := rooms), q, f), k) == if k == q then Pending(s, k) + [f] else Pending(s, k)
  {
  }

  lemma PendingLoses(s: System, q: Key, n: nat, t: System, k: Key)
    requires Next(s, PushBegin(q, n), t)
    ensures n < |Pending(s, q)|
    ensures Pending(t, k) == if k == q then Pending(s, k)[..n] + Pending(s, k)[n + 1..] else Pending(s, k)
  {
  }

  lemma PendingSame(s: System, t: System, k: Key)
    requires t.pending == s.pending
    ensures Pending(t, k) == Pending(s, k)
  {
  }

  lemma {:induction false} RunBasic(trace: seq<System>, steps: seq<Step>, i: nat)
    requires Run(trace, steps) && i < |trace|
    ensures Basic(trace[i])
  {
    hide Next;
    if i > 0 {
      hide Basic;
      RunBasic(trace, steps, i - 1);
      BasicStep(trace[i - 1], steps[i - 1], trace[i]);
    }
  }

  lemma LockStep(trace: seq<System>, steps: seq<Step>, i: nat, j: nat)
    requires Run(trace, steps) && i < |steps| && j == i + 1 && Basic(trace[i]) && LockKnown(trace, steps, i)
    ensures LockKnown(trace, steps, j)
  {
    hide Run, Next, Basic, LockKnown, ListKnown, PushKnown, Lists, Offered, Merged, About;
    NextAt(trace, steps, i, j);
    match steps[i]
    case PushBegin(k, n) => PushLocks(trace, steps, i, j);
    case SubscribeBegin => LockTaken(trace, steps, j);
    case PushEnd => Unlocked(trace, steps, j);
    case SubscribeEnd(_) => Unlocked(trace, steps, j);
    case Unsubscribe(_) => Unlocked(trace, steps, j);
    case List(_, _) => ListLocks(trace, steps, i, j);
    case _ => LockStays(trace, steps, i, j);
  }

  lemma NextAt(trace: seq<System>, steps: seq<Step>, i: nat, j: nat)
    requires Run(trace, steps) && i < |steps| && j == i + 1
    ensures j <= |steps| < |trace| && Next(trace[i], steps[i], trace[j])
  {
  }

  /** What a step adds to the history. */
  lemma HistoryStep(trace: seq<System>, steps: seq<Step>, i: nat, j: nat, k: Key, id: nat, r: Slug)
    requires i < |steps| < |trace| && j == i + 1
    ensures LastPush(steps, j, k) == if steps[i].PushBegin? && steps[i].key == k then i else LastPush(steps, i, k)
    ensures LastList(steps, j, r) == if steps[i].List? && steps[i].room == r then i else LastList(steps, i, r)
    ensures LockedAt(steps, j) == if steps[i].PushBegin? || steps[i].SubscribeBegin? then i else LockedAt(steps, i)
    ensures ReadAt(trace, steps, j, id, r)
            == if Resyncs(trace[i], steps[i], id) then LastList(steps, i, r) else ReadAt(trace, steps, i, id, r)
    ensures !(steps[i].PushBegin? && steps[i].key == k) ==>
            LastPushed(trace, steps, j, k) == LastPushed(trace, steps, i, k)
  {
  }

  lemma Unlocked(trace: seq<System>, steps: seq<Step>, i: nat)
    requires i <= |steps| < |trace| && trace[i].lock.Free?
    ensures LockKnown(trace, steps, i)
  {
  }

  lemma LockTaken(trace: seq<System>, steps: seq<Step>, j: nat)
    requires 0 < j <= |steps| < |trace| && trace[j].lock.Held? && trace[j].lock.listed == map[]
    requires steps[j - 1].PushBegin? || steps[j - 1].SubscribeBegin?
    requires trace[j].lock.work.Pushing? ==> PushKnown(trace, steps, j, trace[j].lock.work)
    ensures LockKnown(trace, steps, j)
  {
    hide PushKnown;
  }

  lemma PushLocks(trace: seq<System>, steps: seq<Step>, i: nat, j: nat)
    requires i < |steps| < |trace| && j == i + 1 && Next(trace[i], steps[i], trace[j]) && Basic(trace[i])
    requires steps[i].PushBegin?
    ensures LockKnown(trace, steps, j)
  {
    var key, f := steps[i].key, trace[j].lock.work.frame;
    assert About(Pending(trace[i], key)[steps[i].index], key);
    assert forall k :: About(f, k) <==> k == key;
    hide Basic, About;
    LockTaken(trace, steps, j);
  }

  lemma ListLocks(trace: seq<System>, steps: seq<Step>, i: nat, j: nat)
    requires i < |steps| < |trace| && j == i + 1 && Next(trace[i], steps[i], trace[j]) && LockKnown(trace, steps, i)
    requires steps[i].List?
    ensures LockKnown(trace, steps, j)
  {
    hide Lists, Resyncs;
    var s, t := trace[i], trace[j];
    forall r | r in t.lock.listed
      ensures ListKnown(trace, steps, j, r, t.lock.listed[r])
    {
      HistoryStep(trace, steps, i, j, Key(r, ""), 0, r);
      assert r in s.lock.listed ==> ListKnown(trace, steps, i, r, s.lock.listed[r]);
    }
    forall k
      ensures LastPush(steps, j, k) <= LockedAt(steps, j)
    {
      HistoryStep(trace, steps, i, j, k, 0, k.room);
    }
    if t.lock.work.Pushing? { StillPushing(trace, steps, i, j, s.lock.work, t.lock.work); }
  }

  /** The other steps leave the lock's lists alone; fewer wait. */
  lemma LockStays(trace: seq<System>, steps: seq<Step>, i: nat, j: nat)
    requires i < |steps| < |trace| && j == i + 1 && Next(trace[i], steps[i], trace[j]) && LockKnown(trace, steps, i)
    requires var p := steps[i]; p.Join? || p.Update? || p.Leave? || p.Offer? || p.Write? || p.Receive?
    ensures LockKnown(trace, steps, j)
  {
    hide Lists, Offered, Merged, Complete;
    var s, t := trace[i], trace[j];
    if s.lock.Held? {
      assert t.lock.listed == s.lock.listed;
      forall r | r in s.lock.listed
        ensures ListKnown(trace, steps, j, r, s.lock.listed[r])
      {
        HistoryStep(trace, steps, i, j, Key(r, ""), 0, r);
        assert ListKnown(trace, steps, i, r, s.lock.listed[r]);
      }
      forall k
        ensures LastPush(steps, j, k) <= LockedAt(steps, j)
      {
        HistoryStep(trace, steps, i, j, k, 0, k.room);
      }
      if t.lock.work.Pushing? { StillPushing(trace, steps, i, j, s.lock.work, t.lock.work); }
    }
  }

  lemma StillPushing(trace: seq<System>, steps: seq<Step>, i: nat, j: nat, a: Work, b: Work)
    requires i < |steps| < |trace| && j == i + 1 && a.Pushing? && PushKnown(trace, steps, i, a)
    requires !steps[i].PushBegin? && !steps[i].SubscribeBegin? && !steps[i].SubscribeEnd?
    requires b.Pushing? && b.frame == a.frame && b.waiting <= a.waiting
    requires steps[i].Offer? ==> steps[i].watcher !in b.waiting
    ensures PushKnown(trace, steps, j, b)
  {
    hide About;
    forall k | About(b.frame, k)
      ensures LastPush(steps, j, k) == LockedAt(steps, j) && LastPushed(trace, steps, j, k) == Some(b.frame)
    {
      HistoryStep(trace, steps, i, j, k, 0, k.room);
    }
    forall id, r | id in b.waiting
      ensures ReadAt(trace, steps, j, id, r) < LockedAt(steps, j)
    {
      HistoryStep(trace, steps, i, j, Key(r, ""), id, r);
    }
  }

  lemma {:induction false} RunLocks(trace: seq<System>, steps: seq<Step>, i: nat)
    requires Run(trace, steps) && i < |trace|
    ensures LockKnown(trace, steps, i)
  {
    hide Next, Basic;
    if i == 0 {
      Unlocked(trace, steps, 0);
    } else {
      hide LockKnown;
      RunBasic(trace, steps, i - 1);
      RunLocks(trace, steps, i - 1);
      LockStep(trace, steps, i - 1, i);
    }
  }

  // ---- What a watcher will show ----

  lemma WordStep(trace: seq<System>, steps: seq<Step>, i: nat, j: nat, id: nat, k: Key)
    requires Run(trace, steps) && i < |steps| && j == i + 1 && id in trace[j].watchers
    requires id in trace[i].watchers ==> WordKnown(trace, steps, i, id, k)
    ensures WordKnown(trace, steps, j, id, k)
  {
    hide Run, Next, Basic, LockKnown, WordKnown, Resyncs, Makes;
    NextAt(trace, steps, i, j);
    RunBasic(trace, steps, i);
    RunLocks(trace, steps, i);
    if Resyncs(trace[i], steps[i], id) {
      WordFromList(trace, steps, i, j, id, k);
    } else {
      StaysWatching(trace[i], steps[i], trace[j], id);
      if steps[i].PushBegin? {
        WordAtPush(trace, steps, i, j, id, k);
      } else if steps[i].Offer? && steps[i].watcher == id {
        WordFromFrame(trace, steps, i, j, id, k);
      } else {
        WordStays(trace, steps, i, j, id, k);
      }
    }
  }

  lemma StaysWatching(s: System, step: Step, t: System, id: nat)
    requires Next(s, step, t) && id in t.watchers && !Resyncs(s, step, id)
    ensures id in s.watchers
  {
    hide Lists, Merged, Offered;
  }

  /** The snapshot was read under this hold of the lock, so after every push that has begun. */
  lemma WordFromList(trace: seq<System>, steps: seq<Step>, i: nat, j: nat, id: nat, k: Key)
    requires Run(trace, steps) && i < |steps| && j == i + 1 && LockKnown(trace, steps, i)
    requires id in trace[j].watchers && Resyncs(trace[i], steps[i], id)
    ensures WordKnown(trace, steps, j, id, k)
  {
    hide Run, Next, Basic, Lists, Viewed, Resyncs, Final, PushKnown;
    NextAt(trace, steps, i, j);
    SnapshotGiven(trace[i], steps[i], trace[j], id);
    var listed := trace[i].lock.listed;
    HistoryStep(trace, steps, i, j, k, id, k.room);
    assert k.room in listed by { assert k.room == Room1 || k.room == Room2 || k.room == Room3; }
    assert ListKnown(trace, steps, i, k.room, listed[k.room]);
    var n := LastList(steps, i, k.room);
    RunBasic(trace, steps, n);
    ListedWord(trace[n], listed, k);
  }

  lemma SnapshotGiven(s: System, step: Step, t: System, id: nat)
    requires Next(s, step, t) && Resyncs(s, step, id)
    ensures !step.PushBegin? && s.lock.Held? && Complete(s.lock.listed)
    ensures id in t.watchers && Final(t.watchers[id]) == Viewed(s.lock.listed)
  {
    hide Viewed, Final, Lists;
    FinalOffered(if step.Offer? then s.watchers[id] else t.watchers[id], Snapshot(s.lock.listed));
  }

  lemma ListedWord(s: System, listed: map<Slug, seq<PeerInfo>>, k: Key)
    requires Basic(s) && k.room in listed && Lists(listed[k.room], s.rooms, k.room)
    ensures Shown(Viewed(listed), k) == Actual(s.rooms, k)
  {
    hide Lists, ParsePeers, Lookup, Distinct;
    ListsLookup(s, k.room, listed[k.room], k.id);
    assert k == Key(k.room, k.id);
  }

  /** A push of this peer makes the word out of date until it has been offered; any other does not. */
  lemma WordAtPush(trace: seq<System>, steps: seq<Step>, i: nat, j: nat, id: nat, k: Key)
    requires i < |steps| < |trace| && j == i + 1 && Next(trace[i], steps[i], trace[j]) && steps[i].PushBegin?
    requires Basic(trace[i]) && id in trace[i].watchers && WordKnown(trace, steps, i, id, k)
    ensures id in trace[j].watchers && WordKnown(trace, steps, j, id, k)
  {
    hide Final, Shown, Told, Actual;
    HistoryStep(trace, steps, i, j, k, id, k.room);
    assert About(Pending(trace[i], steps[i].key)[steps[i].index], steps[i].key);
  }

  lemma WordFromFrame(trace: seq<System>, steps: seq<Step>, i: nat, j: nat, id: nat, k: Key)
    requires i < |steps| < |trace| && j == i + 1 && Next(trace[i], steps[i], trace[j])
    requires steps[i].Offer? && steps[i].watcher == id && !Resyncs(trace[i], steps[i], id)
    requires Basic(trace[i]) && LockKnown(trace, steps, i) && id in trace[i].watchers
             && WordKnown(trace, steps, i, id, k)
    ensures id in trace[j].watchers && WordKnown(trace, steps, j, id, k)
  {
    hide Final, Shown, Told, Actual, About, Merged, ListKnown;
    var w, f := trace[i].watchers[id], trace[i].lock.work.frame;
    HistoryStep(trace, steps, i, j, k, id, k.room);
    FinalOffered(w, f);
    MergedShown(Final(w), f, k);
    assert Shown(Final(trace[j].watchers[id]), k) == if About(f, k) then Told(f) else Shown(Final(w), k);
    assert ReadAt(trace, steps, i, id, k.room) < LockedAt(steps, i);
  }

  lemma WordStays(trace: seq<System>, steps: seq<Step>, i: nat, j: nat, id: nat, k: Key)
    requires i < |steps| < |trace| && j == i + 1 && Next(trace[i], steps[i], trace[j])
    requires !steps[i].PushBegin? && !(steps[i].Offer? && steps[i].watcher == id) && !Resyncs(trace[i], steps[i], id)
    requires id in trace[i].watchers && id in trace[j].watchers && WordKnown(trace, steps, i, id, k)
    ensures WordKnown(trace, steps, j, id, k)
  {
    HistoryStep(trace, steps, i, j, k, id, k.room);
    SameWord(trace[i], steps[i], trace[j], id, k);
    hide Final, Shown, Told, Actual, Awaits, Next;
  }

  lemma SameWord(s: System, step: Step, t: System, id: nat, k: Key)
    requires Next(s, step, t) && id in s.watchers && id in t.watchers
    requires !step.PushBegin? && !(step.Offer? && step.watcher == id) && !Resyncs(s, step, id)
    ensures Final(t.watchers[id]) == Final(s.watchers[id]) && Awaits(t, id, k) == Awaits(s, id, k)
  {
    hide Final, Lists, Merged, Offered, About;
    FinalMoves(s.watchers[id]);
  }

  lemma {:induction false} RunWords(trace: seq<System>, steps: seq<Step>, i: nat, id: nat, k: Key)
    requires Run(trace, steps) && i < |trace| && id in trace[i].watchers
    ensures WordKnown(trace, steps, i, id, k)
  {
    hide Next, WordKnown;
    if i > 0 {
      if id in trace[i - 1].watchers { RunWords(trace, steps, i - 1, id, k); }
      WordStep(trace, steps, i - 1, i, id, k);
    }
  }

  // ---- When they agree ----

  /** Nothing is under way for this peer, and the client has read everything. */
  predicate Settled(s: System, id: nat, k: Key) {
    id in s.watchers && s.lock.Free? && Pending(s, k) == [] && s.watchers[id].queue == [] == s.watchers[id].wire
  }

  /** With nothing pending at the end, nothing has changed since the last push began. */
  lemma {:induction false} UnchangedSince(trace: seq<System>, steps: seq<Step>, i: nat, k: Key, n: nat)
    requires Run(trace, steps) && i <= |steps| && LastPush(steps, i, k) < n <= i && Pending(trace[i], k) == []
    ensures Actual(trace[n].rooms, k) == Actual(trace[i].rooms, k)
    decreases i
  {
    hide Run, Next, Makes;
    if n < i {
      NextAt(trace, steps, i - 1, i);
      HistoryStep(trace, steps, i - 1, i, k, 0, k.room);
      PendingStep(trace[i - 1], steps[i - 1], trace[i], k);
      RoomsStep(trace[i - 1], steps[i - 1], trace[i], k);
      UnchangedSince(trace, steps, i - 1, k, n);
    }
  }

  /** A step changes what is so of a peer only by making a change to it, and then as that tells. */
  lemma RoomsStep(s: System, step: Step, t: System, k: Key)
    requires Next(s, step, t)
    ensures Actual(t.rooms, k) == if Makes(step, k).Some? then Told(Makes(step, k).value) else Actual(s.rooms, k)
  {
    hide Lists, Complete, Offered, Merged, ParsePeer;
  }

  /** What is so of a peer is what the last change made to it tells; pushed are made ones. */
  lemma {:induction false} MadeIsSo(trace: seq<System>, steps: seq<Step>, i: nat, k: Key)
    requires Run(trace, steps) && i <= |steps| < |trace|
    ensures Actual(trace[i].rooms, k) == Tells(LastMade(steps, i, k))
  {
    hide Run, Next, Makes, Told, Actual;
    if i == 0 {
      NothingMade(trace, steps, k);
    } else {
      NextAt(trace, steps, i - 1, i);
      MadeIsSo(trace, steps, i - 1, k);
      RoomsStep(trace[i - 1], steps[i - 1], trace[i], k);
    }
  }

  lemma NothingMade(trace: seq<System>, steps: seq<Step>, k: Key)
    requires Run(trace, steps)
    ensures Actual(trace[0].rooms, k) == None
  {
  }

  /** In whatever order a peer's changes are pushed: once nothing is under way for it, a client shows
      it as it is exactly when the room's list in its last snapshot was read after the last push of
      the peer began, or that push told what the last change made tells. */
  lemma AgreesExactly(trace: seq<System>, steps: seq<Step>, i: nat, id: nat, k: Key)
    requires Run(trace, steps) && i < |trace| && Settled(trace[i], id, k)
    ensures Shown(trace[i].watchers[id].view, k) == Actual(trace[i].rooms, k)
            <==> || LastPush(steps, i, k) < ReadAt(trace, steps, i, id, k.room)
                 || Tells(LastPushed(trace, steps, i, k)) == Tells(LastMade(steps, i, k))
  {
    hide Next, Shown, Actual, Tells;
    assert Final(trace[i].watchers[id]) == trace[i].watchers[id].view by {
      assert trace[i].watchers[id].wire + trace[i].watchers[id].queue == [];
    }
    RunWords(trace, steps, i, id, k);
    MadeIsSo(trace, steps, i, k);
    var n := ReadAt(trace, steps, i, id, k.room);
    if LastPush(steps, i, k) < n { UnchangedSince(trace, steps, i, k, n); }
  }

  /** The queue's bound does not depend on the order. */
  lemma QueueBounded(trace: seq<System>, steps: seq<Step>, i: nat, id: nat)
    requires Run(trace, steps) && i < |trace| && id in trace[i].watchers
    ensures |trace[i].watchers[id].queue| <= OUT_BUF_LEN
  {
    RunBasic(trace, steps, i);
  }

  // ---- A run that ends in disagreement ----

  lemma RunMore(trace: seq<System>, steps: seq<Step>, step: Step, t: System)
    requires Run(trace, steps) && Next(trace[|trace| - 1], step, t)
    ensures Run(trace + [t], steps + [step])
  {
    hide Next;
    var trace', steps' := trace + [t], steps + [step];
    forall i, j | 0 <= i < |steps'| && j == i + 1
      ensures Next(trace'[i], steps'[i], trace'[j])
    {
      if i < |steps| { assert Next(trace[i], steps[i], trace[j]); }
    }
  }

  function Pushed(s: System, k: Key, n: nat): System
    requires n < |Pending(s, k)|
  {
    s.(pending := s.pending[k := s.pending[k][..n] + s.pending[k][n + 1..]])
  }

  /** One watcher, which has read everything. */
  function Watched(s: System, v: View): System {
    s.(watchers := map[1 := Watcher([], [], v)], lock := Free)
  }

  /** A push that the only watcher is offered, is sent and reads. */
  lemma Delivers(trace: seq<System>, steps: seq<Step>, s: System, v: View, k: Key, n: nat)
    returns (more: seq<System>, done: seq<Step>)
    requires Run(trace, steps) && trace[|trace| - 1] == Watched(s, v) && n < |Pending(s, k)|
    ensures Run(more, done)
    ensures more[|more| - 1] == Watched(Pushed(s, k, n), Merged(v, Pending(s, k)[n]))
  {
    hide Run, Merged;
    var f, rest := Pending(s, k)[n], Pushed(s, k, n);
    var a := rest.(watchers := map[1 := Watcher([], [], v)], lock := Held(Pushing(f, {1}), map[]));
    var b := a.(watchers := map[1 := Watcher([f], [], v)], lock := Held(Pushing(f, {}), map[]));
    var c := b.(lock := Free);
    var d := c.(watchers := map[1 := Watcher([], [f], v)]);
    var e := Watched(rest, Merged(v, f));
    PushTaken(Watched(s, v), k, n, a, f, v);
    OfferTaken(a, b, f, v);
    FrameRead(b, c, d, e, f, v);
    hide Next, Watched, Pushed;
    RunMore(trace, steps, PushBegin(k, n), a);
    more, done := trace + [a], steps + [PushBegin(k, n)];
    RunMore(more, done, Offer(1), b);
    more, done := more + [b], done + [Offer(1)];
    RunMore(more, done, PushEnd, c);
    more, done := more + [c], done + [PushEnd];
    RunMore(more, done, Write(1), d);
    more, done := more + [d], done + [Write(1)];
    RunMore(more, done, Receive(1), e);
    more, done := more + [e], done + [Receive(1)];
  }

  lemma PushTaken(s: System, k: Key, n: nat, a: System, f: Frame, v: View)
    requires n < |Pending(s, k)| && f == Pending(s, k)[n] && s == Watched(s, v)
    requires a == Pushed(s, k, n).(lock := Held(Pushing(f, {1}), map[]))
    ensures Next(s, PushBegin(k, n), a)
  {
    assert s.watchers.Keys == {1};
  }

  lemma OfferTaken(a: System, b: System, f: Frame, v: View)
    requires a.watchers == map[1 := Watcher([], [], v)] && a.lock == Held(Pushing(f, {1}), map[])
    requires b == a.(watchers := map[1 := Watcher([f], [], v)], lock := Held(Pushing(f, {}), map[]))
    ensures Next(a, Offer(1), b)
  {
    assert {1} - {1} == {} && [] + [f] == [f];
    KeyAgain(1, Watcher([], [], v), Watcher([f], [], v));
  }

  lemma FrameRead(b: System, c: System, d: System, e: System, f: Frame, v: View)
    requires b.watchers == map[1 := Watcher([f], [], v)] && b.lock == Held(Pushing(f, {}), map[])
    requires c == b.(lock := Free) && d == c.(watchers := map[1 := Watcher([], [f], v)])
    requires e == d.(watchers := map[1 := Watcher([], [], Merged(v, f))])
    ensures Next(b, PushEnd, c) && Next(c, Write(1), d) && Next(d, Receive(1), e)
  {
    hide Merged;
    assert [] + [f] == [f] && [f][1..] == [];
    KeyAgain(1, Watcher([f], [], v), Watcher([], [f], v));
    KeyAgain(1, Watcher([], [f], v), Watcher([], [], Merged(v, f)));
  }

  /** A first watcher of empty rooms has read its snapshot. */
  lemma Begins() returns (trace: seq<System>, steps: seq<Step>)
    ensures Run(trace, steps) && trace[|trace| - 1] == Watched(EMPTY, NO_PEERS)
  {
    hide Run;
    var listed := map[Room1 := [], Room2 := [], Room3 := []];
    var a := EMPTY.(nextId := 0, lock := Held(Subscribing, map[]));
    var b := a.(lock := Held(Subscribing, map[Room1 := []]));
    var c := a.(lock := Held(Subscribing, map[Room1 := [], Room2 := []]));
    var d := a.(lock := Held(Subscribing, listed));
    var e := EMPTY.(watchers := map[1 := Watcher([Snapshot(listed)], [], NO_PEERS)]);
    var f := EMPTY.(watchers := map[1 := Watcher([], [Snapshot(listed)], NO_PEERS)]);
    EmptyLists(a, b, c, d);
    FirstSnapshot(d, e, f, listed);
    RunStarts();
    hide Next;
    trace, steps := [EMPTY.(nextId := 0)], [];
    RunMore(trace, steps, SubscribeBegin, a);
    trace, steps := trace + [a], steps + [SubscribeBegin];
    RunMore(trace, steps, List(Room1, []), b);
    trace, steps := trace + [b], steps + [List(Room1, [])];
    RunMore(trace, steps, List(Room2, []), c);
    trace, steps := trace + [c], steps + [List(Room2, [])];
    RunMore(trace, steps, List(Room3, []), d);
    trace, steps := trace + [d], steps + [List(Room3, [])];
    RunMore(trace, steps, SubscribeEnd(NO_PEERS), e);
    trace, steps := trace + [e], steps + [SubscribeEnd(NO_PEERS)];
    RunMore(trace, steps, Write(1), f);
    trace, steps := trace + [f], steps + [Write(1)];
    RunMore(trace, steps, Receive(1), Watched(EMPTY, NO_PEERS));
    trace, steps := trace + [Watched(EMPTY, NO_PEERS)], steps + [Receive(1)];
  }

  const NO_PEERS := View([], [], [])

  /** Nothing but that a watcher has been given its id. */
  const EMPTY := System(map[], map[], map[], 1, Free)

  lemma RunStarts()
    ensures Run([EMPTY.(nextId := 0)], [])
  {
  }

  lemma EmptyLists(a: System, b: System, c: System, d: System)
    requires a == EMPTY.(nextId := 0, lock := Held(Subscribing, map[]))
    requires b == a.(lock := Held(Subscribing, map[Room1 := []]))
    requires c == a.(lock := Held(Subscribing, map[Room1 := [], Room2 := []]))
    requires d == a.(lock := Held(Subscribing, map[Room1 := [], Room2 := [], Room3 := []]))
    ensures Next(EMPTY.(nextId := 0), SubscribeBegin, a)
    ensures Next(a, List(Room1, []), b) && Next(b, List(Room2, []), c) && Next(c, List(Room3, []), d)
  {
    forall r
      ensures Lists([], EMPTY.rooms, r)
    {
    }
    hide Lists;
  }

  lemma FirstSnapshot(d: System, e: System, f: System, listed: map<Slug, seq<PeerInfo>>)
    requires listed == map[Room1 := [], Room2 := [], Room3 := []]
    requires d == EMPTY.(nextId := 0, lock := Held(Subscribing, listed))
    requires e == EMPTY.(watchers := map[1 := Watcher([Snapshot(listed)], [], NO_PEERS)])
    requires f == EMPTY.(watchers := map[1 := Watcher([], [Snapshot(listed)], NO_PEERS)])
    ensures Next(d, SubscribeEnd(NO_PEERS), e) && Next(e, Write(1), f) && Next(f, Receive(1), Watched(EMPTY, NO_PEERS))
  {
    hide Lists;
    var snap := Snapshot(listed);
    assert Merged(NO_PEERS, snap) == NO_PEERS;
    hide Merged;
    assert [] + [snap] == [snap] && [snap][1..] == [];
    KeyAgain(1, Watcher([snap], [], NO_PEERS), Watcher([], [snap], NO_PEERS));
    KeyAgain(1, Watcher([], [snap], NO_PEERS), Watcher([], [], NO_PEERS));
  }

  lemma KeyAgain<K, V>(k: K, a: V, b: V)
    ensures map[k := a][k := b] == map[k := b] && map[k := a] - {k} == map[]
  {
  }

  /** Rooms without peers that owe the watcher some changes of one. */
  function Owing(k: Key, fs: seq<Frame>): System {
    EMPTY.(pending := map[k := fs])
  }

  /** A peer joins, changes and leaves. The departure is pushed before the change, and when nothing
      is under way any more the client still shows the peer. */
  lemma LateUpdateStays(room: Slug, peer: PeerInfo) returns (trace: seq<System>, steps: seq<Step>)
    ensures Run(trace, steps)
    ensures var s, k := trace[|trace| - 1], Key(room, peer.id);
            Settled(s, 1, k) && Actual(s.rooms, k) == None && Shown(s.watchers[1].view, k) == Some(ParsePeer(peer))
  {
    hide Run, Merged;
    var k := Key(room, peer.id);
    var joined, updated, gone := PeerJoined(room, peer), PeerUpdated(room, peer), PeerLeft(room, peer.id);
    trace, steps := Begins();
    var there, changed := Owing(k, [joined]).(rooms := map[k := peer]),
                          Owing(k, [joined, updated]).(rooms := map[k := peer]);
    var left := Owing(k, [joined, updated, gone]);
    ComeAndGo(room, peer, there, changed, left);
    hide Next, Owing, Watched;
    RunMore(trace, steps, Join(room, peer), Watched(there, NO_PEERS));
    trace, steps := trace + [Watched(there, NO_PEERS)], steps + [Join(room, peer)];
    RunMore(trace, steps, Update(room, peer), Watched(changed, NO_PEERS));
    trace, steps := trace + [Watched(changed, NO_PEERS)], steps + [Update(room, peer)];
    RunMore(trace, steps, Leave(room, peer.id), Watched(left, NO_PEERS));
    trace, steps := trace + [Watched(left, NO_PEERS)], steps + [Leave(room, peer.id)];
    trace, steps := DeparturePushedFirst(trace, steps, k, joined, updated, gone);
    LateWord(room, peer);
  }

  /** The join, the departure and then the change are delivered. */
  lemma DeparturePushedFirst(trace: seq<System>, steps: seq<Step>, k: Key, a: Frame, b: Frame, c: Frame)
    returns (more: seq<System>, done: seq<Step>)
    requires Run(trace, steps) && trace[|trace| - 1] == Watched(Owing(k, [a, b, c]), NO_PEERS)
    ensures Run(more, done)
    ensures more[|more| - 1] == Watched(Owing(k, []), Merged(Merged(Merged(NO_PEERS, a), c), b))
  {
    hide Run, Watched, Merged;
    var v := Merged(NO_PEERS, a);
    var w := Merged(v, c);
    OwingPushed(k, [a, b, c], 0);
    OwingPushed(k, [b, c], 1);
    OwingPushed(k, [b], 0);
    assert [a, b, c][..0] + [a, b, c][1..] == [b, c] && [b, c][..1] + [b, c][2..] == [b] && [b][..0] + [b][1..] == [];
    hide Owing, Pushed;
    more, done := Delivers(trace, steps, Owing(k, [a, b, c]), NO_PEERS, k, 0);
    more, done := Delivers(more, done, Owing(k, [b, c]), v, k, 1);
    more, done := Delivers(more, done, Owing(k, [b]), w, k, 0);
  }

  lemma OwingPushed(k: Key, fs: seq<Frame>, n: nat)
    requires n < |fs|
    ensures Pending(Owing(k, fs), k) == fs && Pushed(Owing(k, fs), k, n) == Owing(k, fs[..n] + fs[n + 1..])
  {
    KeyAgain(k, fs, fs[..n] + fs[n + 1..]);
  }

  lemma LateWord(room: Slug, peer: PeerInfo)
    ensures var k := Key(room, peer.id);
            var v := Merged(Merged(NO_PEERS, PeerJoined(room, peer)), PeerLeft(room, peer.id));
            var s := Watched(Owing(k, []), Merged(v, PeerUpdated(room, peer)));
            Settled(s, 1, k) && Actual(s.rooms, k) == None && Shown(s.watchers[1].view, k) == Some(ParsePeer(peer))
  {
    hide Merged;
    MergedShown(Merged(Merged(NO_PEERS, PeerJoined(room, peer)), PeerLeft(room, peer.id)), PeerUpdated(room, peer),
                Key(room, peer.id));
  }

  lemma ComeAndGo(room: Slug, peer: PeerInfo, there: System, changed: System, left: System)
    requires var k, joined, updated := Key(room, peer.id), PeerJoined(room, peer), PeerUpdated(room, peer);
             && there == Owing(k, [joined]).(rooms := map[k := peer])
             && changed == Owing(k, [joined, updated]).(rooms := map[k := peer])
             && left == Owing(k, [joined, updated, PeerLeft(room, peer.id)])
    ensures Next(Watched(EMPTY, NO_PEERS), Join(room, peer), Watched(there, NO_PEERS))
    ensures Next(Watched(there, NO_PEERS), Update(room, peer), Watched(changed, NO_PEERS))
    ensures Next(Watched(changed, NO_PEERS), Leave(room, peer.id), Watched(left, NO_PEERS))
  {
    var k, joined, updated, gone := Key(room, peer.id), PeerJoined(room, peer), PeerUpdated(room, peer),
                                    PeerLeft(room, peer.id);
    assert [] + [joined] == [joined] && [joined] + [updated] == [joined, updated];
    assert [joined, updated] + [gone] == [joined, updated, gone];
    KeyAgain(k, [joined], [joined, updated]);
    KeyAgain(k, [joined, updated], [joined, updated, gone]);
    KeyAgain(k, peer, peer);
    assert map[][k := peer] == map[k := peer];
  }
}
