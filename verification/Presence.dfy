/** Presence: the hub that fans changes out to subscribers, and the client that merges them. */
module Presence {
  import opened Basics

  const OUT_BUF_LEN: nat := 8

  datatype Slug = Room1 | Room2 | Room3

  /** `state` stands for what the room list does not show: mute, deafen, screen share. */
  datatype PeerInfo = PeerInfo(id: string, displayName: string, chatOnly: bool, state: nat)

  datatype Frame =
    | Snapshot(rooms: map<Slug, seq<PeerInfo>>)
    | PeerJoined(room: Slug, peer: PeerInfo)
    | PeerUpdated(room: Slug, peer: PeerInfo)
    | PeerLeft(room: Slug, id: string)

  // ---- The hub ----

  /** A subscriber's queue after a frame: a full one gives way to a fresh snapshot. */
  function Offered(queue: seq<Frame>, f: Frame, snapshot: Frame): (q: seq<Frame>)
    ensures |queue| <= OUT_BUF_LEN ==> |q| <= OUT_BUF_LEN
  {
    if |queue| < OUT_BUF_LEN then queue + [f] else [snapshot]
  }

  class Subscriber {
    var queue: seq<Frame>

    constructor (first: Frame)
      ensures queue == [first]
    {
      queue := [first];
    }

    /** The next frame to write; none means the reader waits. */
    method Next() returns (f: Option<Frame>)
      modifies this
      ensures old(queue) == [] ==> f == None && queue == []
      ensures old(queue) != [] ==> f.Some? && [f.value] + queue == old(queue)
    {
      if queue == [] {
        return None;
      }
      f := Some(queue[0]);
      queue := queue[1..];
    }
  }

  class Hub {
    var nextId: nat
    var subs: map<nat, Subscriber>

    ghost predicate Valid()
      reads this, subs.Values
    {
      && (forall id :: id in subs ==> id <= nextId && |subs[id].queue| <= OUT_BUF_LEN)
      && (forall i, j :: i in subs && j in subs && i != j ==> subs[i] != subs[j])
    }

    constructor ()
      ensures Valid() && subs == map[]
    {
      nextId, subs := 0, map[];
    }

    /** `listed` is what the rooms answer when asked for a snapshot. */
    method Push(f: Frame, listed: map<Slug, seq<PeerInfo>>)
      requires Valid()
      modifies subs.Values
      ensures Valid()
      ensures forall id :: id in subs ==> subs[id].queue == Offered(old(subs[id].queue), f, Snapshot(listed))
    {
      var left := subs.Keys;
      while left != {}
        invariant left <= subs.Keys
        invariant forall id :: id in left ==> subs[id].queue == old(subs[id].queue)
        invariant forall id :: id in subs && id !in left ==>
                                 subs[id].queue == Offered(old(subs[id].queue), f, Snapshot(listed))
        decreases |left|
      {
        var id :| id in left;
        var sub := subs[id];
        if |sub.queue| < OUT_BUF_LEN {
          sub.queue := sub.queue + [f];
        } else {
          sub.queue := [Snapshot(listed)];
        }
        left := left - {id};
      }
    }

    method Subscribe(listed: map<Slug, seq<PeerInfo>>) returns (id: nat, sub: Subscriber)
      requires Valid()
      modifies this
      ensures Valid() && fresh(sub) && sub.queue == [Snapshot(listed)]
      ensures id !in old(subs) && subs == old(subs)[id := sub]
    {
      sub := new Subscriber(Snapshot(listed));
      nextId := nextId + 1;
      id := nextId;
      subs := subs[id := sub];
    }

    /** Takes out that subscriber and no other. */
    method Unsubscribe(id: nat)
      requires Valid()
      modifies this
      ensures Valid() && subs == old(subs) - {id}
    {
      subs := subs - {id};
    }
  }

  // ---- The client ----

  datatype Summary = Summary(id: string, displayName: string, chatOnly: bool)

  /** What the trimming of JavaScript removes. */
  predicate JsSpace(c: char) {
    var n := c as int;
    || 9 <= n <= 13 || n == 0x20 || n == 0xA0 || n == 0x1680 || 0x2000 <= n <= 0x200A
    || n == 0x2028 || n == 0x2029 || n == 0x202F || n == 0x205F || n == 0x3000 || n == 0xFEFF
  }

  /** White space as Unicode has it, but for the next-line character and with the byte order mark. */
  lemma JsSpaceIs(c: char)
    ensures JsSpace(c) <==> (White(c) && c as int != 0x85) || c as int == 0xFEFF
  {
  }

  function JsTrim(s: string): string {
    if s != "" && JsSpace(s[0]) then JsTrim(s[1..])
    else if s != "" && JsSpace(s[|s| - 1]) then JsTrim(s[..|s| - 1])
    else s
  }

  /** Outside of `a` to `b` there are spaces alone, and none at either end inside. */
  ghost predicate Inside(s: string, a: nat, b: nat)
    requires a <= b <= |s|
  {
    && (forall i :: 0 <= i < |s| && !(a <= i < b) ==> JsSpace(s[i]))
    && (a < b ==> !JsSpace(s[a]) && !JsSpace(s[b - 1]))
  }

  lemma InsideFront(s: string, a: nat, b: nat)
    requires a <= b < |s| && JsSpace(s[0]) && Inside(s[1..], a, b)
    ensures s[1..][a..b] == s[a + 1..b + 1] && Inside(s, a + 1, b + 1)
  {
    hide JsSpace;
    assert forall i :: 0 < i < |s| ==> s[i] == s[1..][i - 1];
  }

  lemma InsideBack(s: string, a: nat, b: nat)
    requires a <= b < |s| && JsSpace(s[|s| - 1]) && Inside(s[..|s| - 1], a, b)
    ensures s[..|s| - 1][a..b] == s[a..b] && Inside(s, a, b)
  {
    hide JsSpace;
  }

  /** Trimming leaves the stretch between the first and the last character that is no space. */
  lemma {:induction false} TrimmedExactly(s: string)
    ensures exists a, b :: 0 <= a <= b <= |s| && JsTrim(s) == s[a..b] && Inside(s, a, b)
    decreases |s|
  {
    hide JsSpace;
    if s == "" {
      assert Inside(s, 0, 0);
    } else if JsSpace(s[0]) {
      TrimmedExactly(s[1..]);
      var a, b :| 0 <= a <= b <= |s| - 1 && JsTrim(s[1..]) == s[1..][a..b] && Inside(s[1..], a, b);
      InsideFront(s, a, b);
    } else if JsSpace(s[|s| - 1]) {
      TrimmedExactly(s[..|s| - 1]);
      var a, b :| 0 <= a <= b <= |s| - 1 && JsTrim(s[..|s| - 1]) == s[..|s| - 1][a..b] && Inside(s[..|s| - 1], a, b);
      InsideBack(s, a, b);
    } else {
      assert s[0..|s|] == s && Inside(s, 0, |s|);
    }
  }

  function ParsePeer(p: PeerInfo): Summary {
    var name := JsTrim(p.displayName);
    Summary(p.id, if name == "" then "peer-" + p.id else name, p.chatOnly)
  }

  /** The name shown is the given one from its first to its last character that is no space, or made
      from the id if it has none. */
  lemma ShownName(p: PeerInfo)
    ensures exists a, b :: 0 <= a <= b <= |p.displayName| && Inside(p.displayName, a, b)
                           && ParsePeer(p) == Summary(p.id, if a == b then "peer-" + p.id else p.displayName[a..b],
                                                      p.chatOnly)
  {
    TrimmedExactly(p.displayName);
  }

  function ParsePeers(ps: seq<PeerInfo>): (r: seq<Summary>)
    ensures |r| == |ps|
  {
    seq(|ps|, i requires 0 <= i < |ps| => ParsePeer(ps[i]))
  }

  /** A list for every room. */
  datatype View = View(room1: seq<Summary>, room2: seq<Summary>, room3: seq<Summary>)
  {
    function At(r: Slug): seq<Summary> {
      match r
      case Room1 => room1
      case Room2 => room2
      case Room3 => room3
    }

    function With(r: Slug, ps: seq<Summary>): (v: View)
      ensures v.At(r) == ps && forall q: Slug :: q != r ==> v.At(q) == At(q)
    {
      match r
      case Room1 => this.(room1 := ps)
      case Room2 => this.(room2 := ps)
      case Room3 => this.(room3 := ps)
    }
  }

  /** The list of a room in a snapshot, empty for a room it does not have. */
  function Listed(rooms: map<Slug, seq<PeerInfo>>, r: Slug): seq<Summary> {
    if r in rooms then ParsePeers(rooms[r]) else []
  }

  function Viewed(rooms: map<Slug, seq<PeerInfo>>): (v: View)
    ensures forall r: Slug :: v.At(r) == Listed(rooms, r)
  {
    View(Listed(rooms, Room1), Listed(rooms, Room2), Listed(rooms, Room3))
  }

  function Without(ps: seq<Summary>, id: string): seq<Summary> {
    if ps == [] then []
    else (if ps[0].id == id then [] else [ps[0]]) + Without(ps[1..], id)
  }

  /** One event merged into the view. */
  function Merged(v: View, f: Frame): View {
    match f
    case Snapshot(rooms) => Viewed(rooms)
    case PeerJoined(room, peer) => v.With(room, Without(v.At(room), peer.id) + [ParsePeer(peer)])
    case PeerUpdated(room, peer) => v.With(room, Without(v.At(room), peer.id) + [ParsePeer(peer)])
    case PeerLeft(room, id) => v.With(room, Without(v.At(room), id))
  }

  function MergedAll(v: View, fs: seq<Frame>): View {
    if fs == [] then v else Merged(MergedAll(v, fs[..|fs| - 1]), fs[|fs| - 1])
  }

  lemma {:induction false} MergedConcat(v: View, a: seq<Frame>, b: seq<Frame>)
    ensures MergedAll(v, a + b) == MergedAll(MergedAll(v, a), b)
  {
    if b == [] {
      assert a + b == a;
    } else {
      assert (a + b)[..|a + b| - 1] == a + b[..|b| - 1];
      MergedConcat(v, a, b[..|b| - 1]);
    }
  }

  // ---- What a view says of one peer ----

  /** The entry of a peer in a list. */
  function Lookup(ps: seq<Summary>, id: string): Option<Summary> {
    if ps == [] then None else if ps[0].id == id then Some(ps[0]) else Lookup(ps[1..], id)
  }

  /** Nobody is listed twice. */
  ghost predicate Distinct(ps: seq<Summary>) {
    forall i, j :: 0 <= i < j < |ps| ==> ps[i].id != ps[j].id
  }

  lemma {:induction false} LookupConcat(a: seq<Summary>, b: seq<Summary>, id: string)
    ensures Lookup(a + b, id) == if Lookup(a, id).Some? then Lookup(a, id) else Lookup(b, id)
  {
    if a == [] {
      assert a + b == b;
    } else {
      assert (a + b)[0] == a[0] && (a + b)[1..] == a[1..] + b;
      LookupConcat(a[1..], b, id);
    }
  }

  lemma {:induction false} LookupWithout(ps: seq<Summary>, id: string, other: string)
    ensures Lookup(Without(ps, id), other) == if other == id then None else Lookup(ps, other)
  {
    if ps != [] {
      LookupWithout(ps[1..], id, other);
      LookupConcat(if ps[0].id == id then [] else [ps[0]], Without(ps[1..], id), other);
    }
  }

  lemma {:induction false} LookupIn(ps: seq<Summary>, id: string)
    ensures Lookup(ps, id).None? <==> forall i :: 0 <= i < |ps| ==> ps[i].id != id
    ensures Lookup(ps, id).Some? ==> Lookup(ps, id).value in ps && Lookup(ps, id).value.id == id
  {
    if ps != [] {
      LookupIn(ps[1..], id);
      assert ps == [ps[0]] + ps[1..];
    }
  }

  lemma {:induction false} WithoutDistinct(ps: seq<Summary>, id: string)
    requires Distinct(ps)
    ensures Distinct(Without(ps, id)) && forall i :: 0 <= i < |Without(ps, id)| ==> Without(ps, id)[i] in ps
  {
    if ps != [] {
      WithoutDistinct(ps[1..], id);
    }
  }

  lemma UpsertDistinct(ps: seq<Summary>, s: Summary)
    requires Distinct(ps)
    ensures Distinct(Without(ps, s.id) + [s])
  {
    WithoutDistinct(ps, s.id);
    LookupWithout(ps, s.id, s.id);
    LookupIn(Without(ps, s.id), s.id);
  }

  /** A list without duplicates is known by its lookups, up to order. */
  lemma {:induction false} LookupOf(ps: seq<Summary>, i: nat)
    requires Distinct(ps) && i < |ps|
    ensures Lookup(ps, ps[i].id) == Some(ps[i])
  {
    if i > 0 { LookupOf(ps[1..], i - 1); }
  }
}
