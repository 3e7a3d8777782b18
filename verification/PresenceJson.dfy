/** The client's reading of presence events: JSON values of any shape, and what is made of them. */
module PresenceJson {
  import opened Basics
  import opened Presence

  datatype Json =
    | Null
    | Bool(b: bool)
    | Number(n: real)
    | Str(s: string)
    | Arr(items: seq<Json>)
    | Obj(fields: map<string, Json>)
  {
    /** What `typeof` calls an object, less null. */
    predicate IsObject() { Arr? || Obj? }

    /** A property of an object; an array has none of the names asked for. */
    function Field(name: string): Option<Json> {
      if Obj? && name in fields then Some(fields[name]) else None
    }
  }

  /** A server-sent event with its parsed data. */
  datatype Event = Event(name: string, data: Json)

  function SlugName(r: Slug): string {
    match r
    case Room1 => "room1"
    case Room2 => "room2"
    case Room3 => "room3"
  }

  function SlugOf(j: Option<Json>): Option<Slug> {
    if j == Some(Str("room1")) then Some(Room1)
    else if j == Some(Str("room2")) then Some(Room2)
    else if j == Some(Str("room3")) then Some(Room3)
    else None
  }

  // ---- Reading ----

  function ReadPeer(j: Option<Json>): Option<Summary> {
    if j.None? || !j.value.IsObject() then None
    else
      match j.value.Field("id")
      case Some(Str(id)) =>
        var name := match j.value.Field("displayName")
                    case Some(Str(s)) => JsTrim(s)
                    case _ => "";
        Some(Summary(id, if name == "" then "peer-" + id else name, j.value.Field("chatOnly") == Some(Bool(true))))
      case _ => None
  }

  /** Peers that cannot be read are left out. */
  function ReadPeers(items: seq<Json>): seq<Summary> {
    if items == [] then []
    else
      var p := ReadPeer(Some(items[0]));
      (if p.Some? then [p.value] else []) + ReadPeers(items[1..])
  }

  /** The peers of a room; a room that cannot be read is empty. */
  function ReadRoom(rooms: Json, r: Slug): seq<Summary> {
    match rooms.Field(SlugName(r))
    case Some(room) =>
      (match room.Field("peers")
       case Some(Arr(items)) => ReadPeers(items)
       case _ => [])
    case None => []
  }

  /** Nothing, if the data is no snapshot at all. */
  function ReadSnapshot(data: Json): Option<View> {
    match data.Field("rooms")
    case Some(rooms) =>
      if rooms.IsObject() then Some(View(ReadRoom(rooms, Room1), ReadRoom(rooms, Room2), ReadRoom(rooms, Room3)))
      else None
    case None => None
  }

  method ParseSnapshot(data: Json) returns (next: Option<View>)
    ensures next == ReadSnapshot(data)
  {
    if !data.IsObject() {
      return None;
    }
    var rooms := data.Field("rooms");
    if rooms.None? || !rooms.value.IsObject() {
      return None;
    }
    hide ReadPeers, SlugOf;
    var view := View([], [], []);
    var slugs := [Room1, Room2, Room3];
    for i := 0 to 3
      invariant forall k :: 0 <= k < 3 ==> view.At(slugs[k]) == if k < i then ReadRoom(rooms.value, slugs[k]) else []
    {
      var room := rooms.value.Field(SlugName(slugs[i]));
      if room.None? || !room.value.IsObject() {
        continue;
      }
      var peers := room.value.Field("peers");
      if peers.None? || !peers.value.Arr? {
        continue;
      }
      view := view.With(slugs[i], ReadPeers(peers.value.items));
    }
    assert view.At(slugs[0]) == view.room1 && view.At(slugs[1]) == view.room2 && view.At(slugs[2]) == view.room3;
    next := Some(view);
  }

  /** What the listeners make of an event; one that cannot be read changes nothing. */
  function Handled(v: View, e: Event): View {
    if e.name == "presence-snapshot" then
      match ReadSnapshot(e.data)
      case Some(w) => w
      case None => v
    else if e.name == "presence-peer-joined" || e.name == "presence-peer-updated" then
      match (SlugOf(e.data.Field("room")), ReadPeer(e.data.Field("peer")))
      case (Some(r), Some(p)) => v.With(r, Without(v.At(r), p.id) + [p])
      case _ => v
    else if e.name == "presence-peer-left" then
      match (SlugOf(e.data.Field("room")), e.data.Field("id"))
      case (Some(r), Some(Str(id))) => v.With(r, Without(v.At(r), id))
      case _ => v
    else v
  }

  // ---- Whatever comes in ----

  ghost predicate Has(j: Json, name: string) {
    j.Obj? && name in j.fields
  }

  /** An object with a text for an id is a peer, and nothing else is. */
  ghost predicate IsPeer(j: Json) {
    Has(j, "id") && j.fields["id"].Str?
  }

  lemma PeerReadExactly(j: Json)
    ensures ReadPeer(Some(j)).Some? <==> IsPeer(j)
    ensures IsPeer(j) ==> ReadPeer(Some(j)).value.id == j.fields["id"].s
  {
  }

  /** The items at these places, in order, are those listed, and there is no other peer. */
  ghost predicate Picks(items: seq<Json>, at: seq<nat>, listed: seq<Summary>) {
    && |at| == |listed|
    && (forall k :: 0 <= k < |at| ==> at[k] < |items| && ReadPeer(Some(items[at[k]])) == Some(listed[k]))
    && (forall k, l :: 0 <= k < l < |at| ==> at[k] < at[l])
    && (forall i :: 0 <= i < |items| && IsPeer(items[i]) ==> i in at)
  }

  /** Of some items just the peers are listed, in their order. */
  lemma {:induction false} PeersReadExactly(items: seq<Json>) returns (at: seq<nat>)
    ensures Picks(items, at, ReadPeers(items))
  {
    hide ReadPeer, Picks;
    if items == [] {
      at := [];
      NothingPicked();
    } else {
      var more := PeersReadExactly(items[1..]);
      PeerReadExactly(items[0]);
      at := Shifted(more);
      PickedLater(items, more, ReadPeers(items[1..]));
      if IsPeer(items[0]) {
        at := [0] + at;
        assert ReadPeers(items) == [ReadPeer(Some(items[0])).value] + ReadPeers(items[1..]);
        PickedFirst(items, Shifted(more), ReadPeers(items[1..]));
      } else {
        assert ReadPeers(items) == ReadPeers(items[1..]);
        PickedNone(items, at, ReadPeers(items[1..]));
      }
    }
  }

  lemma NothingPicked()
    ensures Picks([], [], [])
  {
  }

  function Shifted(at: seq<nat>): (r: seq<nat>)
    ensures |r| == |at| && forall k :: 0 <= k < |at| ==> r[k] == at[k] + 1
  {
    seq(|at|, k requires 0 <= k < |at| => at[k] + 1)
  }

  /** The places of a tail, seen from before its first item. */
  ghost predicate PicksAfter(items: seq<Json>, at: seq<nat>, listed: seq<Summary>) {
    && |at| == |listed|
    && (forall k :: 0 <= k < |at| ==> 0 < at[k] < |items| && ReadPeer(Some(items[at[k]])) == Some(listed[k]))
    && (forall k, l :: 0 <= k < l < |at| ==> at[k] < at[l])
    && (forall i :: 0 < i < |items| && IsPeer(items[i]) ==> i in at)
  }

  lemma PickedLater(items: seq<Json>, more: seq<nat>, listed: seq<Summary>)
    requires items != [] && Picks(items[1..], more, listed)
    ensures PicksAfter(items, Shifted(more), listed)
  {
    hide ReadPeer, IsPeer;
    var at := Shifted(more);
    forall i | 0 < i < |items| && IsPeer(items[i])
      ensures i in at
    {
      assert items[1..][i - 1] == items[i];
      var k :| 0 <= k < |more| && more[k] == i - 1;
      assert at[k] == i;
    }
    assert forall k :: 0 <= k < |at| ==> items[at[k]] == items[1..][more[k]];
  }

  lemma PickedFirst(items: seq<Json>, at: seq<nat>, listed: seq<Summary>)
    requires items != [] && PicksAfter(items, at, listed) && ReadPeer(Some(items[0])).Some?
    ensures Picks(items, [0] + at, [ReadPeer(Some(items[0])).value] + listed)
  {
    hide ReadPeer, IsPeer;
  }

  lemma PickedNone(items: seq<Json>, at: seq<nat>, listed: seq<Summary>)
    requires items != [] && PicksAfter(items, at, listed) && !IsPeer(items[0])
    ensures Picks(items, at, listed)
  {
    hide ReadPeer, IsPeer;
  }

  /** A snapshot counts if its rooms are an object, be it an array. */
  lemma SnapshotReadExactly(data: Json)
    ensures ReadSnapshot(data).Some?
            <==> Has(data, "rooms") && (data.fields["rooms"].Arr? || data.fields["rooms"].Obj?)
  {
  }

  /** Any other event changes no room but the one it names, and that only if it is a departure with
      an id or brings a peer. */
  lemma OthersIgnored(v: View, e: Event, r: Slug)
    requires e.name != "presence-snapshot" && Handled(v, e).At(r) != v.At(r)
    ensures Has(e.data, "room") && e.data.fields["room"] == Str(SlugName(r))
    ensures || (e.name == "presence-peer-left" && Has(e.data, "id") && e.data.fields["id"].Str?)
            || (e.name in ["presence-peer-joined", "presence-peer-updated"]
                && Has(e.data, "peer") && IsPeer(e.data.fields["peer"]))
  {
    hide Without, ReadPeer;
    if e.name == "presence-peer-joined" || e.name == "presence-peer-updated" {
      if e.data.Field("peer").Some? { PeerReadExactly(e.data.Field("peer").value); }
      NoPeer();
    }
  }

  lemma NoPeer()
    ensures ReadPeer(None) == None
  {
  }

  // ---- What the server prints ----

  /** An empty name and a false flag are not printed; what else is does not matter here. */
  ghost predicate PrintsPeer(j: Json, p: PeerInfo) {
    && j.Obj? && j.Field("id") == Some(Str(p.id))
    && j.Field("displayName") == (if p.displayName == "" then None else Some(Str(p.displayName)))
    && j.Field("chatOnly") == (if p.chatOnly then Some(Bool(true)) else None)
  }

  ghost predicate PrintsRoom(j: Option<Json>, peers: seq<PeerInfo>) {
    && j.Some? && j.value.Field("peers").Some? && j.value.Field("peers").value.Arr?
    && var items := j.value.Field("peers").value.items;
       |items| == |peers| && forall i :: 0 <= i < |items| ==> PrintsPeer(items[i], peers[i])
  }

  ghost predicate Prints(e: Event, f: Frame) {
    match f
    case Snapshot(rooms) =>
      && e.name == "presence-snapshot" && e.data.Field("rooms").Some? && e.data.Field("rooms").value.Obj?
      && forall r: Slug ::
           var room := e.data.Field("rooms").value.Field(SlugName(r));
           if r in rooms then PrintsRoom(room, rooms[r]) else room.None?
    case PeerJoined(room, peer) =>
      && e.name == "presence-peer-joined" && e.data.Field("room") == Some(Str(SlugName(room)))
      && e.data.Field("peer").Some? && PrintsPeer(e.data.Field("peer").value, peer)
    case PeerUpdated(room, peer) =>
      && e.name == "presence-peer-updated" && e.data.Field("room") == Some(Str(SlugName(room)))
      && e.data.Field("peer").Some? && PrintsPeer(e.data.Field("peer").value, peer)
    case PeerLeft(room, id) =>
      && e.name == "presence-peer-left" && e.data.Field("room") == Some(Str(SlugName(room)))
      && e.data.Field("id") == Some(Str(id))
  }

  lemma PeerBack(j: Json, p: PeerInfo)
    requires PrintsPeer(j, p)
    ensures ReadPeer(Some(j)) == Some(ParsePeer(p))
  {
    assert JsTrim("") == "";
  }

  lemma {:induction false} PeersBack(items: seq<Json>, peers: seq<PeerInfo>)
    requires |items| == |peers| && forall i :: 0 <= i < |items| ==> PrintsPeer(items[i], peers[i])
    ensures ReadPeers(items) == ParsePeers(peers)
  {
    hide PrintsPeer, ReadPeer, ParsePeer;
    if items != [] {
      PeerBack(items[0], peers[0]);
      PeersBack(items[1..], peers[1..]);
      assert ParsePeers(peers) == [ParsePeer(peers[0])] + ParsePeers(peers[1..]);
    }
  }

  lemma RoomBack(rooms: Json, r: Slug, listed: map<Slug, seq<PeerInfo>>)
    requires var room := rooms.Field(SlugName(r)); if r in listed then PrintsRoom(room, listed[r]) else room.None?
    ensures ReadRoom(rooms, r) == Listed(listed, r)
  {
    hide PrintsPeer, ReadPeers, ParsePeers;
    if r in listed {
      PeersBack(rooms.Field(SlugName(r)).value.Field("peers").value.items, listed[r]);
    }
  }

  /** The client merges what the server prints as the frame it stands for. */
  lemma PrintedIsMerged(v: View, e: Event, f: Frame)
    requires Prints(e, f)
    ensures Handled(v, e) == Merged(v, f)
  {
    hide PrintsRoom, PrintsPeer, ReadPeer, ReadRoom, ParsePeer, Without, Listed;
    match f
    case Snapshot(rooms) =>
      forall r: Slug
        ensures ReadRoom(e.data.Field("rooms").value, r) == Listed(rooms, r)
      {
        RoomBack(e.data.Field("rooms").value, r, rooms);
      }
    case PeerJoined(room, peer) => UpsertBack(e, room, peer);
    case PeerUpdated(room, peer) => UpsertBack(e, room, peer);
    case PeerLeft(room, id) => NameBack(room);
  }

  lemma NameBack(r: Slug)
    ensures SlugOf(Some(Str(SlugName(r)))) == Some(r)
  {
  }

  lemma UpsertBack(e: Event, room: Slug, peer: PeerInfo)
    requires e.data.Field("room") == Some(Str(SlugName(room)))
    requires e.data.Field("peer").Some? && PrintsPeer(e.data.Field("peer").value, peer)
    ensures SlugOf(e.data.Field("room")) == Some(room) && ReadPeer(e.data.Field("peer")) == Some(ParsePeer(peer))
    ensures ParsePeer(peer).id == peer.id
  {
    NameBack(room);
    PeerBack(e.data.Field("peer").value, peer);
  }
}
