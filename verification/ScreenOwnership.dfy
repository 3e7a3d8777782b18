/** Ownership of screen sessions when the handlers interleave: each section under a lock is a step. */
module ScreenOwnership {
  import opened Basics

  type PeerId = nat
  type SessionId = nat
  type Token = nat

  /** Set up, registered, closed but still registered, and gone. */
  datatype Phase = Created | Live | Closed | Gone

  datatype Share = Share(publisher: PeerId, token: Token, phase: Phase, grace: bool)

  /** A present peer and the session it owns. */
  datatype Holder = Holder(client: string, session: Option<SessionId>)

  datatype State = State(peers: map<PeerId, Holder>, byToken: map<Token, SessionId>, shares: map<SessionId, Share>,
                         used: set<PeerId>)

  datatype Step =
    | Join(peer: PeerId, client: string)
    | Remove(peer: PeerId)
    | ArmGrace(session: SessionId)
    | Create(peer: PeerId, session: SessionId, token: Token)
    | Register(session: SessionId)
    | Resume(peer: PeerId, token: Token)
    | Close(session: SessionId)
    | Unregister(session: SessionId)

  // ---- Sections under a lock ----

  function Joined(st: State, p: PeerId, client: string): State {
    st.(peers := (map q | q in st.peers && (client == "" || st.peers[q].client != client) :: st.peers[q])
                   [p := Holder(client, None)],
        used := st.used + {p})
  }

  function Armed(st: State, s: SessionId): State
    requires s in st.shares
  {
    if st.shares[s].phase in {Closed, Gone} then st else st.(shares := st.shares[s := st.shares[s].(grace := true)])
  }

  /** The start's second section: the peer may have gone or begun another share meanwhile. */
  function Registered(st: State, s: SessionId): State
    requires s in st.shares
  {
    var p := st.shares[s].publisher;
    if p in st.peers && st.peers[p].session.None? then
      st.(peers := st.peers[p := st.peers[p].(session := Some(s))], byToken := st.byToken[st.shares[s].token := s],
          shares := st.shares[s := st.shares[s].(phase := Live)])
    else st.(shares := st.shares[s := st.shares[s].(phase := Gone)])
  }

  datatype Claim = Claimed | InvalidToken | AlreadyPublishing | Absent

  function Claims(st: State, p: PeerId, token: Token): Claim {
    if token !in st.byToken || st.byToken[token] !in st.shares then InvalidToken
    else
      var s := st.byToken[token];
      if st.shares[s].publisher in st.peers && st.shares[s].publisher != p then InvalidToken
      else if p !in st.peers then Absent
      else if st.peers[p].session.Some? && st.peers[p].session != Some(s) then AlreadyPublishing
      else if st.shares[s].phase != Live then InvalidToken
      else Claimed
  }

  function Resumed(st: State, p: PeerId, token: Token): State {
    if !Claims(st, p, token).Claimed? then st
    else
      var s := st.byToken[token];
      st.(shares := st.shares[s := st.shares[s].(publisher := p, grace := false)],
          peers := st.peers[p := st.peers[p].(session := Some(s))])
  }

  /** The first section of an end; a second end finds the session closed. */
  function Shut(st: State, s: SessionId): State
    requires s in st.shares
  {
    if st.shares[s].phase == Live then st.(shares := st.shares[s := st.shares[s].(phase := Closed, grace := false)])
    else st
  }

  /** The last section of an end. */
  function Unregistered(st: State, s: SessionId): State
    requires s in st.shares
  {
    var p := st.shares[s].publisher;
    st.(byToken := st.byToken - {st.shares[s].token}, shares := st.shares[s := st.shares[s].(phase := Gone)],
        peers := if p in st.peers && st.peers[p].session == Some(s)
                 then st.peers[p := st.peers[p].(session := None)] else st.peers)
  }

  /** An end is for a session that has been registered; who asks for it does not matter here. */
  ghost predicate Next(st: State, step: Step, t: State) {
    match step
    case Join(p, client) => p !in st.used && t == Joined(st, p, client)
    case Remove(p) => p in st.peers && t == st.(peers := st.peers - {p})
    case ArmGrace(s) => s in st.shares && st.shares[s].phase != Created && t == Armed(st, s)
    case Create(p, s, token) =>
      && p in st.used && s !in st.shares && (forall r :: r in st.shares ==> st.shares[r].token != token)
      && t == st.(shares := st.shares[s := Share(p, token, Created, false)])
    case Register(s) => s in st.shares && st.shares[s].phase == Created && t == Registered(st, s)
    case Resume(p, token) => t == Resumed(st, p, token)
    case Close(s) => s in st.shares && st.shares[s].phase != Created && t == Shut(st, s)
    case Unregister(s) => s in st.shares && st.shares[s].phase == Closed && t == Unregistered(st, s)
  }

  ghost predicate Run(trace: seq<State>, steps: seq<Step>) {
    && |trace| == |steps| + 1 && trace[0] == State(map[], map[], map[], {})
    && forall i, j :: 0 <= i < |steps| && j == i + 1 ==> Next(trace[i], steps[i], trace[j])
  }

  // ---- What holds between any two of them ----

  function SessionOf(st: State, p: PeerId): Option<SessionId> {
    if p in st.peers then st.peers[p].session else None
  }

  predicate OnRecord(st: State, s: SessionId) {
    s in st.shares && st.shares[s].phase in {Live, Closed}
  }

  /** An owner is the publisher of a session on record. */
  ghost predicate OwnersPublish(st: State) {
    forall p :: SessionOf(st, p).Some? ==>
      OnRecord(st, SessionOf(st, p).value) && st.shares[SessionOf(st, p).value].publisher == p
  }

  /** A session on record is found by its token, and a present publisher owns it. */
  ghost predicate RecordsKept(st: State) {
    forall s :: OnRecord(st, s) ==>
      && st.shares[s].token in st.byToken && st.byToken[st.shares[s].token] == s
      && (st.shares[s].publisher in st.peers ==> SessionOf(st, st.shares[s].publisher) == Some(s))
  }

  ghost predicate TokensTrue(st: State) {
    forall t :: t in st.byToken ==> OnRecord(st, st.byToken[t]) && st.shares[st.byToken[t]].token == t
  }

  ghost predicate OnePublisherEach(st: State) {
    forall s, r :: OnRecord(st, s) && OnRecord(st, r) && s != r ==> st.shares[s].publisher != st.shares[r].publisher
  }

  ghost predicate Known(st: State) {
    && (forall p :: p in st.peers ==> p in st.used)
    && (forall s :: s in st.shares ==> st.shares[s].publisher in st.used)
    && (forall s, r :: s in st.shares && r in st.shares && s != r ==> st.shares[s].token != st.shares[r].token)
  }

  ghost predicate Inv(st: State) {
    OwnersPublish(st) && RecordsKept(st) && TokensTrue(st) && OnePublisherEach(st) && Known(st)
  }

  lemma RegisterKeeps(st: State, s: SessionId)
    requires Inv(st) && s in st.shares && st.shares[s].phase == Created
    ensures Inv(Registered(st, s))
  {
    var p := st.shares[s].publisher;
    if p in st.peers && st.peers[p].session.None? {
      TakenUp(st, p, s);
    } else {
      QuietKeeps(st, Registered(st, s));
    }
  }

  lemma TakenUp(st: State, p: PeerId, s: SessionId)
    requires Inv(st) && s in st.shares && st.shares[s].phase == Created && st.shares[s].publisher == p
    requires p in st.peers && st.peers[p].session.None?
    ensures Inv(Registered(st, s))
  {
    var t := Registered(st, s);
    forall r | OnRecord(st, r)
      ensures st.shares[r].publisher != p && r != s
    {
      assert st.shares[r].publisher in st.peers ==> SessionOf(st, st.shares[r].publisher) == Some(r);
    }
    assert forall r :: OnRecord(t, r) <==> r == s || OnRecord(st, r);
    assert forall q :: SessionOf(t, q) == if q == p then Some(s) else SessionOf(st, q);
    assert t.shares == st.shares[s := st.shares[s].(phase := Live)] && t.byToken == st.byToken[st.shares[s].token := s];
    assert t.peers.Keys == st.peers.Keys && t.used == st.used;
    hide SessionOf, OnRecord, Registered;
  }

  lemma ResumeKeeps(st: State, p: PeerId, token: Token)
    requires Inv(st)
    ensures Inv(Resumed(st, p, token))
  {
    if Claims(st, p, token).Claimed? {
      var s, t := st.byToken[token], Resumed(st, p, token);
      assert OnRecord(st, s);
      forall r | OnRecord(st, r) && r != s
        ensures st.shares[r].publisher != p
      {
        assert st.shares[r].publisher in st.peers ==> SessionOf(st, st.shares[r].publisher) == Some(r);
      }
      assert forall r :: OnRecord(t, r) <==> OnRecord(st, r);
      assert forall q :: SessionOf(t, q) == if q == p then Some(s) else SessionOf(st, q);
      hide SessionOf, OnRecord;
    }
  }

  lemma UnregisterKeeps(st: State, s: SessionId)
    requires Inv(st) && s in st.shares && st.shares[s].phase == Closed
    ensures Inv(Unregistered(st, s))
  {
    var p, t := st.shares[s].publisher, Unregistered(st, s);
    assert OnRecord(st, s);
    assert forall r :: OnRecord(t, r) <==> r != s && OnRecord(st, r);
    assert forall q :: SessionOf(t, q) == if SessionOf(st, q) == Some(s) then None else SessionOf(st, q);
    assert t.byToken == st.byToken - {st.shares[s].token} && t.shares == st.shares[s := st.shares[s].(phase := Gone)];
    assert t.peers.Keys == st.peers.Keys && t.used == st.used;
    hide SessionOf, OnRecord, Unregistered;
  }

  /** Peers come and go, sessions change phase or grace without going off the record. */
  lemma QuietKeeps(st: State, t: State)
    requires Inv(st) && t.byToken == st.byToken && t.shares.Keys == st.shares.Keys
    requires forall s :: s in st.shares ==>
                           t.shares[s].publisher == st.shares[s].publisher && t.shares[s].token == st.shares[s].token
    requires forall s :: OnRecord(t, s) <==> OnRecord(st, s)
    requires forall p :: p in st.used ==> p in t.used
    requires forall p :: p in t.peers ==>
                           if p in st.peers then t.peers[p] == st.peers[p]
                           else t.peers[p].session.None? && p !in st.used && p in t.used
    ensures Inv(t)
  {
    assert forall q :: SessionOf(t, q) == if q in t.peers then SessionOf(st, q) else None;
    hide OnRecord;
  }

  lemma CreateKeeps(st: State, p: PeerId, s: SessionId, token: Token)
    requires Inv(st) && p in st.used && s !in st.shares && forall r :: r in st.shares ==> st.shares[r].token != token
    ensures Inv(st.(shares := st.shares[s := Share(p, token, Created, false)]))
  {
    var t := st.(shares := st.shares[s := Share(p, token, Created, false)]);
    assert forall r :: OnRecord(t, r) <==> OnRecord(st, r);
    assert forall q :: SessionOf(t, q) == SessionOf(st, q);
    assert forall r :: OnRecord(st, r) ==> r != s && t.shares[r] == st.shares[r];
    hide OnRecord, SessionOf;
  }

  lemma JoinKeeps(st: State, p: PeerId, client: string)
    requires Inv(st) && p !in st.used
    ensures Inv(Joined(st, p, client))
  {
    assert p !in st.peers;
    hide Inv;
    QuietKeeps(st, Joined(st, p, client));
  }

  lemma StepKeeps(st: State, step: Step, t: State)
    requires Inv(st) && Next(st, step, t)
    ensures Inv(t)
  {
    hide Inv;
    match step
    case Join(p, client) => JoinKeeps(st, p, client);
    case Remove(p) => QuietKeeps(st, t);
    case ArmGrace(s) => QuietKeeps(st, t);
    case Create(p, s, token) => CreateKeeps(st, p, s, token);
    case Register(s) => RegisterKeeps(st, s);
    case Resume(p, token) => ResumeKeeps(st, p, token);
    case Close(s) => QuietKeeps(st, t);
    case Unregister(s) => UnregisterKeeps(st, s);
  }

  lemma {:induction false} RunInv(trace: seq<State>, steps: seq<Step>, i: nat)
    requires Run(trace, steps) && i < |trace|
    ensures Inv(trace[i])
  {
    hide Next;
    if i > 0 {
      hide Inv;
      RunInv(trace, steps, i - 1);
      StepKeeps(trace[i - 1], steps[i - 1], trace[i]);
    }
  }

  /** However the sections interleave: a session has one present owner at most, the peer it names,
      and its token finds it. */
  lemma OneOwner(trace: seq<State>, steps: seq<Step>, i: nat, p: PeerId, s: SessionId)
    requires Run(trace, steps) && i < |trace| && SessionOf(trace[i], p) == Some(s)
    ensures var st := trace[i];
            && s in st.shares && st.shares[s].publisher == p
            && st.shares[s].token in st.byToken && st.byToken[st.shares[s].token] == s
            && forall q :: SessionOf(st, q) == Some(s) ==> q == p
  {
    RunInv(trace, steps, i);
    assert OnRecord(trace[i], s);
  }

  predicate Over(st: State, s: SessionId) {
    s in st.shares && st.shares[s].phase in {Closed, Gone}
  }

  /** A closed session stays closed, keeps its publisher and gets no new owner. */
  lemma StepsNeverReopen(st: State, step: Step, t: State, s: SessionId)
    requires Inv(st) && Next(st, step, t) && Over(st, s)
    ensures Over(t, s) && t.shares[s].publisher == st.shares[s].publisher
    ensures forall p :: SessionOf(t, p) == Some(s) ==> SessionOf(st, p) == Some(s)
  {
  }

  lemma {:induction false} NeverClaimedAgain(trace: seq<State>, steps: seq<Step>, i: nat, j: nat, s: SessionId)
    requires Run(trace, steps) && i <= j < |trace| && Over(trace[i], s)
    ensures Over(trace[j], s) && trace[j].shares[s].publisher == trace[i].shares[s].publisher
    ensures forall p :: SessionOf(trace[j], p) == Some(s) ==> SessionOf(trace[i], p) == Some(s)
    decreases j
  {
    hide Next, Over, SessionOf;
    if i < j {
      NeverClaimedAgain(trace, steps, i, j - 1, s);
      RunInv(trace, steps, j - 1);
      StepsNeverReopen(trace[j - 1], steps[j - 1], trace[j], s);
    }
  }

  /** From the first section of its end on, a session is over and no resume gets it. */
  lemma EndedForGood(trace: seq<State>, steps: seq<Step>, i: nat, j: nat, s: SessionId)
    requires Run(trace, steps) && i < |steps| && steps[i] == Close(s) && i < j < |trace|
    ensures Over(trace[j], s)
    ensures forall p, token :: Claims(trace[j], p, token).Claimed? ==> trace[j].byToken[token] != s
  {
    assert Next(trace[i], steps[i], trace[i + 1]);
    NeverClaimedAgain(trace, steps, i + 1, j, s);
  }

  /** A peer that is present goes just by its removal or when another joins for its named client. */
  lemma PeersGoExactly(st: State, step: Step, t: State, q: PeerId)
    requires Inv(st) && Next(st, step, t) && q in st.peers
    ensures q !in t.peers <==>
              step == Remove(q) || (step.Join? && step.client != "" && st.peers[q].client == step.client)
    ensures q in t.peers ==> t.peers[q].client == st.peers[q].client
  {
    assert q in st.used;
    hide OwnersPublish, RecordsKept, TokensTrue, OnePublisherEach;
  }

  /** A session is registered at most once, also when its registration finds its peer gone or busy. */
  lemma RegisteredOnce(trace: seq<State>, steps: seq<Step>, i: nat, j: nat, s: SessionId)
    requires Run(trace, steps) && i < j < |steps| && steps[i] == Register(s)
    ensures steps[j] != Register(s)
  {
    assert Next(trace[i], steps[i], trace[i + 1]);
    SetUpOnce(trace, steps, i + 1, j, s);
    assert Next(trace[j], steps[j], trace[j + 1]);
  }

  lemma {:induction false} SetUpOnce(trace: seq<State>, steps: seq<Step>, i: nat, j: nat, s: SessionId)
    requires Run(trace, steps) && i <= j < |trace| && s in trace[i].shares && trace[i].shares[s].phase != Created
    ensures s in trace[j].shares && trace[j].shares[s].phase != Created
    decreases j
  {
    hide Next;
    if i < j {
      SetUpOnce(trace, steps, i, j - 1, s);
      assert Next(trace[j - 1], steps[j - 1], trace[j]);
      PastSetUp(trace[j - 1], steps[j - 1], trace[j], s);
    }
  }

  lemma PastSetUp(st: State, step: Step, t: State, s: SessionId)
    requires Next(st, step, t) && s in st.shares && st.shares[s].phase != Created
    ensures s in t.shares && t.shares[s].phase != Created
  {
  }

  /** A resume is granted just when the token is that of a live session, the peer is there and
      owns no other, and no other peer owns it; a refusal changes nothing. */
  lemma ResumeExactly(trace: seq<State>, steps: seq<Step>, i: nat, p: PeerId, token: Token)
    requires Run(trace, steps) && i < |trace|
    ensures var st := trace[i];
            && (Claims(st, p, token).Claimed?
                <==> p in st.peers
                     && exists s :: s in st.shares && st.shares[s].phase == Live && st.shares[s].token == token
                                    && SessionOf(st, p) in [None, Some(s)]
                                    && forall q :: SessionOf(st, q) == Some(s) ==> q == p)
            && (!Claims(st, p, token).Claimed? ==> Resumed(st, p, token) == st)
  {
    RunInv(trace, steps, i);
    var st := trace[i];
    if p in st.peers {
      forall s | s in st.shares && st.shares[s].phase == Live && st.shares[s].token == token
        ensures token in st.byToken && st.byToken[token] == s
        ensures st.shares[s].publisher in st.peers ==> SessionOf(st, st.shares[s].publisher) == Some(s)
      {
        assert OnRecord(st, s);
      }
      if token in st.byToken { assert OnRecord(st, st.byToken[token]); }
    }
  }

  /** Arming the grace window is a section of its own, and it does not ask who owns the session
      by then. Wherever a session is shared, its owner's removal, a resume by a new peer and only
      then the arming are steps the room can take; the window then runs for a session that has
      an owner again. `OwnedGraceExactly` says in which runs it does. */
  lemma GraceCanMeetAnOwner(st: State, p: PeerId, q: PeerId, s: SessionId)
    requires Inv(st) && SessionOf(st, p) == Some(s) && s in st.shares && st.shares[s].phase == Live && q !in st.used
    ensures var token := st.shares[s].token;
            var gone := st.(peers := st.peers - {p});
            var back := Joined(gone, q, "");
            var resumed := Resumed(back, q, token);
            var armed := Armed(resumed, s);
            && Next(st, Remove(p), gone) && Next(gone, Join(q, ""), back) && Next(back, Resume(q, token), resumed)
            && Next(resumed, ArmGrace(s), armed)
            && SessionOf(armed, q) == Some(s) && armed.shares[s].grace
  {
    assert OnRecord(st, s) && st.shares[s].publisher == p;
    var gone := st.(peers := st.peers - {p});
    var back := Joined(gone, q, "");
    assert back.peers[q] == Holder("", None) && p !in back.peers by { assert p in st.used; }
    hide Inv, OnRecord;
  }

  // ---- When a window runs for an owned session ----

  /** The step is a resume of this session that is granted. */
  predicate Reclaims(st: State, step: Step, s: SessionId) {
    step.Resume? && Claims(st, step.peer, step.token).Claimed? && st.byToken[step.token] == s
  }

  /** Step `k` arms the window of a live session that the peer owns by then. */
  predicate ArmsOwned(st: State, step: Step, p: PeerId, s: SessionId) {
    step == ArmGrace(s) && SessionOf(st, p) == Some(s) && s in st.shares && st.shares[s].phase == Live
  }

  /** Since such a step nobody has claimed the session again and it has not been closed. */
  ghost predicate ArmedSince(trace: seq<State>, steps: seq<Step>, i: nat, p: PeerId, s: SessionId)
    requires i <= |steps| < |trace|
  {
    exists k :: 0 <= k < i && ArmsOwned(trace[k], steps[k], p, s)
                && forall j :: k < j < i ==> steps[j] != Close(s) && !Reclaims(trace[j], steps[j], s)
  }

  /** A window runs for live sessions alone. */
  ghost predicate GraceLive(st: State) {
    forall s :: s in st.shares && st.shares[s].grace ==> st.shares[s].phase == Live
  }

  lemma {:induction false} RunGraceLive(trace: seq<State>, steps: seq<Step>, i: nat)
    requires Run(trace, steps) && i < |trace|
    ensures GraceLive(trace[i])
  {
    hide Next, GraceLive;
    if i == 0 {
      NoGraceYet(trace, steps);
    } else {
      RunGraceLive(trace, steps, i - 1);
      GraceLiveStep(trace[i - 1], steps[i - 1], trace[i]);
    }
  }

  lemma NoGraceYet(trace: seq<State>, steps: seq<Step>)
    requires Run(trace, steps)
    ensures GraceLive(trace[0])
  {
  }

  lemma GraceLiveStep(st: State, step: Step, t: State)
    requires GraceLive(st) && Next(st, step, t)
    ensures GraceLive(t)
  {
  }

  /** What one section does to the window of a session that has its owner afterwards. */
  lemma GraceStep(st: State, step: Step, t: State, p: PeerId, s: SessionId)
    requires Inv(st) && GraceLive(st) && Next(st, step, t) && SessionOf(t, p) == Some(s) && s in t.shares
    ensures SessionOf(st, p) != Some(s) ==>
              !t.shares[s].grace && (Reclaims(st, step, s) || (s in st.shares && st.shares[s].phase == Created))
    ensures SessionOf(st, p) == Some(s) ==>
              s in st.shares
              && t.shares[s].grace == (ArmsOwned(st, step, p, s)
                                       || (st.shares[s].grace && step != Close(s) && !Reclaims(st, step, s)))
  {
  }

  lemma ArmedStep(trace: seq<State>, steps: seq<Step>, i: nat, p: PeerId, s: SessionId)
    requires 0 < i <= |steps| < |trace|
    ensures ArmedSince(trace, steps, i, p, s)
            <==> || ArmsOwned(trace[i - 1], steps[i - 1], p, s)
                 || (ArmedSince(trace, steps, i - 1, p, s) && steps[i - 1] != Close(s)
                    && !Reclaims(trace[i - 1], steps[i - 1], s))
  {
    hide ArmsOwned, Reclaims;
  }

  /** A session that has been set up never goes back to being set up. */
  lemma {:induction false} NeverCreatedAgain(trace: seq<State>, steps: seq<Step>, i: nat, j: nat, s: SessionId)
    requires Run(trace, steps) && i <= j < |trace| && s in trace[i].shares && trace[i].shares[s].phase != Created
    ensures s in trace[j].shares && trace[j].shares[s].phase != Created
    decreases j
  {
    hide Next;
    if i < j {
      NeverCreatedAgain(trace, steps, i, j - 1, s);
      StaysSetUp(trace[j - 1], steps[j - 1], trace[j], s);
    }
  }

  lemma StaysSetUp(st: State, step: Step, t: State, s: SessionId)
    requires Next(st, step, t) && s in st.shares && st.shares[s].phase != Created
    ensures s in t.shares && t.shares[s].phase != Created
  {
  }

  /** While a session has its owner, its window runs just when the arming section ran with that
      owner there and the session live, and nobody has claimed or closed the session since. */
  lemma {:induction false} OwnedGraceExactly(trace: seq<State>, steps: seq<Step>, i: nat, p: PeerId, s: SessionId)
    requires Run(trace, steps) && i < |trace| && SessionOf(trace[i], p) == Some(s)
    ensures s in trace[i].shares && (trace[i].shares[s].grace <==> ArmedSince(trace, steps, i, p, s))
  {
    hide Inv, Next, SessionOf, ArmsOwned, Reclaims, ArmedSince, Claims, GraceLive;
    OneOwner(trace, steps, i, p, s);
    assert i > 0 by { NothingOwned(trace[0], p); }
    var n := i - 1;
    RunInv(trace, steps, n);
    RunGraceLive(trace, steps, n);
    GraceStep(trace[n], steps[n], trace[i], p, s);
    ArmedStep(trace, steps, i, p, s);
    if SessionOf(trace[n], p) == Some(s) {
      OwnedGraceExactly(trace, steps, n, p, s);
    } else {
      OnlyOwned(trace[n], steps[n], p, s);
      if ArmedSince(trace, steps, n, p, s) { ArmedLeftCreated(trace, steps, n, p, s); }
    }
  }

  lemma NothingOwned(st: State, p: PeerId)
    requires st.peers == map[]
    ensures SessionOf(st, p) == None
  {
  }

  lemma OnlyOwned(st: State, step: Step, p: PeerId, s: SessionId)
    ensures ArmsOwned(st, step, p, s) ==> SessionOf(st, p) == Some(s)
  {
  }

  lemma ArmedLeftCreated(trace: seq<State>, steps: seq<Step>, i: nat, p: PeerId, s: SessionId)
    requires Run(trace, steps) && i <= |steps| && ArmedSince(trace, steps, i, p, s)
    ensures s in trace[i].shares && trace[i].shares[s].phase != Created
  {
    hide Next, Reclaims;
    var k :| 0 <= k < i && ArmsOwned(trace[k], steps[k], p, s)
             && forall j :: k < j < i ==> steps[j] != Close(s) && !Reclaims(trace[j], steps[j], s);
    NeverCreatedAgain(trace, steps, k, i, s);
  }
}
