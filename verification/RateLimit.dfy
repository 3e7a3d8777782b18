/** Token buckets per key, with idle and oldest buckets evicted when the map is full. */
module RateLimiting {
  import opened Basics

  type Key = string

  /** Tokens per second, burst, idle seconds after which a bucket may go, and the cap. */
  datatype Config = Config(rate: real, burst: nat, ttl: real, maxKeys: nat) {
    ghost predicate Valid() { rate >= 0.0 && ttl >= 0.0 }
    function Full(): real { burst as real }
  }

  datatype Bucket = Bucket(tokens: real, last: real)

  type Buckets = map<Key, Bucket>

  datatype Answer = Allowed | Retry(after: real)

  function Min(a: real, b: real): real {
    if a < b then a else b
  }

  function Elapsed(last: real, now: real): real {
    if now > last then now - last else 0.0
  }

  /** Tokens gained in `dt` seconds, and seconds to gain what is missing. */
  function Gain(rate: real, dt: real): real {
    dt * rate
  }

  function Wait(rate: real, missing: real): real {
    if rate <= 0.0 then 0.0 else missing / rate
  }

  /** The bucket refilled up to `now`. */
  function Refill(c: Config, b: Bucket, now: real): Bucket {
    Bucket(Min(b.tokens + Gain(c.rate, Elapsed(b.last, now)), c.Full()), now)
  }

  /** One event on a bucket: a token is taken if there is one. */
  function Use(c: Config, b: Bucket, now: real): (Bucket, Answer) {
    var r := Refill(c, b, now);
    if r.tokens >= 1.0 then (r.(tokens := r.tokens - 1.0), Allowed)
    else (r, Retry(Wait(c.rate, 1.0 - r.tokens)))
  }

  function NewBucket(c: Config, now: real): Bucket {
    Bucket(c.Full(), now)
  }

  function Retained(m: Buckets, ttl: real, now: real): (r: Buckets)
    ensures r.Keys <= m.Keys && |r| <= |m|
    ensures r.Keys == m.Keys ==> r == m
  {
    var r := map k | k in m && Elapsed(m[k].last, now) <= ttl :: m[k];
    SubsetSize(r.Keys, m.Keys);
    r
  }

  ghost predicate Oldest(m: Buckets, k: Key) {
    k in m && forall j :: j in m ==> m[k].last <= m[j].last
  }

  /** Idle buckets go; if there is none, the one named goes. */
  function Evicted(m: Buckets, ttl: real, now: real, victim: Key): Buckets {
    var r := Retained(m, ttl, now);
    if |r| < |m| then r else m - {victim}
  }

  /** A call, with the bucket picked among the oldest should one have to go. */
  datatype Call = Call(key: Key, now: real, victim: Key)

  predicate MustEvict(c: Config, m: Buckets, call: Call) {
    call.key !in m && |m| >= c.maxKeys
  }

  /** The call removes the named bucket although none was idle. */
  predicate Forces(c: Config, m: Buckets, call: Call) {
    MustEvict(c, m, call) && m != map[] && |Retained(m, c.ttl, call.now)| == |m|
  }

  function Step(c: Config, m: Buckets, call: Call): (Buckets, Answer) {
    var m := if MustEvict(c, m, call) then Evicted(m, c.ttl, call.now, call.victim) else m;
    var b := if call.key in m then m[call.key] else NewBucket(c, call.now);
    var (b', a) := Use(c, b, call.now);
    (m[call.key := b'], a)
  }

  class Limiter {
    const cfg: Config
    var buckets: Buckets

    constructor (c: Config)
      ensures cfg == c && buckets == map[]
    {
      cfg, buckets := c, map[];
    }

    method Evict(now: real) returns (ghost victim: Key)
      modifies this
      ensures buckets == Evicted(old(buckets), cfg.ttl, now, victim)
      ensures |Retained(old(buckets), cfg.ttl, now)| == |old(buckets)| && old(buckets) != map[] ==>
                Oldest(old(buckets), victim)
    {
      victim := "";
      var before := |buckets|;
      var kept := Retained(buckets, cfg.ttl, now);
      SubsetSize(kept.Keys, buckets.Keys);
      buckets := kept;
      if |buckets| < before {
        return;
      }
      if buckets != map[] {
        OldestExists(buckets);
        var k :| k in buckets && forall j :: j in buckets ==> buckets[k].last <= buckets[j].last;
        buckets := buckets - {k};
        victim := k;
      }
    }

    /** One call: the whole table after it, and the answer. `victim` is the bucket that had to make
        room, an oldest one. */
    method AllowAt(key: Key, now: real) returns (a: Answer, ghost victim: Key)
      modifies this
      ensures (buckets, a) == Step(cfg, old(buckets), Call(key, now, victim))
      ensures Forces(cfg, old(buckets), Call(key, now, victim)) ==> Oldest(old(buckets), victim)
    {
      hide Retained, Evicted, Use;
      victim := "";
      if key !in buckets && |buckets| >= cfg.maxKeys {
        victim := Evict(now);
      }
      var b := if key in buckets then buckets[key] else NewBucket(cfg, now);
      b, a := TakeToken(b, now);
      buckets := buckets[key := b];
    }

    method TakeToken(b: Bucket, now: real) returns (b': Bucket, a: Answer)
      ensures (b', a) == Use(cfg, b, now)
    {
      hide Gain, Wait;
      var tokens := Min(b.tokens + Gain(cfg.rate, Elapsed(b.last, now)), cfg.Full());
      if tokens >= 1.0 {
        return Bucket(tokens - 1.0, now), Allowed;
      }
      return Bucket(tokens, now), Retry(Wait(cfg.rate, 1.0 - tokens));
    }
  }

  lemma {:induction false} OldestExists(m: Buckets)
    requires m != map[]
    ensures exists k :: Oldest(m, k)
    decreases |m|
  {
    var x :| x in m;
    var r := m - {x};
    assert r.Keys == m.Keys - {x};
    if r == map[] {
      assert forall j :: j in m.Keys && j != x ==> j in r.Keys;
      assert Oldest(m, x);
    } else {
      OldestExists(r);
      var y :| Oldest(r, y);
      assert forall j :: j in m ==> j == x || j in r;
      assert Oldest(m, if m[x].last <= m[y].last then x else y);
    }
  }

  // ---- Runs ----

  function After(c: Config, calls: seq<Call>): Buckets {
    if calls == [] then map[]
    else Step(c, After(c, calls[..|calls| - 1]), calls[|calls| - 1]).0
  }

  function AnswerTo(c: Config, calls: seq<Call>, i: nat): Answer
    requires i < |calls|
  {
    Step(c, After(c, calls[..i]), calls[i]).1
  }

  /** Times do not go back, and a bucket removed while none was idle is an oldest one. */
  ghost predicate Legal(c: Config, calls: seq<Call>) {
    && (forall i :: 0 <= i < |calls| ==> calls[i].now >= 0.0)
    && (forall i, j :: 0 <= i <= j < |calls| ==> calls[i].now <= calls[j].now)
    && (forall i :: 0 <= i < |calls| && Forces(c, After(c, calls[..i]), calls[i]) ==>
          Oldest(After(c, calls[..i]), calls[i].victim))
  }

  /** The key's bucket is never the one removed for being oldest. */
  ghost predicate NotForced(c: Config, calls: seq<Call>, k: Key) {
    forall i :: 0 <= i < |calls| && Forces(c, After(c, calls[..i]), calls[i]) ==> calls[i].victim != k
  }

  lemma LegalPrefix(c: Config, calls: seq<Call>, n: nat, k: Key)
    requires n <= |calls| && Legal(c, calls)
    ensures Legal(c, calls[..n])
    ensures NotForced(c, calls, k) ==> NotForced(c, calls[..n], k)
  {
    hide Forces, After, Oldest;
    assert forall i :: 0 <= i < n ==> calls[..n][..i] == calls[..i];
  }

  /** The map never outgrows the cap. */
  lemma {:induction false} SizeBounded(c: Config, calls: seq<Call>)
    requires c.maxKeys >= 1 && Legal(c, calls)
    ensures |After(c, calls)| <= c.maxKeys
  {
    if calls != [] {
      var n := |calls| - 1;
      LegalPrefix(c, calls, n, "");
      SizeBounded(c, calls[..n]);
      StepSize(c, After(c, calls[..n]), calls[n]);
    }
  }

  lemma EvictedSize(m: Buckets, ttl: real, now: real, victim: Key)
    requires |Retained(m, ttl, now)| == |m| ==> victim in m
    ensures |Evicted(m, ttl, now, victim)| < |m|
  {
    if |Retained(m, ttl, now)| == |m| {
      assert (m - {victim}).Keys == m.Keys - {victim};
    }
  }

  lemma StepSize(c: Config, m: Buckets, call: Call)
    requires c.maxKeys >= 1 && |m| <= c.maxKeys
    requires Forces(c, m, call) ==> Oldest(m, call.victim)
    ensures |Step(c, m, call).0| <= c.maxKeys
  {
    hide Retained, Use, Evicted;
    var e := if MustEvict(c, m, call) then Evicted(m, c.ttl, call.now, call.victim) else m;
    if MustEvict(c, m, call) {
      EvictedSize(m, c.ttl, call.now, call.victim);
    }
    assert Step(c, m, call).0.Keys == e.Keys + {call.key};
    assert call.key in m ==> e.Keys + {call.key} == e.Keys;
  }

  // ---- A bucket that nothing evicts ----

  /** The bucket of `k` if it were full from the start and never evicted. */
  function Ideal(c: Config, calls: seq<Call>, k: Key): Bucket {
    if calls == [] then NewBucket(c, 0.0)
    else
      var b, call := Ideal(c, calls[..|calls| - 1], k), calls[|calls| - 1];
      if call.key == k then Use(c, b, call.now).0 else b
  }

  function IdealAnswer(c: Config, calls: seq<Call>, i: nat): Answer
    requires i < |calls|
  {
    Use(c, Ideal(c, calls[..i], calls[i].key), calls[i].now).1
  }

  lemma RateOver(r: real, a: real, d: real)
    requires r >= 0.0 && a >= 0.0 && d >= 0.0
    ensures Gain(r, a + d) == Gain(r, a) + Gain(r, d)
    ensures Gain(r, a) >= 0.0 && Gain(r, d) >= 0.0
  {
  }

  ghost predicate Sane(c: Config, b: Bucket, now: real) {
    0.0 <= b.tokens <= c.Full() && b.last <= now
  }

  /** Refilling gains at most the rate, and not less than what was there. */
  lemma RefillGain(c: Config, b: Bucket, s: real, t: real)
    requires c.Valid() && Sane(c, b, s) && s <= t
    ensures Refill(c, b, s).tokens <= Refill(c, b, t).tokens <= Refill(c, b, s).tokens + Gain(c.rate, t - s)
    ensures b.tokens <= Refill(c, b, s).tokens <= c.Full()
  {
    hide Gain, Wait;
    RateOver(c.rate, s - b.last, t - s);
    assert Elapsed(b.last, s) == s - b.last && Elapsed(b.last, t) == (s - b.last) + (t - s);
  }

  lemma UseSane(c: Config, b: Bucket, now: real)
    requires c.Valid() && Sane(c, b, now)
    ensures Sane(c, Use(c, b, now).0, now)
    ensures Refill(c, Use(c, b, now).0, now).tokens
            == Refill(c, b, now).tokens - if Use(c, b, now).1 == Allowed then 1.0 else 0.0
  {
    RateOver(c.rate, 0.0, 0.0);
    hide Gain, Wait;
    RefillGain(c, b, now, now);
  }

  lemma {:induction false} IdealSane(c: Config, calls: seq<Call>, k: Key, now: real)
    requires c.Valid() && Legal(c, calls) && now >= 0.0
    requires calls != [] ==> calls[|calls| - 1].now <= now
    ensures Sane(c, Ideal(c, calls, k), now)
  {
    hide Gain, Wait;
    if calls != [] {
      var n := |calls| - 1;
      LegalPrefix(c, calls, n, k);
      IdealSane(c, calls[..n], k, calls[n].now);
      UseSane(c, Ideal(c, calls[..n], k), calls[n].now);
    }
  }

  /** Events for `k` that were let through among calls i to j - 1. */
  function IdealCount(c: Config, calls: seq<Call>, k: Key, i: nat, j: nat): nat
    requires i <= j <= |calls|
  {
    if i == j then 0
    else IdealCount(c, calls, k, i, j - 1)
         + if calls[j - 1].key == k && IdealAnswer(c, calls, j - 1) == Allowed then 1 else 0
  }

  /** One call takes what it lets through from what is there at its time. */
  lemma IdealTakes(c: Config, calls: seq<Call>, k: Key, n: nat)
    requires c.Valid() && Legal(c, calls) && n < |calls|
    ensures var t := calls[n].now;
            && Refill(c, Ideal(c, calls[..n + 1], k), t).tokens + IdealCount(c, calls, k, n, n + 1) as real
               == Refill(c, Ideal(c, calls[..n], k), t).tokens <= c.Full()
  {
    hide Gain, Wait, Forces, Step;
    var t := calls[n].now;
    LegalPrefix(c, calls, n, k);
    IdealSane(c, calls[..n], k, t);
    UseSane(c, Ideal(c, calls[..n], k), t);
    RefillGain(c, Ideal(c, calls[..n], k), t, t);
    assert calls[..n + 1][..n] == calls[..n];
  }

  /** What is let through and what is left never exceed the burst and the refill. */
  lemma {:induction false} IdealBound(c: Config, calls: seq<Call>, k: Key, i: nat, j: nat)
    requires c.Valid() && Legal(c, calls) && i < j <= |calls|
    ensures IdealCount(c, calls, k, i, j) as real + Refill(c, Ideal(c, calls[..j], k), calls[j - 1].now).tokens
            <= c.Full() + Gain(c.rate, calls[j - 1].now - calls[i].now)
    decreases j
  {
    hide Refill, Ideal, IdealAnswer, After, Forces, Gain, Wait;
    var n, t := j - 1, calls[j - 1].now;
    IdealTakes(c, calls, k, n);
    RateOver(c.rate, 0.0, 0.0);
    assert IdealCount(c, calls, k, n, n) == 0;
    if i < n {
      IdealBound(c, calls, k, i, n);
      var s := calls[n - 1].now;
      LegalPrefix(c, calls, n, k);
      IdealSane(c, calls[..n], k, s);
      var b := Ideal(c, calls[..n], k);
      RefillGain(c, b, s, t);
      SpanStep(c.Full(), c.rate, s - calls[i].now, t - s, IdealCount(c, calls, k, i, n) as real,
               Refill(c, b, s).tokens, Refill(c, b, t).tokens);
      assert t - calls[i].now == (s - calls[i].now) + (t - s);
    }
  }

  lemma SpanStep(full: real, rate: real, u: real, d: real, count: real, left: real, gained: real)
    requires rate >= 0.0 && u >= 0.0 && d >= 0.0
    requires count + left <= full + Gain(rate, u) && gained <= left + Gain(rate, d)
    ensures count + gained <= full + Gain(rate, u + d)
  {
    hide Gain, Wait;
    RateOver(rate, u, d);
  }

  // ---- Eviction is invisible when an idle bucket would be full anyway ----

  /** `k`'s bucket is the ideal one, or has gone while the ideal one is full. */
  ghost predicate Agrees(c: Config, m: Buckets, b: Bucket, k: Key, now: real) {
    if k in m then m[k] == b else Refill(c, b, now).tokens == c.Full()
  }

  lemma EvictionAgrees(c: Config, m: Buckets, b: Bucket, k: Key, s: real, call: Call)
    requires c.Valid() && Gain(c.rate, c.ttl) >= c.Full() && Sane(c, b, s) && s <= call.now
    requires Agrees(c, m, b, k, s) && (Forces(c, m, call) ==> call.victim != k)
    ensures MustEvict(c, m, call) ==> Agrees(c, Evicted(m, c.ttl, call.now, call.victim), b, k, call.now)
    ensures Agrees(c, m, b, k, call.now)
  {
    hide Gain, Wait;
    RefillGain(c, b, s, call.now);
    RefillGain(c, b, call.now, call.now);
    var e := Elapsed(b.last, call.now);
    if e > c.ttl {
      RateOver(c.rate, c.ttl, e - c.ttl);
      assert Gain(c.rate, e) >= c.Full();
      assert Refill(c, b, call.now).tokens == c.Full();
    }
    SubsetSize(Retained(m, c.ttl, call.now).Keys, m.Keys);
  }

  lemma StepAgrees(c: Config, m: Buckets, b: Bucket, k: Key, s: real, call: Call)
    requires c.Valid() && Gain(c.rate, c.ttl) >= c.Full() && Sane(c, b, s) && s <= call.now
    requires Agrees(c, m, b, k, s) && (Forces(c, m, call) ==> call.victim != k)
    ensures call.key == k ==> Step(c, m, call).1 == Use(c, b, call.now).1
    ensures Agrees(c, Step(c, m, call).0, if call.key == k then Use(c, b, call.now).0 else b, k, call.now)
  {
    hide Gain, Wait;
    EvictionAgrees(c, m, b, k, s, call);
    RefillGain(c, NewBucket(c, call.now), call.now, call.now);
    hide Evicted, MustEvict;
  }

  lemma {:induction false} RunAgrees(c: Config, calls: seq<Call>, k: Key)
    requires c.Valid() && Gain(c.rate, c.ttl) >= c.Full() && Legal(c, calls) && NotForced(c, calls, k)
    ensures var now := if calls == [] then 0.0 else calls[|calls| - 1].now;
            Agrees(c, After(c, calls), Ideal(c, calls, k), k, now)
  {
    hide Gain, Wait;
    if calls != [] {
      var n := |calls| - 1;
      LegalPrefix(c, calls, n, k);
      RunAgrees(c, calls[..n], k);
      var s := if n == 0 then 0.0 else calls[n - 1].now;
      IdealSane(c, calls[..n], k, s);
      StepAgrees(c, After(c, calls[..n]), Ideal(c, calls[..n], k), k, s, calls[n]);
    } else {
      RefillGain(c, NewBucket(c, 0.0), 0.0, 0.0);
    }
  }

  /** Every answer to a key that is not forced out is the one without any eviction. */
  lemma EvictionInvisible(c: Config, calls: seq<Call>, i: nat)
    requires c.Valid() && Gain(c.rate, c.ttl) >= c.Full() && Legal(c, calls) && i < |calls|
    requires NotForced(c, calls, calls[i].key)
    ensures AnswerTo(c, calls, i) == IdealAnswer(c, calls, i)
  {
    hide Gain, Wait;
    var k := calls[i].key;
    LegalPrefix(c, calls, i, k);
    RunAgrees(c, calls[..i], k);
    var s := if i == 0 then 0.0 else calls[i - 1].now;
    IdealSane(c, calls[..i], k, s);
    StepAgrees(c, After(c, calls[..i]), Ideal(c, calls[..i], k), k, s, calls[i]);
  }

  /** Events for `k` let through by the limiter among calls i to j - 1. */
  function Count(c: Config, calls: seq<Call>, k: Key, i: nat, j: nat): nat
    requires i <= j <= |calls|
  {
    if i == j then 0
    else Count(c, calls, k, i, j - 1) + if calls[j - 1].key == k && AnswerTo(c, calls, j - 1) == Allowed then 1 else 0
  }

  lemma {:induction false} CountIsIdeal(c: Config, calls: seq<Call>, k: Key, i: nat, j: nat)
    requires c.Valid() && Gain(c.rate, c.ttl) >= c.Full() && Legal(c, calls) && NotForced(c, calls, k)
    requires i <= j <= |calls|
    ensures Count(c, calls, k, i, j) == IdealCount(c, calls, k, i, j)
    decreases j
  {
    hide Gain, Wait, AnswerTo, IdealAnswer, Legal, NotForced;
    if i < j {
      CountIsIdeal(c, calls, k, i, j - 1);
      if calls[j - 1].key == k {
        EvictionInvisible(c, calls, j - 1);
      }
    }
  }

  /** In any span of a run, a key not forced out gets at most the burst plus the rate
      times the length of the span. */
  ghost predicate SpanBound(c: Config, calls: seq<Call>, k: Key) {
    forall i, j :: 0 <= i < j <= |calls| ==>
                     Count(c, calls, k, i, j) as real <= c.Full() + Gain(c.rate, calls[j - 1].now - calls[i].now)
  }

  lemma SpanBoundHolds(c: Config, calls: seq<Call>, k: Key)
    requires c.Valid() && Gain(c.rate, c.ttl) >= c.Full() && Legal(c, calls) && NotForced(c, calls, k)
    ensures SpanBound(c, calls, k)
  {
    hide Gain, Wait;
    forall i, j | 0 <= i < j <= |calls|
      ensures Count(c, calls, k, i, j) as real <= c.Full() + Gain(c.rate, calls[j - 1].now - calls[i].now)
    {
      CountIsIdeal(c, calls, k, i, j);
      IdealBound(c, calls, k, i, j);
      LegalPrefix(c, calls, j, k);
      IdealSane(c, calls[..j], k, calls[j - 1].now);
      RefillGain(c, Ideal(c, calls[..j], k), calls[j - 1].now, calls[j - 1].now);
    }
  }

  // ---- A call that comes in late ----

  const LATE_CONFIG := Config(1.0, 1, 600.0, 1)
  const LATE_RUN: seq<Call> := [Call("", 10.0, ""), Call("", 9.0, ""), Call("", 10.0, "")]

  /** A call that read its clock before another one and comes in after it puts the bucket's time back,
      and the time in between refills it twice: two events pass at one moment with a burst of one. */
  lemma LateCallRefills()
    ensures forall i :: 0 <= i < 3 ==> !MustEvict(LATE_CONFIG, After(LATE_CONFIG, LATE_RUN[..i]), LATE_RUN[i])
    ensures AnswerTo(LATE_CONFIG, LATE_RUN, 0) == Allowed && AnswerTo(LATE_CONFIG, LATE_RUN, 1) == Retry(1.0)
    ensures AnswerTo(LATE_CONFIG, LATE_RUN, 2) == Allowed && !SpanBound(LATE_CONFIG, LATE_RUN, "")
  {
    hide SpanBound, Count;
    LateSteps();
    hide Step, MustEvict;
    var c, r := LATE_CONFIG, LATE_RUN;
    assert r[..0] == [] && r[..1][..0] == [] && r[..2][..1] == r[..1];
    assert After(c, r[..1]) == map["" := Bucket(0.0, 10.0)];
    assert After(c, r[..2]) == map["" := Bucket(0.0, 9.0)];
    LateCount();
  }

  lemma LateCount()
    requires AnswerTo(LATE_CONFIG, LATE_RUN, 0) == Allowed && AnswerTo(LATE_CONFIG, LATE_RUN, 2) == Allowed
    ensures !SpanBound(LATE_CONFIG, LATE_RUN, "")
  {
    hide AnswerTo;
    var c, r := LATE_CONFIG, LATE_RUN;
    assert Count(c, r, "", 0, 0) == 0;
    assert Count(c, r, "", 0, 1) == 1;
    assert Count(c, r, "", 0, 2) >= 1;
    assert Count(c, r, "", 0, 3) >= 2;
    assert Gain(c.rate, r[2].now - r[0].now) == 0.0;
  }

  lemma LateSteps()
    ensures var c, r, m, n := LATE_CONFIG, LATE_RUN, map["" := Bucket(0.0, 10.0)], map["" := Bucket(0.0, 9.0)];
            && !MustEvict(c, map[], r[0]) && Step(c, map[], r[0]) == (m, Allowed)
            && !MustEvict(c, m, r[1]) && Step(c, m, r[1]) == (n, Retry(1.0))
            && !MustEvict(c, n, r[2]) && Step(c, n, r[2]).1 == Allowed
  {
    var m: Buckets, n: Buckets := map["" := Bucket(0.0, 10.0)], map["" := Bucket(0.0, 9.0)];
    assert m["" := Bucket(0.0, 9.0)] == n;
  }

  // ---- The answer's waiting time ----

  lemma OtherKeyStep(c: Config, m: Buckets, k: Key, call: Call)
    requires call.key != k
    ensures k in Step(c, m, call).0 ==> k in m && Step(c, m, call).0[k] == m[k]
  {
  }

  lemma {:induction false} KeptUntouched(c: Config, calls: seq<Call>, k: Key, i: nat, j: nat)
    requires i <= j <= |calls| && forall n :: i <= n < j ==> calls[n].key != k
    ensures k in After(c, calls[..j]) ==>
              k in After(c, calls[..i]) && After(c, calls[..j])[k] == After(c, calls[..i])[k]
    decreases j
  {
    if i < j {
      KeptUntouched(c, calls, k, i, j - 1);
      assert calls[..j][..j - 1] == calls[..j - 1];
      OtherKeyStep(c, After(c, calls[..j - 1]), k, calls[j - 1]);
    }
  }

  lemma WaitRefills(rate: real, missing: real, e: real)
    requires rate > 0.0 && e >= Wait(rate, missing)
    ensures Gain(rate, e) >= missing
  {
    var d := Wait(rate, missing);
    assert d * rate == missing;
    assert (e - d) * rate >= 0.0;
  }

  lemma WaitNeeded(rate: real, missing: real, e: real)
    requires rate > 0.0 && e < Wait(rate, missing)
    ensures Gain(rate, e) < missing
  {
    var d := Wait(rate, missing);
    assert d * rate == missing;
    assert (d - e) * rate > 0.0;
  }

  /** The bucket that a refusal leaves is the one that the next use finds, if any. */
  lemma RefusedBucket(c: Config, calls: seq<Call>, i: nat, j: nat) returns (u: Bucket)
    requires i < j < |calls| && calls[j].key == calls[i].key && forall n :: i < n < j ==> calls[n].key != calls[i].key
    requires calls[i].key in After(c, calls[..j])
    ensures AnswerTo(c, calls, i) == Use(c, u, calls[i].now).1
    ensures After(c, calls[..j])[calls[i].key] == Use(c, u, calls[i].now).0
  {
    hide Use, Evicted, MustEvict;
    var k := calls[i].key;
    KeptUntouched(c, calls, k, i + 1, j);
    assert calls[..i + 1][..i] == calls[..i];
    u :| AnswerTo(c, calls, i) == Use(c, u, calls[i].now).1
         && After(c, calls[..i + 1])[k] == Use(c, u, calls[i].now).0;
  }

  /** The answer goes by the bucket there, or by a full one. */
  lemma AnswerFrom(c: Config, calls: seq<Call>, j: nat)
    requires j < |calls|
    ensures var k, m, t := calls[j].key, After(c, calls[..j]), calls[j].now;
            AnswerTo(c, calls, j) == Use(c, if k in m then m[k] else NewBucket(c, t), t).1
  {
    hide Use, After;
    var m := After(c, calls[..j]);
    if MustEvict(c, m, calls[j]) { assert calls[j].key !in Evicted(m, c.ttl, calls[j].now, calls[j].victim); }
  }

  /** After a refusal, the next use of the key succeeds once the time answered is over,
      whatever other keys did and whether or not the bucket was evicted meanwhile. */
  lemma RetryWorks(c: Config, calls: seq<Call>, i: nat, j: nat)
    requires c.Valid() && c.rate > 0.0 && c.burst >= 1 && Legal(c, calls) && i < j < |calls|
    requires calls[j].key == calls[i].key && forall n :: i < n < j ==> calls[n].key != calls[i].key
    requires AnswerTo(c, calls, i).Retry? && calls[j].now >= calls[i].now + AnswerTo(c, calls, i).after
    ensures AnswerTo(c, calls, j) == Allowed
  {
    hide AnswerTo, After, Use, Legal;
    AnswerFrom(c, calls, j);
    if calls[i].key in After(c, calls[..j]) {
      var u := RefusedBucket(c, calls, i, j);
      RefusedThenAllowed(c, u, calls[i].now, calls[j].now);
    } else {
      FreshUse(c, 0, calls[j].now);
    }
  }

  /** No sooner either: while the bucket is there, the next use of the key is refused again unless
      the time answered is over. Without a refill the answer is no time, and it is refused for good. */
  lemma RetryNoSooner(c: Config, calls: seq<Call>, i: nat, j: nat)
    requires c.Valid() && c.burst >= 1 && Legal(c, calls) && i < j < |calls|
    requires calls[j].key == calls[i].key && forall n :: i < n < j ==> calls[n].key != calls[i].key
    requires AnswerTo(c, calls, i).Retry?
    ensures var after := AnswerTo(c, calls, i).after;
            && (c.rate == 0.0 ==> after == 0.0)
            && (AnswerTo(c, calls, j) == Allowed <==>
                  calls[i].key !in After(c, calls[..j]) || (c.rate > 0.0 && calls[j].now >= calls[i].now + after))
  {
    hide After, Use;
    assert calls[j].now >= calls[i].now;
    if c.rate == 0.0 { NoRefillNoTime(c, calls, i); }
    hide AnswerTo, Legal;
    AnswerFrom(c, calls, j);
    if calls[i].key in After(c, calls[..j]) {
      var u := RefusedBucket(c, calls, i, j);
      RefusedUntil(c, u, calls[i].now, calls[j].now);
    } else {
      FreshUse(c, 0, calls[j].now);
    }
  }

  lemma NoRefillNoTime(c: Config, calls: seq<Call>, i: nat)
    requires i < |calls| && c.rate == 0.0 && AnswerTo(c, calls, i).Retry?
    ensures AnswerTo(c, calls, i).after == 0.0
  {
    hide After, Refill;
  }

  lemma RefusedUntil(c: Config, u: Bucket, s: real, t: real)
    requires c.Valid() && c.burst >= 1 && Use(c, u, s).1.Retry? && t >= s
    ensures Use(c, Use(c, u, s).0, t).1 == Allowed <==> c.rate > 0.0 && t >= s + Use(c, u, s).1.after
  {
    var b := Use(c, u, s).0;
    if c.rate == 0.0 {
    } else if t >= s + Use(c, u, s).1.after {
      RefusedThenAllowed(c, u, s, t);
    } else {
      WaitNeeded(c.rate, 1.0 - b.tokens, t - s);
      hide Gain, Wait;
      assert Elapsed(b.last, t) == t - s;
    }
  }

  lemma WaitPositive(rate: real, missing: real)
    requires missing >= 0.0
    ensures Wait(rate, missing) >= 0.0
  {
  }

  lemma RefusedThenAllowed(c: Config, u: Bucket, s: real, t: real)
    requires c.rate > 0.0 && c.burst >= 1 && Use(c, u, s).1.Retry? && t >= s + Use(c, u, s).1.after
    ensures Use(c, Use(c, u, s).0, t).1 == Allowed
  {
    var b := Use(c, u, s).0;
    WaitRefills(c.rate, 1.0 - b.tokens, t - s);
    WaitPositive(c.rate, 1.0 - b.tokens);
    hide Gain, Wait;
    assert Elapsed(b.last, t) == t - s;
  }

  lemma FreshUse(c: Config, n: nat, t: real)
    requires n < c.burst
    ensures Use(c, Bucket((c.burst - n) as real, t), t) == (Bucket((c.burst - n - 1) as real, t), Allowed)
  {
  }

  // ---- A bucket that goes before it is full comes back full ----

  const TARGET: Key := ""

  function Filler(i: nat): (k: Key)
    ensures |k| == i + 1
  {
    seq(i + 1, _ => 'k')
  }

  ghost function Fillers(n: nat): (s: set<Key>)
    ensures |s| == n && forall k :: k in s ==> 0 < |k| <= n
  {
    if n == 0 then {} else Fillers(n - 1) + {Filler(n - 1)}
  }

  /** The burst at once, then just after the ttl as many new keys as fit, then the burst again. */
  function Overuse(c: Config, t: real): (s: seq<Call>)
    ensures |s| == 2 * c.burst + c.maxKeys
  {
    seq(2 * c.burst + c.maxKeys, n requires 0 <= n => OveruseCall(c, t, n))
  }

  function OveruseCall(c: Config, t: real, n: nat): Call {
    if n < c.burst then Call(TARGET, 0.0, TARGET)
    else if n < c.burst + c.maxKeys then Call(Filler(n - c.burst), t, TARGET)
    else Call(TARGET, t, Filler(0))
  }

  ghost predicate Overusable(c: Config, t: real) {
    c.Valid() && c.burst >= 1 && c.maxKeys >= 1 && t > c.ttl
  }

  /** `j` new keys have come in beside the idle target. */
  ghost predicate Filling(m: Buckets, t: real, j: nat) {
    m.Keys == Fillers(j) + {TARGET} && m[TARGET].last == 0.0 && forall k :: k in Fillers(j) ==> m[k].last == t
  }

  /** Only new keys are left, as many as fit. */
  ghost predicate Filled(m: Buckets, t: real, n: nat) {
    m.Keys == Fillers(n) && forall k :: k in m ==> m[k].last == t
  }

  /** The map after `n` calls of that run. */
  ghost predicate OveruseState(c: Config, t: real, n: nat, m: Buckets) {
    var q := n - c.burst - c.maxKeys;
    if n == 0 then m == map[]
    else if n <= c.burst then m == map[TARGET := Bucket((c.burst - n) as real, 0.0)]
    else if q < 0 then Filling(m, t, n - c.burst)
    else if q == 0 then Filled(m, t, c.maxKeys)
    else TARGET in m && m[TARGET] == Bucket((c.burst - q) as real, t)
  }

  lemma {:induction false} FillersGrow(n: nat)
    ensures TARGET !in Fillers(n) && Filler(n) !in Fillers(n) && Filler(n) != TARGET
    ensures n > 0 ==> Filler(0) in Fillers(n)
    ensures Fillers(n + 1) == Fillers(n) + {Filler(n)}
  {
    if n > 1 { FillersGrow(n - 1); }
  }

  lemma StepWith(c: Config, m: Buckets, call: Call, m1: Buckets)
    requires m1 == if MustEvict(c, m, call) then Evicted(m, c.ttl, call.now, call.victim) else m
    ensures Step(c, m, call)
            == var (b, a) := Use(c, if call.key in m1 then m1[call.key] else NewBucket(c, call.now), call.now);
               (m1[call.key := b], a)
  {
  }

  lemma UseNow(c: Config, b: Bucket, t: real)
    ensures Use(c, b, t).0.last == t
  {
  }

  lemma FillingSize(m: Buckets, t: real, j: nat)
    requires Filling(m, t, j)
    ensures |m| == j + 1 && Filler(j) !in m && TARGET in m
  {
    FillersGrow(j);
    assert |m.Keys| == j + 1;
  }

  /** While there is room a new key just comes in. */
  lemma FillOne(c: Config, t: real, j: nat, m: Buckets, call: Call)
    requires Filling(m, t, j) && j + 1 < c.maxKeys && call == Call(Filler(j), t, TARGET)
    ensures Filling(Step(c, m, call).0, t, j + 1) && !Forces(c, m, call)
  {
    hide Gain, Wait;
    hide Use, Retained, Step, Fillers, Filler, Evicted;
    FillersGrow(j);
    FillingSize(m, t, j);
    StepWith(c, m, call, m);
    UseNow(c, NewBucket(c, t), t);
  }

  lemma KeptIfFresh(m: Buckets, ttl: real, now: real, k: Key)
    ensures k in Retained(m, ttl, now) <==> k in m && Elapsed(m[k].last, now) <= ttl
  {
  }

  /** Of a full map only the target is idle. */
  lemma OnlyTargetIdle(c: Config, t: real, j: nat, m: Buckets)
    requires Filling(m, t, j) && Overusable(c, t)
    ensures var r := Retained(m, c.ttl, t);
            r.Keys == Fillers(j) && |r| == j && |m| == j + 1 && forall k :: k in r ==> r[k].last == t
  {
    hide Fillers, Filler;
    FillersGrow(j);
    FillingSize(m, t, j);
    var r := Retained(m, c.ttl, t);
    forall k
      ensures k in r.Keys <==> k in Fillers(j)
    {
      KeptIfFresh(m, c.ttl, t, k);
    }
    assert |m.Keys| == j + 1 && r.Keys == m.Keys - {TARGET};
  }

  /** With the map full the idle target makes room. */
  lemma FillLast(c: Config, t: real, j: nat, m: Buckets, call: Call)
    requires Filling(m, t, j) && j + 1 == c.maxKeys && call == Call(Filler(j), t, TARGET)
    requires Overusable(c, t)
    ensures Filled(Step(c, m, call).0, t, j + 1) && !Forces(c, m, call)
  {
    hide Gain, Wait, Retained;
    hide Use, Step, Fillers, Filler;
    FillersGrow(j);
    FillingSize(m, t, j);
    OnlyTargetIdle(c, t, j, m);
    hide Filling;
    StepWith(c, m, call, Retained(m, c.ttl, t));
    UseNow(c, NewBucket(c, t), t);
  }

  /** The target comes back: an oldest new key goes, and the target's bucket is full. */
  lemma ComeBack(c: Config, t: real, m: Buckets, call: Call)
    requires Filled(m, t, c.maxKeys) && call == Call(TARGET, t, Filler(0)) && Overusable(c, t)
    ensures TARGET in Step(c, m, call).0 && Step(c, m, call).0[TARGET] == Bucket((c.burst - 1) as real, t)
    ensures Step(c, m, call).1 == Allowed && Oldest(m, Filler(0))
  {
    hide Gain, Wait;
    hide Use, Step, Retained, Evicted, Fillers, Filler;
    FillersGrow(c.maxKeys);
    assert |m.Keys| == c.maxKeys;
    var e := Evicted(m, c.ttl, t, call.victim);
    EvictedKeys(m, c.ttl, t, call.victim);
    StepWith(c, m, call, e);
    FreshUse(c, 0, t);
  }

  lemma EvictedKeys(m: Buckets, ttl: real, now: real, victim: Key)
    ensures Evicted(m, ttl, now, victim).Keys <= m.Keys
  {
  }

  lemma OveruseStep(c: Config, t: real, n: nat, m: Buckets)
    requires Overusable(c, t) && n < 2 * c.burst + c.maxKeys && OveruseState(c, t, n, m)
    ensures OveruseState(c, t, n + 1, Step(c, m, OveruseCall(c, t, n)).0)
    ensures OveruseCall(c, t, n).key == TARGET ==> Step(c, m, OveruseCall(c, t, n)).1 == Allowed
    ensures Forces(c, m, OveruseCall(c, t, n)) ==>
              Oldest(m, OveruseCall(c, t, n).victim) && OveruseCall(c, t, n).victim != TARGET
  {
    hide Gain, Wait;
    hide Use, Step, Retained, Evicted, Oldest, Filled, Filling, Fillers, Filler;
    var j, q, call := n - c.burst, n - c.burst - c.maxKeys, OveruseCall(c, t, n);
    if n < c.burst {
      SpendFirst(c, n, m, call);
    } else if q < 0 {
      if j == 0 { StartFilling(m, t); }
      if j + 1 < c.maxKeys { FillOne(c, t, j, m, call); } else { FillLast(c, t, j, m, call); }
    } else if q == 0 {
      ComeBack(c, t, m, call);
    } else {
      FreshUse(c, q, t);
      StepWith(c, m, call, m);
    }
  }

  lemma StartFilling(m: Buckets, t: real)
    requires m == map[TARGET := Bucket(0.0, 0.0)]
    ensures Filling(m, t, 0)
  {
    assert Fillers(0) == {};
  }

  lemma SpendFirst(c: Config, n: nat, m: Buckets, call: Call)
    requires n < c.burst && c.maxKeys >= 1 && call == Call(TARGET, 0.0, TARGET)
    requires m == if n == 0 then map[] else map[TARGET := Bucket((c.burst - n) as real, 0.0)]
    ensures Step(c, m, call) == (map[TARGET := Bucket((c.burst - n - 1) as real, 0.0)], Allowed)
    ensures !Forces(c, m, call)
  {
    hide Gain, Wait;
    hide Use, Step;
    FreshUse(c, n, 0.0);
    StepWith(c, m, call, m);
    var b := Bucket((c.burst - n - 1) as real, 0.0);
    assert m[TARGET := b] == map[TARGET := b];
  }

  /** Events for the target among the first `n` calls. */
  function TargetCalls(c: Config, n: nat): nat {
    if n <= c.burst then n else if n <= c.burst + c.maxKeys then c.burst else n - c.maxKeys
  }

  lemma {:induction false} OveruseRun(c: Config, t: real, n: nat)
    requires Overusable(c, t) && n <= 2 * c.burst + c.maxKeys
    ensures OveruseState(c, t, n, After(c, Overuse(c, t)[..n]))
    ensures Count(c, Overuse(c, t), TARGET, 0, n) == TargetCalls(c, n)
  {
    hide Gain, Wait, Use, Evicted, Retained, MustEvict;
    if n > 0 {
      OveruseRun(c, t, n - 1);
      hide OveruseState, Step, OveruseCall, Forces, After, Count, Overuse;
      var calls := Overuse(c, t);
      OveruseAt(c, t, n - 1);
      RunStep(c, calls, TARGET, n - 1);
      OveruseStep(c, t, n - 1, After(c, calls[..n - 1]));
      CallKey(c, t, n - 1);
    }
  }

  lemma OveruseAt(c: Config, t: real, n: nat)
    requires n < 2 * c.burst + c.maxKeys
    ensures Overuse(c, t)[n] == OveruseCall(c, t, n)
  {
  }

  lemma RunStep(c: Config, calls: seq<Call>, k: Key, n: nat)
    requires n < |calls|
    ensures After(c, calls[..n + 1]) == Step(c, After(c, calls[..n]), calls[n]).0
    ensures Count(c, calls, k, 0, n + 1) == Count(c, calls, k, 0, n)
            + if calls[n].key == k && Step(c, After(c, calls[..n]), calls[n]).1 == Allowed then 1 else 0
  {
    assert calls[..n + 1][..n] == calls[..n];
  }

  lemma CallKey(c: Config, t: real, n: nat)
    ensures OveruseCall(c, t, n).key == TARGET <==> n < c.burst || n >= c.burst + c.maxKeys
  {
  }

  /** The run is a legal one that never forces the target out, yet lets twice the burst through. */
  lemma OveruseBreaksBound(c: Config, t: real)
    requires Overusable(c, t) && Gain(c.rate, t) < c.Full()
    ensures Legal(c, Overuse(c, t)) && NotForced(c, Overuse(c, t), TARGET)
    ensures !SpanBound(c, Overuse(c, t), TARGET)
  {
    hide Gain, Wait;
    hide Step, OveruseState, Forces, After, AnswerTo, Count, Retained, Evicted, Fillers, Filling, Filled;
    var calls := Overuse(c, t);
    forall i | 0 <= i < |calls| && Forces(c, After(c, calls[..i]), calls[i])
      ensures Oldest(After(c, calls[..i]), calls[i].victim) && calls[i].victim != TARGET
    {
      OveruseRun(c, t, i);
      OveruseStep(c, t, i, After(c, calls[..i]));
    }
    OveruseRun(c, t, |calls|);
    assert calls[..|calls|] == calls;
    var n := |calls|;
    assert calls[n - 1].now - calls[0].now == t;
    assert Count(c, calls, TARGET, 0, n) as real > c.Full() + Gain(c.rate, calls[n - 1].now - calls[0].now);
  }

  lemma WaitBeyondTtl(c: Config) returns (t: real)
    requires c.Valid() && Gain(c.rate, c.ttl) < c.Full()
    ensures t > c.ttl && Gain(c.rate, t) < c.Full()
  {
    if c.rate == 0.0 {
      t := c.ttl + 1.0;
    } else {
      var d := (c.Full() - Gain(c.rate, c.ttl)) / (2.0 * c.rate);
      t := c.ttl + d;
      assert Gain(c.rate, d) == (c.Full() - Gain(c.rate, c.ttl)) / 2.0;
      RateOver(c.rate, c.ttl, d);
    }
  }

  /** The bound holds on all runs exactly when a bucket idle past the ttl would be full:
      otherwise evicting it gives tokens away. */
  lemma SpanBoundExactly(c: Config)
    requires c.Valid() && c.maxKeys >= 1
    ensures (forall calls, k :: Legal(c, calls) && NotForced(c, calls, k) ==> SpanBound(c, calls, k))
            <==> Gain(c.rate, c.ttl) >= c.Full()
  {
    hide Gain, Wait;
    if Gain(c.rate, c.ttl) >= c.Full() {
      forall calls, k | Legal(c, calls) && NotForced(c, calls, k)
        ensures SpanBound(c, calls, k)
      {
        SpanBoundHolds(c, calls, k);
      }
    } else {
      var t := WaitBeyondTtl(c);
      RateOver(c.rate, c.ttl, 0.0);
      OveruseBreaksBound(c, t);
    }
  }
}
