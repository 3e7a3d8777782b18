/** The temporal layer a viewer gets, stepped by sustained loss or sustained calm. */
module LayerControl {

  const SECOND: nat := 1_000_000_000

  /** From which per mille on loss is high and up to which it is low, how many nanoseconds a streak
      has to last, and the layer below which it does not lead. */
  datatype Policy = Policy(highLoss: nat, lowLoss: nat, highWindow: nat, lowWindow: nat, floor: int)

  const SHARP := Policy(50, 10, 2 * SECOND, 4 * SECOND, 0)
  const MOTION := Policy(120, 30, 3 * SECOND, 7 * SECOND, 1)

  datatype Mode = Sharp | Motion {
    function Pol(): Policy {
      if Motion? then MOTION else SHARP
    }
  }

  /** The target layer and the clocks of the two streaks; 0 means no streak. */
  datatype Layer = Layer(target: int, generation: int, highSince: int, lowSince: int)

  function Elapsed(since: int, now: int): nat {
    if now > since then now - since else 0
  }

  /** One evaluation of the loss `loss` at time `now`. */
  function Eval(l: Layer, loss: nat, now: int, p: Policy): (Layer, bool) {
    if loss >= p.highLoss then
      var l := l.(lowSince := 0);
      if l.target <= p.floor then (l.(highSince := 0), false)
      else if l.highSince == 0 then (l.(highSince := now), false)
      else if Elapsed(l.highSince, now) < p.highWindow then (l, false)
      else (l.(target := l.target - 1, generation := l.generation + 1, highSince := 0), true)
    else if loss <= p.lowLoss then
      var l := l.(highSince := 0);
      if l.target >= 2 then (l.(lowSince := 0), false)
      else if l.lowSince == 0 then (l.(lowSince := now), false)
      else if Elapsed(l.lowSince, now) < p.lowWindow then (l, false)
      else (l.(target := l.target + 1, generation := l.generation + 1, lowSince := 0), true)
    else
      (l.(highSince := 0, lowSince := 0), false)
  }

  class LayerCtl {
    var targetTemp: int
    var chainGen: int
    var lossPerMille: nat
    var highLossSince: int
    var lowLossSince: int

    function State(): Layer
      reads this
    {
      Layer(targetTemp, chainGen, highLossSince, lowLossSince)
    }

    constructor (target: int)
      ensures State() == Layer(target, 0, 0, 0) && lossPerMille == 0
    {
      targetTemp, chainGen, lossPerMille, highLossSince, lowLossSince := target, 0, 0, 0, 0;
    }

    method SetTargetTemp(layer: int)
      modifies this`targetTemp, this`chainGen
      ensures targetTemp == layer && chainGen == old(chainGen) + 1
    {
      targetTemp := layer;
      chainGen := chainGen + 1;
    }

    /** One evaluation; true if it moved the target by a layer. */
    method EvalAutoDowngrade(now: int, p: Policy) returns (changed: bool)
      modifies this`targetTemp, this`chainGen, this`highLossSince, this`lowLossSince
      ensures (State(), changed) == Eval(old(State()), lossPerMille, now, p)
    {
      var loss, target := lossPerMille, targetTemp;
      if loss >= p.highLoss {
        lowLossSince := 0;
        if target <= p.floor {
          highLossSince := 0;
          return false;
        }
        var since := highLossSince;
        if since == 0 {
          highLossSince := now;
          return false;
        }
        if Elapsed(since, now) < p.highWindow {
          return false;
        }
        SetTargetTemp(target - 1);
        highLossSince := 0;
        return true;
      }
      if loss <= p.lowLoss {
        highLossSince := 0;
        if target >= 2 {
          lowLossSince := 0;
          return false;
        }
        var since := lowLossSince;
        if since == 0 {
          lowLossSince := now;
          return false;
        }
        if Elapsed(since, now) < p.lowWindow {
          return false;
        }
        SetTargetTemp(target + 1);
        lowLossSince := 0;
        return true;
      }
      highLossSince := 0;
      lowLossSince := 0;
      return false;
    }
  }

  // ---- Whole runs ----

  /** An evaluation: the loss then, the time, and the mode the publisher had chosen. */
  datatype Sample = Sample(loss: nat, now: int, mode: Mode) {
    predicate High() { loss >= mode.Pol().highLoss }
    predicate Low() { !High() && loss <= mode.Pol().lowLoss }
  }

  function After(start: int, ss: seq<Sample>): Layer {
    if ss == [] then Layer(start, 0, 0, 0)
    else
      var s := ss[|ss| - 1];
      Eval(After(start, ss[..|ss| - 1]), s.loss, s.now, s.mode.Pol()).0
  }

  /** The target before and after evaluation `i`. */
  function Target(start: int, ss: seq<Sample>, i: nat): int
    requires i <= |ss|
  {
    After(start, ss[..i]).target
  }

  predicate Changes(start: int, ss: seq<Sample>, i: nat)
    requires i < |ss|
  {
    Eval(After(start, ss[..i]), ss[i].loss, ss[i].now, ss[i].mode.Pol()).1
  }

  /** Clocks are positive (the streak fields use 0 for "none") and never go back. */
  ghost predicate Clocked(ss: seq<Sample>) {
    && (forall i :: 0 <= i < |ss| ==> ss[i].now > 0)
    && (forall i, j :: 0 <= i <= j < |ss| ==> ss[i].now <= ss[j].now)
  }

  lemma AfterStep(start: int, ss: seq<Sample>, i: nat)
    requires i < |ss|
    ensures After(start, ss[..i + 1])
            == Eval(After(start, ss[..i]), ss[i].loss, ss[i].now, ss[i].mode.Pol()).0
  {
    assert ss[..i + 1][..i] == ss[..i];
  }

  /** Evaluation `k` is high and a layer above the floor of its mode, or low and below the top layer. */
  predicate Due(start: int, ss: seq<Sample>, high: bool, k: nat)
    requires k < |ss|
  {
    if high then ss[k].High() && Target(start, ss, k) > ss[k].mode.Pol().floor
    else ss[k].Low() && Target(start, ss, k) < 2
  }

  /** From `from` to before `to` every evaluation is due for a change in one direction, and none is made. */
  ghost predicate Streak(start: int, ss: seq<Sample>, high: bool, from: nat, to: nat)
    requires to <= |ss|
  {
    from < to && forall k :: from <= k < to ==> Due(start, ss, high, k) && !Changes(start, ss, k)
  }

  function Since(l: Layer, high: bool): int {
    if high then l.highSince else l.lowSince
  }

  function Window(s: Sample, high: bool): nat {
    if high then s.mode.Pol().highWindow else s.mode.Pol().lowWindow
  }

  /** The clock runs, and runs from the start of a streak. */
  ghost predicate Running(start: int, ss: seq<Sample>, high: bool, since: int, to: nat)
    requires to <= |ss|
  {
    exists from: nat :: Streak(start, ss, high, from, to) && ss[from].now == since
  }

  /** One evaluation starts, keeps or stops the clocks. */
  lemma EvalClocks(l: Layer, loss: nat, now: int, p: Policy)
    requires 0 <= l.target <= 2 && 0 <= p.floor && (l.highSince == 0 || l.lowSince == 0)
    ensures var (l', changed) := Eval(l, loss, now, p);
            && 0 <= l'.target <= 2 && (l'.highSince == 0 || l'.lowSince == 0)
            && l'.highSince == (if loss >= p.highLoss && l.target > p.floor && !changed
                                then if l.highSince == 0 then now else l.highSince else 0)
            && l'.lowSince == (if loss < p.highLoss && loss <= p.lowLoss && l.target < 2 && !changed
                               then if l.lowSince == 0 then now else l.lowSince else 0)
  {
  }

  /** At most one clock runs, and it runs from the first evaluation of an unbroken
      streak that has not changed the layer; the target is in range. */
  lemma {:induction false} Clocks(start: int, ss: seq<Sample>, i: nat)
    requires 0 <= start <= 2 && i <= |ss| && Clocked(ss)
    ensures var l := After(start, ss[..i]);
            && 0 <= l.target <= 2 && (l.highSince == 0 || l.lowSince == 0)
            && (l.highSince != 0 ==> Running(start, ss, true, l.highSince, i))
            && (l.lowSince != 0 ==> Running(start, ss, false, l.lowSince, i))
  {
    hide Clocked, Running;
    if i > 0 {
      hide After;
      Clocks(start, ss, i - 1);
      ClocksStep(start, ss, i - 1, i);
    }
  }

  lemma ClocksStep(start: int, ss: seq<Sample>, n: nat, i: nat)
    requires n < |ss| && i == n + 1
    requires var l := After(start, ss[..n]);
             && 0 <= l.target <= 2 && (l.highSince == 0 || l.lowSince == 0)
             && (l.highSince != 0 ==> Running(start, ss, true, l.highSince, n))
             && (l.lowSince != 0 ==> Running(start, ss, false, l.lowSince, n))
    ensures var l := After(start, ss[..i]);
            && 0 <= l.target <= 2 && (l.highSince == 0 || l.lowSince == 0)
            && (l.highSince != 0 ==> Running(start, ss, true, l.highSince, i))
            && (l.lowSince != 0 ==> Running(start, ss, false, l.lowSince, i))
  {
    hide After, Eval, Running;
    AfterStep(start, ss, n);
    var l, l', s := After(start, ss[..n]), After(start, ss[..i]), ss[n];
    EvalClocks(l, s.loss, s.now, s.mode.Pol());
    if l'.highSince != 0 { ExtendStreak(start, ss, true, l.highSince, l'.highSince, n, i); }
    if l'.lowSince != 0 { ExtendStreak(start, ss, false, l.lowSince, l'.lowSince, n, i); }
  }

  lemma ExtendStreak(start: int, ss: seq<Sample>, high: bool, since: int, since': int, i: nat, to: nat)
    requires i < |ss| && to == i + 1 && Due(start, ss, high, i) && !Changes(start, ss, i)
    requires since' == if since == 0 then ss[i].now else since
    requires since != 0 ==> Running(start, ss, high, since, i)
    ensures Running(start, ss, high, since', to)
  {
    var from := i;
    if since != 0 {
      from :| Streak(start, ss, high, from, i) && ss[from].now == since;
    }
    assert Streak(start, ss, high, from, to);
  }

  /** From any layer in range the target stays in range, and changes by one at a time;
      a step down never goes below the floor of the mode then in force. */
  lemma TargetInRange(start: int, ss: seq<Sample>, i: nat)
    requires 0 <= start <= 2 && i < |ss| && Clocked(ss)
    ensures 0 <= Target(start, ss, i) <= 2 && 0 <= Target(start, ss, i + 1) <= 2
    ensures Changes(start, ss, i) <==> Target(start, ss, i + 1) != Target(start, ss, i)
    ensures Changes(start, ss, i) ==>
              if ss[i].High()
              then ss[i].mode.Pol().floor <= Target(start, ss, i + 1) == Target(start, ss, i) - 1
              else ss[i].Low() && Target(start, ss, i + 1) == Target(start, ss, i) + 1
  {
    Clocks(start, ss, i);
    AfterStep(start, ss, i);
  }

  /** While a streak lasts its clock runs, from its first evaluation or from before. */
  lemma {:induction false} StreakRuns(start: int, ss: seq<Sample>, high: bool, from: nat, i: nat)
    requires 0 <= start <= 2 && i <= |ss| && Clocked(ss) && Streak(start, ss, high, from, i)
    ensures 0 < Since(After(start, ss[..i]), high) <= ss[from].now
  {
    var n := i - 1;
    AfterStep(start, ss, n);
    Clocks(start, ss, n);
    EvalClocks(After(start, ss[..n]), ss[n].loss, ss[n].now, ss[n].mode.Pol());
    hide Eval;
    assert Due(start, ss, high, n) && !Changes(start, ss, n);
    if from < n {
      assert Streak(start, ss, high, from, n);
      StreakRuns(start, ss, high, from, n);
    } else if Since(After(start, ss[..n]), high) != 0 {
      var f: nat :| Streak(start, ss, high, f, n) && ss[f].now == Since(After(start, ss[..n]), high);
    }
  }

  /** A streak that spans the window of the mode in force ends in a change. */
  ghost predicate SpansWindow(start: int, ss: seq<Sample>, high: bool, from: nat, i: nat)
    requires i < |ss|
  {
    Streak(start, ss, high, from, i) && Due(start, ss, high, i) && ss[i].now - ss[from].now >= Window(ss[i], high)
  }

  /** The layer changes just at the end of an unbroken streak of evaluations due for that change,
      with none in between, that spans the window of the mode then in force. */
  lemma ChangesExactly(start: int, ss: seq<Sample>, i: nat)
    requires 0 <= start <= 2 && i < |ss| && Clocked(ss)
    ensures Changes(start, ss, i) <==> exists high, from: nat :: SpansWindow(start, ss, high, from, i)
  {
    Clocks(start, ss, i);
    var l := After(start, ss[..i]);
    if Changes(start, ss, i) {
      if ss[i].High() {
        var from: nat :| Streak(start, ss, true, from, i) && ss[from].now == l.highSince;
        assert SpansWindow(start, ss, true, from, i);
      } else {
        var from: nat :| Streak(start, ss, false, from, i) && ss[from].now == l.lowSince;
        assert SpansWindow(start, ss, false, from, i);
      }
    }
    if high, from: nat :| SpansWindow(start, ss, high, from, i) {
      StreakRuns(start, ss, high, from, i);
    }
  }

  /** In numbers: a step down takes 5% loss for two seconds, or 12% for three when the publisher shows
      motion, which keeps one layer more; a step up takes 1% for four seconds or 3% for seven. Every
      evaluation since `from` has seen that much for its own mode, and has changed nothing. */
  lemma ChangeTakes(start: int, ss: seq<Sample>, i: nat)
    requires 0 <= start <= 2 && i < |ss| && Clocked(ss) && Changes(start, ss, i)
    ensures exists from: nat :: from < i && Sustained(start, ss, from, i)
    ensures Target(start, ss, i + 1) < Target(start, ss, i) && ss[i].mode == Motion ==> Target(start, ss, i + 1) >= 1
  {
    ChangesExactly(start, ss, i);
    TargetInRange(start, ss, i);
    var high, from: nat :| SpansWindow(start, ss, high, from, i);
    assert high <==> ss[i].High();
    forall k | from <= k <= i
      ensures if high then ss[k].loss >= if ss[k].mode == Motion then 120 else 50
              else ss[k].loss <= if ss[k].mode == Motion then 30 else 10
    {
      assert Due(start, ss, high, k);
    }
    assert Sustained(start, ss, from, i);
  }

  ghost predicate Sustained(start: int, ss: seq<Sample>, from: nat, i: nat)
    requires from < i < |ss|
  {
    && (forall k :: from <= k < i ==> !Changes(start, ss, k))
    && if Target(start, ss, i + 1) < Target(start, ss, i) then
         && (forall k :: from <= k <= i ==> ss[k].loss >= if ss[k].mode == Motion then 120 else 50)
         && ss[i].now - ss[from].now >= (if ss[i].mode == Motion then 3_000_000_000 else 2_000_000_000)
       else
         && (forall k :: from <= k <= i ==> ss[k].loss <= if ss[k].mode == Motion then 30 else 10)
         && ss[i].now - ss[from].now >= (if ss[i].mode == Motion then 7_000_000_000 else 4_000_000_000)
  }

  /** The changes before evaluation `n` in one direction. */
  ghost function ChangesOf(start: int, ss: seq<Sample>, high: bool, n: nat): set<nat>
    requires n <= |ss|
  {
    set i | 0 <= i < n && Changes(start, ss, i) && ss[i].High() == high
  }

  lemma EvalMoves(l: Layer, loss: nat, now: int, p: Policy)
    ensures var (l', changed) := Eval(l, loss, now, p);
            && l'.generation == l.generation + (if changed then 1 else 0)
            && l'.target == l.target + if !changed then 0 else if loss >= p.highLoss then -1 else 1
  {
  }

  lemma ChangesGrow(start: int, ss: seq<Sample>, high: bool, n: nat)
    requires n < |ss|
    ensures |ChangesOf(start, ss, high, n + 1)|
            == |ChangesOf(start, ss, high, n)| + if Changes(start, ss, n) && ss[n].High() == high then 1 else 0
  {
    hide Changes, Sample.High;
    var more := if Changes(start, ss, n) && ss[n].High() == high then {n} else {};
    assert ChangesOf(start, ss, high, n + 1) == ChangesOf(start, ss, high, n) + more;
  }

  /** The chain generation counts the changes, and the target is where they lead from the start. */
  lemma {:induction false} CountsChanges(start: int, ss: seq<Sample>, n: nat)
    requires n <= |ss|
    ensures var l := After(start, ss[..n]);
            var downs, ups := |ChangesOf(start, ss, true, n)|, |ChangesOf(start, ss, false, n)|;
            l.generation == downs + ups && l.target == start + ups - downs
  {
    if n > 0 {
      var m, s := n - 1, ss[n - 1];
      CountsChanges(start, ss, m);
      AfterStep(start, ss, m);
      EvalMoves(After(start, ss[..m]), s.loss, s.now, s.mode.Pol());
      ChangesGrow(start, ss, true, m);
      ChangesGrow(start, ss, false, m);
      hide After, Eval, ChangesOf;
    } else {
      assert ChangesOf(start, ss, true, 0) == {} && ChangesOf(start, ss, false, 0) == {};
    }
  }

  /** Any two changes are at least two seconds apart. */
  lemma ChangesApart(start: int, ss: seq<Sample>, i: nat, j: nat)
    requires 0 <= start <= 2 && i < j < |ss| && Clocked(ss)
    requires Changes(start, ss, i) && Changes(start, ss, j)
    ensures ss[j].now - ss[i].now >= 2 * SECOND
  {
    ChangesExactly(start, ss, j);
    var high, from: nat :| SpansWindow(start, ss, high, from, j);
    assert from > i;
  }
}
