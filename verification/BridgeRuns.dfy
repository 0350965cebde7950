/** What registry and monitor keep over whole runs, and how fast a bridge can change state. */
module BridgeRuns {
  import opened Common
  import opened Bridges

  // ---------------------------------------------------------------- storage follows memory

  /** Storage shows every live bridge as it is, and every other one as unregistered. */
  ghost predicate InSync(w: World) {
    && (forall id :: id in w.live ==> id in w.rows && w.rows[id] == w.live[id])
    && (forall id :: id in w.rows && id !in w.live ==> w.rows[id] == Unregistered)
  }

  datatype Op =
    | RegisterOp(id: string, bindable: bool)
    | ActivateOp(id: string, hookSucceeds: bool)
    | DeactivateOp(id: string)
    | UnregisterOp(id: string)
    | CheckOp(id: string, healthy: bool)
    | ResetOp(id: string)

  function Do(w: World, op: Op, t: Thresholds): World {
    match op
    case RegisterOp(id, bindable) => Register(w, id, bindable).0
    case ActivateOp(id, hookSucceeds) => Activate(w, id, hookSucceeds).0
    case DeactivateOp(id) => Deactivate(w, id).0
    case UnregisterOp(id) => Unregister(w, id).0
    case CheckOp(id, healthy) => Check(w, id, healthy, t)
    case ResetOp(id) => Reset(w, id)
  }

  function DoAll(w: World, ops: seq<Op>, t: Thresholds): World
    decreases |ops|
  {
    if ops == [] then w else DoAll(Do(w, ops[0], t), ops[1..], t)
  }

  lemma EnterKeepsSync(w: World, id: string, state: BridgeState)
    requires InSync(w) && id in w.live
    ensures InSync(w.Enter(id, state))
  {
  }

  lemma StepStaysInSync(w: World, op: Op, t: Thresholds)
    requires InSync(w)
    ensures InSync(Do(w, op, t))
  {
    match op
    case RegisterOp(id, bindable) =>
    case ActivateOp(id, hookSucceeds) =>
      if id in w.live {
        EnterKeepsSync(w, id, if hookSucceeds then Active else Error);
      }
    case DeactivateOp(id) =>
      if id in w.live {
        EnterKeepsSync(w, id, Inactive);
      }
    case UnregisterOp(id) =>
      if id in w.live {
        EnterKeepsSync(w, id, Unregistered);
      }
    case CheckOp(id, healthy) => CheckStaysInSync(w, id, healthy, t);
    case ResetOp(id) =>
  }

  lemma CheckStaysInSync(w: World, id: string, healthy: bool, t: Thresholds)
    requires InSync(w)
    ensures InSync(Check(w, id, healthy, t))
  {
    if id in w.live {
      var h := HealthStep(Health(w.live[id], w.Streak(w.failures, id), w.Streak(w.successes, id)), healthy, t);
      EnterKeepsSync(w.(failures := w.failures[id := h.failures], successes := w.successes[id := h.successes]), id, h.state);
    }
  }

  lemma {:induction false} RunsStayInSync(w: World, ops: seq<Op>, t: Thresholds)
    requires InSync(w)
    ensures InSync(DoAll(w, ops, t))
    decreases |ops|
  {
    if ops != [] {
      StepStaysInSync(w, ops[0], t);
      RunsStayInSync(Do(w, ops[0], t), ops[1..], t);
    }
  }

  /**
   What each lifecycle operation reports and leaves of its bridge: a new one is registered, a refused
   one is not there; activation leads to active, or to error if the hook fails; deactivation
   to inactive; a bridge unregistered is gone, and its row says so.
   */
  lemma LifecycleMeans(w: World, id: string, flag: bool)
    requires InSync(w)
    ensures var t := Register(w, id, flag);
            if id in w.live then t == (w, AlreadyRegistered)
            else if !flag then t == (w, InvalidManifest)
            else t.1 == Done && LeavesState(w, t.0, id, Registered)
    ensures var t := Activate(w, id, flag);
            if id !in w.live then t == (w, NotRegistered)
            else if w.live[id] == Active then t == (w, Done)
            else if flag then t.1 == Done && LeavesState(w, t.0, id, Active)
            else t.1 == ActivationFailed && LeavesState(w, t.0, id, Error)
    ensures var t := Deactivate(w, id);
            if id !in w.live then t == (w, NotRegistered) else t.1 == Done && LeavesState(w, t.0, id, Inactive)
    ensures var t := Unregister(w, id);
            if id !in w.live then t == (w, NotRegistered)
            else
              && t.1 == Done && id !in t.0.live && id in t.0.rows && t.0.rows[id] == Unregistered
              && t.0.live == w.live - {id} && SameElsewhere(w.rows, t.0.rows, id)
              && t.0.failures == w.failures && t.0.successes == w.successes
  {
  }

  /** The bridge is in this state, in memory and in storage; the others and all counters are as before. */
  ghost predicate LeavesState(w: World, t: World, id: string, state: BridgeState) {
    && id in t.live && t.live[id] == state && id in t.rows && t.rows[id] == state
    && SameElsewhere(w.live, t.live, id) && SameElsewhere(w.rows, t.rows, id)
    && t.failures == w.failures && t.successes == w.successes
  }

  ghost predicate SameElsewhere(a: map<string, BridgeState>, b: map<string, BridgeState>, id: string) {
    forall k :: k != id ==> (k in a <==> k in b) && (k in a ==> b[k] == a[k])
  }

  // ---------------------------------------------------------------- streaks

  function HealthRun(h: Health, outcomes: seq<bool>, t: Thresholds): Health {
    if outcomes == [] then h
    else HealthStep(HealthRun(h, outcomes[..|outcomes| - 1], t), outcomes[|outcomes| - 1], t)
  }

  /** How many of the last outcomes in a row are `wanted`. */
  function Trailing(outcomes: seq<bool>, wanted: bool): nat {
    if outcomes == [] || outcomes[|outcomes| - 1] != wanted then 0
    else 1 + Trailing(outcomes[..|outcomes| - 1], wanted)
  }

  /** The counters are the current streaks, whatever transitions happened meanwhile. */
  lemma {:induction false} CountersAreStreaks(h: Health, outcomes: seq<bool>, t: Thresholds)
    requires h.failures == 0 && h.successes == 0
    ensures HealthRun(h, outcomes, t).failures == Trailing(outcomes, false)
    ensures HealthRun(h, outcomes, t).successes == Trailing(outcomes, true)
  {
    if outcomes != [] {
      CountersAreStreaks(h, outcomes[..|outcomes| - 1], t);
    }
  }

  /** The outcomes that count for an id: those of its checks while it was live, since the last reset. */
  function Outcomes(w: World, ops: seq<Op>, t: Thresholds, id: string, earlier: seq<bool>): seq<bool>
    decreases |ops|
  {
    if ops == [] then earlier
    else Outcomes(Do(w, ops[0], t), ops[1..], t, id, OutcomesAfter(w, ops[0], id, earlier))
  }

  function OutcomesAfter(w: World, op: Op, id: string, earlier: seq<bool>): seq<bool> {
    if op.ResetOp? && (op.id == id || op.id == "") then []
    else if op.CheckOp? && op.id == id && id in w.live then earlier + [op.healthy]
    else earlier
  }

  /** The counters of an id are the streaks at the end of these outcomes. */
  ghost predicate ShowsStreaks(w: World, id: string, outcomes: seq<bool>) {
    && w.Streak(w.failures, id) == Trailing(outcomes, false)
    && w.Streak(w.successes, id) == Trailing(outcomes, true)
  }

  lemma StepShowsStreaks(w: World, op: Op, t: Thresholds, id: string, earlier: seq<bool>)
    requires ShowsStreaks(w, id, earlier)
    ensures ShowsStreaks(Do(w, op, t), id, OutcomesAfter(w, op, id, earlier))
  {
    if op.CheckOp? && op.id == id && id in w.live {
      CheckShowsStreaks(w, id, op.healthy, t, earlier);
    } else if op.ResetOp? && (op.id == id || op.id == "") {
      ResetShowsStreaks(w, op.id, id);
    } else {
      CountersStay(w, op, t, id);
    }
  }

  lemma ResetShowsStreaks(w: World, reset: string, id: string)
    requires reset == id || reset == ""
    ensures ShowsStreaks(Reset(w, reset), id, [])
  {
  }

  lemma CheckShowsStreaks(w: World, id: string, healthy: bool, t: Thresholds, earlier: seq<bool>)
    requires ShowsStreaks(w, id, earlier) && id in w.live
    ensures ShowsStreaks(Check(w, id, healthy, t), id, earlier + [healthy])
  {
    assert (earlier + [healthy])[..|earlier|] == earlier;
  }

  lemma CountersStay(w: World, op: Op, t: Thresholds, id: string)
    requires op.ResetOp? ==> op.id != id && op.id != ""
    requires op.CheckOp? && op.id == id ==> id !in w.live
    ensures Do(w, op, t).Streak(Do(w, op, t).failures, id) == w.Streak(w.failures, id)
    ensures Do(w, op, t).Streak(Do(w, op, t).successes, id) == w.Streak(w.successes, id)
  {
  }

  /**
   Over all runs of registry and monitor, with registrations, removals and resets anywhere, each
   counter of each id is the length of its current streak.
   */
  lemma {:induction false} RunsShowStreaks(w: World, ops: seq<Op>, t: Thresholds, id: string, earlier: seq<bool>)
    requires ShowsStreaks(w, id, earlier)
    ensures ShowsStreaks(DoAll(w, ops, t), id, Outcomes(w, ops, t, id, earlier))
    decreases |ops|
  {
    if ops != [] {
      StepShowsStreaks(w, ops[0], t, id, earlier);
      RunsShowStreaks(Do(w, ops[0], t), ops[1..], t, id, OutcomesAfter(w, ops[0], id, earlier));
    }
  }

  function HealthOf(w: World, id: string): Health
    requires id in w.live
  {
    Health(w.live[id], w.Streak(w.failures, id), w.Streak(w.successes, id))
  }

  /** Whether an operation changes what the registry or the monitor knows of the bridge `id`. */
  predicate Concerns(op: Op, id: string) {
    op.id == id || (op.ResetOp? && op.id == "")
  }

  /** The outcomes of the checks of one bridge, in order. */
  function OutcomesOf(ops: seq<Op>, id: string): seq<bool>
    decreases |ops|
  {
    if ops == [] then []
    else (if ops[0].CheckOp? && ops[0].id == id then [ops[0].healthy] else []) + OutcomesOf(ops[1..], id)
  }

  lemma {:induction false} RunFromFront(h: Health, first: bool, rest: seq<bool>, t: Thresholds)
    ensures HealthRun(h, [first] + rest, t) == HealthRun(HealthStep(h, first, t), rest, t)
  {
    if rest == [] {
      assert ([first] + rest)[..0] == [];
    } else {
      var n := |rest| - 1;
      assert ([first] + rest)[..n + 1] == [first] + rest[..n];
      RunFromFront(h, first, rest[..n], t);
    }
  }

  lemma StepOfBridge(w: World, op: Op, t: Thresholds, id: string)
    requires id in w.live && (Concerns(op, id) ==> op.CheckOp?)
    ensures id in Do(w, op, t).live
    ensures HealthOf(Do(w, op, t), id) ==
            if Concerns(op, id) then HealthStep(HealthOf(w, id), op.healthy, t) else HealthOf(w, id)
  {
  }

  /**
   Bridges do not disturb each other: whatever is done to the others in between, a bridge that is
   only checked goes through the states its own outcomes prescribe.
   */
  lemma {:induction false} BridgesAreIndependent(w: World, ops: seq<Op>, t: Thresholds, id: string)
    requires id in w.live && forall i :: 0 <= i < |ops| && Concerns(ops[i], id) ==> ops[i].CheckOp?
    ensures id in DoAll(w, ops, t).live
    ensures HealthOf(DoAll(w, ops, t), id) == HealthRun(HealthOf(w, id), OutcomesOf(ops, id), t)
    decreases |ops|
  {
    if ops != [] {
      var op, rest := ops[0], ops[1..];
      StepOfBridge(w, op, t, id);
      BridgesAreIndependent(Do(w, op, t), rest, t, id);
      if Concerns(op, id) {
        RunFromFront(HealthOf(w, id), op.healthy, OutcomesOf(rest, id), t);
      } else {
        assert [] + OutcomesOf(rest, id) == OutcomesOf(rest, id);
      }
    }
  }

  // ---------------------------------------------------------------- hysteresis

  function Transitions(h: Health, outcomes: seq<bool>, t: Thresholds): nat {
    if outcomes == [] then 0
    else
      var n := |outcomes| - 1;
      var before := HealthRun(h, outcomes[..n], t);
      Transitions(h, outcomes[..n], t) + if HealthStep(before, outcomes[n], t).state == before.state then 0 else 1
  }

  /** At least this many checks of one outcome are needed; a threshold below one acts as one. */
  function Needed(threshold: int): nat {
    if threshold < 1 then 1 else threshold
  }

  /** The checks that `k` transitions take from an active bridge, the first of them down. */
  function Cost(k: nat, t: Thresholds): nat {
    if k == 0 then 0 else Cost(k - 1, t) + if k % 2 == 1 then Needed(t.unhealthy) else Needed(t.recovery)
  }

  lemma {:induction false} CostOfPairs(m: nat, t: Thresholds)
    ensures Cost(2 * m, t) == m * Needed(t.unhealthy) + m * Needed(t.recovery)
  {
    if m > 0 {
      CostOfPairs(m - 1, t);
      assert Cost(2 * m, t) == Cost(2 * (m - 1), t) + Needed(t.unhealthy) + Needed(t.recovery);
      OneMore(m, Needed(t.unhealthy));
      OneMore(m, Needed(t.recovery));
    }
  }

  lemma OneMore(m: nat, x: nat)
    requires m > 0
    ensures m * x == (m - 1) * x + x
  {
  }

  lemma CostIs(k: nat, t: Thresholds)
    ensures Cost(k, t) == (k + 1) / 2 * Needed(t.unhealthy) + k / 2 * Needed(t.recovery)
  {
    var m := k / 2;
    CostOfPairs(m, t);
    if k == 2 * m + 1 {
      OneMore(m + 1, Needed(t.unhealthy));
      assert (k + 1) / 2 == m + 1;
    } else {
      assert (k + 1) / 2 == m;
    }
  }

  /** The checks so far cover the transitions so far and the streak towards the next one. */
  lemma {:induction false} ChecksCoverTransitions(outcomes: seq<bool>, t: Thresholds)
    ensures var h := HealthRun(Health(Active, 0, 0), outcomes, t);
            var k := Transitions(Health(Active, 0, 0), outcomes, t);
            && h.state == (if k % 2 == 0 then Active else Error)
            && Cost(k, t) + (if k % 2 == 0 then h.failures else h.successes) <= |outcomes|
  {
    if outcomes != [] {
      ChecksCoverTransitions(outcomes[..|outcomes| - 1], t);
    }
  }

  /**
   A monitored bridge cannot flap: `k` state changes from active take at least
   ceil(k/2) times the unhealthy and floor(k/2) times the recovery threshold of checks.
   */
  lemma TransitionsTakeChecks(outcomes: seq<bool>, t: Thresholds)
    ensures var k := Transitions(Health(Active, 0, 0), outcomes, t);
            |outcomes| >= (k + 1) / 2 * Needed(t.unhealthy) + k / 2 * Needed(t.recovery)
  {
    ChecksCoverTransitions(outcomes, t);
    CostIs(Transitions(Health(Active, 0, 0), outcomes, t), t);
  }

  function Repeat(outcome: bool, n: nat): seq<bool> {
    seq(n, _ => outcome)
  }

  /** The run that changes state as often as it can. */
  function Worst(k: nat, t: Thresholds): (r: seq<bool>)
    ensures |r| == Cost(k, t)
  {
    if k == 0 then []
    else Worst(k - 1, t) + Repeat(k % 2 == 0, if k % 2 == 1 then Needed(t.unhealthy) else Needed(t.recovery))
  }

  /** A streak that just reaches the threshold changes the state once, at its end. */
  lemma {:induction false} StreakFlips(h: Health, outcomes: seq<bool>, down: bool, n: nat, t: Thresholds)
    requires var here := HealthRun(h, outcomes, t);
             here.state == (if down then Active else Error) && Towards(here, down) == 0
    requires n <= Needed(if down then t.unhealthy else t.recovery)
    ensures var full := n == Needed(if down then t.unhealthy else t.recovery);
            var longer := outcomes + Repeat(!down, n);
            var there := HealthRun(h, longer, t);
            && there.state == (if down != full then Active else Error)
            && Towards(there, down) == n
            && (n > 0 ==> Towards(there, !down) == 0)
            && Transitions(h, longer, t) == Transitions(h, outcomes, t) + if full then 1 else 0
  {
    var longer := outcomes + Repeat(!down, n);
    if n == 0 {
      assert longer == outcomes;
    } else {
      StreakFlips(h, outcomes, down, n - 1, t);
      assert longer[..|longer| - 1] == outcomes + Repeat(!down, n - 1);
    }
  }

  /** The streak towards error, or towards active. */
  function Towards(h: Health, down: bool): nat {
    if down then h.failures else h.successes
  }

  lemma FullStreakFlips(h: Health, outcomes: seq<bool>, down: bool, n: nat, t: Thresholds)
    requires var here := HealthRun(h, outcomes, t);
             here.state == (if down then Active else Error) && Towards(here, down) == 0
    requires n == Needed(if down then t.unhealthy else t.recovery)
    ensures var longer := outcomes + Repeat(!down, n);
            var there := HealthRun(h, longer, t);
            && there.state == (if down then Error else Active) && Towards(there, !down) == 0
            && Transitions(h, longer, t) == Transitions(h, outcomes, t) + 1
  {
    StreakFlips(h, outcomes, down, n, t);
  }

  /** A run of `k` state changes that has just made the last of them. */
  ghost predicate Flipped(outcomes: seq<bool>, k: nat, t: Thresholds) {
    var h := HealthRun(Health(Active, 0, 0), outcomes, t);
    && Transitions(Health(Active, 0, 0), outcomes, t) == k
    && h.state == (if k % 2 == 0 then Active else Error) && Towards(h, k % 2 == 0) == 0
  }

  lemma FlipsOnceMore(outcomes: seq<bool>, k: nat, t: Thresholds)
    requires k > 0 && Flipped(outcomes, k - 1, t)
    ensures Flipped(outcomes + Repeat(k % 2 == 0, if k % 2 == 1 then Needed(t.unhealthy) else Needed(t.recovery)), k, t)
  {
    var down := k % 2 == 1;
    assert ((k - 1) % 2 == 0) == down && !down == (k % 2 == 0);
    FullStreakFlips(Health(Active, 0, 0), outcomes, down, Needed(if down then t.unhealthy else t.recovery), t);
  }

  lemma {:induction false} WorstFlips(k: nat, t: Thresholds)
    ensures Flipped(Worst(k, t), k, t)
  {
    if k > 0 {
      WorstFlips(k - 1, t);
      FlipsOnceMore(Worst(k - 1, t), k, t);
    }
  }

  /** The bound is exact: some run of exactly that many checks changes state `k` times. */
  lemma BoundIsTight(k: nat, t: Thresholds)
    ensures Transitions(Health(Active, 0, 0), Worst(k, t), t) == k
    ensures |Worst(k, t)| == (k + 1) / 2 * Needed(t.unhealthy) + k / 2 * Needed(t.recovery)
  {
    WorstFlips(k, t);
    CostIs(k, t);
  }

  // ---------------------------------------------------------------- counters outlive bridges

  /**
   The monitor's counters are keyed by id and survive unregistration: a bridge registered and
   activated anew under an old id goes to error on its first failed check exactly if the
   failures counted before bring it there.
   */
  lemma CountersOutliveBridges(w: World, id: string, t: Thresholds)
    requires id in w.live
    ensures var anew := DoAll(w, [UnregisterOp(id), RegisterOp(id, true), ActivateOp(id, true), CheckOp(id, false)], t);
            id in anew.live
            && (anew.live[id] == Error <==> w.Streak(w.failures, id) + 1 >= t.unhealthy)
  {
    var ops := [UnregisterOp(id), RegisterOp(id, true), ActivateOp(id, true), CheckOp(id, false)];
    var w1 := Do(w, ops[0], t);
    var w2 := Do(w1, ops[1], t);
    var w3 := Do(w2, ops[2], t);
    var w4 := Do(w3, ops[3], t);
    assert DoAll(w4, ops[1..][1..][1..][1..], t) == w4;
    assert DoAll(w3, ops[1..][1..][1..], t) == w4;
    assert DoAll(w2, ops[1..][1..], t) == w4;
    assert DoAll(w1, ops[1..], t) == w4;
  }
}
