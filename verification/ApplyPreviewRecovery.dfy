/**
 Crash recovery: an undisturbed receipt can always be brought to its end, and every call that
 meets no fault brings it there.
 */
module ApplyPreviewRecovery {
  import opened Common
  import opened ApplyPreviewStore
  import opened ApplyPreviewProtocol
  import opened ApplyPreviewSafety

  /** A run grows by one enabled action. */
  lemma Extend(c: Intent, s: State, acts: seq<Action>, m: State, a: Action)
    requires Runs(c, s, acts, m) && Enabled(m, a)
    ensures Runs(c, s, acts + [a], Do(c, m, a))
  {
    assert [a][1..] == [];
    RunsConcat(c, s, acts, m, [a], Do(c, m, a));
  }

  /** All the actions of a run are steps of worker `w`. */
  predicate Solo(acts: seq<Action>, w: nat) {
    forall i :: 0 <= i < |acts| ==> Actor(acts[i]) == Some(w)
  }

  /** From the call to a granted claim. */
  lemma ReachHolding(c: Intent, s: State, w: nat) returns (acts: seq<Action>, t: State)
    requires w !in s.workers && s.row.Some? && s.row.value.Claimable(s.now)
    ensures Solo(acts, w) && Runs(c, s, acts, t)
    ensures t == s.(row := Some(s.row.value.Claim(s.now, c.leaseSeconds)),
                    workers := s.workers[w := Holding(s.row.value.fence + 1)])
  {
    acts, t := [], s;
    Extend(c, s, acts, t, Begin(w, None));
    acts, t := acts + [Begin(w, None)], Do(c, t, Begin(w, None));
    Extend(c, s, acts, t, ReadClock(w));
    acts, t := acts + [ReadClock(w)], Do(c, t, ReadClock(w));
    Extend(c, s, acts, t, ClaimRow(w, false));
    acts, t := acts + [ClaimRow(w, false)], Do(c, t, ClaimRow(w, false));
  }

  /** From a granted claim to the inspection under the lock. */
  lemma ReachInspection(c: Intent, s: State, w: nat) returns (acts: seq<Action>, t: State)
    requires w in s.workers && s.workers[w].Holding? && s.lock.None?
    ensures Solo(acts, w) && Runs(c, s, acts, t)
    ensures t == s.(lock := Some(w), workers := s.workers[w := Checked(s.workers[w].fence)])
  {
    acts, t := [], s;
    Extend(c, s, acts, t, Acquire(w));
    acts, t := acts + [Acquire(w)], Do(c, t, Acquire(w));
    Extend(c, s, acts, t, Recheck(w, None));
    acts, t := acts + [Recheck(w, None)], Do(c, t, Recheck(w, None));
  }

  /** From an inspection that decides to execute to the moment the outcome is to be recorded. */
  lemma ReachVerdict(c: Intent, s: State, w: nat) returns (acts: seq<Action>, t: State)
    requires w in s.workers && s.workers[w].Checked? && s.lock == Some(w)
    requires Decide(c, s.workers[w].fence, s.doc) == Execute
    ensures Solo(acts, w) && Runs(c, s, acts, t)
    ensures t.row == s.row && t.lock == s.lock && t.doc == c.after && t.now == s.now
    ensures w in t.workers && t.workers[w] == Finalizing(s.workers[w].fence, Succeed(false), true)
  {
    acts, t := [], s;
    Extend(c, s, acts, t, Inspect(w));
    acts, t := acts + [Inspect(w)], Do(c, t, Inspect(w));
    Extend(c, s, acts, t, Write(w, c.after));
    acts, t := acts + [Write(w, c.after)], Do(c, t, Write(w, c.after));
    Extend(c, s, acts, t, Return(w, Done));
    acts, t := acts + [Return(w, Done)], Do(c, t, Return(w, Done));
    Extend(c, s, acts, t, Observe(w));
    acts, t := acts + [Observe(w)], Do(c, t, Observe(w));
  }

  /** Recording success under the current fence and leaving the lock. */
  lemma ReachAnswer(c: Intent, s: State, w: nat) returns (acts: seq<Action>, t: State)
    requires w in s.workers && s.workers[w].Finalizing? && s.workers[w].verdict.Succeed? && s.workers[w].locked
    requires s.row.Some? && s.row.value.HeldAt(s.workers[w].fence)
    ensures Solo(acts, w) && Runs(c, s, acts, t)
    ensures t.row.Some? && t.row.value.state.Applied? && t.doc == s.doc
    ensures w in t.workers && t.workers[w] == Answered(SuccessResult(s.workers[w].verdict.replayed))
  {
    acts, t := [], s;
    Extend(c, s, acts, t, Finalize(w, false));
    acts, t := acts + [Finalize(w, false)], Do(c, t, Finalize(w, false));
    Extend(c, s, acts, t, Release(w));
    acts, t := acts + [Release(w)], Do(c, t, Release(w));
  }

  /** In an undisturbed state a claim leads to a success or an execution, never to a rejection. */
  lemma ClaimIsDecided(c: Intent, s: State)
    requires RowInv(s) && BenignInv(c, s) && Distinct(c) && s.benign
    requires s.row.Some? && s.row.value.Claimable(s.now)
    ensures Decide(c, s.row.value.fence + 1, s.doc) == if s.doc == c.after then AlreadyApplied else Execute
  {
  }

  /** From the inspection to the moment a success is to be recorded, executing or not. */
  lemma ReachSuccess(c: Intent, s: State, w: nat) returns (acts: seq<Action>, t: State)
    requires w in s.workers && s.workers[w].Checked? && s.lock == Some(w)
    requires Decide(c, s.workers[w].fence, s.doc) == if s.doc == c.after then AlreadyApplied else Execute
    ensures Solo(acts, w) && Runs(c, s, acts, t)
    ensures t.row == s.row && t.lock == s.lock && t.doc == c.after && t.now == s.now
    ensures w in t.workers && t.workers[w] == Finalizing(s.workers[w].fence, Succeed(s.doc == c.after), true)
  {
    if s.doc == c.after {
      Extend(c, s, [], s, Inspect(w));
      assert [] + [Inspect(w)] == [Inspect(w)];
      acts, t := [Inspect(w)], Do(c, s, Inspect(w));
    } else {
      acts, t := ReachVerdict(c, s, w);
    }
  }

  /** A call that finds the receipt claimable in an undisturbed state finishes the job. */
  lemma CallSucceeds(c: Intent, s: State, w: nat) returns (acts: seq<Action>, t: State)
    requires StructInv(s) && BenignInv(c, s) && Distinct(c) && s.benign
    requires w !in s.workers && s.lock.None? && s.row.Some? && s.row.value.Claimable(s.now)
    ensures Solo(acts, w) && Runs(c, s, acts, t)
    ensures t.row.Some? && t.row.value.state.Applied? && t.doc == c.after
    ensures w in t.workers && t.workers[w].Answered? && t.workers[w].answer.ok
    ensures t.workers[w].answer.replayed <==> s.doc == c.after
  {
    var claim, k := ReachHolding(c, s, w);
    var look, m := ReachInspection(c, k, w);
    RunsConcat(c, s, claim, k, look, m);
    var first := claim + look;
    ClaimIsDecided(c, s);
    var second, n := ReachSuccess(c, m, w);
    var third, u := ReachAnswer(c, n, w);
    RunsConcat(c, s, first, m, second, n);
    RunsConcat(c, s, first + second, n, third, u);
    acts, t := first + second + third, u;
  }

  /** The moment from which the next claim succeeds. */
  function FreeFrom(r: Receipt, now: int): int {
    if r.lease.Some? then Max(now, r.lease.value) else now
  }

  /**
   Crash recovery is complete.  Take any moment of any undisturbed run, at which the receipt
   is not yet terminal.  Stop the worker inside the lock, if there is one, wait until the
   lease runs out, and call apply once more: it answers `ok: true`, the receipt is recorded
   as applied and the document is in the predicted state.
   */
  lemma RecoveryIsComplete(c: Intent, issuedAt: int, expiresAt: int, past: seq<Action>, s: State, w: nat)
    returns (acts: seq<Action>, t: State)
    requires issuedAt < expiresAt && Distinct(c)
    requires Runs(c, Init(c, issuedAt, expiresAt, c.before), past, s) && s.benign
    requires s.row.Some? && !s.row.value.Terminal() && FreeFrom(s.row.value, s.now) < s.row.value.expiresAt
    requires w !in s.workers
    ensures Runs(c, s, acts, t)
    ensures forall i :: 0 <= i < |acts| ==>
              acts[i].Tick? || (s.lock.Some? && acts[i] == Crash(s.lock.value)) || Actor(acts[i]) == Some(w)
    ensures t.row.Some? && t.row.value.state.Applied? && t.doc == c.after
    ensures w in t.workers && t.workers[w].Answered? && t.workers[w].answer.ok
  {
    InitIsSafe(c, issuedAt, expiresAt, c.before);
    RunKeepsOnce(c, Init(c, issuedAt, expiresAt, c.before), past, s);
    var wait := Tick(FreeFrom(s.row.value, s.now) - s.now);
    var pause, m := [wait], Do(c, s, wait);
    Extend(c, s, [], s, wait);
    assert [] + [wait] == pause;
    if m.lock.Some? {
      var stop := Crash(m.lock.value);
      Extend(c, s, pause, m, stop);
      pause, m := pause + [stop], Do(c, m, stop);
    }
    RunKeepsOnce(c, s, pause, m);
    var rest, u := CallSucceeds(c, m, w);
    RunsConcat(c, s, pause, m, rest, u);
    acts, t := pause + rest, u;
  }

  /** In an undisturbed run no receipt ends as `failed_terminal`, and an applied one shows in the document. */
  lemma UndisturbedNeverFails(c: Intent, issuedAt: int, expiresAt: int, acts: seq<Action>, t: State)
    requires issuedAt < expiresAt && Distinct(c)
    requires Runs(c, Init(c, issuedAt, expiresAt, c.before), acts, t) && t.benign
    ensures t.sealed.Some? ==> t.sealed.value.state.Applied? && t.doc == c.after
    ensures t.row.Some? ==> !t.row.value.state.FailedTerminal?
  {
    InitIsSafe(c, issuedAt, expiresAt, c.before);
    RunKeepsOnce(c, Init(c, issuedAt, expiresAt, c.before), acts, t);
  }

  /** `RECOVERY_REQUIRED` is never recorded, so the receipt stays as claimable as it was. */
  lemma RecoveryRequiredKeepsClaimable(c: Intent, s: State, w: nat, lost: bool)
    requires Enabled(s, Finalize(w, lost)) && s.workers[w].verdict == Fail(RecoveryRequired)
    ensures var t := Do(c, s, Finalize(w, lost));
            t.row == s.row && t.sealed == s.sealed && t.workers[w].answer == PublicResult(RecoveryRequired, false)
  {
  }

  // ---------------------------------------------------------------- every fault-free call succeeds

  /** The step of a worker that meets no fault: nothing is denied, refused, raised, lost or broken off. */
  predicate FaultFree(a: Action) {
    match a
    case Recheck(_, objection) => objection.None?
    case Return(_, reply) => reply.Done?
    case Finalize(_, lost) => !lost
    case Raise(_, _) => false
    case StoreFault(_) => false
    case Crash(_) => false
    case _ => true
  }

  predicate FaultFreeFor(acts: seq<Action>, w: nat) {
    forall i :: 0 <= i < |acts| && Actor(acts[i]) == Some(w) ==> FaultFree(acts[i])
  }

  /** Worker `w` holds fence `f`, which is the current one, and is on its way to success, or there. */
  ghost predicate Succeeding(s: State, w: nat, f: int) {
    && s.row.Some? && s.row.value.fence == f && w in s.workers
    && OnItsWay(s.row.value, s.workers[w], f)
  }

  ghost predicate OnItsWay(row: Receipt, pc: Pc, f: int) {
    match pc
    case Holding(g) => g == f
    case Locked(g) => g == f
    case Checked(g) => g == f
    case Executing(g, _) => g == f
    case Returned(g) => g == f
    case Finalizing(g, verdict, _) => g == f && verdict.Succeed?
    case Closing(g, answer) => g == f && answer.ok && row.state.Applied?
    case Answered(answer) => answer.ok && row.state.Applied?
    case _ => false
  }

  lemma BystanderLeavesSucceeding(c: Intent, s: State, a: Action, t: State, w: nat, f: int)
    requires Enabled(s, a) && FenceInv(s) && Succeeding(s, w, f) && Leaves(c, s, a, t)
    requires Actor(a) != Some(w) && t.row.Some? && t.row.value.fence == f
    ensures OnItsWay(t.row.value, s.workers[w], f)
  {
  }

  /** The decision under the lock: never a rejection. */
  lemma InspectSucceeds(c: Intent, s: State, w: nat, f: int)
    requires Enabled(s, Inspect(w)) && FenceInv(s) && BenignInv(c, s) && Distinct(c) && s.benign && Succeeding(s, w, f)
    ensures !Decide(c, f, s.doc).Reject?
  {
    assert BenignWorker(c, s, s.workers[w]);
  }

  lemma ObserveSucceeds(c: Intent, s: State, w: nat)
    requires Enabled(s, Observe(w)) && BenignInv(c, s) && s.benign
    ensures s.doc == c.after
  {
    assert BenignWorker(c, s, s.workers[w]);
  }

  lemma ActorSucceeds(c: Intent, s: State, a: Action, w: nat, f: int)
    requires Enabled(s, a) && Actor(a) == Some(w) && FaultFree(a) && Succeeding(s, w, f)
    requires HoldsRow(s.row, s.workers[w])
    requires a.Inspect? ==> !Decide(c, f, s.doc).Reject?
    requires a.Observe? ==> s.doc == c.after
    ensures Succeeding(Do(c, s, a), w, f)
  {
  }

  lemma StepSucceeds(c: Intent, s: State, a: Action, w: nat, f: int)
    requires Enabled(s, a) && StructInv(s) && BenignInv(c, s) && Distinct(c) && Succeeding(s, w, f)
    requires (Actor(a) == Some(w) ==> FaultFree(a)) && Do(c, s, a).benign
    requires Do(c, s, a).row.Some? && Do(c, s, a).row.value.fence == f
    ensures Succeeding(Do(c, s, a), w, f)
  {
    var t := Do(c, s, a);
    StepTouches(c, s, a);
    if Actor(a) == Some(w) {
      assert HoldsRow(s.row, s.workers[w]);
      if a.Inspect? {
        InspectSucceeds(c, s, w, f);
      }
      if a.Observe? {
        ObserveSucceeds(c, s, w);
      }
      ActorSucceeds(c, s, a, w, f);
    } else {
      StepLeaves(c, s, a);
      EveryoneStays(c, s, a);
      OnlyActorMoves(c, s, a, w);
      BystanderLeavesSucceeding(c, s, a, t, w, f);
    }
  }

  lemma {:induction false} RunSucceeds(c: Intent, s: State, acts: seq<Action>, t: State, w: nat, f: int)
    requires Runs(c, s, acts, t) && SafeInv(s) && BenignInv(c, s) && Distinct(c) && Succeeding(s, w, f)
    requires FaultFreeFor(acts, w) && t.benign && t.row.Some? && t.row.value.fence == f
    ensures Succeeding(t, w, f)
    decreases |acts|
  {
    if acts != [] {
      var a, rest := acts[0], acts[1..];
      var m := Do(c, s, a);
      StepKeepsSafe(c, s, a);
      StepKeepsBenign(c, s, a);
      RunStaysBenign(c, m, rest, t);
      RowOnlyAdvances(c, s, a);
      SealedForever(c, m, rest, t);
      StepSucceeds(c, s, a, w, f);
      assert FaultFreeFor(rest, w);
      RunSucceeds(c, m, rest, t, w, f);
    }
  }

  /** What disturbed a run stays on record. */
  lemma {:induction false} RunStaysBenign(c: Intent, s: State, acts: seq<Action>, t: State)
    requires Runs(c, s, acts, t) && t.benign
    ensures s.benign
    decreases |acts|
  {
    if acts != [] {
      RunStaysBenign(c, Do(c, s, acts[0]), acts[1..], t);
      StepTouches(c, s, acts[0]);
    }
  }

  /**
   Every claim that meets no fault succeeds.  Take any run touched only by the executor, in any
   interleaving, and a worker that was granted a claim in it.  If none of the worker's own later
   steps is denied, refused, raised, lost or broken off, and no later claim took its fence away,
   then its answer, once it has one, is `ok: true`, the receipt is applied and the document is in
   the predicted state.
   */
  lemma EveryFaultFreeClaimSucceeds(c: Intent, issuedAt: int, expiresAt: int, past: seq<Action>, s: State,
                                    acts: seq<Action>, t: State, w: nat)
    requires issuedAt < expiresAt && Distinct(c) && Runs(c, Init(c, issuedAt, expiresAt, c.before), past, s)
    requires w in s.workers && s.workers[w].Holding? && Runs(c, s, acts, t) && t.benign
    requires FaultFreeFor(acts, w) && t.row.Some? && t.row.value.fence == s.workers[w].fence
    ensures Succeeding(t, w, s.workers[w].fence)
    ensures t.workers[w].Answered? ==> t.workers[w].answer.ok && t.row.value.state.Applied? && t.doc == c.after
  {
    var start := Init(c, issuedAt, expiresAt, c.before);
    var f := s.workers[w].fence;
    InitIsSafe(c, issuedAt, expiresAt, c.before);
    SealedForever(c, start, past, s);
    RunKeepsOnce(c, start, past, s);
    SealedForever(c, s, acts, t);
    RunSucceeds(c, s, acts, t, w, f);
    RunKeepsOnce(c, s, acts, t);
  }
}
