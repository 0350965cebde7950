/**
 What each stage of a call leads to: the record it leaves and the answer it gives, whatever the
 other workers do before the record is written.
 */
module ApplyPreviewAnswers {
  import opened Common
  import opened ApplyPreviewStore
  import opened ApplyPreviewProtocol
  import opened ApplyPreviewSafety

  // ---------------------------------------------------------------- from a verdict to its answer

  predicate StepsOfOthers(acts: seq<Action>, w: nat) {
    forall i :: 0 <= i < |acts| ==> Actor(acts[i]) != Some(w)
  }

  /** Worker `w` is to record `verdict` under fence `f`, the current one, on an applying row. */
  ghost predicate ToRecord(s: State, w: nat, f: int, verdict: Verdict, locked: bool) {
    && w in s.workers && s.workers[w] == Finalizing(f, verdict, locked)
    && s.row.Some? && s.row.value.state.Applying? && s.row.value.fence == f
  }

  /** Nobody else records under the fence, so the row waits as long as no later claim takes it. */
  lemma StepAwaitsRecord(c: Intent, s: State, a: Action, w: nat, f: int, verdict: Verdict, locked: bool)
    requires Enabled(s, a) && FenceInv(s) && ToRecord(s, w, f, verdict, locked) && Actor(a) != Some(w)
    requires Do(c, s, a).row.Some? && Do(c, s, a).row.value.fence == f
    ensures ToRecord(Do(c, s, a), w, f, verdict, locked) && Do(c, s, a).row == s.row
  {
    StepLeaves(c, s, a);
    EveryoneStays(c, s, a);
    OnlyActorMoves(c, s, a, w);
  }

  lemma {:induction false} RunAwaitsRecord(c: Intent, s: State, acts: seq<Action>, t: State, w: nat, f: int,
                                           verdict: Verdict, locked: bool)
    requires Runs(c, s, acts, t) && SafeInv(s) && ToRecord(s, w, f, verdict, locked) && StepsOfOthers(acts, w)
    requires t.row.Some? && t.row.value.fence == f
    ensures ToRecord(t, w, f, verdict, locked) && t.row == s.row
    decreases |acts|
  {
    if acts != [] {
      var a, rest := acts[0], acts[1..];
      var m := Do(c, s, a);
      StepKeepsSafe(c, s, a);
      RowOnlyAdvances(c, s, a);
      SealedForever(c, m, rest, t);
      StepAwaitsRecord(c, s, a, w, f, verdict, locked);
      assert StepsOfOthers(rest, w);
      RunAwaitsRecord(c, m, rest, t, w, f, verdict, locked);
    }
  }

  /** The worker gave `answer` and left `row`. */
  ghost predicate Gave(t: State, w: nat, f: int, locked: bool, answer: Answer, row: Option<Receipt>) {
    && w in t.workers && t.workers[w] == (if locked then Closing(f, answer) else Answered(answer))
    && t.row == row
  }

  /** The worker gave `answer` and recorded `state` and `code`. */
  ghost predicate Ended(s: State, t: State, w: nat, f: int, locked: bool, answer: Answer, state: ReceiptState, code: Code) {
    && w in t.workers && t.workers[w] == (if locked then Closing(f, answer) else Answered(answer))
    && s.row.Some? && t.row.Some? && Recorded(s.row.value, t.row.value, state, code, s.now) && t.sealed == t.row
  }

  /** What recording a verdict does to the row, and what is answered. */
  lemma RecordGives(c: Intent, s: State, w: nat, f: int, verdict: Verdict, locked: bool)
    requires ToRecord(s, w, f, verdict, locked)
    ensures var t := Do(c, s, Finalize(w, false));
            match verdict
            case Succeed(replayed) =>
              Ended(s, t, w, f, locked, Answer(true, if replayed then ReplayedCode else AppliedCode, replayed), Applied, AppliedCode)
            case Fail(code) =>
              if code.RecoveryRequired? then Gave(t, w, f, locked, Answer(false, RecoveryRequired, false), s.row)
              else if code.Unrecognised? then Gave(t, w, f, locked, Answer(false, StorageUnavailable, false), s.row)
              else Ended(s, t, w, f, locked, Answer(code == AppliedCode || code == ReplayedCode, code, false), FailedTerminal, code)
  {
  }

  /** Without the current fence nothing is recorded, and the answer says that the outcome is open. */
  lemma StaleGives(c: Intent, s: State, w: nat, f: int, verdict: Verdict, locked: bool)
    requires w in s.workers && s.workers[w] == Finalizing(f, verdict, locked)
    requires s.row.None? || s.row.value.fence != f || s.row.value.state != Applying
    ensures var code := if verdict.Fail? && verdict.code.Unrecognised? then StorageUnavailable else RecoveryRequired;
            Gave(Do(c, s, Finalize(w, false)), w, f, locked, Answer(false, code, false), s.row)
  {
  }

  // ---------------------------------------------------------------- the inspection under the lock

  /** A recovery claim finds the predicted state. */
  predicate FindsApplied(c: Intent, f: int, doc: string) {
    f >= 2 && doc == c.after
  }

  /** The precondition holds, or a recovery claim finds a rehome half done. */
  predicate FindsStart(c: Intent, f: int, doc: string) {
    doc == c.before || (f >= 2 && c.rehome && doc == PARTIAL)
  }

  /**
   What the inspection leads to, for the worker that holds the current fence.  A recovery claim
   that finds the predicted state records success and answers a replay.  Otherwise it executes
   from the states execution may start from.  In any other state a recovery claim leaves the row
   as it is and answers RECOVERY_REQUIRED, and a first claim ends the receipt with TARGET_DRIFT.
   */
  lemma InspectionGives(c: Intent, s: State, acts: seq<Action>, u: State, w: nat)
    requires SafeInv(s) && Enabled(s, Inspect(w))
    requires s.row.Some? && s.row.value.fence == s.workers[w].fence
    requires Runs(c, Do(c, s, Inspect(w)), acts, u) && StepsOfOthers(acts, w)
    requires u.row.Some? && u.row.value.fence == s.workers[w].fence
    ensures var f := s.workers[w].fence;
            if FindsApplied(c, f, s.doc) then
              Enabled(u, Finalize(w, false)) && u.row == s.row
              && Ended(u, Do(c, u, Finalize(w, false)), w, f, true, Answer(true, ReplayedCode, true), Applied, AppliedCode)
            else if FindsStart(c, f, s.doc) then
              Do(c, s, Inspect(w)).workers[w] == Executing(f, false) && Do(c, s, Inspect(w)).row == s.row
            else
              Enabled(u, Finalize(w, false)) && u.row == s.row
              && if f >= 2 then Gave(Do(c, u, Finalize(w, false)), w, f, true, Answer(false, RecoveryRequired, false), s.row)
                 else Ended(u, Do(c, u, Finalize(w, false)), w, f, true, Answer(false, TargetDrift, false), FailedTerminal, TargetDrift)
  {
    var f := s.workers[w].fence;
    var m := Do(c, s, Inspect(w));
    assert HoldsRow(s.row, s.workers[w]);
    InspectionVerdict(c, s, w);
    if m.workers[w].Finalizing? {
      StepKeepsSafe(c, s, Inspect(w));
      RunAwaitsRecord(c, m, acts, u, w, f, m.workers[w].verdict, true);
      RecordGives(c, u, w, f, m.workers[w].verdict, true);
    }
  }

  lemma InspectionVerdict(c: Intent, s: State, w: nat)
    requires Enabled(s, Inspect(w)) && s.workers[w].fence >= 1
    ensures var f, m := s.workers[w].fence, Do(c, s, Inspect(w));
            && m.row == s.row && m.doc == s.doc && m.lock == s.lock
            && m.workers[w] ==
               if FindsApplied(c, f, s.doc) then Finalizing(f, Succeed(true), true)
               else if FindsStart(c, f, s.doc) then Executing(f, false)
               else Finalizing(f, Fail(if f >= 2 then RecoveryRequired else TargetDrift), true)
  {
  }

  // ---------------------------------------------------------------- the other stages

  /**
   What the second preflight, the executor's reply, the observation and an exception lead to, for
   the worker that holds the current fence.
   */
  lemma StageGives(c: Intent, s: State, a: Action, acts: seq<Action>, u: State, w: nat)
    requires SafeInv(s) && Enabled(s, a) && Actor(a) == Some(w)
    requires a.Recheck? || a.Return? || a.Observe? || a.Raise?
    requires s.row.Some? && s.row.value.state.Applying? && s.row.value.fence == s.workers[w].fence
    requires Runs(c, Do(c, s, a), acts, u) && StepsOfOthers(acts, w)
    requires u.row.Some? && u.row.value.fence == s.workers[w].fence
    requires Do(c, s, a).workers[w].Finalizing?
    ensures Enabled(u, Finalize(w, false)) && u.row == s.row
    ensures var f, t := s.workers[w].fence, Do(c, u, Finalize(w, false));
            match a
            case Recheck(_, objection) =>
              objection.Some? && Ended(u, t, w, f, true, Answer(false, objection.value, false), FailedTerminal, objection.value)
            case Return(_, Refused(code)) =>
              if code.RecoveryRequired? then Gave(t, w, f, true, Answer(false, RecoveryRequired, false), s.row)
              else if code.Unrecognised? then Gave(t, w, f, true, Answer(false, StorageUnavailable, false), s.row)
              else Ended(u, t, w, f, true, Answer(code == AppliedCode || code == ReplayedCode, code, false), FailedTerminal, code)
            case Return(_, _) => Gave(t, w, f, true, Answer(false, RecoveryRequired, false), s.row)
            case Observe(_) =>
              if s.doc == c.after then Ended(u, t, w, f, true, Answer(true, AppliedCode, false), Applied, AppliedCode)
              else Ended(u, t, w, f, true, Answer(false, TargetDrift, false), FailedTerminal, TargetDrift)
            case Raise(_, policy) =>
              if policy then Ended(u, t, w, f, false, Answer(false, PolicyDenied, false), FailedTerminal, PolicyDenied)
              else Gave(t, w, f, false, Answer(false, RecoveryRequired, false), s.row)
            case _ => true
  {
    var m := Do(c, s, a);
    var pc := m.workers[w];
    StageVerdict(c, s, a, w);
    StepKeepsSafe(c, s, a);
    RunAwaitsRecord(c, m, acts, u, w, pc.fence, pc.verdict, pc.locked);
    RecordGives(c, u, w, pc.fence, pc.verdict, pc.locked);
  }

  lemma StageVerdict(c: Intent, s: State, a: Action, w: nat)
    requires Enabled(s, a) && Actor(a) == Some(w) && (a.Recheck? || a.Return? || a.Observe? || a.Raise?)
    requires Do(c, s, a).workers[w].Finalizing?
    ensures Do(c, s, a).row == s.row
    ensures var f, pc := s.workers[w].fence, Do(c, s, a).workers[w];
            match a
            case Recheck(_, objection) => objection.Some? && pc == Finalizing(f, Fail(objection.value), true)
                                          && Objection(objection.value)
            case Return(_, Refused(code)) => pc == Finalizing(f, Fail(code), true)
            case Return(_, _) => pc == Finalizing(f, Fail(RecoveryRequired), true)
            case Observe(_) => pc == Finalizing(f, if s.doc == c.after then Succeed(false) else Fail(TargetDrift), true)
            case Raise(_, policy) => pc == Finalizing(f, Fail(if policy then PolicyDenied else RecoveryRequired), false)
            case _ => true
  {
  }

  // ---------------------------------------------------------------- before and without a claim

  /** The answers that need no claim: the first objection met, in the order of the checks. */
  lemma EntryGives(c: Intent, s: State, w: nat, objection: Option<Code>)
    requires Enabled(s, Begin(w, objection))
    ensures var t := Do(c, s, Begin(w, objection));
            var late := s.row.Some? && s.row.value.expiresAt <= s.now
                        && (s.row.value.state.Issued? || s.row.value.state.Applying?);
            && t.row == s.row
            && t.workers[w] ==
               if objection == Some(StorageUnavailable) then Answered(Answer(false, StorageUnavailable, false))
               else if objection == Some(InvalidCode) || s.row.None? then Answered(Answer(false, InvalidCode, false))
               else if late then Answered(Answer(false, ExpiredCode, false))
               else if objection.Some? then Answered(Answer(false, objection.value, false))
               else Admitted
  {
  }

  /** The answers to a claim that was not granted. */
  lemma MissGives(c: Intent, s: State, w: nat)
    requires Enabled(s, ReadMiss(w)) && RowInv(s)
    ensures var t := Do(c, s, ReadMiss(w));
            && t.row == s.row
            && t.workers[w] == Answered(
                 if s.row.None? then Answer(false, InvalidCode, false)
                 else
                   var r := s.row.value;
                   match r.state
                   case Applied => Answer(true, ReplayedCode, true)
                   case FailedTerminal =>
                     Answer(r.terminalCode == Some(AppliedCode) || r.terminalCode == Some(ReplayedCode), r.terminalCode.value, true)
                   case _ => Answer(false, if r.expiresAt <= s.workers[w].at then ExpiredCode else BusyCode, false))
  {
  }

  /** What the retention sweep does: an expired row goes, unless it is being applied. */
  lemma SweepGives(c: Intent, s: State)
    ensures var t := Do(c, s, Cleanup);
            && t.doc == s.doc && t.workers == s.workers && t.sealed == s.sealed
            && t.row == if s.row.Some? && s.row.value.expiresAt <= s.now && s.row.value.state != Applying then None else s.row
  {
  }

  /** What a claim does: only an issued row, or an applying one whose lease has run out, is claimed in time. */
  lemma ClaimGives(c: Intent, s: State, w: nat)
    requires Enabled(s, ClaimRow(w, false)) && RowInv(s)
    ensures var t, at := Do(c, s, ClaimRow(w, false)), s.workers[w].at;
            var granted := s.row.Some? && at < s.row.value.expiresAt
                           && (s.row.value.state.Issued? || (s.row.value.state.Applying? && s.row.value.lease.value <= at));
            if granted then
              && t.row.Some? && t.row.value.state.Applying? && t.row.value.fence == s.row.value.fence + 1
              && t.row.value.lease == Some(at + c.leaseSeconds) && t.row.value.expiresAt == s.row.value.expiresAt
              && t.workers[w] == Holding(s.row.value.fence + 1)
            else t.row == s.row && t.workers[w] == Missed(at)
  {
  }
}
