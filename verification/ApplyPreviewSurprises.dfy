/**
 Where the protocol stops short of what its documentation suggests: receipts that are applied
 after they failed, and successes answered for receipts that failed.
 */
module ApplyPreviewSurprises {
  import opened Common
  import opened ApplyPreviewStore
  import opened ApplyPreviewProtocol
  import opened ApplyPreviewSafety
  import opened ApplyPreviewRecovery

  // ---------------------------------------------------------------- applied after it failed

  /** A worker that holds the current fence is denied by the second preflight, which ends the receipt. */
  lemma Deny(c: Intent, s: State, w: nat) returns (acts: seq<Action>, t: State)
    requires w in s.workers && s.workers[w].Holding? && s.lock.None?
    requires s.row.Some? && s.row.value.HeldAt(s.workers[w].fence)
    ensures Solo(acts, w) && Runs(c, s, acts, t)
    ensures t.row.Some? && t.row.value.state.FailedTerminal? && t.lock.None?
    ensures t.doc == s.doc && t.entered == s.entered
    ensures forall v :: v in s.workers && v != w ==> v in t.workers && t.workers[v] == s.workers[v]
  {
    acts, t := [], s;
    Extend(c, s, acts, t, Acquire(w));
    acts, t := acts + [Acquire(w)], Do(c, t, Acquire(w));
    Extend(c, s, acts, t, Recheck(w, Some(PolicyDenied)));
    acts, t := acts + [Recheck(w, Some(PolicyDenied))], Do(c, t, Recheck(w, Some(PolicyDenied)));
    Extend(c, s, acts, t, Finalize(w, false));
    acts, t := acts + [Finalize(w, false)], Do(c, t, Finalize(w, false));
    Extend(c, s, acts, t, Release(w));
    acts, t := acts + [Release(w)], Do(c, t, Release(w));
  }

  /** Worker 0 claims and stalls past its lease; worker 1 claims after it and is denied. */
  lemma StallAndDeny(c: Intent, s: State) returns (acts: seq<Action>, t: State)
    requires c.leaseSeconds >= 1 && s.workers == map[] && s.lock.None? && s.row.Some?
    requires s.row.value.Claimable(s.now) && s.row.value.fence == 0 && s.now + c.leaseSeconds < s.row.value.expiresAt
    ensures Runs(c, s, acts, t) && forall a :: a in acts ==> !a.External?
    ensures t.row.Some? && t.row.value.state.FailedTerminal? && t.lock.None?
    ensures t.doc == s.doc && t.entered == s.entered && 0 in t.workers && t.workers[0] == Holding(1)
  {
    var stall, s1 := ReachHolding(c, s, 0);
    var wait := Tick(c.leaseSeconds);
    var s2 := Do(c, s1, wait);
    Extend(c, s, stall, s1, wait);
    var takeOver, s3 := ReachHolding(c, s2, 1);
    RunsConcat(c, s, stall + [wait], s2, takeOver, s3);
    var deny;
    deny, t := Deny(c, s3, 1);
    RunsConcat(c, s, stall + [wait] + takeOver, s3, deny, t);
    acts := stall + [wait] + takeOver + deny;
  }

  /**
   A `failed_terminal` receipt does not rule out a later application: the lock is taken after
   the claim and the executor is not fenced, so a stalled worker may still execute once the
   receipt has been failed by its successor, without anybody else touching the document.
   */
  lemma FailedReceiptMayStillBeApplied(c: Intent, issuedAt: int, expiresAt: int)
    returns (acts: seq<Action>, t: State)
    requires Distinct(c) && c.leaseSeconds >= 1 && issuedAt + c.leaseSeconds < expiresAt
    ensures Runs(c, Init(c, issuedAt, expiresAt, c.before), acts, t)
    ensures forall a :: a in acts ==> !a.External?
    ensures t.row.Some? && t.row.value.state.FailedTerminal? && t.doc == c.after && t.entered == 1
  {
    var s := Init(c, issuedAt, expiresAt, c.before);
    var deny, s1 := StallAndDeny(c, s);
    var look, s2 := ReachInspection(c, s1, 0);
    RunsConcat(c, s, deny, s1, look, s2);
    acts := deny + look;
    Extend(c, s, acts, s2, Inspect(0));
    acts, t := acts + [Inspect(0)], Do(c, s2, Inspect(0));
    Extend(c, s, acts, t, Write(0, c.after));
    acts, t := acts + [Write(0, c.after)], Do(c, t, Write(0, c.after));
  }

  /** The worker is executing and has not stored the predicted state, or is about to execute. */
  predicate Able(c: Intent, s: State, pc: Pc) {
    || (pc.Executing? && !pc.written)
    || ((pc.Holding? || pc.Locked? || pc.Checked?) && Decide(c, pc.fence, s.doc) == Execute)
  }

  ghost predicate SomeoneAble(c: Intent, s: State) {
    exists w :: w in s.workers && Able(c, s, s.workers[w])
  }

  /** The receipt has ended, or has been swept. */
  predicate Over(s: State) {
    s.row.None? || s.row.value.Terminal()
  }

  predicate Untouched(acts: seq<Action>) {
    forall i :: 0 <= i < |acts| ==> !acts[i].External?
  }

  /** Without an outside edit, the executor can still move the document into the predicted state. */
  ghost predicate CanStillBeApplied(c: Intent, s: State) {
    exists acts, t :: Runs(c, s, acts, t) && Untouched(acts) && t.entered > s.entered && t.doc == c.after
  }

  /** Once the receipt is over nobody becomes able, and without anybody able the document stays. */
  lemma StepStaysUnable(c: Intent, s: State, a: Action)
    requires Enabled(s, a) && !a.External? && Over(s) && !SomeoneAble(c, s)
    ensures var t := Do(c, s, a);
            Over(t) && t.doc == s.doc && t.entered == s.entered
    ensures !SomeoneAble(c, Do(c, s, a))
  {
    var t := Do(c, s, a);
    StepLeaves(c, s, a);
    if a.Write? {
      assert Able(c, s, s.workers[a.w]);
    }
    forall w | w in t.workers ensures !Able(c, t, t.workers[w]) {
      if Actor(a) == Some(w) {
        ActorStaysUnable(c, s, a, w);
      } else {
        OnlyActorMoves(c, s, a, w);
        DocumentStays(c, s, a);
      }
    }
    DocumentStays(c, s, a);
  }

  lemma DocumentStays(c: Intent, s: State, a: Action)
    requires Enabled(s, a) && !a.External? && !a.Write?
    ensures Do(c, s, a).doc == s.doc && Do(c, s, a).entered == s.entered
  {
  }

  lemma ActorStaysUnable(c: Intent, s: State, a: Action, w: nat)
    requires Enabled(s, a) && Actor(a) == Some(w) && Over(s) && !a.Write?
    requires w in s.workers ==> !Able(c, s, s.workers[w])
    ensures w in Do(c, s, a).workers ==> !Able(c, Do(c, s, a), Do(c, s, a).workers[w])
  {
    DocumentStays(c, s, a);
  }

  lemma {:induction false} RunStaysUnable(c: Intent, s: State, acts: seq<Action>, t: State)
    requires Runs(c, s, acts, t) && Untouched(acts) && Over(s) && !SomeoneAble(c, s)
    ensures t.doc == s.doc && t.entered == s.entered
    decreases |acts|
  {
    if acts != [] {
      StepStaysUnable(c, s, acts[0]);
      RunStaysUnable(c, Do(c, s, acts[0]), acts[1..], t);
    }
  }

  /** An executing worker stores the predicted state; if it is there already, something else first. */
  lemma WriteIn(c: Intent, s: State, w: nat) returns (acts: seq<Action>, t: State)
    requires w in s.workers && s.workers[w].Executing? && !s.workers[w].written
    ensures Runs(c, s, acts, t) && Untouched(acts) && t.entered > s.entered && t.doc == c.after
  {
    var away := Write(w, c.after + " ");
    var home := Write(w, c.after);
    if s.doc == c.after {
      Extend(c, s, [], s, away);
      var m := Do(c, s, away);
      assert c.after + " " != c.after;
      Extend(c, s, [] + [away], m, home);
      acts, t := [] + [away] + [home], Do(c, m, home);
    } else {
      Extend(c, s, [], s, home);
      acts, t := [] + [home], Do(c, s, home);
    }
  }

  /** A worker that finds the document fit to execute on under the lock starts executing. */
  lemma StartIn(c: Intent, s: State, w: nat) returns (acts: seq<Action>, t: State)
    requires w in s.workers && s.workers[w].Checked? && Decide(c, s.workers[w].fence, s.doc) == Execute
    ensures Runs(c, s, acts, t) && Untouched(acts) && t.entered > s.entered && t.doc == c.after
  {
    var look := Inspect(w);
    var m := Do(c, s, look);
    Extend(c, s, [], s, look);
    var rest;
    rest, t := WriteIn(c, m, w);
    RunsConcat(c, s, [] + [look], m, rest, t);
    acts := [] + [look] + rest;
  }

  lemma RecheckIn(c: Intent, s: State, w: nat) returns (acts: seq<Action>, t: State)
    requires w in s.workers && s.workers[w].Locked? && Decide(c, s.workers[w].fence, s.doc) == Execute
    ensures Runs(c, s, acts, t) && Untouched(acts) && t.entered > s.entered && t.doc == c.after
  {
    var check := Recheck(w, None);
    var m := Do(c, s, check);
    Extend(c, s, [], s, check);
    var rest;
    rest, t := StartIn(c, m, w);
    RunsConcat(c, s, [] + [check], m, rest, t);
    acts := [] + [check] + rest;
  }

  lemma AcquireIn(c: Intent, s: State, w: nat) returns (acts: seq<Action>, t: State)
    requires w in s.workers && s.workers[w].Holding? && s.lock.None? && Decide(c, s.workers[w].fence, s.doc) == Execute
    ensures Runs(c, s, acts, t) && Untouched(acts) && t.entered > s.entered && t.doc == c.after
  {
    var enter := Acquire(w);
    var m := Do(c, s, enter);
    Extend(c, s, [], s, enter);
    var rest;
    rest, t := RecheckIn(c, m, w);
    RunsConcat(c, s, [] + [enter], m, rest, t);
    acts := [] + [enter] + rest;
  }

  /** Whoever is in the lock may stop dead, and so give it up. */
  lemma WaitIn(c: Intent, s: State, w: nat) returns (acts: seq<Action>, t: State)
    requires LockInv(s) && w in s.workers && s.workers[w].Holding? && Decide(c, s.workers[w].fence, s.doc) == Execute
    ensures Runs(c, s, acts, t) && Untouched(acts) && t.entered > s.entered && t.doc == c.after
  {
    if s.lock.None? {
      acts, t := AcquireIn(c, s, w);
    } else {
      var stop := Crash(s.lock.value);
      var m := Do(c, s, stop);
      Extend(c, s, [], s, stop);
      var rest;
      rest, t := AcquireIn(c, m, w);
      RunsConcat(c, s, [] + [stop], m, rest, t);
      acts := [] + [stop] + rest;
    }
  }

  /**
   When an ended receipt may still be applied: exactly if some worker is executing, or waits for
   the lock or stands in it with a fence and a document that let it execute.  Otherwise no run
   without an outside edit moves the document at all.
   */
  lemma EndedReceiptIsAppliedIff(c: Intent, s: State)
    requires LockInv(s) && Over(s)
    ensures CanStillBeApplied(c, s) <==> SomeoneAble(c, s)
    ensures !SomeoneAble(c, s) ==>
              forall acts, t :: Runs(c, s, acts, t) && Untouched(acts) ==> t.doc == s.doc && t.entered == s.entered
  {
    if SomeoneAble(c, s) {
      var w :| w in s.workers && Able(c, s, s.workers[w]);
      var acts, t;
      match s.workers[w] {
        case Executing(_, _) => acts, t := WriteIn(c, s, w);
        case Checked(_) => acts, t := StartIn(c, s, w);
        case Locked(_) => acts, t := RecheckIn(c, s, w);
        case Holding(_) => acts, t := WaitIn(c, s, w);
      }
    } else {
      forall acts, t | Runs(c, s, acts, t) && Untouched(acts) ensures t.doc == s.doc && t.entered == s.entered {
        RunStaysUnable(c, s, acts, t);
      }
    }
  }

  // ---------------------------------------------------------------- success for a failed receipt

  lemma FreeWorker(taken: map<nat, Pc>) returns (w: nat)
    ensures w !in taken
  {
    w := FreeFromSet(taken.Keys);
  }

  lemma {:induction false} FreeFromSet(taken: set<nat>) returns (w: nat)
    ensures w !in taken && forall v :: v in taken ==> v < w
    decreases |taken|
  {
    if taken == {} {
      w := 0;
    } else {
      var v :| v in taken;
      var rest := FreeFromSet(taken - {v});
      w := if v < rest then rest else v + 1;
      forall u | u in taken ensures u < w {
        if u != v {
          assert u in taken - {v};
        }
      }
    }
  }

  /** A new call on an ended receipt answers what was recorded. */
  lemma ReplayRun(c: Intent, s: State, w: nat) returns (acts: seq<Action>, t: State)
    requires w !in s.workers && s.row.Some? && s.row.value.Terminal()
    ensures Runs(c, s, acts, t) && w in t.workers && t.workers[w] == Answered(TerminalReplay(s.row.value))
    ensures t.row == s.row && t.sealed == s.sealed && t.doc == s.doc
  {
    acts, t := [], s;
    Extend(c, s, acts, t, Begin(w, None));
    acts, t := acts + [Begin(w, None)], Do(c, t, Begin(w, None));
    Extend(c, s, acts, t, ReadClock(w));
    acts, t := acts + [ReadClock(w)], Do(c, t, ReadClock(w));
    Extend(c, s, acts, t, ClaimRow(w, false));
    acts, t := acts + [ClaimRow(w, false)], Do(c, t, ClaimRow(w, false));
    Extend(c, s, acts, t, ReadMiss(w));
    acts, t := acts + [ReadMiss(w)], Do(c, t, ReadMiss(w));
  }

  ghost predicate SomeoneToldOk(s: State) {
    exists w :: w in s.workers && s.workers[w].Answered? && s.workers[w].answer.ok
  }

  /** Now or later some call answers `ok: true`. */
  ghost predicate MayAnswerOk(c: Intent, s: State) {
    exists acts, t :: Runs(c, s, acts, t) && SomeoneToldOk(t)
  }

  /**
   Success answered for a failed receipt, exactly: once the receipt is recorded as
   `failed_terminal`, some call has answered `ok: true`, or some later one will if asked, if and only if
   the code recorded is a success code; and then it is one an executor refused with.
   */
  lemma FailedReceiptAnswersOkIff(c: Intent, issuedAt: int, expiresAt: int, doc: string, past: seq<Action>, s: State)
    requires issuedAt < expiresAt && Runs(c, Init(c, issuedAt, expiresAt, doc), past, s)
    requires s.row.Some? && s.row.value.state.FailedTerminal?
    ensures s.row.value.terminalCode.Some?
    ensures MayAnswerOk(c, s) <==> SuccessCode(s.row.value.terminalCode.value)
    ensures SuccessCode(s.row.value.terminalCode.value) ==> s.row.value.terminalCode.value in s.refused
  {
    InitIsSafe(c, issuedAt, expiresAt, doc);
    SealedForever(c, Init(c, issuedAt, expiresAt, doc), past, s);
    assert s.sealed == s.row;
    if SuccessCode(s.row.value.terminalCode.value) {
      var w := FreeWorker(s.workers);
      var acts, t := ReplayRun(c, s, w);
      assert t.workers[w].answer.ok;
      assert SomeoneToldOk(t);
    }
    if MayAnswerOk(c, s) {
      var acts, t :| Runs(c, s, acts, t) && SomeoneToldOk(t);
      SealedForever(c, s, acts, t);
      OkNeedsSuccessCode(t);
    }
  }

  /** Whoever was told `ok: true` of a failed receipt was told a success code some executor refused with. */
  lemma OkNeedsSuccessCode(s: State)
    requires AnswerInv(s) && SomeoneToldOk(s) && s.sealed.Some? && s.sealed.value.state.FailedTerminal?
    ensures s.sealed.value.terminalCode.Some? && SuccessCode(s.sealed.value.terminalCode.value)
    ensures s.sealed.value.terminalCode.value in s.refused
  {
    var w :| w in s.workers && s.workers[w].Answered? && s.workers[w].answer.ok;
    assert AnswerOk(s, s.workers[w]);
  }

  /**
   Such a receipt is reached: an executor that changes nothing and refuses with APPLY_RECEIPT_APPLIED
   makes the call answer `ok: true` for a receipt that is `failed_terminal`.
   */
  lemma RefusalAnswersOk(c: Intent, issuedAt: int, expiresAt: int) returns (acts: seq<Action>, t: State)
    requires issuedAt < expiresAt
    ensures Runs(c, Init(c, issuedAt, expiresAt, c.before), acts, t)
    ensures 0 in t.workers && t.workers[0] == Answered(PublicResult(AppliedCode, false)) && t.workers[0].answer.ok
    ensures t.row.Some? && t.row.value.state.FailedTerminal? && t.doc == c.before && t.entered == 0
  {
    var s := Init(c, issuedAt, expiresAt, c.before);
    var claim, k := ReachHolding(c, s, 0);
    var look, m := ReachInspection(c, k, 0);
    RunsConcat(c, s, claim, k, look, m);
    var refuse;
    refuse, t := RefuseWithSuccess(c, m, 0);
    RunsConcat(c, s, claim + look, m, refuse, t);
    acts := claim + look + refuse;
  }

  lemma RefuseWithSuccess(c: Intent, s: State, w: nat) returns (acts: seq<Action>, t: State)
    requires w in s.workers && s.workers[w].Checked? && s.lock == Some(w) && Decide(c, s.workers[w].fence, s.doc) == Execute
    requires s.row.Some? && s.row.value.HeldAt(s.workers[w].fence)
    ensures Runs(c, s, acts, t) && w in t.workers && t.workers[w] == Answered(PublicResult(AppliedCode, false))
    ensures t.row.Some? && t.row.value.state.FailedTerminal? && t.doc == s.doc && t.entered == s.entered
  {
    acts, t := [], s;
    Extend(c, s, acts, t, Inspect(w));
    acts, t := acts + [Inspect(w)], Do(c, t, Inspect(w));
    Extend(c, s, acts, t, Return(w, Refused(AppliedCode)));
    acts, t := acts + [Return(w, Refused(AppliedCode))], Do(c, t, Return(w, Refused(AppliedCode)));
    Extend(c, s, acts, t, Finalize(w, false));
    acts, t := acts + [Finalize(w, false)], Do(c, t, Finalize(w, false));
    Extend(c, s, acts, t, Release(w));
    acts, t := acts + [Release(w)], Do(c, t, Release(w));
  }
}
