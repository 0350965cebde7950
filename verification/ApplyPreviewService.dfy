/**
 The service itself, as code over the receipt table and the document.  One call, made while
 nobody is inside the lock, is shown to be a run of the protocol; what the protocol keeps over
 all runs therefore holds of the code.
 */
module ApplyPreviewService {
  import opened Common
  import opened ApplyPreviewStore
  import opened ApplyPreviewProtocol
  import opened ApplyPreviewRecovery

  /** The bound targets, seen through `inspect_apply_preview_state`. */
  class Document {
    var text: string

    constructor (text: string)
      ensures this.text == text
    {
      this.text := text;
    }
  }

  /** How the executor behaves: what it stores, and how it returns or raises. */
  datatype Ending = Replies(reply: Reply) | Raises(policy: bool)
  datatype Execution = Execution(stores: seq<string>, ending: Ending)
  {
    /** An executor that has stored the predicted state is done. */
    predicate Valid(after: string) {
      forall i :: 0 <= i < |stores| - 1 ==> stores[i] != after
    }
  }

  /** Everything one call meets that the service does not decide. */
  datatype Call = Call(objection: Option<Code>, recheck: Option<Code>, execution: Execution)
  {
    predicate Valid(after: string) {
      && (objection.Some? ==> EarlyObjection(objection.value))
      && (recheck.Some? ==> Objection(recheck.value))
      && execution.Valid(after)
    }
  }

  class Service {
    const intent: Intent
    const store: ReceiptStore
    const document: Document

    constructor (intent: Intent, store: ReceiptStore, document: Document)
      ensures this.intent == intent && this.store == store && this.document == document
    {
      this.intent, this.store, this.document := intent, store, document;
    }

    /** The protocol state `t` shows the stored row and the document as they are. */
    ghost predicate Shows(t: State)
      reads store, document
    {
      store.Valid() && t.row == store.row && t.doc == document.text
      && (t.row.Some? ==> t.row.value.issuedAt <= t.now)
    }

    /** `acts` are the steps worker `w` has taken since `s`, and `t` is where they led. */
    ghost predicate OnTrack(w: nat, s: State, acts: seq<Action>, t: State)
      reads store, document
    {
      Runs(intent, s, acts, t) && Shows(t) && Solo(acts, w) && w in t.workers && t.now == s.now
    }

    /** One more step of `w`. */
    lemma Step(w: nat, s: State, acts: seq<Action>, m: State, a: Action)
      requires Runs(intent, s, acts, m) && Solo(acts, w) && w in m.workers
      requires Enabled(m, a) && Actor(a) == Some(w)
      ensures Runs(intent, s, acts + [a], Do(intent, m, a)) && Solo(acts + [a], w)
      ensures w in Do(intent, m, a).workers && Do(intent, m, a).now == m.now
    {
      Extend(intent, s, acts, m, a);
    }

    /** A holder of this fence finds the row applying under it. */
    predicate HasRow(row: Option<Receipt>, fence: int) {
      row.Some? && row.value.state.Applying? && row.value.fence == fence
    }

    /** What reporting a failure answers and leaves: RECOVERY_REQUIRED and unknown codes are not recorded. */
    predicate FailureGives(before: Option<Receipt>, fence: int, code: Code, now: int, answer: Answer, after: Option<Receipt>) {
      if code.RecoveryRequired? then answer == Answer(false, RecoveryRequired, false) && after == before
      else if code.Unrecognised? then answer == Answer(false, StorageUnavailable, false) && after == before
      else if !HasRow(before, fence) then answer == Answer(false, RecoveryRequired, false) && after == before
      else
        && answer == Answer(code == AppliedCode || code == ReplayedCode, code, false)
        && after.Some? && Recorded(before.value, after.value, FailedTerminal, code, now)
    }

    /** `_finalize_success`. */
    method FinalizeSuccess(w: nat, fence: int, replayed: bool, now: int,
                           ghost s: State, ghost past: seq<Action>, ghost m: State)
      returns (answer: Answer, ghost acts: seq<Action>, ghost t: State)
      requires OnTrack(w, s, past, m) && s.now == now
      requires m.workers[w] == Finalizing(fence, Succeed(replayed), true)
      modifies store
      ensures OnTrack(w, s, acts, t) && t.workers[w] == Closing(fence, answer)
      ensures if HasRow(old(store.row), fence) then
                && answer == Answer(true, if replayed then ReplayedCode else AppliedCode, replayed)
                && store.row.Some? && Recorded(old(store.row).value, store.row.value, Applied, AppliedCode, now)
              else answer == Answer(false, RecoveryRequired, false) && store.row == old(store.row)
    {
      var stored := store.Finalize(fence, Applied, AppliedCode, now);
      answer := if stored then SuccessResult(replayed) else PublicResult(RecoveryRequired, false);
      Step(w, s, past, m, Finalize(w, false));
      acts, t := past + [Finalize(w, false)], Do(intent, m, Finalize(w, false));
    }

    /** `_finalize_failure`: RECOVERY_REQUIRED is answered without touching the store. */
    method FinalizeFailure(w: nat, fence: int, code: Code, locked: bool, now: int,
                           ghost s: State, ghost past: seq<Action>, ghost m: State)
      returns (answer: Answer, ghost acts: seq<Action>, ghost t: State)
      requires OnTrack(w, s, past, m) && s.now == now
      requires m.workers[w] == Finalizing(fence, Fail(code), locked)
      modifies store
      ensures OnTrack(w, s, acts, t)
      ensures t.workers[w] == if locked then Closing(fence, answer) else Answered(answer)
      ensures FailureGives(old(store.row), fence, code, now, answer, store.row)
    {
      answer := RecordFailure(fence, code, now);
      FinalizeShows(m, w, fence, code, locked, answer, store.row);
      Step(w, s, past, m, Finalize(w, false));
      acts, t := past + [Finalize(w, false)], Do(intent, m, Finalize(w, false));
    }

    /** Its calls into the store. */
    method RecordFailure(fence: int, code: Code, now: int) returns (answer: Answer)
      requires store.Valid() && (store.row.Some? ==> store.row.value.issuedAt <= now)
      modifies store
      ensures store.Valid() && FailureGives(old(store.row), fence, code, now, answer, store.row)
    {
      if code == RecoveryRequired {
        return PublicResult(code, false);
      }
      if code.Unrecognised? {
        return PublicResult(StorageUnavailable, false);
      }
      var stored := store.Finalize(fence, FailedTerminal, code, now);
      answer := PublicResult(if stored then code else RecoveryRequired, false);
    }

    /** The protocol's step has that outcome. */
    lemma FinalizeShows(m: State, w: nat, fence: int, code: Code, locked: bool, answer: Answer, row: Option<Receipt>)
      requires w in m.workers && m.workers[w] == Finalizing(fence, Fail(code), locked)
      requires FailureGives(m.row, fence, code, m.now, answer, row)
      ensures var t := Do(intent, m, Finalize(w, false));
              && t.row == row && t.doc == m.doc
              && t.workers[w] == if locked then Closing(fence, answer) else Answered(answer)
    {
    }

    /** `execute_retained_intent`: the executor stores what it stores. */
    method CallExecutor(w: nat, fence: int, execution: Execution,
                        ghost s: State, ghost past: seq<Action>, ghost m: State)
      returns (ghost acts: seq<Action>, ghost t: State)
      requires execution.Valid(intent.after) && OnTrack(w, s, past, m) && m.workers[w] == Executing(fence, false)
      modifies document
      ensures OnTrack(w, s, acts, t) && t.workers[w].Executing? && t.workers[w].fence == fence
    {
      acts, t := past, m;
      var stores := execution.stores;
      for i := 0 to |stores|
        invariant OnTrack(w, s, acts, t) && t.workers[w].Executing? && t.workers[w].fence == fence
        invariant i < |stores| ==> !t.workers[w].written
      {
        document.text := stores[i];
        Step(w, s, acts, t, Write(w, stores[i]));
        acts, t := acts + [Write(w, stores[i])], Do(intent, t, Write(w, stores[i]));
      }
    }

    /** What the service makes of the executor's reply. */
    method AfterReply(w: nat, fence: int, reply: Reply, now: int,
                      ghost s: State, ghost past: seq<Action>, ghost m: State)
      returns (answer: Answer, ghost acts: seq<Action>, ghost t: State)
      requires OnTrack(w, s, past, m) && s.now == now
      requires m.workers[w].Executing? && m.workers[w].fence == fence
      modifies store
      ensures OnTrack(w, s, acts, t) && t.workers[w] == Closing(fence, answer)
      ensures document.text == old(document.text)
      ensures match reply
              case Done => old(document.text) != intent.after ==>
                             FailureGives(old(store.row), fence, TargetDrift, now, answer, store.row)
              case Refused(code) => FailureGives(old(store.row), fence, code, now, answer, store.row)
              case RefusedOtherwise => FailureGives(old(store.row), fence, RecoveryRequired, now, answer, store.row)
      ensures reply.Done? && old(document.text) == intent.after && HasRow(old(store.row), fence) ==>
                && answer == Answer(true, AppliedCode, false)
                && store.row.Some? && Recorded(old(store.row).value, store.row.value, Applied, AppliedCode, now)
    {
      Step(w, s, past, m, Return(w, reply));
      acts, t := past + [Return(w, reply)], Do(intent, m, Return(w, reply));
      if !reply.Done? {
        var code := if reply.Refused? then reply.code else RecoveryRequired;
        answer, acts, t := FinalizeFailure(w, fence, code, true, now, s, acts, t);
        return;
      }
      answer, acts, t := ObserveAfter(w, fence, now, s, acts, t);
    }

    /** The second inspection decides whether success is recorded. */
    method ObserveAfter(w: nat, fence: int, now: int, ghost s: State, ghost past: seq<Action>, ghost m: State)
      returns (answer: Answer, ghost acts: seq<Action>, ghost t: State)
      requires OnTrack(w, s, past, m) && s.now == now && m.workers[w] == Returned(fence)
      modifies store
      ensures OnTrack(w, s, acts, t) && t.workers[w] == Closing(fence, answer)
      ensures document.text != intent.after ==> FailureGives(old(store.row), fence, TargetDrift, now, answer, store.row)
      ensures document.text == intent.after && HasRow(old(store.row), fence) ==>
                && answer == Answer(true, AppliedCode, false)
                && store.row.Some? && Recorded(old(store.row).value, store.row.value, Applied, AppliedCode, now)
    {
      var observedAfter := document.text;
      Step(w, s, past, m, Observe(w));
      acts, t := past + [Observe(w)], Do(intent, m, Observe(w));
      if observedAfter != intent.after {
        answer, acts, t := FinalizeFailure(w, fence, TargetDrift, true, now, s, acts, t);
      } else {
        answer, acts, t := FinalizeSuccess(w, fence, false, now, s, acts, t);
      }
    }

    /** The executor call and what follows it inside the lock. */
    method ExecuteIntent(w: nat, fence: int, execution: Execution, now: int,
                         ghost s: State, ghost past: seq<Action>, ghost m: State)
      returns (answer: Answer, ghost acts: seq<Action>, ghost t: State)
      requires execution.Valid(intent.after)
      requires OnTrack(w, s, past, m) && s.now == now && m.workers[w] == Executing(fence, false)
      modifies store, document
      ensures OnTrack(w, s, acts, t) && (t.workers[w] == Closing(fence, answer) || t.workers[w] == Answered(answer))
    {
      acts, t := CallExecutor(w, fence, execution, s, past, m);
      match execution.ending {
        case Raises(policy) =>
          Step(w, s, acts, t, Raise(w, policy));
          acts, t := acts + [Raise(w, policy)], Do(intent, t, Raise(w, policy));
          var code := if policy then PolicyDenied else RecoveryRequired;
          answer, acts, t := FinalizeFailure(w, fence, code, false, now, s, acts, t);
        case Replies(reply) =>
          answer, acts, t := AfterReply(w, fence, reply, now, s, acts, t);
      }
    }

    /** What the service makes of the state it inspects under the lock. */
    method AfterPreflight(w: nat, fence: int, execution: Execution, now: int,
                          ghost s: State, ghost past: seq<Action>, ghost m: State)
      returns (answer: Answer, ghost acts: seq<Action>, ghost t: State)
      requires execution.Valid(intent.after)
      requires OnTrack(w, s, past, m) && s.now == now && m.workers[w] == Checked(fence)
      modifies store, document
      ensures OnTrack(w, s, acts, t) && (t.workers[w] == Closing(fence, answer) || t.workers[w] == Answered(answer))
      ensures fence != 1 && old(document.text) == intent.after && HasRow(old(store.row), fence) ==>
                && answer == Answer(true, ReplayedCode, true) && document.text == old(document.text)
                && store.row.Some? && Recorded(old(store.row).value, store.row.value, Applied, AppliedCode, now)
      ensures old(document.text) != intent.before
              && (fence == 1 || (old(document.text) != intent.after && !(intent.rehome && old(document.text) == PARTIAL))) ==>
                && document.text == old(document.text)
                && FailureGives(old(store.row), fence, if fence == 1 then TargetDrift else RecoveryRequired, now, answer, store.row)
    {
      var current := document.text;
      var recovery := fence != 1;
      Step(w, s, past, m, Inspect(w));
      acts, t := past + [Inspect(w)], Do(intent, m, Inspect(w));
      if recovery && current == intent.after {
        answer, acts, t := FinalizeSuccess(w, fence, true, now, s, acts, t);
        return;
      }
      var recoverablePartial := recovery && current == PARTIAL && intent.rehome;
      if current != intent.before && !recoverablePartial {
        var code := if recovery then RecoveryRequired else TargetDrift;
        answer, acts, t := FinalizeFailure(w, fence, code, true, now, s, acts, t);
        return;
      }
      answer, acts, t := ExecuteIntent(w, fence, execution, now, s, acts, t);
    }

    /** The body of the `async with` block. */
    method ApplyUnderLock(w: nat, fence: int, call: Call, now: int,
                          ghost s: State, ghost past: seq<Action>, ghost m: State)
      returns (answer: Answer, ghost acts: seq<Action>, ghost t: State)
      requires call.Valid(intent.after) && OnTrack(w, s, past, m) && s.now == now && m.workers[w] == Locked(fence)
      modifies store, document
      ensures OnTrack(w, s, acts, t) && (t.workers[w] == Closing(fence, answer) || t.workers[w] == Answered(answer))
      ensures call.recheck.Some? ==>
                document.text == old(document.text) && FailureGives(old(store.row), fence, call.recheck.value, now, answer, store.row)
    {
      Step(w, s, past, m, Recheck(w, call.recheck));
      acts, t := past + [Recheck(w, call.recheck)], Do(intent, m, Recheck(w, call.recheck));
      if call.recheck.Some? {
        answer, acts, t := FinalizeFailure(w, fence, call.recheck.value, true, now, s, acts, t);
      } else {
        answer, acts, t := AfterPreflight(w, fence, call.execution, now, s, acts, t);
      }
    }

    /** The claim: either the fence it granted, or the answer it forces. */
    method ClaimReceipt(w: nat, now: int, ghost s: State, ghost past: seq<Action>, ghost m: State)
      returns (granted: Option<int>, answer: Answer, ghost acts: seq<Action>, ghost t: State)
      requires intent.leaseSeconds >= 1
      requires OnTrack(w, s, past, m) && s.now == now && m.workers[w] == Admitted
      modifies store
      ensures OnTrack(w, s, acts, t) && t.lock == m.lock
      ensures t.workers[w] == if granted.Some? then Holding(granted.value) else Answered(answer)
    {
      Step(w, s, past, m, ReadClock(w));
      acts, t := past + [ReadClock(w)], Do(intent, m, ReadClock(w));
      var status, claimed := store.Claim(now, intent.leaseSeconds);
      Step(w, s, acts, t, ClaimRow(w, false));
      acts, t := acts + [ClaimRow(w, false)], Do(intent, t, ClaimRow(w, false));
      answer := PublicResult(InvalidCode, false);
      if status == ClaimedStatus || status == RecoveryStatus {
        granted := Some(claimed.value.fence);
        return;
      }
      granted := None;
      match status {
        case TerminalStatus => answer := TerminalReplay(claimed.value);
        case BusyStatus => answer := PublicResult(BusyCode, false);
        case ExpiredStatus => answer := PublicResult(ExpiredCode, false);
        case _ =>
      }
      Step(w, s, acts, t, ReadMiss(w));
      acts, t := acts + [ReadMiss(w)], Do(intent, t, ReadMiss(w));
    }

    /** `apply` past the checks that come before the claim. */
    method ApplyAdmitted(w: nat, call: Call, now: int, ghost s: State, ghost past: seq<Action>, ghost m: State)
      returns (answer: Answer, ghost acts: seq<Action>, ghost t: State)
      requires call.Valid(intent.after) && intent.leaseSeconds >= 1
      requires OnTrack(w, s, past, m) && s.now == now && m.workers[w] == Admitted && m.lock.None?
      modifies store, document
      ensures OnTrack(w, s, acts, t) && t.workers[w] == Answered(answer)
    {
      var granted;
      granted, answer, acts, t := ClaimReceipt(w, now, s, past, m);
      if granted.None? {
        return;
      }
      Step(w, s, acts, t, Acquire(w));
      acts, t := acts + [Acquire(w)], Do(intent, t, Acquire(w));
      answer, acts, t := ApplyUnderLock(w, granted.value, call, now, s, acts, t);
      if t.workers[w].Closing? {
        Step(w, s, acts, t, Release(w));
        acts, t := acts + [Release(w)], Do(intent, t, Release(w));
      }
    }

    /** `apply`, from the fetch to the answer. */
    method Apply(w: nat, call: Call, now: int, ghost s: State)
      returns (answer: Answer, ghost acts: seq<Action>, ghost t: State)
      requires call.Valid(intent.after) && intent.leaseSeconds >= 1
      requires Shows(s) && s.now == now && s.lock.None? && w !in s.workers
      modifies store, document
      ensures Runs(intent, s, acts, t) && Solo(acts, w)
      ensures t.row == store.row && t.doc == document.text
      ensures w in t.workers && t.workers[w] == Answered(answer)
    {
      Extend(intent, s, [], s, Begin(w, call.objection));
      acts, t := [] + [Begin(w, call.objection)], Do(intent, s, Begin(w, call.objection));
      if call.objection == Some(InvalidCode) || call.objection == Some(StorageUnavailable) {
        answer := PublicResult(call.objection.value, false);
        return;
      }
      var record := store.row;
      if record.None? {
        answer := PublicResult(InvalidCode, false);
        return;
      }
      if record.value.expiresAt <= now && !record.value.Terminal() {
        answer := PublicResult(ExpiredCode, false);
        return;
      }
      if call.objection.Some? {
        answer := PublicResult(call.objection.value, false);
        return;
      }
      answer, acts, t := ApplyAdmitted(w, call, now, s, acts, t);
    }
  }
}
