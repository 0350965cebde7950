/**
 `ApplyPreviewService.apply` as a state machine: any number of workers run the method
 against one receipt row and one document, interleaved at every await, and may stop
 dead anywhere.  Each action is one statement (or one call into storage, the lock or
 the executor) of the method; `Do` gives its effect and `Enabled` its program point.
 */
module ApplyPreviewProtocol {
  import opened Common
  import opened ApplyPreviewStore

  /** What the receipt retains.  Document states are canonical JSON texts. */
  datatype Intent = Intent(before: string, after: string, rehome: bool, leaseSeconds: int)

  const PARTIAL := "{\"rehome_state\":\"PARTIAL\"}"

  datatype Answer = Answer(ok: bool, code: Code, replayed: bool)

  predicate SuccessCode(code: Code) {
    code.AppliedCode? || code.ReplayedCode?
  }

  function PublicResult(code: Code, replayed: bool): Answer {
    Answer(SuccessCode(code), code, replayed)
  }

  function SuccessResult(replayed: bool): Answer {
    Answer(true, if replayed then ReplayedCode else AppliedCode, replayed)
  }

  function TerminalReplay(record: Receipt): Answer {
    if record.state.Applied? then SuccessResult(true)
    else PublicResult(if record.terminalCode.Some? then record.terminalCode.value else RecoveryRequired, true)
  }

  function MissAnswer(row: Option<Receipt>, at: int): Answer {
    match MissStatus(row, at)
    case TerminalStatus => TerminalReplay(row.value)
    case BusyStatus => PublicResult(BusyCode, false)
    case ExpiredStatus => PublicResult(ExpiredCode, false)
    case _ => PublicResult(InvalidCode, false)
  }

  /** What a worker asks the store to record. */
  datatype Verdict = Succeed(replayed: bool) | Fail(code: Code)

  function VerdictAnswer(v: Verdict): Answer {
    match v
    case Succeed(replayed) => SuccessResult(replayed)
    case Fail(code) => PublicResult(code, false)
  }

  function VerdictRow(v: Verdict, r: Receipt, now: int): Receipt {
    match v
    case Succeed(_) => r.Finalize(Applied, AppliedCode, now)
    case Fail(code) => r.Finalize(FailedTerminal, code, now)
  }

  /** A claim that did not come back as `claimed` came back as `recovery`. */
  predicate Recovering(fence: int) {
    fence != 1
  }

  /** What the method does with the state it inspected under the lock. */
  datatype Decision = AlreadyApplied | Execute | Reject(code: Code)

  function Decide(c: Intent, fence: int, current: string): Decision {
    var recoverablePartial := Recovering(fence) && current == PARTIAL && c.rehome;
    if Recovering(fence) && current == c.after then AlreadyApplied
    else if current != c.before && !recoverablePartial then
      Reject(if Recovering(fence) then RecoveryRequired else TargetDrift)
    else Execute
  }

  datatype Reply = Done | Refused(code: Code) | RefusedOtherwise

  datatype Pc =
    | Admitted                                                // scope and preflight passed
    | Claiming(at: int)                                       // clock read for the claim
    | Missed(at: int)                                         // the claim updated no row
    | Holding(fence: int)                                     // claimed, waiting for the lock
    | Locked(fence: int)                                      // inside the lock
    | Checked(fence: int)                                     // second preflight passed
    | Executing(fence: int, written: bool)                    // inside execute_retained_intent
    | Returned(fence: int)                                    // the executor reported success
    | Finalizing(fence: int, verdict: Verdict, locked: bool)
    | Closing(fence: int, answer: Answer)                     // leaving the lock
    | Answered(answer: Answer)
    | Crashed
  {
    predicate InLock() {
      Locked? || Checked? || Executing? || Returned? || (Finalizing? && locked) || Closing?
    }

    predicate HasFence() {
      Holding? || Locked? || Checked? || Executing? || Returned? || Finalizing? || Closing?
    }
  }

  /**
   The shared state, the workers' program points, and history: how often the executor
   moved the document into the predicted state, how often somebody else put it back into
   a state execution may start from, which then-current fences saw the predicted state
   under the lock, the terminal record once written, and the codes of executor refusals.
   `benign` says that only the executor has touched the document, that it did so in the
   promised stages, and that no call was denied or refused after its claim.
   */
  datatype State = State(
    now: int,
    row: Option<Receipt>,
    doc: string,
    lock: Option<nat>,
    workers: map<nat, Pc>,
    entered: nat,
    resets: nat,
    observed: set<int>,
    sealed: Option<Receipt>,
    refused: set<Code>,
    benign: bool)
  {
    predicate At(w: nat) {
      w in workers
    }
  }

  datatype Action =
    | Tick(d: nat)
    | External(text: string)
    | Cleanup
    | Begin(w: nat, objection: Option<Code>)
    | ReadClock(w: nat)
    | ClaimRow(w: nat, lost: bool)
    | ReadMiss(w: nat)
    | Acquire(w: nat)
    | Recheck(w: nat, objection: Option<Code>)
    | Inspect(w: nat)
    | Write(w: nat, text: string)
    | Return(w: nat, reply: Reply)
    | Observe(w: nat)
    | Raise(w: nat, policy: bool)
    | Finalize(w: nat, lost: bool)
    | StoreFault(w: nat)
    | Release(w: nat)
    | Crash(w: nat)

  /** The worker that takes the action. */
  function Actor(a: Action): Option<nat> {
    if a.Tick? || a.External? || a.Cleanup? then None else Some(a.w)
  }

  predicate Objection(code: Code) {
    code.ScopeMismatch? || code.PolicyDenied? || code.TargetDrift?
  }

  predicate EarlyObjection(code: Code) {
    Objection(code) || code.InvalidCode? || code.StorageUnavailable?
  }

  predicate Startable(c: Intent, doc: string) {
    doc == c.before || (c.rehome && doc == PARTIAL)
  }

  predicate Enabled(s: State, a: Action) {
    match a
    case Tick(_) => true
    case External(_) => true
    case Cleanup => true
    case Begin(w, objection) => !s.At(w) && (objection.Some? ==> EarlyObjection(objection.value))
    case ReadClock(w) => s.At(w) && s.workers[w].Admitted?
    case ClaimRow(w, _) => s.At(w) && s.workers[w].Claiming?
    case ReadMiss(w) => s.At(w) && s.workers[w].Missed?
    case Acquire(w) => s.At(w) && s.workers[w].Holding? && s.lock.None?
    case Recheck(w, objection) =>
      s.At(w) && s.workers[w].Locked? && (objection.Some? ==> Objection(objection.value))
    case Inspect(w) => s.At(w) && s.workers[w].Checked?
    case Write(w, _) => s.At(w) && s.workers[w].Executing? && !s.workers[w].written
    case Return(w, _) => s.At(w) && s.workers[w].Executing?
    case Observe(w) => s.At(w) && s.workers[w].Returned?
    case Raise(w, _) => s.At(w) && s.workers[w].HasFence() && !s.workers[w].Finalizing?
    case Finalize(w, _) => s.At(w) && s.workers[w].Finalizing?
    case StoreFault(w) =>
      && s.At(w)
      && (s.workers[w].Claiming? || s.workers[w].Missed?
          || (s.workers[w].Finalizing? && s.workers[w].verdict != Fail(RecoveryRequired)))
    case Release(w) => s.At(w) && s.workers[w].Closing?
    case Crash(w) => s.At(w)
  }

  function Goto(s: State, w: nat, pc: Pc): State {
    s.(workers := s.workers[w := pc])
  }

  /** Program point `pc` outside the lock; the lock is given up if `w` was holding it. */
  function LeaveLock(s: State, w: nat, pc: Pc): State
    requires s.At(w)
  {
    Goto(s.(lock := if s.workers[w].InLock() then None else s.lock), w, pc)
  }

  /** A finalize attempt produced `answer`; inside the lock it still has to be released. */
  function Conclude(s: State, w: nat, answer: Answer): State
    requires s.At(w) && s.workers[w].Finalizing?
  {
    var pc := s.workers[w];
    Goto(s, w, if pc.locked then Closing(pc.fence, answer) else Answered(answer))
  }

  function Witnessed(s: State, fence: int): State {
    if s.row.Some? && s.row.value.fence == fence then s.(observed := s.observed + {fence}) else s
  }

  function DoBegin(s: State, w: nat, objection: Option<Code>): State {
    var answer :=
      if objection == Some(InvalidCode) || objection == Some(StorageUnavailable) then
        Some(PublicResult(objection.value, false))
      else if s.row.None? then Some(PublicResult(InvalidCode, false))
      else if s.row.value.expiresAt <= s.now && !s.row.value.Terminal() then Some(PublicResult(ExpiredCode, false))
      else if objection.Some? then Some(PublicResult(objection.value, false))
      else None;
    Goto(s, w, if answer.Some? then Answered(answer.value) else Admitted)
  }

  function DoClaim(c: Intent, s: State, w: nat, lost: bool): State
    requires Enabled(s, ClaimRow(w, lost))
  {
    var at := s.workers[w].at;
    if s.row.Some? && s.row.value.Claimable(at) then
      var r := s.row.value.Claim(at, c.leaseSeconds);
      Goto(s.(row := Some(r)), w,
           if lost then Answered(PublicResult(StorageUnavailable, false)) else Holding(r.fence))
    else
      Goto(s, w, Missed(at))
  }

  function DoInspect(c: Intent, s: State, w: nat): State
    requires Enabled(s, Inspect(w))
  {
    var f := s.workers[w].fence;
    match Decide(c, f, s.doc)
    case AlreadyApplied => Goto(Witnessed(s, f), w, Finalizing(f, Succeed(true), true))
    case Execute => Goto(s, w, Executing(f, false))
    case Reject(code) => Goto(s, w, Finalizing(f, Fail(code), true))
  }

  /** The executor stores a document state; once it stored the predicted one it is done. */
  function DoWrite(c: Intent, s: State, w: nat, text: string): State
    requires Enabled(s, Write(w, text))
  {
    var f := s.workers[w].fence;
    if text == c.after then
      Goto(s.(doc := text, entered := s.entered + if s.doc == c.after then 0 else 1), w, Executing(f, true))
    else
      s.(doc := text, benign := s.benign && c.rehome && text == PARTIAL)
  }

  function DoReturn(s: State, w: nat, reply: Reply): State
    requires Enabled(s, Return(w, reply))
  {
    var pc := s.workers[w];
    match reply
    case Done => Goto(s.(benign := s.benign && pc.written), w, Returned(pc.fence))
    case Refused(code) =>
      Goto(s.(refused := s.refused + {code}, benign := s.benign && code == RecoveryRequired),
           w, Finalizing(pc.fence, Fail(code), true))
    case RefusedOtherwise => Goto(s, w, Finalizing(pc.fence, Fail(RecoveryRequired), true))
  }

  function DoFinalize(s: State, w: nat, lost: bool): State
    requires Enabled(s, Finalize(w, lost))
  {
    var pc := s.workers[w];
    if pc.verdict == Fail(RecoveryRequired) then
      Conclude(s, w, PublicResult(RecoveryRequired, false))
    else if pc.verdict.Fail? && pc.verdict.code.Unrecognised? then
      Conclude(s, w, PublicResult(StorageUnavailable, false))
    else if s.row.Some? && s.row.value.HeldAt(pc.fence) then
      var r := VerdictRow(pc.verdict, s.row.value, s.now);
      Conclude(s.(row := Some(r), sealed := Some(r)), w,
               if lost then PublicResult(StorageUnavailable, false) else VerdictAnswer(pc.verdict))
    else
      Conclude(s, w, PublicResult(RecoveryRequired, false))
  }

  function Do(c: Intent, s: State, a: Action): State
    requires Enabled(s, a)
  {
    match a
    case Tick(d) => s.(now := s.now + d)
    case External(text) =>
      s.(doc := text, benign := false,
         resets := s.resets + if Startable(c, text) && !Startable(c, s.doc) then 1 else 0)
    case Cleanup =>
      if s.row.Some? && s.row.value.Expendable(s.now) then s.(row := None) else s
    case Begin(w, objection) => DoBegin(s, w, objection)
    case ReadClock(w) => Goto(s, w, Claiming(s.now))
    case ClaimRow(w, lost) => DoClaim(c, s, w, lost)
    case ReadMiss(w) => Goto(s, w, Answered(MissAnswer(s.row, s.workers[w].at)))
    case Acquire(w) => Goto(s.(lock := Some(w)), w, Locked(s.workers[w].fence))
    case Recheck(w, objection) =>
      var f := s.workers[w].fence;
      if objection.None? then Goto(s, w, Checked(f))
      else Goto(s.(benign := false), w, Finalizing(f, Fail(objection.value), true))
    case Inspect(w) => DoInspect(c, s, w)
    case Write(w, text) => DoWrite(c, s, w, text)
    case Return(w, reply) => DoReturn(s, w, reply)
    case Observe(w) =>
      var f := s.workers[w].fence;
      if s.doc == c.after then Goto(Witnessed(s, f), w, Finalizing(f, Succeed(false), true))
      else Goto(s, w, Finalizing(f, Fail(TargetDrift), true))
    case Raise(w, policy) =>
      LeaveLock(s.(benign := s.benign && !policy), w,
                Finalizing(s.workers[w].fence, Fail(if policy then PolicyDenied else RecoveryRequired), false))
    case Finalize(w, lost) => DoFinalize(s, w, lost)
    case StoreFault(w) =>
      var fault := PublicResult(StorageUnavailable, false);
      if s.workers[w].Finalizing? then Conclude(s, w, fault) else Goto(s, w, Answered(fault))
    case Release(w) => LeaveLock(s, w, Answered(s.workers[w].answer))
    case Crash(w) => LeaveLock(s, w, Crashed)
  }

  /** The state in which a freshly issued receipt meets a document. */
  function Init(c: Intent, issuedAt: int, expiresAt: int, doc: string): State {
    State(issuedAt, Some(NewReceipt(issuedAt, expiresAt)), doc, None, map[],
          0, 0, {}, None, {}, doc == c.before)
  }

  /** `acts` is a run from `s` to `t`. */
  ghost predicate Runs(c: Intent, s: State, acts: seq<Action>, t: State)
    decreases |acts|
  {
    if acts == [] then s == t
    else Enabled(s, acts[0]) && Runs(c, Do(c, s, acts[0]), acts[1..], t)
  }

  lemma {:induction false} RunsConcat(c: Intent, s: State, first: seq<Action>, m: State, second: seq<Action>, t: State)
    requires Runs(c, s, first, m) && Runs(c, m, second, t)
    ensures Runs(c, s, first + second, t)
    decreases |first|
  {
    if first == [] {
      assert first + second == second;
    } else {
      RunsConcat(c, Do(c, s, first[0]), first[1..], m, second, t);
      assert (first + second)[1..] == first[1..] + second;
    }
  }
}
