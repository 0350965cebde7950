/** Admission and draining of transport operations while the server shuts down. */
module TransportShutdown {
  import opened Common

  datatype Phase = Running | Draining | BackendClose | Closed

  // ---------------------------------------------------------------- the machine

  /** Where a shutdown caller stands; `forced` remembers that its drain deadline fired. */
  datatype Caller = Waiting | Drained(forced: bool) | Closing(forced: bool) | Finished(forced: bool) | Dismissed

  datatype State = State(phase: Phase, inflight: int, open: set<nat>, callers: map<nat, Caller>)

  datatype Action =
    | Begin(op: nat)
    | End(op: nat)
    | Start(c: nat)
    | Poll(c: nat, expired: bool)
    | Close(c: nat)
    | Finish(c: nat)

  predicate Enabled(s: State, a: Action) {
    match a
    case Begin(op) => op !in s.open
    case End(op) => op in s.open
    case Start(c) => c !in s.callers
    case Poll(c, _) => c in s.callers && s.callers[c].Waiting?
    case Close(c) => c in s.callers && s.callers[c].Drained?
    case Finish(c) => c in s.callers && s.callers[c].Closing?
  }

  function Do(s: State, a: Action): State
    requires Enabled(s, a)
  {
    match a
    case Begin(op) =>
      if s.phase != Running then s else s.(inflight := s.inflight + 1, open := s.open + {op})
    case End(op) =>
      s.(inflight := if s.inflight > 0 then s.inflight - 1 else s.inflight, open := s.open - {op})
    case Start(c) =>
      if s.phase == Closed then s.(callers := s.callers[c := Dismissed])
      else s.(phase := Draining, callers := s.callers[c := Waiting])
    case Poll(c, expired) =>
      if s.inflight <= 0 then s.(callers := s.callers[c := Drained(false)])
      else if expired then s.(callers := s.callers[c := Drained(true)])
      else s
    case Close(c) => s.(phase := BackendClose, callers := s.callers[c := Closing(s.callers[c].forced)])
    case Finish(c) => s.(phase := Closed, callers := s.callers[c := Finished(s.callers[c].forced)])
  }

  const INITIAL := State(Running, 0, {}, map[])

  // ---------------------------------------------------------------- the code

  /** The two module globals, changed only under the shutdown lock; each method is one step of the machine. */
  class TransportGate {
    var phase: Phase
    var inflight: int

    constructor ()
      ensures Shows(INITIAL)
    {
      phase, inflight := Running, 0;
    }

    /** The globals are what state `s` says they are. */
    ghost predicate Shows(s: State)
      reads this
    {
      phase == s.phase && inflight == s.inflight
    }

    /** `begin_transport_operation`: the caller is told whether its operation was let in. */
    method BeginOperation(ghost op: nat, ghost s: State) returns (seen: Phase)
      requires Shows(s) && Enabled(s, Begin(op))
      modifies this`inflight
      ensures Shows(Do(s, Begin(op)))
      ensures seen == old(phase) && (seen == Running <==> op in Do(s, Begin(op)).open)
    {
      if phase != Running {
        return phase;
      }
      inflight := inflight + 1;
      return Running;
    }

    /** `end_transport_operation`. */
    method EndOperation(ghost op: nat, ghost s: State)
      requires Shows(s) && Enabled(s, End(op))
      modifies this`inflight
      ensures Shows(Do(s, End(op)))
    {
      if inflight > 0 {
        inflight := inflight - 1;
      }
    }

    /** The first locked section of `_shutdown`; a closed server is left alone. */
    method StartShutdown(ghost c: nat, ghost s: State) returns (proceed: bool)
      requires Shows(s) && Enabled(s, Start(c))
      modifies this`phase
      ensures Shows(Do(s, Start(c)))
      ensures Do(s, Start(c)).callers[c] == if proceed then Waiting else Dismissed
    {
      if phase == Closed {
        return false;
      }
      phase := Draining;
      return true;
    }

    /** One round of the drain loop: it is left when nothing is in flight or the deadline has passed. */
    method PollDrain(expired: bool, ghost c: nat, ghost s: State) returns (leave: bool)
      requires Shows(s) && Enabled(s, Poll(c, expired))
      ensures Shows(Do(s, Poll(c, expired)))
      ensures leave <==> Do(s, Poll(c, expired)).callers[c].Drained?
    {
      if inflight <= 0 {
        return true;
      }
      return expired;
    }

    /** The second locked section. */
    method CloseBackend(ghost c: nat, ghost s: State)
      requires Shows(s) && Enabled(s, Close(c))
      modifies this`phase
      ensures Shows(Do(s, Close(c)))
    {
      phase := BackendClose;
    }

    /** The last locked section. */
    method FinishShutdown(ghost c: nat, ghost s: State)
      requires Shows(s) && Enabled(s, Finish(c))
      modifies this`phase
      ensures Shows(Do(s, Finish(c)))
    {
      phase := Closed;
    }
  }

  // ---------------------------------------------------------------- every interleaving

  ghost predicate Runs(s: State, acts: seq<Action>, t: State)
    decreases |acts|
  {
    if acts == [] then s == t else Enabled(s, acts[0]) && Runs(Do(s, acts[0]), acts[1..], t)
  }

  /** A caller that saw the drain complete: the deadline did not push it on. */
  predicate SawDrained(caller: Caller) {
    (caller.Drained? || caller.Closing? || caller.Finished?) && !caller.forced
  }

  ghost predicate Inv(s: State) {
    && s.inflight == |s.open|
    && (s.callers != map[] ==> s.phase != Running)
    && (forall c :: c in s.callers && SawDrained(s.callers[c]) ==> s.open == {})
  }

  lemma StepKeepsInv(s: State, a: Action)
    requires Enabled(s, a) && Inv(s)
    ensures Inv(Do(s, a))
  {
    match a
    case Begin(op) =>
    case End(op) => assert |s.open - {op}| == |s.open| - 1;
    case Start(c) =>
    case Poll(c, _) => assert s.inflight <= 0 ==> s.open == {};
    case Close(c) =>
    case Finish(c) =>
  }

  /**
   In every interleaving of operations and any number of shutdown callers the counter equals
   the operations begun and not ended; and while a caller closes the backend, or after, nothing
   is in flight unless that caller's drain deadline had fired.
   */
  lemma {:induction false} DrainIsSafe(s: State, acts: seq<Action>, t: State)
    requires Runs(s, acts, t) && Inv(s)
    ensures Inv(t)
    decreases |acts|
  {
    if acts != [] {
      StepKeepsInv(s, acts[0]);
      DrainIsSafe(Do(s, acts[0]), acts[1..], t);
    }
  }

  lemma BackendClosesDrained(acts: seq<Action>, t: State, c: nat)
    requires Runs(INITIAL, acts, t) && c in t.callers
    requires t.callers[c].Closing? || t.callers[c].Finished?
    ensures t.callers[c].forced || (t.open == {} && t.inflight == 0)
    ensures t.phase != Running && t.inflight == |t.open|
  {
    DrainIsSafe(INITIAL, acts, t);
  }

  /** Once the phase has left running it never returns, and no operation is admitted any more. */
  lemma {:induction false} NothingStartsAfterShutdown(s: State, acts: seq<Action>, t: State)
    requires Runs(s, acts, t) && s.phase != Running
    ensures t.phase != Running && t.open <= s.open
    decreases |acts|
  {
    if acts != [] {
      NothingStartsAfterShutdown(Do(s, acts[0]), acts[1..], t);
    }
  }

  function Rank(p: Phase): nat {
    match p
    case Running => 0
    case Draining => 1
    case BackendClose => 2
    case Closed => 3
  }

  /**
   The phase goes back exactly when a shutdown starts while another caller is closing the
   backend, or reaches the backend after another has closed it.
   */
  lemma PhaseGoesBackIff(s: State, a: Action)
    requires Enabled(s, a)
    ensures Rank(Do(s, a).phase) < Rank(s.phase) <==>
              (a.Start? && s.phase == BackendClose) || (a.Close? && s.phase == Closed)
  {
  }

  /** With one caller the phases are in step with it. */
  ghost predicate InStep(s: State, c: nat) {
    && (forall d :: d in s.callers ==> d == c)
    && (if c !in s.callers then s.phase == Running
        else match s.callers[c]
             case Waiting => s.phase == Draining
             case Drained(_) => s.phase == Draining
             case Closing(_) => s.phase == BackendClose
             case Finished(_) => s.phase == Closed
             case Dismissed => false)
  }

  predicate OnlyCaller(a: Action, c: nat) {
    match a
    case Begin(_) => true
    case End(_) => true
    case Start(d) => d == c
    case Poll(d, _) => d == c
    case Close(d) => d == c
    case Finish(d) => d == c
  }

  lemma {:induction false} OneCallerGoesForward(s: State, acts: seq<Action>, t: State, c: nat)
    requires Runs(s, acts, t) && InStep(s, c) && forall i :: 0 <= i < |acts| ==> OnlyCaller(acts[i], c)
    ensures InStep(t, c) && Rank(s.phase) <= Rank(t.phase)
    decreases |acts|
  {
    if acts != [] {
      OneCallerGoesForward(Do(s, acts[0]), acts[1..], t, c);
    }
  }

  /** Two callers can send the phase from closing the backend back to draining. */
  lemma SecondCallerSendsPhaseBack() returns (acts: seq<Action>, s: State)
    ensures Runs(INITIAL, acts, s) && s.phase == BackendClose
    ensures Enabled(s, Start(1)) && Do(s, Start(1)).phase == Draining
  {
    acts := [Start(0), Poll(0, false), Close(0)];
    var s1 := Do(INITIAL, acts[0]);
    var s2 := Do(s1, acts[1]);
    s := Do(s2, acts[2]);
    assert acts[1..][1..][1..] == [];
    assert Runs(s2, acts[1..][1..], s);
    assert Runs(s1, acts[1..], s);
  }
}
