/** What every run of admissions, claims and transitions keeps, whoever issues them. */
module BackgroundRuns {
  import opened Common
  import opened BackgroundModels
  import opened BackgroundStore

  datatype Op =
    | AdmitOp(intent: Intent, limits: Limits, now: int)
    | ClaimOp(i: nat, worker: string, leaseMs: int, now: int)
    | TransitionOp(id: string, expectedVersion: int, token: int, outcome: Outcome, now: int)

  predicate Enabled(s: Rows, op: Op) {
    match op
    case AdmitOp(intent, limits, _) => intent.Valid() && limits.Valid()
    case ClaimOp(i, worker, leaseMs, now) =>
      && i < |s.table| && worker != "" && leaseMs >= 1
      && Eligible(s.table[i], s.table[i].intent.projectKey, s.table[i].intent.lane, now)
    case TransitionOp(_, _, _, _, _) => true
  }

  function Do(s: Rows, op: Op): Rows
    requires Enabled(s, op)
  {
    match op
    case AdmitOp(intent, limits, now) => Admit(s, intent, limits, now).0
    case ClaimOp(i, worker, leaseMs, now) => Replace(s, i, Lease(s.table[i], worker, leaseMs, now))
    case TransitionOp(id, version, token, outcome, now) => Apply(s, id, version, token, outcome, now).0
  }

  ghost predicate Runs(s: Rows, ops: seq<Op>, t: Rows)
    decreases |ops|
  {
    if ops == [] then s == t
    else Enabled(s, ops[0]) && Runs(Do(s, ops[0]), ops[1..], t)
  }

  // ---------------------------------------------------------------- the validator is inductive

  ghost predicate Sound(s: Rows) {
    && (forall i :: 0 <= i < |s.table| ==> s.table[i].Valid() && s.table[i].Tracked())
    && (forall i, j :: 0 <= i < j < |s.table| ==>
          && s.table[i].intent.operationId != s.table[j].intent.operationId
          && !SameKey(s.table[i], s.table[j].intent))
  }

  lemma LeaseIsValid(r: Receipt, worker: string, leaseMs: int, now: int)
    requires r.Valid() && worker != "" && Eligible(r, r.intent.projectKey, r.intent.lane, now)
    ensures Lease(r, worker, leaseMs, now).Valid()
    ensures r.Tracked() ==> Lease(r, worker, leaseMs, now).Tracked()
  {
  }

  lemma MoveIsValid(r: Receipt, o: Outcome, now: int)
    requires r.Valid() && o.Valid() && o.state in Successors(r.state)
    ensures Move(r, o, now).Valid()
    ensures r.Tracked() ==> Move(r, o, now).Tracked()
  {
  }

  lemma ReplaceKeepsSound(s: Rows, i: nat, r: Receipt)
    requires Sound(s) && i < |s.table| && r.Valid() && r.Tracked() && r.intent == s.table[i].intent
    ensures Sound(Replace(s, i, r))
  {
  }

  lemma AdmitKeepsSound(s: Rows, intent: Intent, limits: Limits, now: int)
    requires Sound(s) && intent.Valid() && limits.Valid()
    ensures Sound(Admit(s, intent, limits, now).0) && Admit(s, intent, limits, now).1.Valid()
  {
    assert Fresh(intent, now).Valid();
  }

  lemma StepKeepsSound(s: Rows, op: Op)
    requires Enabled(s, op) && Sound(s)
    ensures Sound(Do(s, op))
  {
    match op
    case AdmitOp(intent, limits, now) =>
      AdmitKeepsSound(s, intent, limits, now);
    case ClaimOp(i, worker, leaseMs, now) =>
      LeaseIsValid(s.table[i], worker, leaseMs, now);
      ReplaceKeepsSound(s, i, Lease(s.table[i], worker, leaseMs, now));
    case TransitionOp(id, version, token, o, now) =>
      var i := Find(s.table, id);
      if Apply(s, id, version, token, o, now).1.Moved? {
        MoveIsValid(s.table[i], o, now);
        ReplaceKeepsSound(s, i, Move(s.table[i], o, now));
      }
  }

  // ---------------------------------------------------------------- fencing

  /** How one receipt may develop: it keeps its intent, and version and fence only grow. */
  ghost predicate Later(r: Receipt, q: Receipt) {
    && q.intent == r.intent
    && r.stateVersion <= q.stateVersion
    && r.fencingToken <= q.fencingToken
    && q.fencingToken - r.fencingToken <= q.stateVersion - r.stateVersion
    && (Terminal(r.state) || q.stateVersion == r.stateVersion ==> q == r)
  }

  lemma StepIsLater(s: Rows, op: Op, i: nat)
    requires Enabled(s, op) && i < |s.table|
    ensures |s.table| <= |Do(s, op).table| && Later(s.table[i], Do(s, op).table[i])
  {
  }

  /** Along any run a row keeps its place, and a terminal row never changes again. */
  lemma {:induction false} RunIsLater(s: Rows, ops: seq<Op>, t: Rows, i: nat)
    requires Runs(s, ops, t) && i < |s.table|
    ensures |s.table| <= |t.table| && Later(s.table[i], t.table[i])
    decreases |ops|
  {
    if ops != [] {
      StepIsLater(s, ops[0], i);
      RunIsLater(Do(s, ops[0]), ops[1..], t, i);
    }
  }

  /** Every receipt of every run from the empty store passes the whole validator. */
  lemma {:induction false} RunKeepsSound(s: Rows, ops: seq<Op>, t: Rows)
    requires Runs(s, ops, t) && Sound(s)
    ensures Sound(t)
    decreases |ops|
  {
    if ops != [] {
      StepKeepsSound(s, ops[0]);
      RunKeepsSound(Do(s, ops[0]), ops[1..], t);
    }
  }

  /** A transition succeeds exactly on the current version, under the current fence if leased. */
  lemma MovedIff(s: Rows, id: string, version: int, token: int, o: Outcome, now: int)
    requires id != "" && version >= 1 && token >= 0 && o.Valid()
    ensures var i := Find(s.table, id);
            Apply(s, id, version, token, o, now).1.Moved? <==>
            && i < |s.table| && s.table[i].stateVersion == version
            && (s.table[i].state.Leased? ==> s.table[i].fencingToken == token)
            && o.state in Successors(s.table[i].state)
  {
  }

  lemma FindsRow(s: Rows, i: nat)
    requires Sound(s) && i < |s.table|
    ensures Find(s.table, s.table[i].intent.operationId) == i
  {
  }

  /**
   Fencing.  A worker holds row `i` under the lease it sees in `s`.  Once the row has been
   leased again, no transition the worker can build from what it knew (its token, or any
   version up to the one it saw) changes anything, then or in any later state.
   */
  lemma OldHolderIsFencedOff(s: Rows, ops: seq<Op>, t: Rows, later: seq<Op>, u: Rows, i: nat,
                             version: int, token: int, o: Outcome, now: int)
    requires Sound(s) && i < |s.table| && s.table[i].state.Leased?
    requires Runs(s, ops, t) && i < |t.table| && t.table[i].fencingToken > s.table[i].fencingToken
    requires Runs(t, later, u)
    requires version <= s.table[i].stateVersion
    ensures i < |u.table|
    ensures Apply(u, s.table[i].intent.operationId, version, token, o, now).0 == u
    ensures !Apply(u, s.table[i].intent.operationId, version, token, o, now).1.Moved?
  {
    RunKeepsSound(s, ops, t);
    RunKeepsSound(t, later, u);
    RunIsLater(s, ops, t, i);
    RunIsLater(t, later, u, i);
    FindsRow(u, i);
  }

  /** While somebody else holds the lease, the old token fails whatever version comes with it. */
  lemma OldTokenFailsWhileLeased(s: Rows, i: nat, version: int, token: int, o: Outcome, now: int)
    requires Sound(s) && i < |s.table| && s.table[i].state.Leased? && token != s.table[i].fencingToken
    ensures Apply(s, s.table[i].intent.operationId, version, token, o, now).0 == s
    ensures !Apply(s, s.table[i].intent.operationId, version, token, o, now).1.Moved?
  {
    FindsRow(s, i);
  }

  /**
   The token alone is no fence outside a lease: between two leases a cancellation that knows
   the current version goes through with any token, old ones included.
   */
  lemma AnyTokenCancelsBetweenLeases(s: Rows, i: nat, token: int, now: int)
    requires Sound(s) && i < |s.table| && s.table[i].state.RetryWait? && token >= 0
    ensures var r := s.table[i];
            Apply(s, r.intent.operationId, r.stateVersion, token, Outcome(Cancelled, None, true, None, None), now).1.Moved?
  {
    FindsRow(s, i);
  }

  /** How often a run moves the operation into a terminal state. */
  ghost function TerminalMoves(s: Rows, ops: seq<Op>, i: nat): nat
    decreases |ops|
  {
    if ops == [] || !Enabled(s, ops[0]) then 0
    else
      var t := Do(s, ops[0]);
      var hit := i < |s.table| && i < |t.table| && !Terminal(s.table[i].state) && Terminal(t.table[i].state);
      (if hit then 1 else 0) + TerminalMoves(t, ops[1..], i)
  }

  /** An operation ends at most once, and not at all if it had ended before the run. */
  lemma {:induction false} AtMostOneTerminalMove(s: Rows, ops: seq<Op>, t: Rows, i: nat)
    requires Runs(s, ops, t)
    ensures TerminalMoves(s, ops, i) <= 1
    ensures i < |s.table| && Terminal(s.table[i].state) ==> TerminalMoves(s, ops, i) == 0
    decreases |ops|
  {
    if ops != [] {
      if i < |s.table| {
        StepIsLater(s, ops[0], i);
      }
      AtMostOneTerminalMove(Do(s, ops[0]), ops[1..], t, i);
    }
  }

  // ---------------------------------------------------------------- waiting to be tried again

  /** The claims of a run all come before `x`. */
  predicate ClaimsBefore(ops: seq<Op>, x: int) {
    forall k :: 0 <= k < |ops| && ops[k].ClaimOp? ==> ops[k].now < x
  }

  /** The row waits until `x`, or has been cancelled meanwhile; it has not been leased. */
  predicate StillWaits(r: Receipt, q: Receipt, x: int) {
    q.fencingToken == r.fencingToken && q.attemptCount == r.attemptCount
    && (q.state.Cancelled? || (q.state.RetryWait? && q.nextAttemptAt == Some(x)))
  }

  lemma StepStillWaits(s: Rows, op: Op, i: nat, x: int)
    requires Enabled(s, op) && i < |s.table| && (op.ClaimOp? ==> op.now < x)
    requires s.table[i].state.Cancelled? || (s.table[i].state.RetryWait? && s.table[i].nextAttemptAt == Some(x))
    ensures i < |Do(s, op).table| && StillWaits(s.table[i], Do(s, op).table[i], x)
  {
  }

  lemma {:induction false} RunStillWaits(s: Rows, ops: seq<Op>, t: Rows, i: nat, x: int)
    requires Runs(s, ops, t) && i < |s.table| && ClaimsBefore(ops, x)
    requires s.table[i].state.Cancelled? || (s.table[i].state.RetryWait? && s.table[i].nextAttemptAt == Some(x))
    ensures i < |t.table| && StillWaits(s.table[i], t.table[i], x)
    decreases |ops|
  {
    if ops != [] {
      StepStillWaits(s, ops[0], i, x);
      RunStillWaits(Do(s, ops[0]), ops[1..], t, i, x);
    }
  }

  /**
   A retry is not early: once a transition has put a row off until `x`, no run whose claims come
   before `x` leases it again; and from `x` on it may be claimed.
   */
  lemma RetryIsNotEarly(s: Rows, i: nat, token: int, o: Outcome, now: int, x: int, ops: seq<Op>, t: Rows)
    requires Sound(s) && i < |s.table| && s.table[i].state.Leased? && token == s.table[i].fencingToken
    requires o.Valid() && o.state.RetryWait? && o.nextAttemptAt == Some(x)
    requires var id, version := s.table[i].intent.operationId, s.table[i].stateVersion;
             Runs(Apply(s, id, version, token, o, now).0, ops, t) && ClaimsBefore(ops, x)
    ensures i < |t.table| && StillWaits(s.table[i], t.table[i], x)
    ensures t.table[i].state.RetryWait? ==>
              forall at :: Eligible(t.table[i], t.table[i].intent.projectKey, t.table[i].intent.lane, at) <==> x <= at
  {
    FindsRow(s, i);
    RunStillWaits(Apply(s, s.table[i].intent.operationId, s.table[i].stateVersion, token, o, now).0, ops, t, i, x);
  }

  /** Every claim hands out the next token. */
  lemma ClaimAdvancesFence(s: Rows, i: nat, worker: string, leaseMs: int, now: int)
    requires Enabled(s, ClaimOp(i, worker, leaseMs, now)) && Sound(s)
    ensures var r := Do(s, ClaimOp(i, worker, leaseMs, now)).table[i];
            && r.state.Leased? && r.leaseOwner == Some(worker) && r.leaseExpiresAt == Some(now + leaseMs)
            && ShowsLease(s.table[i], worker, leaseMs, now, r)
            && (forall later :: Reclaimable(r, later) <==> now + leaseMs <= later)
            && r.fencingToken == s.table[i].fencingToken + 1 == r.attemptCount
    ensures forall k :: 0 <= k < |s.table| && k != i ==> Do(s, ClaimOp(i, worker, leaseMs, now)).table[k] == s.table[k]
  {
  }
}
