/** Capacity accounting: incremental totals, admission limits, recovery snapshots, exact version bounds. */
module BackgroundCapacity {
  import opened Common
  import opened BackgroundModels
  import opened BackgroundStore
  import opened BackgroundRuns

  /** The totals kept step by step are the totals a recovery would recompute. */
  ghost predicate Counted(s: Rows) {
    s.pendingItems == |PendingOf(s.table, None)| && s.pendingBytes == Bytes(PendingOf(s.table, None))
  }

  predicate Concerns(r: Receipt, project: Option<string>) {
    project.None? || r.intent.projectKey == project.value
  }

  lemma BytesOfAppended(receipts: seq<Receipt>, r: Receipt)
    ensures Bytes(receipts + [r]) == Bytes(receipts) + r.intent.payloadBytes
  {
    assert (receipts + [r])[..|receipts|] == receipts;
  }

  lemma PendingOfAppended(table: seq<Receipt>, r: Receipt, project: Option<string>)
    ensures PendingOf(table + [r], project) ==
            PendingOf(table, project) + if r.Pending() && Concerns(r, project) then [r] else []
  {
    assert (table + [r])[..|table|] == table;
  }

  /** Changing a pending row takes it out of the totals if it ends, and leaves them alone otherwise. */
  lemma {:induction false} PendingOfReplaced(table: seq<Receipt>, i: nat, r: Receipt, project: Option<string>)
    requires i < |table| && r.intent == table[i].intent && table[i].Pending()
    ensures var lost := !r.Pending() && Concerns(r, project);
            && |PendingOf(table[i := r], project)| == |PendingOf(table, project)| - (if lost then 1 else 0)
            && Bytes(PendingOf(table[i := r], project)) ==
               Bytes(PendingOf(table, project)) - (if lost then r.intent.payloadBytes else 0)
  {
    var n := |table| - 1;
    var before, after := PendingOf(table[..n], project), PendingOf(table[i := r][..n], project);
    PendingOfAppended(table[..n], table[n], project);
    assert table[..n] + [table[n]] == table;
    PendingOfAppended(table[i := r][..n], table[i := r][n], project);
    assert table[i := r][..n] + [table[i := r][n]] == table[i := r];
    BytesOfAppended(before, table[n]);
    BytesOfAppended(after, table[i := r][n]);
    if i < n {
      assert table[i := r][..n] == table[..n][i := r];
      PendingOfReplaced(table[..n], i, r, project);
    } else {
      assert table[i := r][..n] == table[..n];
    }
    assert before + [] == before && after + [] == after;
  }

  /** Every operation that changes a row finds it pending and keeps its intent. */
  lemma ChangedRow(s: Rows, op: Op) returns (i: nat, r: Receipt)
    requires Enabled(s, op) && !op.AdmitOp? && Do(s, op) != s
    ensures i < |s.table| && s.table[i].Pending() && r.intent == s.table[i].intent
    ensures Do(s, op) == Replace(s, i, r)
  {
    match op
    case ClaimOp(k, worker, leaseMs, now) => i, r := k, Lease(s.table[k], worker, leaseMs, now);
    case TransitionOp(id, version, token, o, now) =>
      i := Find(s.table, id);
      r := Move(s.table[i], o, now);
  }

  lemma StepKeepsCounted(s: Rows, op: Op)
    requires Enabled(s, op) && Counted(s)
    ensures Counted(Do(s, op))
  {
    if op.AdmitOp? {
      var r := Fresh(op.intent, op.now);
      PendingOfAppended(s.table, r, None);
      BytesOfAppended(PendingOf(s.table, None), r);
    } else if Do(s, op) != s {
      var i, r := ChangedRow(s, op);
      PendingOfReplaced(s.table, i, r, None);
    }
  }

  // ---------------------------------------------------------------- admission limits

  ghost predicate WithinLimits(s: Rows, limits: Limits) {
    && s.pendingItems <= limits.maxItems
    && s.pendingBytes <= limits.maxBytes
    && forall p: string {:trigger PendingOf(s.table, Some(p))} ::
         && |PendingOf(s.table, Some(p))| <= limits.maxProjectItems
         && Bytes(PendingOf(s.table, Some(p))) <= limits.maxProjectBytes
  }

  ghost predicate Tighter(l: Limits, limits: Limits) {
    && l.maxItems <= limits.maxItems && l.maxBytes <= limits.maxBytes
    && l.maxProjectItems <= limits.maxProjectItems && l.maxProjectBytes <= limits.maxProjectBytes
  }

  lemma ProjectStaysWithin(s: Rows, op: Op, limits: Limits, p: string)
    requires Enabled(s, op) && Sound(s) && WithinLimits(s, limits)
    requires op.AdmitOp? ==> Tighter(op.limits, limits)
    ensures var mine := PendingOf(Do(s, op).table, Some(p));
            |mine| <= limits.maxProjectItems && Bytes(mine) <= limits.maxProjectBytes
  {
    assert |PendingOf(s.table, Some(p))| <= limits.maxProjectItems;
    if op.AdmitOp? {
      var r := Fresh(op.intent, op.now);
      PendingOfAppended(s.table, r, Some(p));
      BytesOfAppended(PendingOf(s.table, Some(p)), r);
      assert PendingOf(s.table, Some(p)) + [] == PendingOf(s.table, Some(p));
    } else if Do(s, op) != s {
      var i, r := ChangedRow(s, op);
      assert s.table[i].Valid();
      PendingOfReplaced(s.table, i, r, Some(p));
    }
  }

  lemma StepKeepsLimits(s: Rows, op: Op, limits: Limits)
    requires Enabled(s, op) && Sound(s) && WithinLimits(s, limits)
    requires op.AdmitOp? ==> Tighter(op.limits, limits)
    ensures WithinLimits(Do(s, op), limits)
  {
    var t := Do(s, op);
    if !op.AdmitOp? && t != s {
      var i, r := ChangedRow(s, op);
      assert s.table[i].Valid();
    }
    forall p: string
      ensures |PendingOf(t.table, Some(p))| <= limits.maxProjectItems
           && Bytes(PendingOf(t.table, Some(p))) <= limits.maxProjectBytes
    {
      ProjectStaysWithin(s, op, limits, p);
    }
  }

  /**
   In every run from the empty store the incremental totals are exact, and if no admission
   used wider limits than these, neither the whole queue nor any project ever exceeds them.
   */
  lemma {:induction false} RunKeepsCapacity(s: Rows, ops: seq<Op>, t: Rows, limits: Limits)
    requires Runs(s, ops, t) && Sound(s) && Counted(s) && WithinLimits(s, limits)
    requires forall k :: 0 <= k < |ops| && ops[k].AdmitOp? ==> Tighter(ops[k].limits, limits)
    ensures Sound(t) && Counted(t) && WithinLimits(t, limits)
    decreases |ops|
  {
    if ops != [] {
      StepKeepsSound(s, ops[0]);
      StepKeepsCounted(s, ops[0]);
      StepKeepsLimits(s, ops[0], limits);
      RunKeepsCapacity(Do(s, ops[0]), ops[1..], t, limits);
    }
  }

  lemma QueueNeverOverflows(ops: seq<Op>, t: Rows, limits: Limits)
    requires limits.Valid() && Runs(Rows([], 0, 0), ops, t)
    requires forall k :: 0 <= k < |ops| && ops[k].AdmitOp? ==> Tighter(ops[k].limits, limits)
    ensures Sound(t) && Counted(t) && WithinLimits(t, limits)
  {
    RunKeepsCapacity(Rows([], 0, 0), ops, t, limits);
  }

  // ---------------------------------------------------------------- recovery

  ghost predicate DistinctIds(receipts: seq<Receipt>) {
    forall i, j :: 0 <= i < j < |receipts| ==> receipts[i].intent.operationId != receipts[j].intent.operationId
  }

  /** Recovery reads exactly the pending rows, each once. */
  lemma {:induction false} PendingOfIsExact(table: seq<Receipt>)
    requires DistinctIds(table)
    ensures DistinctIds(PendingOf(table, None))
    ensures forall r :: r in PendingOf(table, None) <==> r in table && r.Pending()
  {
    if table != [] {
      var n := |table| - 1;
      PendingOfIsExact(table[..n]);
      assert table[..n] + [table[n]] == table;
      PendingOfAppended(table[..n], table[n], None);
      var rest := PendingOf(table[..n], None);
      forall i | 0 <= i < |rest| ensures rest[i].intent.operationId != table[n].intent.operationId {
        assert rest[i] in rest;
        var k :| 0 <= k < n && table[..n][k] == rest[i];
      }
    }
  }

  ghost predicate Distinct(ids: seq<string>) {
    forall i, j :: 0 <= i < j < |ids| ==> ids[i] != ids[j]
  }

  /** Some receipt has this id and a lease that has run out. */
  ghost predicate ExpiredLease(receipts: seq<Receipt>, now: int, id: string) {
    exists r :: r in receipts && Reclaimable(r, now) && r.intent.operationId == id
  }

  lemma NewestLease(receipts: seq<Receipt>, last: Receipt, now: int, id: string)
    ensures ExpiredLease(receipts + [last], now, id) <==>
            ExpiredLease(receipts, now, id) || (Reclaimable(last, now) && last.intent.operationId == id)
  {
    assert last in receipts + [last];
  }

  /** The reclaimable ids are those of exactly the expired leases, each once. */
  lemma {:induction false} ReclaimableIsExact(receipts: seq<Receipt>, now: int)
    requires DistinctIds(receipts)
    ensures var ids := ReclaimableIds(receipts, now);
            && Distinct(ids)
            && (forall id :: id in ids <==> ExpiredLease(receipts, now, id))
  {
    if receipts != [] {
      var n := |receipts| - 1;
      var last := receipts[n];
      ReclaimableIsExact(receipts[..n], now);
      assert receipts[..n] + [last] == receipts;
      var rest := ReclaimableIds(receipts[..n], now);
      assert forall id :: id in rest ==> ExpiredLease(receipts[..n], now, id);
      assert last.intent.operationId !in rest;
      forall id ensures id in ReclaimableIds(receipts, now) <==> ExpiredLease(receipts, now, id) {
        NewestLease(receipts[..n], last, now, id);
      }
    }
  }

  /**
   The snapshot of any reachable store passes its own validator, repeats the totals kept so
   far, and calls reclaimable exactly the rows whose lease has run out.
   */
  lemma SnapshotIsValid(s: Rows, now: int)
    requires Sound(s) && Counted(s)
    ensures Recovered(s, now).Valid()
    ensures Recovered(s, now).pendingItems == s.pendingItems && Recovered(s, now).pendingBytes == s.pendingBytes
    ensures forall id :: id in Recovered(s, now).reclaimable <==> ExpiredLease(s.table, now, id)
  {
    var snapshot := Recovered(s, now);
    PendingOfIsExact(s.table);
    ReclaimableIsExact(snapshot.receipts, now);
    BytesNonNegative(snapshot.receipts);
    forall i | 0 <= i < |snapshot.receipts| ensures snapshot.receipts[i].Pending() {
      assert snapshot.receipts[i] in PendingOf(s.table, None);
    }
    forall id ensures ExpiredLease(snapshot.receipts, now, id) <==> ExpiredLease(s.table, now, id) {
    }
    forall k | 0 <= k < |snapshot.reclaimable|
      ensures snapshot.reclaimable[k] != "" && snapshot.LeasedId(snapshot.reclaimable[k])
    {
      assert snapshot.reclaimable[k] in ReclaimableIds(snapshot.receipts, now);
      assert ExpiredLease(snapshot.receipts, now, snapshot.reclaimable[k]);
      var r :| r in snapshot.receipts && Reclaimable(r, now) && r.intent.operationId == snapshot.reclaimable[k];
      assert r in s.table && r.Valid();
    }
  }

  lemma {:induction false} BytesNonNegative(receipts: seq<Receipt>)
    requires forall r :: r in receipts ==> r.Valid()
    ensures Bytes(receipts) >= 0
  {
    if receipts != [] {
      var n := |receipts| - 1;
      assert receipts[n] in receipts && forall r :: r in receipts[..n] ==> r in receipts;
      BytesNonNegative(receipts[..n]);
    }
  }

  // ---------------------------------------------------------------- the version bounds are exact

  /** One step in the life of one receipt: a claim it is eligible for, or a legal transition. */
  ghost predicate LifeStep(r: Receipt, q: Receipt) {
    || (exists worker, leaseMs, now ::
          worker != "" && leaseMs >= 1 && Eligible(r, r.intent.projectKey, r.intent.lane, now)
          && q == Lease(r, worker, leaseMs, now))
    || (exists o: Outcome, now ::
          o.Valid() && o.state in Successors(r.state) && q == Move(r, o, now))
  }

  ghost predicate Life(path: seq<Receipt>, r: Receipt, q: Receipt) {
    && |path| > 0 && path[0] == r && path[|path| - 1] == q
    && forall i :: 0 <= i < |path| - 1 ==> LifeStep(path[i], path[i + 1])
  }

  lemma LifeGoesOn(path: seq<Receipt>, r: Receipt, q: Receipt, p: Receipt)
    requires Life(path, r, q) && LifeStep(q, p)
    ensures Life(path + [p], r, p)
  {
  }

  lemma MovesOn(path: seq<Receipt>, r: Receipt, q: Receipt, o: Outcome, now: int) returns (longer: seq<Receipt>)
    requires Life(path, r, q) && o.Valid() && o.state in Successors(q.state)
    ensures Life(longer, r, Move(q, o, now))
  {
    LifeGoesOn(path, r, q, Move(q, o, now));
    longer := path + [Move(q, o, now)];
  }

  lemma LeasesOn(path: seq<Receipt>, r: Receipt, q: Receipt, now: int) returns (longer: seq<Receipt>)
    requires Life(path, r, q) && Eligible(q, q.intent.projectKey, q.intent.lane, now)
    ensures Life(longer, r, Lease(q, "w", 1, now))
  {
    LifeGoesOn(path, r, q, Lease(q, "w", 1, now));
    longer := path + [Lease(q, "w", 1, now)];
  }

  /** Every leased combination within the bounds is reached from an accepted receipt. */
  lemma {:induction false} LeasedIsReached(r: Receipt, attempts: int, version: int)
    returns (path: seq<Receipt>, q: Receipt)
    requires r.Valid() && r.state.Accepted? && attempts >= 1 && attempts + 2 <= version <= 2 * attempts + 1
    ensures Life(path, r, q) && q.state.Leased? && q.attemptCount == attempts && q.stateVersion == version
    ensures q.leaseExpiresAt.Some?
    decreases attempts
  {
    if attempts == 1 {
      path, q := [r], r;
      path := MovesOn(path, r, q, Outcome(Ready, None, false, None, None), 0);
      q := Move(q, Outcome(Ready, None, false, None, None), 0);
      path := LeasesOn(path, r, q, 0);
      q := Lease(q, "w", 1, 0);
    } else if version <= 2 * attempts {
      path, q := LeasedIsReached(r, attempts - 1, version - 1);
      var now := q.leaseExpiresAt.value;
      path := LeasesOn(path, r, q, now);
      q := Lease(q, "w", 1, now);
    } else {
      path, q := LeasedIsReached(r, attempts - 1, version - 2);
      var o := Outcome(RetryWait, Some(0), false, None, None);
      path := MovesOn(path, r, q, o, 0);
      q := Move(q, o, 0);
      path := LeasesOn(path, r, q, 0);
      q := Lease(q, "w", 1, 0);
    }
  }

  /**
   The bounds are tight: whatever state, attempt count and version they allow is that of a
   receipt some sequence of claims and legal transitions makes of a freshly accepted one.
   */
  lemma TrackedIsReached(r: Receipt, state: ReceiptState, attempts: int, version: int)
    returns (path: seq<Receipt>, q: Receipt)
    requires r.Valid() && r.state.Accepted? && r.(state := state, attemptCount := attempts, stateVersion := version).Tracked()
    ensures Life(path, r, q) && q.state == state && q.attemptCount == attempts && q.stateVersion == version
  {
    path, q := [r], r;
    var ready := Outcome(Ready, None, false, None, None);
    var cancel := Outcome(Cancelled, None, true, None, None);
    var retry := Outcome(RetryWait, Some(0), false, None, None);
    match state {
      case Accepted =>
      case Ready =>
        path := MovesOn(path, r, q, ready, 0);
        q := Move(q, ready, 0);
      case Leased =>
        path, q := LeasedIsReached(r, attempts, version);
      case Cancelled =>
        if attempts == 0 {
          if version == 3 {
            path := MovesOn(path, r, q, ready, 0);
            q := Move(q, ready, 0);
          }
        } else if version == 2 * attempts + 3 {
          path, q := LeasedIsReached(r, attempts, version - 2);
          path := MovesOn(path, r, q, retry, 0);
          q := Move(q, retry, 0);
        } else {
          path, q := LeasedIsReached(r, attempts, version - 1);
        }
        path := MovesOn(path, r, q, cancel, 0);
        q := Move(q, cancel, 0);
      case _ =>
        path, q := LeasedIsReached(r, attempts, version - 1);
        var o := Outcome(state, if state.RetryWait? then Some(0) else None, false,
                         if state.Succeeded? then Some("r") else None,
                         if state.FailedTerminal? then Some("e") else None);
        path := MovesOn(path, r, q, o, 0);
        q := Move(q, o, 0);
    }
  }
}
