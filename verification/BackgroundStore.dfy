/**
 The durable receipt store: the checks of the facade over the contract it demands of its
 backend.  The table is a sequence in order of admission; the two capacity totals are kept
 incrementally, so that recomputing them is a property and not a definition.
 */
module BackgroundStore {
  import opened Common
  import opened BackgroundModels

  datatype Rows = Rows(table: seq<Receipt>, pendingItems: int, pendingBytes: int)

  // ---------------------------------------------------------------- looking rows up

  /** The position of the first row with this operation id, or the length of the table. */
  function Find(table: seq<Receipt>, id: string): (i: nat)
    ensures i <= |table|
    ensures i < |table| ==> table[i].intent.operationId == id
    ensures forall k :: 0 <= k < i ==> table[k].intent.operationId != id
  {
    if table == [] then 0
    else if table[0].intent.operationId == id then 0
    else 1 + Find(table[1..], id)
  }

  predicate SameKey(r: Receipt, intent: Intent) {
    r.intent.projectKey == intent.projectKey && r.intent.idempotencyKey == intent.idempotencyKey
  }

  /** The same for the unique pair of project and idempotency key. */
  function FindKey(table: seq<Receipt>, intent: Intent): (i: nat)
    ensures i <= |table|
    ensures i < |table| ==> SameKey(table[i], intent)
    ensures forall k :: 0 <= k < i ==> !SameKey(table[k], intent)
  {
    if table == [] then 0
    else if SameKey(table[0], intent) then 0
    else 1 + FindKey(table[1..], intent)
  }

  /** The pending receipts of a project, or of all of them. */
  function PendingOf(table: seq<Receipt>, project: Option<string>): seq<Receipt> {
    if table == [] then []
    else
      var r := table[|table| - 1];
      var rest := PendingOf(table[..|table| - 1], project);
      if r.Pending() && (project.None? || r.intent.projectKey == project.value) then rest + [r] else rest
  }

  // ---------------------------------------------------------------- what a step does to one receipt

  function Fresh(intent: Intent, now: int): Receipt {
    Receipt(intent, Accepted, 1, 0, None, None, None, 0, false, None, None, Max(now, intent.createdAt))
  }

  /** Ready work, work whose retry is due, and work whose lease has run out. */
  predicate Eligible(r: Receipt, project: string, lane: Lane, now: int) {
    && r.intent.projectKey == project && r.intent.lane == lane
    && (|| r.state.Ready?
        || (r.state.RetryWait? && r.nextAttemptAt.Some? && r.nextAttemptAt.value <= now)
        || Reclaimable(r, now))
  }

  predicate Reclaimable(r: Receipt, now: int) {
    r.state.Leased? && r.leaseExpiresAt.Some? && r.leaseExpiresAt.value <= now
  }

  function Lease(r: Receipt, worker: string, leaseMs: int, now: int): Receipt {
    r.(state := Leased, stateVersion := r.stateVersion + 1, attemptCount := r.attemptCount + 1,
       fencingToken := r.fencingToken + 1, nextAttemptAt := None,
       leaseOwner := Some(worker), leaseExpiresAt := Some(now + leaseMs), updatedAt := Max(now, r.updatedAt))
  }

  function Move(r: Receipt, o: Outcome, now: int): Receipt {
    r.(state := o.state, stateVersion := r.stateVersion + 1, nextAttemptAt := o.nextAttemptAt,
       leaseOwner := None, leaseExpiresAt := None, cancelRequested := r.cancelRequested || o.cancelRequested,
       resultRef := o.resultRef, errorCode := o.errorCode, updatedAt := Max(now, r.updatedAt))
  }

  datatype Transition =
    | Moved(receipt: Receipt)
    | NotFound
    | VersionConflict
    | StaleFence
    | IllegalTransition
    | BadArgument

  /** The transition, decided on the row it names. */
  function Decide(r: Receipt, expectedVersion: int, token: int, o: Outcome, now: int): Transition {
    if r.stateVersion != expectedVersion then VersionConflict
    else if r.state.Leased? && r.fencingToken != token then StaleFence
    else if o.state !in Successors(r.state) then IllegalTransition
    else Moved(Move(r, o, now))
  }

  // ---------------------------------------------------------------- the operations on the table

  predicate Full(s: Rows, intent: Intent, limits: Limits) {
    var project := PendingOf(s.table, Some(intent.projectKey));
    || s.pendingItems + 1 > limits.maxItems
    || s.pendingBytes + intent.payloadBytes > limits.maxBytes
    || |project| + 1 > limits.maxProjectItems
    || Bytes(project) + intent.payloadBytes > limits.maxProjectBytes
  }

  function Admit(s: Rows, intent: Intent, limits: Limits, now: int): (Rows, Admission) {
    var i := FindKey(s.table, intent);
    if i < |s.table| then
      (s, if s.table[i].intent.payloadDigest == intent.payloadDigest then Duplicate(s.table[i]) else DigestConflict)
    else if Find(s.table, intent.operationId) < |s.table| then (s, DigestConflict)
    else if !limits.accepting then (s, ShuttingDown)
    else if Full(s, intent, limits) then (s, Busy(limits.retryAfterMs))
    else
      var r := Fresh(intent, now);
      (Rows(s.table + [r], s.pendingItems + 1, s.pendingBytes + intent.payloadBytes), Admitted(r))
  }

  predicate KeyTaken(table: seq<Receipt>, intent: Intent) {
    exists k :: 0 <= k < |table| && SameKey(table[k], intent)
  }

  predicate IdTaken(table: seq<Receipt>, id: string) {
    exists k :: 0 <= k < |table| && table[k].intent.operationId == id
  }

  /** Room for one more item of this size, in the queue and in its project. */
  predicate Fits(s: Rows, intent: Intent, limits: Limits) {
    && s.pendingItems < limits.maxItems
    && s.pendingBytes <= limits.maxBytes - intent.payloadBytes
    && |PendingOf(s.table, Some(intent.projectKey))| < limits.maxProjectItems
    && Bytes(PendingOf(s.table, Some(intent.projectKey))) <= limits.maxProjectBytes - intent.payloadBytes
  }

  /** What each answer to an admission means. */
  ghost predicate Answers(s: Rows, intent: Intent, limits: Limits, now: int, result: Admission, t: Rows) {
    var free := !KeyTaken(s.table, intent) && !IdTaken(s.table, intent.operationId);
    && (result.Duplicate? || result.DigestConflict? <==> !free)
    && (result.Duplicate? ==> result.receipt in s.table && SameKey(result.receipt, intent)
                              && result.receipt.intent.payloadDigest == intent.payloadDigest)
    && (result.DigestConflict? && KeyTaken(s.table, intent) ==>
          exists r :: r in s.table && SameKey(r, intent) && r.intent.payloadDigest != intent.payloadDigest)
    && (result.ShuttingDown? <==> free && !limits.accepting)
    && (result.Busy? <==> free && limits.accepting && !Fits(s, intent, limits))
    && (result.Busy? ==> result.retryAfterMs == limits.retryAfterMs)
    && (result.Admitted? <==> free && limits.accepting && Fits(s, intent, limits))
    && (result.Admitted? ==>
          && result.receipt.intent == intent && result.receipt.state.Accepted? && result.receipt.stateVersion == 1
          && result.receipt.attemptCount == 0 == result.receipt.fencingToken && !result.receipt.cancelRequested
          && result.receipt.updatedAt >= now
          && t.table == s.table + [result.receipt]
          && t.pendingItems == s.pendingItems + 1 && t.pendingBytes == s.pendingBytes + intent.payloadBytes)
    && (!result.Admitted? ==> t == s)
  }

  lemma AdmissionAnswers(s: Rows, intent: Intent, limits: Limits, now: int)
    ensures Answers(s, intent, limits, now, Admit(s, intent, limits, now).1, Admit(s, intent, limits, now).0)
  {
    var i, j := FindKey(s.table, intent), Find(s.table, intent.operationId);
    if i < |s.table| {
      assert s.table[i] in s.table && SameKey(s.table[i], intent);
    }
    if j < |s.table| {
      assert s.table[j].intent.operationId == intent.operationId;
    }
  }

  /** Row `i` becomes `r`, and the totals lose it if it stops being pending. */
  function Replace(s: Rows, i: nat, r: Receipt): Rows
    requires i < |s.table|
  {
    var gone := s.table[i].Pending() && !r.Pending();
    Rows(s.table[i := r],
         s.pendingItems - if gone then 1 else 0,
         s.pendingBytes - if gone then s.table[i].intent.payloadBytes else 0)
  }

  function Apply(s: Rows, id: string, expectedVersion: int, token: int, o: Outcome, now: int): (Rows, Transition) {
    if id == "" || expectedVersion < 1 || token < 0 || !o.Valid() then (s, BadArgument)
    else
      var i := Find(s.table, id);
      if i == |s.table| then (s, NotFound)
      else
        var t := Decide(s.table[i], expectedVersion, token, o, now);
        (if t.Moved? then Replace(s, i, t.receipt) else s, t)
  }

  function ReclaimableIds(receipts: seq<Receipt>, now: int): seq<string> {
    if receipts == [] then []
    else
      var r := receipts[|receipts| - 1];
      var rest := ReclaimableIds(receipts[..|receipts| - 1], now);
      if Reclaimable(r, now) then rest + [r.intent.operationId] else rest
  }

  function Recovered(s: Rows, now: int): Snapshot {
    var receipts := PendingOf(s.table, None);
    Snapshot(receipts, |receipts|, Bytes(receipts), ReclaimableIds(receipts, now))
  }

  lemma PendingOneMore(table: seq<Receipt>, i: nat)
    requires i < |table|
    ensures PendingOf(table[..i + 1], None) ==
            if table[i].Pending() then PendingOf(table[..i], None) + [table[i]] else PendingOf(table[..i], None)
  {
    assert table[..i + 1][..i] == table[..i];
  }

  lemma RecoveredOneMore(receipts: seq<Receipt>, r: Receipt, now: int)
    ensures Bytes(receipts + [r]) == Bytes(receipts) + r.intent.payloadBytes
    ensures ReclaimableIds(receipts + [r], now) ==
            if Reclaimable(r, now) then ReclaimableIds(receipts, now) + [r.intent.operationId] else ReclaimableIds(receipts, now)
  {
    assert (receipts + [r])[..|receipts|] == receipts;
  }

  // ---------------------------------------------------------------- what claims and transitions leave

  /** `q` is `r` after the outcome: what was asked for is there, the lease is gone, the rest stays. */
  predicate ShowsOutcome(r: Receipt, o: Outcome, now: int, q: Receipt) {
    && q.state == o.state && q.nextAttemptAt == o.nextAttemptAt
    && q.resultRef == o.resultRef && q.errorCode == o.errorCode
    && (q.cancelRequested <==> r.cancelRequested || o.cancelRequested)
    && q.leaseOwner.None? && q.leaseExpiresAt.None?
    && q.stateVersion == r.stateVersion + 1
    && q.intent == r.intent && q.attemptCount == r.attemptCount && q.fencingToken == r.fencingToken
    && now <= q.updatedAt && r.updatedAt <= q.updatedAt && (q.updatedAt == now || q.updatedAt == r.updatedAt)
  }

  /** `q` is `r` leased: to this worker, for exactly this long, under the next fence. */
  predicate ShowsLease(r: Receipt, worker: string, leaseMs: int, now: int, q: Receipt) {
    && q.state.Leased? && q.leaseOwner == Some(worker) && q.leaseExpiresAt == Some(now + leaseMs)
    && q.nextAttemptAt.None? && q.resultRef == r.resultRef && q.errorCode == r.errorCode
    && (q.cancelRequested <==> r.cancelRequested)
    && q.stateVersion == r.stateVersion + 1
    && q.intent == r.intent && q.attemptCount == r.attemptCount + 1 && q.fencingToken == r.fencingToken + 1
    && now <= q.updatedAt && r.updatedAt <= q.updatedAt && (q.updatedAt == now || q.updatedAt == r.updatedAt)
  }

  /** The first row with the id. */
  predicate IsRow(table: seq<Receipt>, id: string, i: nat) {
    i < |table| && table[i].intent.operationId == id && forall k :: 0 <= k < i ==> table[k].intent.operationId != id
  }

  /** What each result of a transition means for the row `i`. */
  ghost predicate Decided(s: Rows, i: nat, version: int, token: int, o: Outcome, now: int, result: Transition, t: Rows)
    requires i < |s.table|
  {
    var r := s.table[i];
    var current, fenced := r.stateVersion == version, r.state.Leased? && r.fencingToken != token;
    && (result.VersionConflict? <==> !current)
    && (result.StaleFence? <==> current && fenced)
    && (result.IllegalTransition? <==> current && !fenced && o.state !in Successors(r.state))
    && (result.Moved? <==> current && !fenced && o.state in Successors(r.state))
    && (result.Moved? ==>
          && t.table == s.table[i := result.receipt] && ShowsOutcome(r, o, now, result.receipt)
          && var gone := !Terminal(r.state) && Terminal(o.state);
             && t.pendingItems == s.pendingItems - (if gone then 1 else 0)
             && t.pendingBytes == s.pendingBytes - (if gone then r.intent.payloadBytes else 0))
  }

  /** What each result of a transition means. */
  ghost predicate TransitionMeans(s: Rows, id: string, version: int, token: int, o: Outcome, now: int,
                                  result: Transition, t: Rows)
  {
    var bad := id == "" || version < 1 || token < 0 || !o.Valid();
    && (result.BadArgument? <==> bad)
    && (result.NotFound? <==> !bad && !IdTaken(s.table, id))
    && (!result.Moved? ==> t == s)
    && (!bad && IdTaken(s.table, id) ==>
          exists i: nat :: IsRow(s.table, id, i) && Decided(s, i, version, token, o, now, result, t))
  }

  lemma ApplyMeans(s: Rows, id: string, version: int, token: int, o: Outcome, now: int)
    ensures TransitionMeans(s, id, version, token, o, now, Apply(s, id, version, token, o, now).1,
                            Apply(s, id, version, token, o, now).0)
  {
    var i := Find(s.table, id);
    if i < |s.table| && id != "" && version >= 1 && token >= 0 && o.Valid() {
      assert IsRow(s.table, id, i);
      var result := Apply(s, id, version, token, o, now);
      assert Decided(s, i, version, token, o, now, result.1, result.0);
    }
  }

  /** Which rows may be claimed: of this project and lane; ready, or due, or with a lease that has run out. */
  lemma EligibleMeans(r: Receipt, project: string, lane: Lane, now: int)
    requires r.Valid()
    ensures Eligible(r, project, lane, now) <==>
              && r.intent.projectKey == project && r.intent.lane == lane
              && match r.state
                 case Ready => true
                 case RetryWait => r.nextAttemptAt.value <= now
                 case Leased => r.leaseExpiresAt.value <= now
                 case _ => false
  {
  }

  lemma LeaseMeans(r: Receipt, worker: string, leaseMs: int, now: int)
    ensures ShowsLease(r, worker, leaseMs, now, Lease(r, worker, leaseMs, now))
  {
  }

  // ---------------------------------------------------------------- the store object

  class ReceiptStore {
    var rows: Rows

    constructor ()
      ensures rows == Rows([], 0, 0)
    {
      rows := Rows([], 0, 0);
    }

    /** Classifies the admission, and appends an accepted receipt if nothing stands against it. */
    method AdmitIntent(intent: Intent, limits: Limits, now: int) returns (result: Admission)
      requires intent.Valid() && limits.Valid()
      modifies this
      ensures Answers(old(rows), intent, limits, now, result, rows)
      ensures (rows, result) == Admit(old(rows), intent, limits, now)
    {
      AdmissionAnswers(rows, intent, limits, now);
      var taken := FindKey(rows.table, intent);
      if taken < |rows.table| {
        var earlier := rows.table[taken];
        return if earlier.intent.payloadDigest == intent.payloadDigest then Duplicate(earlier) else DigestConflict;
      }
      if Find(rows.table, intent.operationId) < |rows.table| {
        return DigestConflict;
      }
      if !limits.accepting {
        return ShuttingDown;
      }
      if Full(rows, intent, limits) {
        return Busy(limits.retryAfterMs);
      }
      var receipt := Fresh(intent, now);
      rows := Rows(rows.table + [receipt], rows.pendingItems + 1, rows.pendingBytes + intent.payloadBytes);
      result := Admitted(receipt);
    }

    method Get(id: string) returns (r: Option<Receipt>)
      ensures r.Some? ==> r.value in rows.table && r.value.intent.operationId == id
      ensures r.None? ==> forall k :: 0 <= k < |rows.table| ==> rows.table[k].intent.operationId != id
    {
      var i := Find(rows.table, id);
      r := if i < |rows.table| then Some(rows.table[i]) else None;
    }

    /** Leases the eligible receipt of the partition that was created first. */
    method Claim(project: string, lane: Lane, worker: string, leaseMs: int, now: int)
      returns (r: Option<Receipt>, ghost chosen: nat)
      requires worker != "" && leaseMs >= 1
      modifies this
      ensures r.None? ==> rows == old(rows)
      ensures r.None? ==> forall k :: 0 <= k < |rows.table| ==> !Eligible(rows.table[k], project, lane, now)
      ensures r.Some? ==>
        && chosen < |old(rows).table| && Eligible(old(rows).table[chosen], project, lane, now)
        && r.value.intent.projectKey == project && r.value.intent.lane == lane
        && r.value == Lease(old(rows).table[chosen], worker, leaseMs, now)
        && ShowsLease(old(rows).table[chosen], worker, leaseMs, now, r.value)
        && rows == Replace(old(rows), chosen, r.value)
        && forall k :: 0 <= k < |old(rows).table| && Eligible(old(rows).table[k], project, lane, now)
                       ==> old(rows).table[chosen].intent.createdAt <= old(rows).table[k].intent.createdAt
    {
      var table := rows.table;
      var best: nat := |table|;
      for i := 0 to |table|
        invariant best == |table| ==> forall k :: 0 <= k < i ==> !Eligible(table[k], project, lane, now)
        invariant best < i || best == |table|
        invariant best < |table| ==>
          && Eligible(table[best], project, lane, now)
          && forall k :: 0 <= k < i && Eligible(table[k], project, lane, now)
                         ==> table[best].intent.createdAt <= table[k].intent.createdAt
      {
        if Eligible(table[i], project, lane, now)
           && (best == |table| || table[i].intent.createdAt < table[best].intent.createdAt) {
          best := i;
        }
      }
      chosen := best;
      if best == |table| {
        return None, chosen;
      }
      r := Some(Lease(table[best], worker, leaseMs, now));
      rows := Replace(rows, best, r.value);
    }

    method ApplyTransition(id: string, expectedVersion: int, token: int, o: Outcome, now: int)
      returns (result: Transition)
      modifies this
      ensures TransitionMeans(old(rows), id, expectedVersion, token, o, now, result, rows)
      ensures (rows, result) == Apply(old(rows), id, expectedVersion, token, o, now)
    {
      ApplyMeans(rows, id, expectedVersion, token, o, now);
      if id == "" || expectedVersion < 1 || token < 0 || !o.Valid() {
        return BadArgument;
      }
      var i := Find(rows.table, id);
      if i == |rows.table| {
        return NotFound;
      }
      result := Decide(rows.table[i], expectedVersion, token, o, now);
      if result.Moved? {
        rows := Replace(rows, i, result.receipt);
      }
    }

    /** Reads the pending receipts, their totals and the ids of the expired leases. */
    method Recover(now: int) returns (snapshot: Snapshot)
      ensures snapshot == Recovered(rows, now)
    {
      var receipts, total, ids := [], 0, [];
      var table := rows.table;
      for i := 0 to |table|
        invariant receipts == PendingOf(table[..i], None)
        invariant total == Bytes(receipts) && ids == ReclaimableIds(receipts, now)
      {
        PendingOneMore(table, i);
        RecoveredOneMore(receipts, table[i], now);
        if table[i].Pending() {
          receipts := receipts + [table[i]];
          total := total + table[i].intent.payloadBytes;
          if Reclaimable(table[i], now) {
            ids := ids + [table[i].intent.operationId];
          }
        }
      }
      assert table[..|table|] == table;
      snapshot := Snapshot(receipts, |receipts|, total, ids);
    }
  }
}
