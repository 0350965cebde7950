/** Durable background receipts: the record, its validators and the transition table. */
module BackgroundModels {
  import opened Common

  datatype ReceiptState = Accepted | Ready | Leased | RetryWait | Succeeded | FailedTerminal | Cancelled

  datatype Lane = Control | Durable | Heavy

  predicate Terminal(state: ReceiptState) {
    state.Succeeded? || state.FailedTerminal? || state.Cancelled?
  }

  /** The legal-transition table. */
  function Successors(state: ReceiptState): set<ReceiptState> {
    match state
    case Accepted => {Ready, Cancelled}
    case Ready => {Leased, Cancelled}
    case Leased => {RetryWait, Succeeded, FailedTerminal, Cancelled}
    case RetryWait => {Leased, Cancelled}
    case _ => {}
  }

  predicate Sha256(text: string) {
    |text| == 64 && forall i :: 0 <= i < 64 ==> '0' <= text[i] <= '9' || 'a' <= text[i] <= 'f'
  }

  predicate NonEmptyIfSet(text: Option<string>) {
    text.Some? ==> text.value != ""
  }

  datatype Intent = Intent(
    operationId: string, projectKey: string, lane: Lane, idempotencyKey: string,
    payloadDigest: string, payloadBytes: int, durabilityClass: string, createdAt: int)
  {
    predicate Valid() {
      && operationId != "" && projectKey != "" && idempotencyKey != "" && durabilityClass != ""
      && Sha256(payloadDigest)
      && payloadBytes >= 0
    }
  }

  datatype Limits = Limits(
    maxItems: int, maxBytes: int, maxProjectItems: int, maxProjectBytes: int,
    retryAfterMs: int, accepting: bool)
  {
    predicate Valid() {
      maxItems >= 1 && maxBytes >= 1 && maxProjectItems >= 1 && maxProjectBytes >= 1 && retryAfterMs >= 1
    }
  }

  datatype Receipt = Receipt(
    intent: Intent,
    state: ReceiptState,
    stateVersion: int,
    attemptCount: int,
    nextAttemptAt: Option<int>,
    leaseOwner: Option<string>,
    leaseExpiresAt: Option<int>,
    fencingToken: int,
    cancelRequested: bool,
    resultRef: Option<string>,
    errorCode: Option<string>,
    updatedAt: int)
  {
    predicate Pending() {
      !Terminal(state)
    }

    /** The whole receipt validator. */
    predicate Valid() {
      && intent.Valid()
      && stateVersion >= 1 && attemptCount >= 0 && fencingToken >= 0
      && attemptCount == fencingToken
      && NonEmptyIfSet(leaseOwner) && NonEmptyIfSet(resultRef) && NonEmptyIfSet(errorCode)
      && updatedAt >= intent.createdAt
      && (leaseOwner.None? <==> leaseExpiresAt.None?)
      && ValidCounters()
      && (state.Leased? <==> leaseOwner.Some?)
      && (state.RetryWait? <==> nextAttemptAt.Some?)
      && (state.Succeeded? <==> resultRef.Some?)
      && (state.FailedTerminal? <==> errorCode.Some?)
    }

    predicate ValidCounters() {
      match state
      case Accepted => stateVersion == 1 && attemptCount == 0 && fencingToken == 0 && !cancelRequested
      case Ready => stateVersion >= 2 && attemptCount == 0 && fencingToken == 0 && !cancelRequested
      case Leased => attemptCount >= 1 && fencingToken >= 1 && stateVersion >= 3
      case RetryWait => attemptCount >= 1 && fencingToken >= 1 && stateVersion >= 4
      case Succeeded => attemptCount >= 1 && fencingToken >= 1 && stateVersion >= 4
      case FailedTerminal => attemptCount >= 1 && fencingToken >= 1 && stateVersion >= 4
      case Cancelled => stateVersion >= 2
    }

    /** The version a receipt can have in its state after its number of attempts. */
    predicate Tracked() {
      match state
      case Accepted => stateVersion == 1 && attemptCount == 0
      case Ready => stateVersion == 2 && attemptCount == 0
      case Leased => attemptCount >= 1 && attemptCount + 2 <= stateVersion <= 2 * attemptCount + 1
      case Cancelled =>
        if attemptCount == 0 then 2 <= stateVersion <= 3
        else attemptCount >= 1 && attemptCount + 3 <= stateVersion <= 2 * attemptCount + 3
      case _ => attemptCount >= 1 && attemptCount + 3 <= stateVersion <= 2 * attemptCount + 2
    }
  }

  /** A requested mutation other than a claim. */
  datatype Outcome = Outcome(
    state: ReceiptState, nextAttemptAt: Option<int>, cancelRequested: bool,
    resultRef: Option<string>, errorCode: Option<string>)
  {
    predicate Valid() {
      && !state.Accepted? && !state.Leased?
      && NonEmptyIfSet(resultRef) && NonEmptyIfSet(errorCode)
      && (state.RetryWait? <==> nextAttemptAt.Some?)
      && (state.Ready? ==> !cancelRequested)
      && (state.Succeeded? <==> resultRef.Some?)
      && (state.FailedTerminal? <==> errorCode.Some?)
    }
  }

  datatype Admission =
    | Admitted(receipt: Receipt)
    | Duplicate(receipt: Receipt)
    | DigestConflict
    | Busy(retryAfterMs: int)
    | ShuttingDown
  {
    predicate Valid() {
      match this
      case Admitted(r) => r.Valid() && r.state.Accepted?
      case Duplicate(r) => r.Valid()
      case Busy(ms) => ms >= 1
      case _ => true
    }
  }

  // ---------------------------------------------------------------- recovery snapshots

  function Bytes(receipts: seq<Receipt>): int {
    if receipts == [] then 0 else Bytes(receipts[..|receipts| - 1]) + receipts[|receipts| - 1].intent.payloadBytes
  }

  datatype Snapshot = Snapshot(
    receipts: seq<Receipt>, pendingItems: int, pendingBytes: int, reclaimable: seq<string>)
  {
    predicate Valid() {
      && pendingItems >= 0 && pendingBytes >= 0
      && (forall i :: 0 <= i < |receipts| ==> receipts[i].Pending())
      && (forall i, j :: 0 <= i < j < |receipts| ==> receipts[i].intent.operationId != receipts[j].intent.operationId)
      && pendingItems == |receipts|
      && pendingBytes == Bytes(receipts)
      && (forall i :: 0 <= i < |reclaimable| ==> reclaimable[i] != "")
      && (forall i, j :: 0 <= i < j < |reclaimable| ==> reclaimable[i] != reclaimable[j])
      && (forall i :: 0 <= i < |reclaimable| ==> LeasedId(reclaimable[i]))
    }

    predicate LeasedId(id: string) {
      exists k :: 0 <= k < |receipts| && receipts[k].state.Leased? && receipts[k].intent.operationId == id
    }
  }

  // ---------------------------------------------------------------- the validators as they run

  /** The receipt validator as it runs: field checks, then the counters, then which fields go with which state. */
  method CheckReceipt(r: Receipt) returns (ok: bool)
    ensures ok <==> r.Valid()
  {
    if !r.intent.Valid() || r.stateVersion <= 0 || r.attemptCount < 0 || r.fencingToken < 0 {
      return false;
    }
    if r.attemptCount != r.fencingToken {
      return false;
    }
    if r.leaseOwner == Some("") || r.resultRef == Some("") || r.errorCode == Some("") {
      return false;
    }
    if r.updatedAt < r.intent.createdAt || r.leaseOwner.None? != r.leaseExpiresAt.None? {
      return false;
    }
    if r.state == Accepted {
      if r.stateVersion != 1 || r.attemptCount != 0 || r.fencingToken != 0 || r.cancelRequested {
        return false;
      }
    } else if r.state == Ready {
      if r.stateVersion < 2 || r.attemptCount != 0 || r.fencingToken != 0 || r.cancelRequested {
        return false;
      }
    } else if r.state in {Leased, RetryWait, Succeeded, FailedTerminal} {
      var minimum := if r.state == Leased then 3 else 4;
      if r.attemptCount < 1 || r.fencingToken < 1 || r.stateVersion < minimum {
        return false;
      }
    } else if r.state == Cancelled && r.stateVersion < 2 {
      return false;
    }
    if r.state == Leased {
      if r.leaseOwner == None {
        return false;
      }
    } else if r.leaseOwner != None {
      return false;
    }
    ok := CheckStateFields(r.state, r.nextAttemptAt, r.resultRef, r.errorCode);
  }

  /** A next attempt goes with waiting, a result with success, an error code with failure, and none with anything else. */
  method CheckStateFields(state: ReceiptState, nextAttemptAt: Option<int>, resultRef: Option<string>,
                          errorCode: Option<string>)
    returns (ok: bool)
    ensures ok <==> && (nextAttemptAt.Some? <==> state.RetryWait?)
                    && (resultRef.Some? <==> state.Succeeded?)
                    && (errorCode.Some? <==> state.FailedTerminal?)
  {
    if state == RetryWait {
      if nextAttemptAt == None {
        return false;
      }
    } else if nextAttemptAt != None {
      return false;
    }
    if state == Succeeded {
      ok := resultRef != None && errorCode == None;
    } else if state == FailedTerminal {
      ok := errorCode != None && resultRef == None;
    } else {
      ok := resultRef == None && errorCode == None;
    }
  }

  method CheckOutcome(o: Outcome) returns (ok: bool)
    ensures ok <==> o.Valid()
  {
    if o.state in {Accepted, Leased} || o.resultRef == Some("") || o.errorCode == Some("") {
      return false;
    }
    if o.state == Ready && o.cancelRequested {
      return false;
    }
    ok := CheckStateFields(o.state, o.nextAttemptAt, o.resultRef, o.errorCode);
  }

  /** The snapshot validator as it runs: two passes that grow sets of the ids seen so far. */
  method CheckSnapshot(snapshot: Snapshot) returns (ok: bool)
    ensures ok <==> snapshot.Valid()
  {
    if snapshot.pendingItems < 0 || snapshot.pendingBytes < 0 {
      return false;
    }
    var leased: set<string>, total;
    ok, leased, total := CheckPending(snapshot.receipts);
    if !ok || snapshot.pendingItems != |snapshot.receipts| || snapshot.pendingBytes != total {
      return false;
    }
    assert forall id :: id in leased <==> snapshot.LeasedId(id);
    ok := CheckReclaimable(snapshot.reclaimable, leased);
  }

  /** The first pass: pending receipts under different ids, with the ids of the leased ones and the bytes. */
  method CheckPending(receipts: seq<Receipt>) returns (ok: bool, leased: set<string>, total: int)
    ensures ok <==> && (forall i :: 0 <= i < |receipts| ==> receipts[i].Pending())
                    && (forall i, j :: 0 <= i < j < |receipts| ==>
                          receipts[i].intent.operationId != receipts[j].intent.operationId)
    ensures ok ==> total == Bytes(receipts)
    ensures ok ==> leased == set k | 0 <= k < |receipts| && receipts[k].state.Leased? :: receipts[k].intent.operationId
  {
    var ids: set<string> := {};
    leased, total := {}, 0;
    for i := 0 to |receipts|
      invariant forall k :: 0 <= k < i ==> receipts[k].Pending()
      invariant forall k, l :: 0 <= k < l < i ==> receipts[k].intent.operationId != receipts[l].intent.operationId
      invariant ids == set k | 0 <= k < i :: receipts[k].intent.operationId
      invariant leased == set k | 0 <= k < i && receipts[k].state.Leased? :: receipts[k].intent.operationId
      invariant total == Bytes(receipts[..i])
    {
      var id := receipts[i].intent.operationId;
      if !receipts[i].Pending() || id in ids {
        return false, {}, 0;
      }
      assert id !in ids ==> forall k :: 0 <= k < i ==> receipts[k].intent.operationId != id;
      ids := ids + {id};
      if receipts[i].state.Leased? {
        leased := leased + {id};
      }
      total := total + receipts[i].intent.payloadBytes;
      assert receipts[..i + 1][..i] == receipts[..i];
    }
    assert receipts[..|receipts|] == receipts;
    ok := true;
  }

  /** The second pass: named once each, and only receipts that are leased. */
  method CheckReclaimable(ids: seq<string>, leased: set<string>) returns (ok: bool)
    ensures ok <==> && (forall i :: 0 <= i < |ids| ==> ids[i] != "" && ids[i] in leased)
                    && (forall i, j :: 0 <= i < j < |ids| ==> ids[i] != ids[j])
  {
    var seen: set<string> := {};
    for i := 0 to |ids|
      invariant forall k :: 0 <= k < i ==> ids[k] != "" && ids[k] in seen
      invariant forall k, l :: 0 <= k < l < i ==> ids[k] != ids[l]
      invariant forall id :: id in seen ==> id in ids[..i]
    {
      if ids[i] == "" || ids[i] in seen {
        return false;
      }
      seen := seen + {ids[i]};
    }
    ok := seen <= leased;
  }
}
