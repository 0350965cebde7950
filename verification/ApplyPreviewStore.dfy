/**
 The stored side of apply-preview receipts: one receipt row, the validator of
 `ApplyPreviewReceiptRecord` and the three atomic SQL statements that change it.
 Time is an integer clock.  Only the columns the statements read or write are kept;
 scope, intent and binding columns never change after issue.
 */
module ApplyPreviewStore {
  import opened Common

  datatype ReceiptState = Issued | Applying | Applied | FailedTerminal

  /** The recognised result codes, and any other text with the APPLY_RECEIPT_ prefix. */
  datatype Code =
    | AppliedCode
    | ReplayedCode
    | InvalidCode
    | ExpiredCode
    | ScopeMismatch
    | Inapplicable
    | PolicyDenied
    | TargetDrift
    | BusyCode
    | RecoveryRequired
    | StorageUnavailable
    | Unrecognised(text: string)

  datatype Receipt = Receipt(
    state: ReceiptState,
    issuedAt: int,
    expiresAt: int,
    fence: int,
    lease: Option<int>,
    terminalCode: Option<Code>,
    terminalAt: Option<int>,
    updatedAt: int)
  {
    predicate Terminal() {
      state.Applied? || state.FailedTerminal?
    }

    /** The record validator, restricted to the columns kept here. */
    predicate Valid() {
      && expiresAt > issuedAt
      && updatedAt >= issuedAt
      && fence >= 0
      && (if state.Issued? then fence == 0 && lease.None? else fence >= 1)
      && (state.Applying? ==> lease.Some?)
      && (if Terminal() then terminalCode.Some? && terminalAt.Some?
          else terminalCode.None? && terminalAt.None?)
      && (terminalCode.Some? ==> !terminalCode.value.Unrecognised?)
    }

    /** The WHERE clause of the claim statement. */
    predicate Claimable(now: int) {
      && expiresAt > now
      && (state.Issued? || (state.Applying? && lease.Some? && lease.value <= now))
    }

    /** The WHERE clause of the finalize statement. */
    predicate HeldAt(f: int) {
      state.Applying? && fence == f
    }

    function Claim(now: int, leaseSeconds: int): Receipt {
      this.(state := Applying, fence := fence + 1, lease := Some(now + leaseSeconds), updatedAt := now)
    }

    function Finalize(terminal: ReceiptState, code: Code, now: int): Receipt {
      this.(state := terminal, lease := None, terminalCode := Some(code),
            terminalAt := Some(now), updatedAt := now)
    }

    predicate Expendable(now: int) {
      expiresAt <= now && !state.Applying?
    }
  }

  /** `r` holds the terminal record of `before`; nothing else of the receipt has changed. */
  predicate Recorded(before: Receipt, r: Receipt, state: ReceiptState, code: Code, now: int) {
    && r.state == state && r.terminalCode == Some(code) && r.terminalAt == Some(now) && r.lease.None?
    && r.fence == before.fence && r.issuedAt == before.issuedAt && r.expiresAt == before.expiresAt && r.updatedAt == now
  }

  /** The record validator as it runs. */
  method CheckRecord(r: Receipt) returns (ok: bool)
    ensures ok <==> r.Valid()
  {
    if r.expiresAt <= r.issuedAt || r.updatedAt < r.issuedAt || r.fence < 0 {
      return false;
    }
    if r.state == Issued {
      if r.fence != 0 || r.lease != None {
        return false;
      }
    } else if r.fence < 1 {
      return false;
    }
    if r.state == Applying && r.lease == None {
      return false;
    }
    if r.state in {Applied, FailedTerminal} {
      if r.terminalCode == None || r.terminalAt == None {
        return false;
      }
    } else if r.terminalCode != None || r.terminalAt != None {
      return false;
    }
    ok := r.terminalCode == None || !r.terminalCode.value.Unrecognised?;
  }

  function NewReceipt(issuedAt: int, expiresAt: int): Receipt {
    Receipt(Issued, issuedAt, expiresAt, 0, None, None, None, issuedAt)
  }

  /** `claimed` is the fresh claim, the one that moved the fence from 0 to 1. */
  datatype ClaimStatus = ClaimedStatus | RecoveryStatus | TerminalStatus | BusyStatus | ExpiredStatus | NotFoundStatus

  /** What the second read of a claim attempt that updated no row reports. */
  function MissStatus(row: Option<Receipt>, at: int): ClaimStatus {
    if row.None? then NotFoundStatus
    else if row.value.Terminal() then TerminalStatus
    else if row.value.expiresAt <= at then ExpiredStatus
    else BusyStatus
  }

  /** The receipt table, seen through one token. */
  class ReceiptStore {
    var row: Option<Receipt>

    ghost predicate Valid()
      reads this
    {
      row.Some? ==> row.value.Valid()
    }

    constructor ()
      ensures row == None && Valid()
    {
      row := None;
    }

    /** INSERT ... RETURNING. */
    method Issue(issuedAt: int, expiresAt: int) returns (record: Receipt)
      requires row.None? && expiresAt > issuedAt
      modifies this
      ensures Valid() && row == Some(record)
      ensures record.state.Issued? && record.fence == 0 && record.expiresAt == expiresAt
    {
      record := NewReceipt(issuedAt, expiresAt);
      row := Some(record);
    }

    /** The claim: one guarded UPDATE, then a plain read when it matched nothing. */
    method Claim(now: int, leaseSeconds: int) returns (status: ClaimStatus, record: Option<Receipt>)
      requires Valid() && leaseSeconds >= 1
      requires row.Some? ==> row.value.issuedAt <= now
      modifies this
      ensures Valid() && record == row
      ensures status == ClaimedStatus || status == RecoveryStatus <==>
              old(row).Some? && old(row).value.Claimable(now)
      ensures status == ClaimedStatus <==> old(row).Some? && old(row).value.Claimable(now) && old(row).value.state.Issued?
      ensures status == ClaimedStatus || status == RecoveryStatus ==>
                row == Some(old(row).value.Claim(now, leaseSeconds))
      ensures status == ClaimedStatus || status == RecoveryStatus || (row == old(row) && status == MissStatus(row, now))
    {
      if row.Some? && row.value.Claimable(now) {
        row := Some(row.value.Claim(now, leaseSeconds));
        status := if row.value.fence == 1 then ClaimedStatus else RecoveryStatus;
        return status, row;
      }
      record := row;
      if record.None? {
        status := NotFoundStatus;
      } else if record.value.Terminal() {
        status := TerminalStatus;
      } else if record.value.expiresAt <= now {
        status := ExpiredStatus;
      } else {
        status := BusyStatus;
      }
    }

    /** The finalize statement; `stored` is false where the source raises LookupError. */
    method Finalize(fence: int, terminal: ReceiptState, code: Code, now: int) returns (stored: bool)
      requires Valid() && !code.Unrecognised? && (terminal.Applied? || terminal.FailedTerminal?)
      requires row.Some? ==> row.value.issuedAt <= now
      modifies this
      ensures Valid()
      ensures stored <==> old(row).Some? && old(row).value.HeldAt(fence)
      ensures row == if stored then Some(old(row).value.Finalize(terminal, code, now)) else old(row)
    {
      stored := row.Some? && row.value.HeldAt(fence);
      if stored {
        row := Some(row.value.Finalize(terminal, code, now));
      }
    }

    /**
     The retention sweep never deletes a receipt that is being applied.  It takes a limited batch
     of expired rows at a time, in which this one may or may not be.
     */
    method Cleanup(now: int, inBatch: bool) returns (count: nat)
      requires Valid()
      modifies this
      ensures Valid()
      ensures var swept := inBatch && old(row).Some? && old(row).value.expiresAt <= now && old(row).value.state != Applying;
              row == if swept then None else old(row)
      ensures count == if row == old(row) then 0 else 1
    {
      count := 0;
      if inBatch && row.Some? && row.value.Expendable(now) {
        row := None;
        count := 1;
      }
    }
  }
}
