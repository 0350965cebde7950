/**
 What every interleaving of apply workers keeps: exclusive lock and fences, one terminal
 record, success answered only for an applied receipt, and at most one application.
 */
module ApplyPreviewSafety {
  import opened Common
  import opened ApplyPreviewStore
  import opened ApplyPreviewProtocol

  // ---------------------------------------------------------------- structure

  /** The lock is held by exactly the worker that is inside it. */
  ghost predicate LockInv(s: State) {
    && (s.lock.Some? ==> s.lock.value in s.workers)
    && forall w :: w in s.workers ==> (s.workers[w].InLock() <==> s.lock == Some(w))
  }

  /** The live row passes the record validator, and no claim reads the clock before its issue. */
  ghost predicate RowInv(s: State) {
    s.row.Some? ==>
      && s.row.value.Valid()
      && s.row.value.issuedAt <= s.now
      && forall w :: w in s.workers && s.workers[w].Claiming? ==> s.row.value.issuedAt <= s.workers[w].at
  }

  /** Fences are positive, handed out once, and never run ahead of the row. */
  ghost predicate FenceInv(s: State) {
    && (forall w :: w in s.workers && s.workers[w].HasFence() ==>
          1 <= s.workers[w].fence && (s.row.Some? ==> s.workers[w].fence <= s.row.value.fence))
    && forall v, w :: v in s.workers && w in s.workers && v != w
                      && s.workers[v].HasFence() && s.workers[w].HasFence()
                      ==> s.workers[v].fence != s.workers[w].fence
  }

  /** A worker that has the current fence and has not failed finds the row still applying. */
  ghost predicate HoldsRow(row: Option<Receipt>, pc: Pc) {
    row.Some? && pc.HasFence() && pc.fence == row.value.fence && !pc.Closing? && (pc.Finalizing? ==> pc.verdict.Succeed?)
    ==> row.value.state.Applying?
  }

  ghost predicate HolderInv(s: State) {
    forall w :: w in s.workers ==> HoldsRow(s.row, s.workers[w])
  }

  /** The first terminal record written is the only one; the row shows it until it is swept. */
  ghost predicate SealInv(s: State) {
    && (s.row.Some? ==> if s.row.value.Terminal() then s.sealed == s.row else s.sealed.None?)
    && (s.sealed.Some? ==> s.sealed.value.Terminal() && s.sealed.value.Valid())
  }

  ghost predicate StructInv(s: State) {
    LockInv(s) && RowInv(s) && FenceInv(s) && HolderInv(s) && SealInv(s)
  }

  lemma OnlyActorMoves(c: Intent, s: State, a: Action, w: nat)
    requires Enabled(s, a) && w in Do(c, s, a).workers && Actor(a) != Some(w)
    ensures w in s.workers && Do(c, s, a).workers[w] == s.workers[w]
  {
  }

  lemma EveryoneStays(c: Intent, s: State, a: Action)
    requires Enabled(s, a)
    ensures s.workers.Keys <= Do(c, s, a).workers.Keys
    ensures Actor(a).Some? ==> Actor(a).value in Do(c, s, a).workers
  {
  }

  /** The row changes by a claim, by a holder's finalize, or by being swept; the seal by a finalize. */
  ghost predicate Leaves(c: Intent, s: State, a: Action, t: State)
    requires Enabled(s, a)
  {
    && (t.row == s.row
        || (a.Cleanup? && t.row.None? && s.row.Some? && s.row.value.Expendable(s.now))
        || (a.ClaimRow? && s.row.Some? && s.row.value.Claimable(s.workers[a.w].at)
            && t.row == Some(s.row.value.Claim(s.workers[a.w].at, c.leaseSeconds)))
        || (a.Finalize? && t.row == t.sealed && s.workers[a.w].verdict != Fail(RecoveryRequired)
            && s.row.Some? && s.row.value.HeldAt(s.workers[a.w].fence)
            && (s.workers[a.w].verdict.Fail? ==> !s.workers[a.w].verdict.code.Unrecognised?)
            && t.row == Some(VerdictRow(s.workers[a.w].verdict, s.row.value, s.now))))
    && (t.sealed == s.sealed || (a.Finalize? && t.sealed == t.row != s.row))
    && s.observed <= t.observed
  }

  lemma StepLeaves(c: Intent, s: State, a: Action)
    requires Enabled(s, a)
    ensures Leaves(c, s, a, Do(c, s, a))
  {
  }

  lemma ActorKeepsLock(c: Intent, s: State, a: Action, w: nat)
    requires Enabled(s, a) && Actor(a) == Some(w)
    requires if w in s.workers then s.workers[w].InLock() <==> s.lock == Some(w) else s.lock != Some(w)
    ensures var t := Do(c, s, a);
            && w in t.workers && (t.workers[w].InLock() <==> t.lock == Some(w))
            && (t.lock == s.lock || t.lock == None || (s.lock == None && t.lock == Some(w)))
            && (t.lock == s.lock || s.lock == None || s.lock == Some(w))
  {
  }

  lemma StepKeepsLock(c: Intent, s: State, a: Action)
    requires Enabled(s, a) && LockInv(s)
    ensures LockInv(Do(c, s, a))
  {
    if Actor(a).Some? {
      ActorKeepsLock(c, s, a, a.w);
    }
    var t := Do(c, s, a);
    EveryoneStays(c, s, a);
    forall w | w in t.workers ensures t.workers[w].InLock() <==> t.lock == Some(w) {
      if Actor(a) != Some(w) {
        OnlyActorMoves(c, s, a, w);
      }
    }
  }

  lemma StepKeepsRow(c: Intent, s: State, a: Action)
    requires Enabled(s, a) && RowInv(s)
    ensures RowInv(Do(c, s, a))
  {
  }

  lemma ActorKeepsFence(c: Intent, s: State, a: Action, w: nat)
    requires Enabled(s, a) && !a.ClaimRow? && Actor(a) == Some(w)
    ensures var t := Do(c, s, a);
            w in t.workers && t.workers[w].HasFence() ==>
              w in s.workers && s.workers[w].HasFence() && t.workers[w].fence == s.workers[w].fence
  {
  }

  /** Only a claim hands out a fence; every other action keeps or drops the ones there are. */
  lemma FencesOnlyDrop(c: Intent, s: State, a: Action)
    requires Enabled(s, a) && !a.ClaimRow?
    ensures var t := Do(c, s, a);
            && (t.row.Some? ==> s.row.Some? && t.row.value.fence == s.row.value.fence)
            && forall w :: w in t.workers && t.workers[w].HasFence() ==>
                 w in s.workers && s.workers[w].HasFence() && t.workers[w].fence == s.workers[w].fence
  {
    StepLeaves(c, s, a);
    var t := Do(c, s, a);
    forall w | w in t.workers && t.workers[w].HasFence()
      ensures w in s.workers && s.workers[w].HasFence() && t.workers[w].fence == s.workers[w].fence
    {
      if Actor(a) != Some(w) {
        OnlyActorMoves(c, s, a, w);
      } else {
        ActorKeepsFence(c, s, a, w);
      }
    }
  }

  lemma ClaimKeepsFence(c: Intent, s: State, w: nat, lost: bool)
    requires Enabled(s, ClaimRow(w, lost)) && RowInv(s) && FenceInv(s)
    ensures FenceInv(Do(c, s, ClaimRow(w, lost)))
  {
  }

  lemma StepKeepsFence(c: Intent, s: State, a: Action)
    requires Enabled(s, a) && RowInv(s) && FenceInv(s)
    ensures FenceInv(Do(c, s, a))
  {
    if a.ClaimRow? {
      ClaimKeepsFence(c, s, a.w, a.lost);
    } else {
      FencesOnlyDrop(c, s, a);
    }
  }

  lemma ActorHoldsRow(c: Intent, s: State, a: Action, w: nat)
    requires Enabled(s, a) && Actor(a) == Some(w)
    requires w in s.workers ==> HoldsRow(s.row, s.workers[w])
    ensures w in Do(c, s, a).workers ==> HoldsRow(Do(c, s, a).row, Do(c, s, a).workers[w])
  {
  }

  lemma BystanderHoldsRow(c: Intent, s: State, a: Action, t: State, w: nat)
    requires Enabled(s, a) && FenceInv(s) && Leaves(c, s, a, t)
    requires w in s.workers && Actor(a) != Some(w) && HoldsRow(s.row, s.workers[w])
    ensures HoldsRow(t.row, s.workers[w])
  {
  }

  lemma StepKeepsHolder(c: Intent, s: State, a: Action)
    requires Enabled(s, a) && FenceInv(s) && HolderInv(s)
    ensures HolderInv(Do(c, s, a))
  {
    var t := Do(c, s, a);
    StepLeaves(c, s, a);
    forall w | w in t.workers ensures HoldsRow(t.row, t.workers[w]) {
      if Actor(a) != Some(w) {
        OnlyActorMoves(c, s, a, w);
        BystanderHoldsRow(c, s, a, t, w);
      } else {
        ActorHoldsRow(c, s, a, w);
      }
    }
  }

  lemma SealSurvives(c: Intent, s: State, a: Action, t: State)
    requires Enabled(s, a) && RowInv(s) && SealInv(s) && Leaves(c, s, a, t)
    ensures SealInv(t)
    ensures s.sealed.Some? ==> t.sealed == s.sealed
  {
  }

  lemma StepKeepsSeal(c: Intent, s: State, a: Action)
    requires Enabled(s, a) && RowInv(s) && SealInv(s)
    ensures SealInv(Do(c, s, a))
    ensures s.sealed.Some? ==> Do(c, s, a).sealed == s.sealed
  {
    StepLeaves(c, s, a);
    SealSurvives(c, s, a, Do(c, s, a));
  }

  lemma StepKeepsStruct(c: Intent, s: State, a: Action)
    requires Enabled(s, a) && StructInv(s)
    ensures StructInv(Do(c, s, a))
    ensures s.sealed.Some? ==> Do(c, s, a).sealed == s.sealed
  {
    StepKeepsLock(c, s, a);
    StepKeepsRow(c, s, a);
    StepKeepsFence(c, s, a);
    StepKeepsHolder(c, s, a);
    StepKeepsSeal(c, s, a);
  }

  // ---------------------------------------------------------------- who saw what

  /** A worker about to record success under the current fence saw the predicted state under it. */
  ghost predicate Saw(s: State, pc: Pc) {
    pc.Finalizing? && pc.verdict.Succeed? && s.row.Some? && s.row.value.fence == pc.fence ==> pc.fence in s.observed
  }

  ghost predicate ObservedInv(s: State) {
    && (forall w :: w in s.workers ==> Saw(s, s.workers[w]))
    && (s.sealed.Some? && s.sealed.value.state.Applied? ==> s.sealed.value.fence in s.observed)
  }

  lemma ActorSaw(c: Intent, s: State, a: Action, w: nat)
    requires Enabled(s, a) && Actor(a) == Some(w)
    ensures w in Do(c, s, a).workers ==> Saw(Do(c, s, a), Do(c, s, a).workers[w])
  {
  }

  lemma BystanderSaw(c: Intent, s: State, a: Action, t: State, w: nat)
    requires Enabled(s, a) && FenceInv(s) && ObservedInv(s) && Leaves(c, s, a, t)
    requires w in s.workers
    ensures Saw(t, s.workers[w])
  {
    assert Saw(s, s.workers[w]);
  }

  lemma SealSaw(c: Intent, s: State, a: Action, t: State)
    requires Enabled(s, a) && ObservedInv(s) && Leaves(c, s, a, t)
    ensures t.sealed.Some? && t.sealed.value.state.Applied? ==> t.sealed.value.fence in t.observed
  {
    if a.Finalize? {
      assert Saw(s, s.workers[a.w]);
    }
  }

  lemma StepKeepsObserved(c: Intent, s: State, a: Action)
    requires Enabled(s, a) && FenceInv(s) && ObservedInv(s)
    ensures ObservedInv(Do(c, s, a))
  {
    var t := Do(c, s, a);
    StepLeaves(c, s, a);
    SealSaw(c, s, a, t);
    forall w | w in t.workers ensures Saw(t, t.workers[w]) {
      if Actor(a) == Some(w) {
        ActorSaw(c, s, a, w);
      } else {
        OnlyActorMoves(c, s, a, w);
        BystanderSaw(c, s, a, t, w);
      }
    }
  }

  /** The sealed record says applied, or repeats a success code an executor refused with. */
  ghost predicate Justified(s: State) {
    && s.sealed.Some?
    && (s.sealed.value.state.Applied?
        || exists code :: code in s.refused && SuccessCode(code) && s.sealed.value.terminalCode == Some(code))
  }

  ghost predicate AnswerOk(s: State, pc: Pc) {
    match pc
    case Answered(answer) => answer.ok ==> Justified(s)
    case Closing(_, answer) => answer.ok ==> Justified(s)
    case Finalizing(_, Fail(code), _) => SuccessCode(code) ==> code in s.refused
    case _ => true
  }

  ghost predicate SealedOk(s: State) {
    s.sealed.Some? && s.sealed.value.terminalCode.Some? && SuccessCode(s.sealed.value.terminalCode.value) ==> Justified(s)
  }

  ghost predicate AnswerInv(s: State) {
    SealedOk(s) && forall w :: w in s.workers ==> AnswerOk(s, s.workers[w])
  }

  /** What once justified an answer goes on justifying it. */
  lemma JustifiedIsStable(c: Intent, s: State, a: Action)
    requires Enabled(s, a) && SealInv(s) && HolderInv(s) && Justified(s)
    ensures Justified(Do(c, s, a))
  {
    var t := Do(c, s, a);
    assert t.sealed == s.sealed;
    if !s.sealed.value.state.Applied? {
      var code :| code in s.refused && SuccessCode(code) && s.sealed.value.terminalCode == Some(code);
      assert code in t.refused;
    }
  }

  lemma SealedAnswer(s: State, row: Receipt, at: int)
    requires SealInv(s) && AnswerInv(s) && s.row == Some(row)
    ensures MissAnswer(s.row, at).ok ==> Justified(s)
  {
  }

  lemma FinalizerAnswers(c: Intent, s: State, w: nat, lost: bool)
    requires Enabled(s, Finalize(w, lost)) && SealInv(s) && HolderInv(s) && AnswerInv(s)
    ensures AnswerOk(Do(c, s, Finalize(w, lost)), Do(c, s, Finalize(w, lost)).workers[w])
    ensures SealedOk(Do(c, s, Finalize(w, lost)))
  {
    var t := Do(c, s, Finalize(w, lost));
    assert AnswerOk(s, s.workers[w]);
    if t.sealed != s.sealed && s.workers[w].verdict.Fail? {
      assert t.sealed.value.terminalCode == Some(s.workers[w].verdict.code);
    }
  }

  lemma ActorAnswers(c: Intent, s: State, a: Action, w: nat)
    requires Enabled(s, a) && Actor(a) == Some(w) && !a.Finalize? && !a.ReadMiss?
    requires w in s.workers ==> AnswerOk(s, s.workers[w])
    requires Justified(s) ==> Justified(Do(c, s, a))
    ensures w in Do(c, s, a).workers ==> AnswerOk(Do(c, s, a), Do(c, s, a).workers[w])
  {
  }

  lemma MissedAnswers(c: Intent, s: State, w: nat)
    requires Enabled(s, ReadMiss(w)) && SealInv(s) && AnswerInv(s)
    ensures AnswerOk(Do(c, s, ReadMiss(w)), Do(c, s, ReadMiss(w)).workers[w])
  {
    if s.row.Some? {
      SealedAnswer(s, s.row.value, s.workers[w].at);
    }
  }

  lemma BystanderAnswers(c: Intent, s: State, a: Action, w: nat)
    requires Enabled(s, a) && SealInv(s) && HolderInv(s)
    requires w in s.workers && Actor(a) != Some(w) && AnswerOk(s, s.workers[w])
    ensures AnswerOk(Do(c, s, a), s.workers[w])
  {
    if Justified(s) {
      JustifiedIsStable(c, s, a);
    }
    assert s.refused <= Do(c, s, a).refused;
  }

  lemma SealStaysOk(c: Intent, s: State, a: Action)
    requires Enabled(s, a) && SealInv(s) && HolderInv(s) && AnswerInv(s)
    ensures SealedOk(Do(c, s, a))
  {
    if Justified(s) {
      JustifiedIsStable(c, s, a);
    }
    if a.Finalize? {
      FinalizerAnswers(c, s, a.w, a.lost);
    }
  }

  lemma StepKeepsAnswers(c: Intent, s: State, a: Action)
    requires Enabled(s, a) && SealInv(s) && HolderInv(s) && AnswerInv(s)
    ensures AnswerInv(Do(c, s, a))
  {
    var t := Do(c, s, a);
    SealStaysOk(c, s, a);
    forall w | w in t.workers ensures AnswerOk(t, t.workers[w]) {
      if Actor(a) != Some(w) {
        OnlyActorMoves(c, s, a, w);
        BystanderAnswers(c, s, a, w);
      } else if a.Finalize? {
        FinalizerAnswers(c, s, w, a.lost);
      } else if a.ReadMiss? {
        MissedAnswers(c, s, w);
      } else {
        if Justified(s) {
          JustifiedIsStable(c, s, a);
        }
        ActorAnswers(c, s, a, w);
      }
    }
  }

  // ---------------------------------------------------------------- at most once

  /** The predicted state is not one from which execution may start. */
  predicate Distinct(c: Intent) {
    !Startable(c, c.after)
  }

  /** The document may still be moved: it is startable, or an execution is under way. */
  ghost predicate Pending(c: Intent, s: State) {
    || Startable(c, s.doc)
    || (s.lock.Some? && s.lock.value in s.workers
        && s.workers[s.lock.value].Executing? && !s.workers[s.lock.value].written)
  }

  ghost predicate OnceInv(c: Intent, s: State) {
    s.entered + (if Pending(c, s) then 1 else 0) <= 1 + s.resets
  }

  lemma StepKeepsOnce(c: Intent, s: State, a: Action)
    requires Enabled(s, a) && LockInv(s) && Distinct(c) && OnceInv(c, s)
    ensures OnceInv(c, Do(c, s, a))
  {
  }

  // ---------------------------------------------------------------- undisturbed runs

  /** What one worker knows about the document while nothing but the executor touches it. */
  ghost predicate BenignWorker(c: Intent, s: State, pc: Pc) {
    && (pc.Executing? ==> if pc.written then s.doc == c.after else Startable(c, s.doc))
    && (pc.Returned? ==> s.doc == c.after)
    && (pc.Finalizing? && pc.verdict.Succeed? ==> s.doc == c.after)
    && (pc.Finalizing? && pc.verdict.Fail? && s.row.Some? && s.row.value.HeldAt(pc.fence)
        ==> pc.verdict.code == RecoveryRequired)
    && ((pc.Holding? || pc.Locked? || pc.Checked?) && s.row.Some? && s.row.value.fence == 1 == pc.fence
        ==> s.doc == c.before)
  }

  ghost predicate BenignDocument(c: Intent, s: State) {
    && (s.doc == c.after || Startable(c, s.doc))
    && (s.row.Some? && s.row.value.state.Issued? ==> s.doc == c.before)
    && (s.sealed.Some? ==> s.sealed.value.state.Applied? && s.doc == c.after)
  }

  ghost predicate BenignInv(c: Intent, s: State) {
    s.benign ==>
      BenignDocument(c, s) && forall w :: w in s.workers ==> BenignWorker(c, s, s.workers[w])
  }

  /** An undisturbed document is moved only by a write of the executor, and only forward. */
  ghost predicate Touches(c: Intent, s: State, a: Action, t: State)
    requires Enabled(s, a)
  {
    t.benign ==>
      && s.benign
      && !a.External?
      && (if a.Write? then t.doc == c.after || (c.rehome && t.doc == PARTIAL) else t.doc == s.doc)
  }

  lemma StepTouches(c: Intent, s: State, a: Action)
    requires Enabled(s, a)
    ensures Touches(c, s, a, Do(c, s, a))
  {
  }

  lemma WriteSparesBystander(c: Intent, s: State, a: Action, t: State, w: nat)
    requires Enabled(s, a) && a.Write? && LockInv(s) && FenceInv(s) && Distinct(c) && BenignInv(c, s)
    requires Leaves(c, s, a, t) && Touches(c, s, a, t)
    requires t.benign && w in s.workers && a.w != w
    ensures BenignWorker(c, t, s.workers[w])
  {
    assert BenignWorker(c, s, s.workers[w]) && BenignWorker(c, s, s.workers[a.w]);
  }

  lemma BystanderStaysBenign(c: Intent, s: State, a: Action, t: State, w: nat)
    requires Enabled(s, a) && LockInv(s) && RowInv(s) && FenceInv(s) && Distinct(c) && BenignInv(c, s)
    requires Leaves(c, s, a, t) && Touches(c, s, a, t)
    requires t.benign && w in s.workers && Actor(a) != Some(w)
    ensures BenignWorker(c, t, s.workers[w])
  {
    if a.Write? {
      WriteSparesBystander(c, s, a, t, w);
    } else {
      assert BenignWorker(c, s, s.workers[w]);
    }
  }

  lemma ClaimantStaysBenign(c: Intent, s: State, w: nat, lost: bool)
    requires Enabled(s, ClaimRow(w, lost)) && RowInv(s) && BenignInv(c, s) && s.benign
    ensures BenignWorker(c, Do(c, s, ClaimRow(w, lost)), Do(c, s, ClaimRow(w, lost)).workers[w])
  {
  }

  lemma WriterStaysBenign(c: Intent, s: State, w: nat, text: string)
    requires Enabled(s, Write(w, text)) && Distinct(c) && BenignInv(c, s) && Do(c, s, Write(w, text)).benign
    ensures BenignWorker(c, Do(c, s, Write(w, text)), Do(c, s, Write(w, text)).workers[w])
  {
    assert BenignWorker(c, s, s.workers[w]);
  }

  lemma ActorStaysBenign(c: Intent, s: State, a: Action, w: nat)
    requires Enabled(s, a) && Actor(a) == Some(w) && !a.Finalize? && !a.ClaimRow? && !a.Write?
    requires RowInv(s) && FenceInv(s) && Distinct(c) && BenignInv(c, s) && Do(c, s, a).benign
    ensures BenignWorker(c, Do(c, s, a), Do(c, s, a).workers[w])
  {
    assert w in s.workers ==> BenignWorker(c, s, s.workers[w]);
  }

  lemma FinalizerStaysBenign(c: Intent, s: State, w: nat, lost: bool)
    requires Enabled(s, Finalize(w, lost)) && BenignInv(c, s)
    requires Do(c, s, Finalize(w, lost)).benign
    ensures BenignWorker(c, Do(c, s, Finalize(w, lost)), Do(c, s, Finalize(w, lost)).workers[w])
  {
  }

  lemma DocumentStaysBenign(c: Intent, s: State, a: Action, t: State)
    requires Enabled(s, a) && RowInv(s) && FenceInv(s) && SealInv(s) && Distinct(c) && BenignInv(c, s)
    requires Leaves(c, s, a, t) && Touches(c, s, a, t) && t.benign
    ensures BenignDocument(c, t)
  {
    if a.Write? || a.Finalize? {
      assert BenignWorker(c, s, s.workers[a.w]);
    }
  }

  lemma StepKeepsBenign(c: Intent, s: State, a: Action)
    requires Enabled(s, a) && LockInv(s) && RowInv(s) && FenceInv(s) && SealInv(s) && Distinct(c) && BenignInv(c, s)
    ensures BenignInv(c, Do(c, s, a))
  {
    var t := Do(c, s, a);
    if t.benign {
      StepLeaves(c, s, a);
      StepTouches(c, s, a);
      DocumentStaysBenign(c, s, a, t);
      forall w | w in t.workers ensures BenignWorker(c, t, t.workers[w]) {
        if Actor(a) != Some(w) {
          OnlyActorMoves(c, s, a, w);
          BystanderStaysBenign(c, s, a, t, w);
        } else if a.Finalize? {
          FinalizerStaysBenign(c, s, w, a.lost);
        } else if a.ClaimRow? {
          ClaimantStaysBenign(c, s, w, a.lost);
        } else if a.Write? {
          WriterStaysBenign(c, s, w, a.text);
        } else {
          ActorStaysBenign(c, s, a, w);
        }
      }
    }
  }

  // ---------------------------------------------------------------- whole runs

  /** Everything above that needs no assumption on the intent. */
  ghost predicate SafeInv(s: State) {
    StructInv(s) && ObservedInv(s) && AnswerInv(s)
  }

  lemma InitIsSafe(c: Intent, issuedAt: int, expiresAt: int, doc: string)
    requires issuedAt < expiresAt
    ensures SafeInv(Init(c, issuedAt, expiresAt, doc))
    ensures OnceInv(c, Init(c, issuedAt, expiresAt, doc)) && BenignInv(c, Init(c, issuedAt, expiresAt, doc))
  {
  }

  /** A row is never re-issued and its fence never goes back. */
  lemma RowOnlyAdvances(c: Intent, s: State, a: Action)
    requires Enabled(s, a)
    ensures s.row.None? ==> Do(c, s, a).row.None?
    ensures Do(c, s, a).row.Some? ==> s.row.Some? && s.row.value.fence <= Do(c, s, a).row.value.fence
  {
  }

  lemma StepKeepsSafe(c: Intent, s: State, a: Action)
    requires Enabled(s, a) && SafeInv(s)
    ensures SafeInv(Do(c, s, a))
    ensures s.sealed.Some? ==> Do(c, s, a).sealed == s.sealed
  {
    StepKeepsStruct(c, s, a);
    StepKeepsObserved(c, s, a);
    StepKeepsAnswers(c, s, a);
  }

  /** Terminal receipts never change: the row stays, or is swept, and the record written is the last. */
  lemma {:induction false} SealedForever(c: Intent, s: State, acts: seq<Action>, t: State)
    requires Runs(c, s, acts, t) && SafeInv(s)
    ensures SafeInv(t)
    ensures s.sealed.Some? ==> t.sealed == s.sealed && (t.row.None? || t.row == s.sealed)
    ensures s.row.Some? && t.row.Some? ==> s.row.value.fence <= t.row.value.fence
    ensures s.row.None? ==> t.row.None?
    decreases |acts|
  {
    if acts != [] {
      var a := acts[0];
      StepKeepsSafe(c, s, a);
      RowOnlyAdvances(c, s, a);
      SealedForever(c, Do(c, s, a), acts[1..], t);
    }
  }

  lemma {:induction false} RunKeepsOnce(c: Intent, s: State, acts: seq<Action>, t: State)
    requires Runs(c, s, acts, t) && Distinct(c) && StructInv(s) && OnceInv(c, s) && BenignInv(c, s)
    ensures StructInv(t) && OnceInv(c, t) && BenignInv(c, t)
    decreases |acts|
  {
    if acts != [] {
      var a := acts[0];
      StepKeepsStruct(c, s, a);
      StepKeepsOnce(c, s, a);
      StepKeepsBenign(c, s, a);
      RunKeepsOnce(c, Do(c, s, a), acts[1..], t);
    }
  }

  /**
   However many workers race, crash, outlive their lease or lose a storage reply, the executor
   moves the document into the predicted state at most once, plus once for every time somebody
   else put the document back into a state execution may start from.
   */
  lemma AtMostOnce(c: Intent, issuedAt: int, expiresAt: int, doc: string, acts: seq<Action>, t: State)
    requires issuedAt < expiresAt && Distinct(c)
    requires Runs(c, Init(c, issuedAt, expiresAt, doc), acts, t)
    ensures t.entered <= 1 + t.resets
    ensures t.entered == 1 + t.resets ==> !Startable(c, t.doc)
  {
    InitIsSafe(c, issuedAt, expiresAt, doc);
    RunKeepsOnce(c, Init(c, issuedAt, expiresAt, doc), acts, t);
  }

  /**
   An answer `ok: true` means the receipt was recorded as applied, by a worker that saw the
   predicted state under the lock while its fence was the current one, provided no executor
   refused with a success code.
   */
  lemma OkMeansApplied(c: Intent, issuedAt: int, expiresAt: int, doc: string, acts: seq<Action>, t: State, w: nat)
    requires issuedAt < expiresAt
    requires Runs(c, Init(c, issuedAt, expiresAt, doc), acts, t)
    requires forall code :: code in t.refused ==> !SuccessCode(code)
    requires w in t.workers && t.workers[w].Answered? && t.workers[w].answer.ok
    ensures t.sealed.Some? && t.sealed.value.state.Applied? && t.sealed.value.fence in t.observed
    ensures t.row.None? || t.row == t.sealed
  {
    InitIsSafe(c, issuedAt, expiresAt, doc);
    SealedForever(c, Init(c, issuedAt, expiresAt, doc), acts, t);
    assert AnswerOk(t, t.workers[w]);
  }

  /**
   That proviso is needed, and exactly so: recording a refusal under the current fence answers
   `ok: true` for a receipt that is `failed_terminal` if and only if its code is a success code.
   */
  lemma RefusalAnswersOkIff(c: Intent, s: State, w: nat)
    requires Enabled(s, Finalize(w, false)) && s.workers[w].verdict.Fail?
    requires s.row.Some? && s.row.value.HeldAt(s.workers[w].fence)
    ensures var t := Do(c, s, Finalize(w, false));
            (t.workers[w].answer.ok && t.row.value.state.FailedTerminal?) <==> SuccessCode(s.workers[w].verdict.code)
  {
  }

  /** A finalize that does not hold the current fence changes nothing and never answers success. */
  lemma StaleFinalizeFails(c: Intent, s: State, w: nat, lost: bool)
    requires Enabled(s, Finalize(w, lost))
    requires s.row.Some? ==> !s.row.value.HeldAt(s.workers[w].fence)
    ensures var t := Do(c, s, Finalize(w, lost));
            t.row == s.row && t.sealed == s.sealed && !t.workers[w].answer.ok
  {
  }

  lemma OnlyInspectExecutes(c: Intent, s: State, a: Action, w: nat)
    requires Enabled(s, a) && w in Do(c, s, a).workers && Do(c, s, a).workers[w].Executing?
    requires w in s.workers ==> !s.workers[w].Executing?
    ensures a == Inspect(w) && Decide(c, s.workers[w].fence, s.doc) == Execute
  {
  }

  /**
   An execution starts only inside the lock and only from the precondition, except that a
   recovery claim (never the first claim) may resume a half-done rehome.
   */
  lemma ExecutionStarts(c: Intent, s: State, a: Action, w: nat)
    requires Enabled(s, a) && StructInv(s)
    requires w in Do(c, s, a).workers && Do(c, s, a).workers[w].Executing?
    requires w in s.workers ==> !s.workers[w].Executing?
    ensures s.lock == Some(w) && forall v :: v in s.workers && v != w ==> !s.workers[v].InLock()
    ensures s.doc == c.before || (c.rehome && s.doc == PARTIAL && s.workers[w].fence >= 2)
    ensures s.row.Some? && s.row.value.fence == s.workers[w].fence ==> s.row.value.state.Applying?
  {
    OnlyInspectExecutes(c, s, a, w);
    assert HoldsRow(s.row, s.workers[w]);
  }
}
