/** How many steps of a rollback fail. */
module RollbackCounts {
  import opened Common
  import opened ChangeRollback
  import opened RollbackTheory
  import opened RollbackRuns

  // ---------------------------------------------------------------- whatever the log holds

  /** Whether a record is there once the log is undone, if it is `there` now: its oldest insertion or deletion decides. */
  predicate Stands(there: bool, log: seq<Change>, key: Key)
    decreases |log|
  {
    if log == [] then there
    else Stands(StandsAfter(there, log[|log| - 1], key), log[..|log| - 1], key)
  }

  predicate StandsAfter(there: bool, c: Change, key: Key) {
    if KeyOf(c) != key then there else !c.operation.Insert? && (c.operation.Delete? || there)
  }

  /** The deletions whose record is there again when their turn comes. */
  function Refused(z: Db, log: seq<Change>, tables: seq<string>): set<nat> {
    set i: nat | i < |log| && IsRefused(z, log, tables, i)
  }

  predicate IsRefused(z: Db, log: seq<Change>, tables: seq<string>, i: nat)
    requires i < |log|
  {
    var key := KeyOf(log[i]);
    log[i].operation.Delete? && Covered(tables, key.table) && Stands(key in z, log[i + 1..], key)
  }

  lemma StandsAfterStep(schema: Schema, before: Db, c: Change, after: Db, z: Db, t: int, tables: seq<string>, key: Key)
    requires Faithful(schema, before, c, after) && GoodDb(schema, z) && c.timestamp > t && Covered(tables, key.table)
    ensures var step := StepFor(schema, z, c, t, tables);
            && (key in step.0 <==> StandsAfter(key in z, c, key))
            && (KeyOf(c) == key ==> (!step.1 <==> c.operation.Delete? && key in z))
  {
    UndoIsLocal(schema, before, c, after, z);
    if KeyOf(c) != key {
      assert SameAt(z, StepFor(schema, z, c, t, tables).0, key);
    } else if !c.operation.OtherOperation? {
      UndoOfRecord(schema, before, c, after, z);
    }
  }

  lemma StandsOneMore(there: bool, log: seq<Change>, c: Change, key: Key)
    ensures Stands(there, log + [c], key) == Stands(StandsAfter(there, c, key), log, key)
  {
    assert (log + [c])[..|log|] == log;
  }

  lemma RefusedOneMore(schema: Schema, before: Db, log: seq<Change>, c: Change, after: Db, z: Db, t: int, tables: seq<string>)
    requires Faithful(schema, before, c, after) && GoodDb(schema, z) && c.timestamp > t
    ensures var step := StepFor(schema, z, c, t, tables);
            && GoodDb(schema, step.0)
            && Refused(z, log + [c], tables) == Refused(step.0, log, tables) + if step.1 then {} else {|log|}
  {
    var step := StepFor(schema, z, c, t, tables);
    var whole := log + [c];
    UndoIsLocal(schema, before, c, after, z);
    forall i: nat | i < |log| ensures IsRefused(z, whole, tables, i) <==> IsRefused(step.0, log, tables, i) {
      var key := KeyOf(log[i]);
      assert whole[i] == log[i] && whole[i + 1..] == log[i + 1..] + [c];
      StandsOneMore(key in z, log[i + 1..], c, key);
      if Covered(tables, key.table) {
        StandsAfterStep(schema, before, c, after, z, t, tables, key);
      }
    }
    assert whole[|log|] == c && whole[|log| + 1..] == [];
    if Covered(tables, KeyOf(c).table) {
      StandsAfterStep(schema, before, c, after, z, t, tables, KeyOf(c));
    }
  }

  /** Whatever was rolled back in between: exactly those deletions fail to be undone. */
  lemma {:induction false} FailedStepsAreRefused(schema: Schema, states: seq<Db>, log: seq<Change>, z: Db, t: int,
                                                 tables: seq<string>)
    requires History(schema, states, log) && GoodDb(schema, z) && forall i :: 0 <= i < |log| ==> log[i].timestamp > t
    ensures FailedSteps(schema, z, log, t, tables) == |Refused(z, log, tables)|
    decreases |log|
  {
    if log != [] {
      var front, c := log[..|log| - 1], log[|log| - 1];
      var step := StepFor(schema, z, c, t, tables);
      assert log == front + [c];
      Shorter(schema, states, log);
      RefusedOneMore(schema, states[|front|], front, c, states[|log|], z, t, tables);
      UnwindOneMore(schema, z, front, c, t, tables);
      FailedStepsAreRefused(schema, states[..|log|], front, step.0, t, tables);
    }
  }

  /** How many steps of a rollback fail, from any database, and whatever the log holds. */
  lemma RollbackFailuresAreRefused(schema: Schema, states: seq<Db>, log: seq<Change>, t: int, tables: seq<string>,
                                   m: nat, z: Db, plan: seq<Change>)
    requires History(schema, states, log) && Increasing(log) && Since(log, t, m)
    requires IsPlan(plan, log, t, tables, "") && GoodDb(schema, z)
    ensures Failures(schema, z, plan) == |Refused(z, log[m..], tables)|
  {
    Rest(schema, states, log, m);
    PlanIsUnwind(schema, z, plan, log, t, tables);
    OldEntriesStay(schema, z, log, m, t, tables);
    FailedStepsAreRefused(schema, states[m..], log[m..], z, t, tables);
  }

  // ---------------------------------------------------------------- where nothing was rolled back

  /** The entries that are no changes changed nothing. */
  ghost predicate NoRollbacks(states: seq<Db>, log: seq<Change>)
    requires |states| == |log| + 1
  {
    forall i :: 0 <= i < |log| && log[i].operation.OtherOperation? ==> states[i + 1] == states[i]
  }

  /** The covered records that `z` has and `newest` lacks. */
  function Extra(z: Db, newest: Db, tables: seq<string>): set<Key> {
    set key | key in z && Covered(tables, key.table) && key !in newest
  }

  lemma StepFails(schema: Schema, before: Db, c: Change, after: Db, z: Db, t: int, tables: seq<string>)
    requires Faithful(schema, before, c, after) && (c.operation.OtherOperation? ==> after == before)
    requires GoodDb(schema, z) && c.timestamp > t
    ensures var step := StepFor(schema, z, c, t, tables);
            && GoodDb(schema, step.0)
            && (step.1 ==> Extra(step.0, before, tables) == Extra(z, after, tables))
            && (!step.1 ==> KeyOf(c) in Extra(z, after, tables)
                            && Extra(step.0, before, tables) == Extra(z, after, tables) - {KeyOf(c)})
  {
    UndoIsLocal(schema, before, c, after, z);
    var w := StepFor(schema, z, c, t, tables).0;
    if !c.operation.OtherOperation? {
      UndoOfRecord(schema, before, c, after, z);
      ExtraElsewhere(z, after, w, before, tables, KeyOf(c));
      ExtraHere(schema, before, c, after, z, t, tables);
      WithOrWithout(Extra(w, before, tables), Extra(z, after, tables), KeyOf(c));
    }
  }

  lemma WithOrWithout(a: set<Key>, b: set<Key>, key: Key)
    requires a - {key} == b - {key} && key !in a
    ensures key !in b ==> a == b
    ensures key in b ==> a == b - {key}
  {
    assert a - {key} == a;
    assert key !in b ==> b - {key} == b;
  }

  lemma ExtraHere(schema: Schema, before: Db, c: Change, after: Db, z: Db, t: int, tables: seq<string>)
    requires Faithful(schema, before, c, after) && !c.operation.OtherOperation? && GoodDb(schema, z) && c.timestamp > t
    ensures var step := StepFor(schema, z, c, t, tables);
            && KeyOf(c) !in Extra(step.0, before, tables)
            && (KeyOf(c) in Extra(z, after, tables) <==> !step.1)
  {
    UndoOfRecord(schema, before, c, after, z);
  }

  lemma ExtraElsewhere(z: Db, after: Db, w: Db, before: Db, tables: seq<string>, key: Key)
    requires forall k :: k != key ==> SameAt(before, after, k) && SameAt(z, w, k)
    ensures Extra(w, before, tables) - {key} == Extra(z, after, tables) - {key}
  {
    forall k | k != key ensures k in Extra(w, before, tables) <==> k in Extra(z, after, tables) {
      assert SameAt(before, after, k) && SameAt(z, w, k);
    }
  }

  /** Every failing step re-inserts a record that is there and will not be at the newest state. */
  lemma {:induction false} FailedStepsAre(schema: Schema, states: seq<Db>, log: seq<Change>, z: Db, t: int, tables: seq<string>)
    requires History(schema, states, log) && NoRollbacks(states, log) && GoodDb(schema, z)
    requires forall i :: 0 <= i < |log| ==> log[i].timestamp > t
    ensures FailedSteps(schema, z, log, t, tables) + |Extra(Unwind(schema, z, log, t, tables), states[0], tables)|
            == |Extra(z, states[|log|], tables)|
    decreases |log|
  {
    if log != [] {
      var front, c := log[..|log| - 1], log[|log| - 1];
      var w := StepFor(schema, z, c, t, tables).0;
      assert log == front + [c];
      Shorter(schema, states, log);
      StepFails(schema, states[|front|], c, states[|log|], z, t, tables);
      UnwindOneMore(schema, z, front, c, t, tables);
      FailedStepsAre(schema, states[..|log|], front, w, t, tables);
    }
  }

  /**
   How many steps of a rollback fail: exactly one for each covered record that the database has
   and the newest state lacks, provided nothing was rolled back since `t`.
   */
  lemma RollbackFailuresAre(schema: Schema, states: seq<Db>, log: seq<Change>, t: int, tables: seq<string>,
                            m: nat, z: Db, plan: seq<Change>)
    requires History(schema, states, log) && Increasing(log) && Since(log, t, m)
    requires NoRollbacks(states[m..], log[m..]) && IsPlan(plan, log, t, tables, "") && GoodDb(schema, z)
    requires forall key: Key :: Covered(tables, key.table) ==> WasSo(z, states, m, key)
    ensures Failures(schema, z, plan) == |Extra(z, states[|log|], tables)|
  {
    var after := UndoAll(schema, z, plan);
    FailedStepsSince(schema, states, log, t, tables, m, z, plan);
    NoRollbacksSince(schema, states, log, m);
    RollbackRestores(schema, states, log, t, tables, m, z, plan);
    NothingExtra(after, states[m], z, tables);
  }

  lemma FailedStepsSince(schema: Schema, states: seq<Db>, log: seq<Change>, t: int, tables: seq<string>,
                         m: nat, z: Db, plan: seq<Change>)
    requires History(schema, states, log) && Increasing(log) && Since(log, t, m)
    requires NoRollbacks(states[m..], log[m..]) && IsPlan(plan, log, t, tables, "") && GoodDb(schema, z)
    ensures Failures(schema, z, plan) + |Extra(UndoAll(schema, z, plan), states[m], tables)|
            == |Extra(z, states[|log|], tables)|
  {
    Rest(schema, states, log, m);
    PlanIsUnwind(schema, z, plan, log, t, tables);
    OldEntriesStay(schema, z, log, m, t, tables);
    FailedStepsAre(schema, states[m..], log[m..], z, t, tables);
  }

  lemma NoRollbacksSince(schema: Schema, states: seq<Db>, log: seq<Change>, m: nat)
    requires History(schema, states, log) && m <= |log| && NoRollbacks(states[m..], log[m..])
    ensures RollbacksOnCourse(states[m..], log[m..])
  {
    Rest(schema, states, log, m);
    NoRollbacksOnCourse(schema, states[m..], log[m..]);
  }

  lemma NothingExtra(after: Db, past: Db, z: Db, tables: seq<string>)
    requires forall key: Key :: SameAt(after, if Covered(tables, key.table) then past else z, key)
    ensures Extra(after, past, tables) == {}
  {
    forall key | key in after && Covered(tables, key.table) ensures key in past {
      assert SameAt(after, past, key);
    }
  }

  lemma NoRollbacksOnCourse(schema: Schema, states: seq<Db>, log: seq<Change>)
    requires History(schema, states, log) && NoRollbacks(states, log)
    ensures RollbacksOnCourse(states, log)
  {
    QuietPrefix(schema, states, log, |log|);
    assert states[0..|log| + 1] == states && log[0..|log|] == log;
  }

  lemma {:induction false} QuietPrefix(schema: Schema, states: seq<Db>, log: seq<Change>, n: nat)
    requires History(schema, states, log) && NoRollbacks(states, log) && n <= |log|
    ensures OnCourseBetween(states, log, 0, n)
  {
    if n > 0 {
      QuietPrefix(schema, states, log, n - 1);
      NothingChanged(schema, states, log, 0, n - 1);
      OneMoreOnCourse(states, log, 0, n - 1);
    }
  }

  /** From the newest state no step fails, whatever tables are covered. */
  lemma FirstRunCountsNoFailure(schema: Schema, states: seq<Db>, log: seq<Change>, t: int, tables: seq<string>,
                                m: nat, plan: seq<Change>)
    requires History(schema, states, log) && Increasing(log) && Since(log, t, m)
    requires NoRollbacks(states[m..], log[m..]) && IsPlan(plan, log, t, tables, "")
    ensures Failures(schema, states[|log|], plan) == 0
  {
    StatesAreGood(schema, states, log, |log|);
    NewestWasSo(states, m);
    RollbackFailuresAre(schema, states, log, t, tables, m, states[|log|], plan);
    assert Extra(states[|log|], states[|log|], tables) == {};
  }

  /** A second run fails once for every covered record that was there at `t` and is not at the newest state. */
  lemma SecondRunFailuresAre(schema: Schema, states: seq<Db>, log: seq<Change>, t: int, tables: seq<string>,
                             m: nat, plan: seq<Change>)
    requires History(schema, states, log) && Increasing(log) && Since(log, t, m)
    requires NoRollbacks(states[m..], log[m..]) && IsPlan(plan, log, t, tables, "")
    ensures Failures(schema, UndoAll(schema, states[|log|], plan), plan) == |Extra(states[m], states[|log|], tables)|
  {
    var once := UndoAll(schema, states[|log|], plan);
    NoRollbacksSince(schema, states, log, m);
    RollbackIsIdempotent(schema, states, log, t, tables, m, plan);
    forall key: Key | Covered(tables, key.table) ensures WasSo(once, states, m, key) {
      assert SameAt(once, states[m], key);
    }
    RollbackFailuresAre(schema, states, log, t, tables, m, once, plan);
    SameExtra(once, states[m], states[|log|], tables);
  }

  lemma SameExtra(a: Db, b: Db, newest: Db, tables: seq<string>)
    requires forall key: Key :: Covered(tables, key.table) ==> SameAt(a, b, key)
    ensures Extra(a, newest, tables) == Extra(b, newest, tables)
  {
    forall key: Key | Covered(tables, key.table) ensures key in a <==> key in b {
      assert SameAt(a, b, key);
    }
  }
}
