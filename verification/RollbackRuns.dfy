/**
 Histories that themselves contain rollbacks: when a later rollback still restores, and when it
 does not.
 */
module RollbackRuns {
  import opened Common
  import opened ChangeRollback
  import opened RollbackTheory

  // ---------------------------------------------------------------- rollbacks in the log

  /** A rollback to `target`, with some table filter, made `after` of `before`. */
  ghost predicate RolledBack(schema: Schema, before: Db, log: seq<Change>, target: int, after: Db) {
    exists tables, plan :: IsPlan(plan, log, target, tables, "") && after == UndoAll(schema, before, plan)
  }

  /** Entries that are no changes change nothing, or are those of rollbacks to their `targets`. */
  ghost predicate LogsRollbacks(schema: Schema, states: seq<Db>, log: seq<Change>, targets: seq<int>)
    requires |states| == |log| + 1
  {
    && |targets| == |log|
    && forall i :: 0 <= i < |log| && log[i].operation.OtherOperation? ==>
         states[i + 1] == states[i] || RolledBack(schema, states[i], log[..i], targets[i], states[i + 1])
  }

  /** From entry `m` on, every rollback that changed something went no further back than `t`. */
  ghost predicate TargetsSince(states: seq<Db>, log: seq<Change>, targets: seq<int>, m: nat, t: int)
    requires |states| == |log| + 1 == |targets| + 1
  {
    forall i :: m <= i < |log| && log[i].operation.OtherOperation? ==> states[i + 1] == states[i] || targets[i] >= t
  }

  lemma {:induction false} FindSince(log: seq<Change>, t: int) returns (k: nat)
    requires Increasing(log)
    ensures Since(log, t, k)
  {
    if log == [] || log[|log| - 1].timestamp <= t {
      k := |log|;
    } else {
      var front := log[..|log| - 1];
      k := FindSince(front, t);
      assert forall i :: 0 <= i < |front| ==> log[i] == front[i];
    }
  }

  /** A stretch of a history is a history. */
  lemma Stretch(schema: Schema, states: seq<Db>, log: seq<Change>, i: nat, j: nat)
    requires History(schema, states, log) && i <= j <= |log|
    ensures History(schema, states[i..j + 1], log[i..j]) && GoodDb(schema, states[i]) && GoodDb(schema, states[j])
  {
    StatesAreGood(schema, states, log, i);
    StatesAreGood(schema, states, log, j);
    var passed, recent := states[i..j + 1], log[i..j];
    forall k | 0 <= k < |recent| ensures Faithful(schema, passed[k], recent[k], passed[k + 1]) {
      assert Faithful(schema, states[i + k], log[i + k], states[i + k + 1]);
    }
  }

  lemma Rest(schema: Schema, states: seq<Db>, log: seq<Change>, m: nat)
    requires History(schema, states, log) && m <= |log|
    ensures History(schema, states[m..], log[m..]) && states[m..][|log[m..]|] == states[|log|]
  {
    Stretch(schema, states, log, m, |log|);
    assert states[m..|log| + 1] == states[m..] && log[m..|log|] == log[m..];
  }

  /** Undoing the entries from `k` on leaves every record on course. */
  lemma UnwoundIsOnCourse(schema: Schema, states: seq<Db>, log: seq<Change>, k: nat, t: int, tables: seq<string>, key: Key)
    requires History(schema, states, log) && RollbacksOnCourse(states, log) && k <= |log|
    requires forall i :: k <= i < |log| ==> log[i].timestamp > t
    ensures OnCourse(states[0], log, Unwind(schema, states[|log|], log[k..], t, tables), key)
  {
    var newest := states[|log|];
    var after := Unwind(schema, newest, log[k..], t, tables);
    StatesAreGood(schema, states, log, |log|);
    StateIsOnCourse(schema, states, log, |log|, key);
    UnwindKeepsCourse(schema, states, log, k, |log|, newest, t, tables, key);
    assert log[..|log|] == log && log[k..|log|] == log[k..];
    if Covered(tables, key.table) {
      OnCourseWithMore(states[0], log, k, after, key);
    }
  }

  /** What a plan makes of a database, read off the log from entry `k` on. */
  lemma PlanFrom(schema: Schema, z: Db, plan: seq<Change>, log: seq<Change>, t: int, tables: seq<string>, k: nat)
    requires IsPlan(plan, log, t, tables, "") && Increasing(log) && Since(log, t, k)
    ensures UndoAll(schema, z, plan) == Unwind(schema, z, log[k..], t, tables)
  {
    PlanIsUnwind(schema, z, plan, log, t, tables);
    OldEntriesStay(schema, z, log, k, t, tables);
  }

  /** A rollback to `t` or later leaves every record on course back to what it was at `t`. */
  lemma RollbackStaysOnCourse(schema: Schema, states: seq<Db>, log: seq<Change>, t: int, m: nat,
                              target: int, after: Db)
    requires History(schema, states, log) && Increasing(log) && Since(log, t, m) && target >= t
    requires RollbacksOnCourse(states[m..], log[m..]) && RolledBack(schema, states[|log|], log, target, after)
    ensures AllOnCourse(states[m], log[m..], after)
  {
    var tables, plan :| IsPlan(plan, log, target, tables, "") && after == UndoAll(schema, states[|log|], plan);
    var k := FindSince(log, target);
    LaterTarget(log, t, m, target, k);
    PlanFrom(schema, states[|log|], plan, log, target, tables, k);
    UnwoundSince(schema, states, log, m, k, target, tables);
  }

  lemma LaterTarget(log: seq<Change>, t: int, m: nat, target: int, k: nat)
    requires Since(log, t, m) && Since(log, target, k) && target >= t
    ensures m <= k
  {
    assert k < |log| ==> log[k].timestamp > target;
  }

  lemma UnwoundSince(schema: Schema, states: seq<Db>, log: seq<Change>, m: nat, k: nat, t: int, tables: seq<string>)
    requires History(schema, states, log) && m <= k && Since(log, t, k) && RollbacksOnCourse(states[m..], log[m..])
    ensures AllOnCourse(states[m], log[m..], Unwind(schema, states[|log|], log[k..], t, tables))
  {
    Rest(schema, states, log, m);
    SinceInPart(log, t, k, m);
    UnwoundAllOnCourse(schema, states[m..], log[m..], k - m, t, tables);
  }

  lemma SinceInPart(log: seq<Change>, t: int, k: nat, m: nat)
    requires Since(log, t, k) && m <= k
    ensures Since(log[m..], t, k - m) && log[m..][k - m..] == log[k..]
  {
  }

  lemma UnwoundAllOnCourse(schema: Schema, states: seq<Db>, log: seq<Change>, k: nat, t: int, tables: seq<string>)
    requires History(schema, states, log) && RollbacksOnCourse(states, log) && Since(log, t, k)
    ensures AllOnCourse(states[0], log, Unwind(schema, states[|log|], log[k..], t, tables))
  {
    forall key: Key ensures OnCourse(states[0], log, Unwind(schema, states[|log|], log[k..], t, tables), key) {
      UnwoundIsOnCourse(schema, states, log, k, t, tables, key);
    }
  }

  /** The history up to entry `n`. */
  lemma Prefix(schema: Schema, states: seq<Db>, log: seq<Change>, t: int, m: nat, n: nat)
    requires History(schema, states, log) && Increasing(log) && Since(log, t, m) && m <= n <= |log|
    ensures History(schema, states[..n + 1], log[..n]) && Increasing(log[..n]) && Since(log[..n], t, m)
    ensures states[..n + 1][m..] == states[m..n + 1] && log[..n][m..] == log[m..n]
  {
  }

  /** The rollbacks among entries `m` to `n` left every record on course. */
  ghost predicate OnCourseBetween(states: seq<Db>, log: seq<Change>, m: nat, n: nat)
    requires m <= n <= |log| && |states| == |log| + 1
  {
    RollbacksOnCourse(states[m..n + 1], log[m..n])
  }

  lemma {:induction false} PrefixIsOnCourse(schema: Schema, states: seq<Db>, log: seq<Change>, targets: seq<int>,
                                            t: int, m: nat, n: nat)
    requires History(schema, states, log) && Increasing(log) && Since(log, t, m) && m <= n <= |log|
    requires LogsRollbacks(schema, states, log, targets) && TargetsSince(states, log, targets, m, t)
    ensures OnCourseBetween(states, log, m, n)
    decreases n
  {
    if m < n {
      PrefixIsOnCourse(schema, states, log, targets, t, m, n - 1);
      EntryIsOnCourse(schema, states, log, targets, t, m, n - 1);
      OneMoreOnCourse(states, log, m, n - 1);
    }
  }

  lemma EntryIsOnCourse(schema: Schema, states: seq<Db>, log: seq<Change>, targets: seq<int>, t: int, m: nat, n: nat)
    requires History(schema, states, log) && Increasing(log) && Since(log, t, m) && m <= n < |log|
    requires LogsRollbacks(schema, states, log, targets) && TargetsSince(states, log, targets, m, t)
    requires OnCourseBetween(states, log, m, n)
    ensures log[n].operation.OtherOperation? ==> AllOnCourse(states[m], log[m..n], states[n + 1])
  {
    if log[n].operation.OtherOperation? {
      if states[n + 1] == states[n] {
        NothingChanged(schema, states, log, m, n);
      } else {
        Prefix(schema, states, log, t, m, n);
        RollbackStaysOnCourse(schema, states[..n + 1], log[..n], t, m, targets[n], states[n + 1]);
      }
    }
  }

  lemma NothingChanged(schema: Schema, states: seq<Db>, log: seq<Change>, m: nat, n: nat)
    requires History(schema, states, log) && m <= n <= |log| && OnCourseBetween(states, log, m, n)
    ensures AllOnCourse(states[m], log[m..n], states[n])
  {
    Stretch(schema, states, log, m, n);
    var passed, recent := states[m..n + 1], log[m..n];
    forall key: Key ensures OnCourse(states[m], recent, states[n], key) {
      StateIsOnCourse(schema, passed, recent, n - m, key);
      assert recent[..n - m] == recent;
    }
  }

  lemma OneMoreOnCourse(states: seq<Db>, log: seq<Change>, m: nat, n: nat)
    requires |states| == |log| + 1 && m <= n < |log| && OnCourseBetween(states, log, m, n)
    requires log[n].operation.OtherOperation? ==> AllOnCourse(states[m], log[m..n], states[n + 1])
    ensures OnCourseBetween(states, log, m, n + 1)
  {
    var passed, recent := states[m..n + 2], log[m..n + 1];
    forall i | 0 <= i < |recent| && recent[i].operation.OtherOperation?
      ensures AllOnCourse(passed[0], recent[..i], passed[i + 1])
    {
      assert recent[..i] == log[m..n][..i] && recent[i] == log[m + i] && passed[i + 1] == states[m + i + 1];
      if m + i < n {
        assert log[m..n][i] == recent[i] && states[m..n + 1][i + 1] == passed[i + 1];
      } else {
        assert log[m..n][..i] == log[m..n];
      }
    }
  }

  /**
   Rolling back to `t` restores although rollbacks are in the log, as long as none of those after
   `t` went further back than `t`: the covered tables become what they were at `t`.
   */
  lemma RestoresDespiteRollbacks(schema: Schema, states: seq<Db>, log: seq<Change>, targets: seq<int>, t: int,
                                 tables: seq<string>, m: nat, z: Db, plan: seq<Change>)
    requires History(schema, states, log) && Increasing(log) && Since(log, t, m)
    requires LogsRollbacks(schema, states, log, targets) && TargetsSince(states, log, targets, m, t)
    requires IsPlan(plan, log, t, tables, "") && GoodDb(schema, z)
    requires forall key: Key :: Covered(tables, key.table) ==> WasSo(z, states, m, key)
    ensures RollbacksOnCourse(states[m..], log[m..])
    ensures forall key: Key :: SameAt(UndoAll(schema, z, plan), if Covered(tables, key.table) then states[m] else z, key)
  {
    PrefixIsOnCourse(schema, states, log, targets, t, m, |log|);
    assert states[m..|log| + 1] == states[m..] && log[m..|log|] == log[m..];
    RollbackRestores(schema, states, log, t, tables, m, z, plan);
  }

  // ---------------------------------------------------------------- a rollback becomes history

  /** No plan spoils a database, whatever it undoes. */
  lemma {:induction false} UnwindIsGood(schema: Schema, states: seq<Db>, log: seq<Change>, z: Db, t: int, tables: seq<string>)
    requires History(schema, states, log) && GoodDb(schema, z)
    ensures GoodDb(schema, Unwind(schema, z, log, t, tables))
    decreases |log|
  {
    if log != [] {
      var front, c := log[..|log| - 1], log[|log| - 1];
      Shorter(schema, states, log);
      UndoIsLocal(schema, states[|front|], c, states[|log|], z);
      UnwindIsGood(schema, states[..|log|], front, StepFor(schema, z, c, t, tables).0, t, tables);
    }
  }

  /**
   Executing a plan and logging it extends the history: the new entry is the newest, undoes
   nothing itself, and stands for a rollback to the time of the plan.
   */
  lemma RollbackIsLogged(schema: Schema, states: seq<Db>, log: seq<Change>, targets: seq<int>, target: int,
                         tables: seq<string>, plan: seq<Change>, id: string, at: int, author: string)
    requires History(schema, states, log) && Increasing(log) && LogsRollbacks(schema, states, log, targets)
    requires IsPlan(plan, log, target, tables, "") && forall i :: 0 <= i < |log| ==> log[i].timestamp < at
    ensures var after, entry := UndoAll(schema, states[|log|], plan), RollbackEntry(id, at, author);
            && IsRollbackEntry(entry, id, at, author)
            && History(schema, states + [after], log + [entry]) && Increasing(log + [entry])
            && LogsRollbacks(schema, states + [after], log + [entry], targets + [target])
  {
    var newest := states[|log|];
    var after, entry := UndoAll(schema, newest, plan), RollbackEntry(id, at, author);
    StatesAreGood(schema, states, log, |log|);
    PlanIsUnwind(schema, newest, plan, log, target, tables);
    UnwindIsGood(schema, states, log, newest, target, tables);
    assert RolledBack(schema, newest, log, target, after);
    LogsOneMore(schema, states, log, targets, target, after, entry);
  }

  lemma LogsOneMore(schema: Schema, states: seq<Db>, log: seq<Change>, targets: seq<int>, target: int, after: Db, entry: Change)
    requires |states| == |log| + 1 && LogsRollbacks(schema, states, log, targets)
    requires RolledBack(schema, states[|log|], log, target, after)
    ensures LogsRollbacks(schema, states + [after], log + [entry], targets + [target])
  {
    var n := |log|;
    var passed, entries, times := states + [after], log + [entry], targets + [target];
    forall i | 0 <= i < |entries| && entries[i].operation.OtherOperation?
      ensures passed[i + 1] == passed[i] || RolledBack(schema, passed[i], entries[..i], times[i], passed[i + 1])
    {
      if i < n {
        assert entries[i] == log[i] && entries[..i] == log[..i] && times[i] == targets[i];
      } else {
        assert entries[..n] == log;
      }
    }
  }

  /**
   A logged rollback does not stand in the way of going further back: after one to `target`, a
   second one to `t`, no later than `target` and than any earlier target since, restores the
   covered tables as they were at `t`.  So it is for a restore from a backup point.
   */
  lemma RollbackAfterRollback(schema: Schema, states: seq<Db>, log: seq<Change>, targets: seq<int>, target: int,
                              first: seq<Change>, id: string, at: int, author: string,
                              t: int, m: nat, tables: seq<string>, second: seq<Change>)
    requires History(schema, states, log) && Increasing(log) && LogsRollbacks(schema, states, log, targets)
    requires IsPlan(first, log, target, [], "") && t <= target < at && forall i :: 0 <= i < |log| ==> log[i].timestamp < at
    requires Since(log, t, m) && TargetsSince(states, log, targets, m, t)
    requires IsPlan(second, log + [RollbackEntry(id, at, author)], t, tables, "")
    ensures var once := UndoAll(schema, states[|log|], first);
            forall key: Key ::
              SameAt(UndoAll(schema, once, second), if Covered(tables, key.table) then states[m] else once, key)
  {
    var once, entry := UndoAll(schema, states[|log|], first), RollbackEntry(id, at, author);
    var passed, entries, times := states + [once], log + [entry], targets + [target];
    RollbackIsLogged(schema, states, log, targets, target, [], first, id, at, author);
    StatesAreGood(schema, passed, entries, |entries|);
    SinceWithMore(states, log, targets, m, t, once, entry, target);
    NewestWasSo(passed, m);
    RestoresDespiteRollbacks(schema, passed, entries, times, t, tables, m, once, second);
  }

  lemma SinceWithMore(states: seq<Db>, log: seq<Change>, targets: seq<int>, m: nat, t: int, after: Db, entry: Change, target: int)
    requires |states| == |log| + 1 == |targets| + 1
    requires Since(log, t, m) && TargetsSince(states, log, targets, m, t) && t <= target && t < entry.timestamp
    ensures Since(log + [entry], t, m) && TargetsSince(states + [after], log + [entry], targets + [target], m, t)
  {
  }

  // ---------------------------------------------------------------- rolling back across a rollback

  lemma {:induction false} UnwindInTwo(schema: Schema, z: Db, a: seq<Change>, b: seq<Change>, t: int, tables: seq<string>)
    ensures Unwind(schema, z, a + b, t, tables) == Unwind(schema, Unwind(schema, z, b, t, tables), a, t, tables)
    decreases |b|
  {
    if b == [] {
      assert a + b == a;
    } else {
      var front, c := b[..|b| - 1], b[|b| - 1];
      assert b == front + [c] && a + b == a + front + [c];
      UnwindOneMore(schema, z, a + front, c, t, tables);
      UnwindOneMore(schema, z, front, c, t, tables);
      UnwindInTwo(schema, StepFor(schema, z, c, t, tables).0, a, front, t, tables);
    }
  }

  /**
   Rolling back across one rollback that went further back, logged as entry `r`: a covered record
   becomes what it was at `t` if and only if that rollback had left it on course back to that.
   */
  lemma AcrossRollbackRestoresIff(schema: Schema, states: seq<Db>, log: seq<Change>, t: int, tables: seq<string>,
                                  m: nat, r: nat, plan: seq<Change>, key: Key)
    requires History(schema, states, log) && Increasing(log) && Since(log, t, m) && IsPlan(plan, log, t, tables, "")
    requires m <= r < |log| && log[r].operation.OtherOperation? && Covered(tables, key.table)
    requires OnCourseBetween(states, log, m, r) && RollbacksOnCourse(states[r + 1..], log[r + 1..])
    ensures SameAt(UndoAll(schema, states[|log|], plan), states[m], key) <==>
            OnCourse(states[m], log[m..r], states[r + 1], key)
  {
    var back := Unwind(schema, states[|log|], log[r + 1..], t, tables);
    PlanFrom(schema, states[|log|], plan, log, t, tables, m);
    UnwindAcross(schema, states[|log|], log, m, r, t, tables);
    BackToRollback(schema, states, log, t, tables, r, key);
    Stretch(schema, states, log, m, r);
    UnwindRestoresIff(schema, states[m..r + 1], log[m..r], back, t, tables, key);
  }

  /** The entry of a rollback itself undoes nothing. */
  lemma UnwindAcross(schema: Schema, z: Db, log: seq<Change>, m: nat, r: nat, t: int, tables: seq<string>)
    requires m <= r < |log| && log[r].operation.OtherOperation?
    ensures Unwind(schema, z, log[m..], t, tables) ==
            Unwind(schema, Unwind(schema, z, log[r + 1..], t, tables), log[m..r], t, tables)
  {
    var older, c, younger := log[m..r], log[r], log[r + 1..];
    assert log[m..] == older + [c] + younger;
    UnwindInTwo(schema, z, older + [c], younger, t, tables);
    UnwindOneMore(schema, Unwind(schema, z, younger, t, tables), older, c, t, tables);
  }

  /** Undoing what came after entry `r` gives the record as that entry left it. */
  lemma BackToRollback(schema: Schema, states: seq<Db>, log: seq<Change>, t: int, tables: seq<string>, r: nat, key: Key)
    requires History(schema, states, log) && r < |log| && Covered(tables, key.table)
    requires RollbacksOnCourse(states[r + 1..], log[r + 1..])
    requires forall i :: r < i < |log| ==> log[i].timestamp > t
    ensures var back := Unwind(schema, states[|log|], log[r + 1..], t, tables);
            GoodDb(schema, back) && SameAt(back, states[r + 1], key)
  {
    var passed, recent := states[r + 1..], log[r + 1..];
    StatesAreGood(schema, states, log, |log|);
    Rest(schema, states, log, r + 1);
    StateIsOnCourse(schema, passed, recent, |recent|, key);
    assert recent[..|recent|] == recent && passed[|recent|] == states[|log|];
    UnwindRestoresIff(schema, passed, recent, states[|log|], t, tables, key);
  }

  // ---------------------------------------------------------------- runs that surprise

  /** A database with one record, whose column `x` has this value. */
  function OneRecord(value: string): Db {
    map[Key("t", "k") := map["id" := Text("k"), "x" := Text(value)]]
  }

  function SetX(at: int, was: string): Change {
    Change("c", at, Update, "t", Some("k"), Some(map["x" := Text(was)]), None, "a")
  }

  const ROLLBACK := RollbackEntry("r", 3, "a")

  const SCHEMA: Schema := map["t" := {"id", "x"}]
  const MISSED_LOG := [SetX(1, "1"), ROLLBACK, SetX(4, "1")]
  const MISSED_STATES := [OneRecord("1"), OneRecord("2"), OneRecord("1"), OneRecord("3")]

  /** `x` goes from 1 to 2, is rolled back to 1, and goes to 3. */
  lemma MissedIsHistory()
    ensures History(SCHEMA, MISSED_STATES, MISSED_LOG) && Increasing(MISSED_LOG) && Since(MISSED_LOG, 2, 1)
    ensures LogsRollbacks(SCHEMA, MISSED_STATES, MISSED_LOG, [0, 0, 0])
  {
    UndoSetX("2", 1);
    UndoSetX("3", 4);
    MissedLogsRollback();
  }

  lemma MissedLogsRollback()
    ensures LogsRollbacks(SCHEMA, MISSED_STATES, MISSED_LOG, [0, 0, 0])
  {
    RolledBackX();
    assert MISSED_LOG[..1] == [SetX(1, "1")];
  }

  lemma RolledBackX()
    ensures RolledBack(SCHEMA, OneRecord("2"), [SetX(1, "1")], 0, OneRecord("1"))
  {
    var log := [SetX(1, "1")];
    UndoSetX("2", 1);
    PlanGrows([], [], log[0], 0);
    PlayCons(SCHEMA, OneRecord("2"), log[0], []);
    assert log + [] == log && [] + log == log;
    assert IsPlan(log, log, 0, [], "");
  }

  /**
   A rollback after new work misses: rolling that history back to the time when `x` was 2 makes
   it 1, and counts no failure.
   */
  lemma LaterRollbackMisses() returns (plan: seq<Change>)
    ensures History(SCHEMA, MISSED_STATES, MISSED_LOG) && Increasing(MISSED_LOG) && Since(MISSED_LOG, 2, 1)
    ensures LogsRollbacks(SCHEMA, MISSED_STATES, MISSED_LOG, [0, 0, 0]) && IsPlan(plan, MISSED_LOG, 2, [], "")
    ensures UndoAll(SCHEMA, MISSED_STATES[3], plan) == OneRecord("1") != MISSED_STATES[1] == OneRecord("2")
    ensures Failures(SCHEMA, MISSED_STATES[3], plan) == 0
  {
    MissedIsHistory();
    plan := [SetX(4, "1"), ROLLBACK];
    PlanOfLastTwo(SetX(1, "1"), ROLLBACK, SetX(4, "1"), 2);
    UndoSetX("3", 4);
    PlayTwo(SCHEMA, OneRecord("3"), SetX(4, "1"), ROLLBACK);
    assert OneRecord("1")[Key("t", "k")]["x"] != OneRecord("2")[Key("t", "k")]["x"];
  }

  lemma UndoSetX(value: string, at: int)
    ensures Undo(SCHEMA, OneRecord(value), SetX(at, "1")) == (OneRecord("1"), true)
    ensures Faithful(SCHEMA, OneRecord("1"), SetX(at, "1"), OneRecord(value))
  {
    var row := OneRecord(value)[Key("t", "k")];
    assert row + map["x" := Text("1")] == OneRecord("1")[Key("t", "k")];
    assert OneRecord(value)[Key("t", "k") := OneRecord("1")[Key("t", "k")]] == OneRecord("1");
    assert "x" in map["x" := Text("1")];
  }

  /** A newer entry goes in front of the plan. */
  lemma PlanGrows(plan: seq<Change>, log: seq<Change>, newest: Change, t: int)
    requires IsPlan(plan, log, t, [], "") && newest.timestamp > t
    requires forall i :: 0 <= i < |plan| ==> plan[i].timestamp <= newest.timestamp
    ensures IsPlan([newest] + plan, log + [newest], t, [], "")
  {
    SelectOneMore(log, newest, t, [], "");
    DescendsFrom(newest, plan);
  }

  lemma PlanOfLastTwo(a: Change, b: Change, c: Change, t: int)
    requires a.timestamp <= t < b.timestamp <= c.timestamp
    ensures IsPlan([c, b], [a, b, c], t, [], "")
  {
    PlanOfLast(a, b, t);
    PlanGrows([b], [a, b], c, t);
    assert [a, b] + [c] == [a, b, c] && [c] + [b] == [c, b];
  }

  lemma PlanOfLast(a: Change, b: Change, t: int)
    requires a.timestamp <= t < b.timestamp
    ensures IsPlan([b], [a, b], t, [], "")
  {
    NothingAfter([a], t, [], "");
    PlanGrows([], [a], b, t);
    assert [a] + [b] == [a, b] && [b] + [] == [b];
  }

  lemma PlayTwo(schema: Schema, z: Db, first: Change, second: Change)
    ensures var step := Undo(schema, z, first);
            var next := Undo(schema, step.0, second);
            && UndoAll(schema, z, [first, second]) == next.0
            && Failures(schema, z, [first, second]) == (if step.1 then 0 else 1) + if next.1 then 0 else 1
  {
    var step := Undo(schema, z, first);
    assert [first, second] == [first] + [second] && [second] == [second] + [];
    PlayCons(schema, z, first, [second]);
    PlayCons(schema, step.0, second, []);
  }

  lemma PlayCons(schema: Schema, z: Db, c: Change, rest: seq<Change>)
    ensures var step := Undo(schema, z, c);
            && UndoAll(schema, z, [c] + rest) == UndoAll(schema, step.0, rest)
            && Failures(schema, z, [c] + rest) == (if step.1 then 0 else 1) + Failures(schema, step.0, rest)
  {
    assert ([c] + rest)[1..] == rest;
  }

  /**
   The backup point a rollback takes before it starts cannot bring back what it undid: the plan
   for it holds the rollback's own entry alone, restores nothing, and counts no failure.
   */
  lemma PreRollbackBackupRestoresNothing(schema: Schema, db: Db, log: seq<Change>, entry: Change, backupTime: int,
                                         plan: seq<Change>)
    requires forall i :: 0 <= i < |log| ==> log[i].timestamp <= backupTime
    requires entry.operation.OtherOperation? && entry.timestamp > backupTime
    requires IsPlan(plan, log + [entry], backupTime, [], "")
    ensures plan == [entry] && UndoAll(schema, db, plan) == db && Failures(schema, db, plan) == 0
  {
    PlanIsNewest(plan, log, entry, backupTime);
    OwnEntryUndoesNothing(schema, db, entry);
  }

  lemma PlanIsNewest(plan: seq<Change>, log: seq<Change>, entry: Change, t: int)
    requires forall i :: 0 <= i < |log| ==> log[i].timestamp <= t
    requires entry.timestamp > t && IsPlan(plan, log + [entry], t, [], "")
    ensures plan == [entry]
  {
    OnlyNewest(log, entry, t);
    OnlyOne(plan, entry);
  }

  lemma OwnEntryUndoesNothing(schema: Schema, db: Db, entry: Change)
    requires entry.operation.OtherOperation?
    ensures UndoAll(schema, db, [entry]) == db && Failures(schema, db, [entry]) == 0
  {
    assert [entry][1..] == [];
  }

  lemma OnlyNewest(log: seq<Change>, entry: Change, t: int)
    requires forall i :: 0 <= i < |log| ==> log[i].timestamp <= t
    requires entry.timestamp > t
    ensures Select(log + [entry], t, [], "") == [entry]
  {
    SelectOneMore(log, entry, t, [], "");
    NothingAfter(log, t, [], "");
  }

  lemma OnlyOne(plan: seq<Change>, c: Change)
    requires multiset(plan) == multiset([c])
    ensures plan == [c]
  {
    assert |multiset(plan)| == |plan|;
    assert plan[0] in multiset(plan);
  }

  lemma {:induction false} NothingAfter(log: seq<Change>, t: int, tables: seq<string>, author: string)
    requires forall i :: 0 <= i < |log| ==> log[i].timestamp <= t
    ensures Select(log, t, tables, author) == []
  {
    if log != [] {
      NothingAfter(log[..|log| - 1], t, tables, author);
    }
  }
}
