/**
 What undoing a faithfully logged history restores.  A history may itself contain rollbacks:
 they change the tables, and their own log entries say nothing about how.
 */
module RollbackTheory {
  import opened Common
  import opened ChangeRollback

  function KeyOf(c: Change): Key {
    Key(c.table, if c.recordId.Some? then c.recordId.value else "")
  }

  predicate GoodRow(schema: Schema, key: Key, row: Row) {
    key.table in schema && "id" in schema[key.table] && row.Keys == schema[key.table] && row["id"] == Text(key.id)
  }

  ghost predicate GoodDb(schema: Schema, db: Db) {
    forall key :: key in db ==> GoodRow(schema, key, db[key])
  }

  predicate SameAt(a: Db, b: Db, key: Key) {
    if key in a then key in b && a[key] == b[key] else key !in b
  }

  lemma SameEverywhere(a: Db, b: Db)
    requires forall key: Key :: SameAt(a, b, key)
    ensures a == b
  {
    forall key | key in a ensures key in b && a[key] == b[key] {
      assert SameAt(a, b, key);
    }
    forall key | key in b ensures key in a {
      assert SameAt(a, b, key);
    }
  }

  /** Only the row at `key` may differ. */
  ghost predicate SameBut(a: Db, b: Db, key: Key) {
    forall k :: k != key ==> SameAt(a, b, k)
  }

  /**
   The entry `c` faithfully logs the change from `before` to `after`: it names the record, and
   its old data holds the whole deleted row, or at least every column an update changed.  An
   entry of any other kind, such as that of a rollback, promises nothing.
   */
  ghost predicate Faithful(schema: Schema, before: Db, c: Change, after: Db) {
    var key := KeyOf(c);
    && GoodDb(schema, before) && GoodDb(schema, after)
    && match c.operation
       case Insert => Named(c) && key !in before && key in after && SameBut(before, after, key)
       case Update =>
         && Named(c) && HasOldData(c) && key in before && key in after && SameBut(before, after, key)
         && c.oldData.value.Keys <= before[key].Keys
         && forall col :: col in before[key] ==>
              if col in c.oldData.value then c.oldData.value[col] == before[key][col]
              else after[key][col] == before[key][col]
       case Delete =>
         Named(c) && key in before && c.oldData == Some(before[key]) && key !in after && SameBut(before, after, key)
       case OtherOperation(_) => true
  }

  /** `states` are the databases before, between and after the logged changes. */
  ghost predicate History(schema: Schema, states: seq<Db>, log: seq<Change>) {
    && |states| == |log| + 1
    && GoodDb(schema, states[0])
    && forall i :: 0 <= i < |log| ==> Faithful(schema, states[i], log[i], states[i + 1])
  }

  predicate Covered(tables: seq<string>, table: string) {
    tables == [] || table in tables
  }

  lemma Shorter(schema: Schema, states: seq<Db>, log: seq<Change>)
    requires History(schema, states, log) && log != []
    ensures History(schema, states[..|log|], log[..|log| - 1])
    ensures Faithful(schema, states[|log| - 1], log[|log| - 1], states[|log|])
  {
  }

  lemma StatesAreGood(schema: Schema, states: seq<Db>, log: seq<Change>, j: nat)
    requires History(schema, states, log) && j <= |log|
    ensures GoodDb(schema, states[j])
  {
    if j > 0 {
      assert Faithful(schema, states[j - 1], log[j - 1], states[j]);
    }
  }

  // ---------------------------------------------------------------- one record through a history

  /** The log holds an entry of this kind for the record. */
  predicate Logs(log: seq<Change>, operation: Operation, key: Key) {
    log != []
    && (var c := log[|log| - 1];
        (c.operation == operation && KeyOf(c) == key) || Logs(log[..|log| - 1], operation, key))
  }

  /** The columns the log updates on a record. */
  function Touched(log: seq<Change>, key: Key): set<string> {
    if log == [] then {}
    else
      var c := log[|log| - 1];
      Touched(log[..|log| - 1], key)
      + if c.operation.Update? && KeyOf(c) == key && c.oldData.Some? then c.oldData.value.Keys else {}
  }

  lemma LogsOfAppended(log: seq<Change>, c: Change, key: Key)
    ensures forall op :: Logs(log + [c], op, key) <==> Logs(log, op, key) || (c.operation == op && KeyOf(c) == key)
    ensures Touched(log + [c], key) == Touched(log, key)
            + if c.operation.Update? && KeyOf(c) == key && c.oldData.Some? then c.oldData.value.Keys else {}
  {
    assert (log + [c])[..|log|] == log;
  }

  /**
   The record at `key` in `z` is on course back to what it was in `start`: an insertion still to
   be undone will remove it anyway; or it is there, as it was in `start` but for columns still
   to be undone; or it is not there, and neither was it in `start` unless a deletion still to be
   undone brings it back.
   */
  ghost predicate OnCourse(start: Db, log: seq<Change>, z: Db, key: Key) {
    || Logs(log, Insert, key)
    || (if key in z then Agrees(start, log, z[key], key) else key in start ==> Logs(log, Delete, key))
  }

  /** The row is as in `start` but for columns still to be undone. */
  ghost predicate Agrees(start: Db, log: seq<Change>, row: Row, key: Key) {
    && key in start && row.Keys == start[key].Keys
    && forall col :: col in row && col !in Touched(log, key) ==> row[col] == start[key][col]
  }

  lemma NothingToUndo(start: Db, z: Db, key: Key)
    ensures OnCourse(start, [], z, key) <==> SameAt(z, start, key)
  {
    if key in z && key in start && OnCourse(start, [], z, key) {
      assert z[key] == start[key];
    }
  }

  /** More to undo keeps a record on course. */
  lemma OnCourseGrows(start: Db, log: seq<Change>, c: Change, z: Db, key: Key)
    requires OnCourse(start, log, z, key)
    ensures OnCourse(start, log + [c], z, key)
  {
    LogsOfAppended(log, c, key);
  }

  lemma {:induction false} OnCourseWithMore(start: Db, log: seq<Change>, j: nat, z: Db, key: Key)
    requires j <= |log| && OnCourse(start, log[..j], z, key)
    ensures OnCourse(start, log, z, key)
    decreases |log| - j
  {
    if j == |log| {
      assert log[..j] == log;
    } else {
      OnCourseGrows(start, log[..j], log[j], z, key);
      assert log[..j + 1] == log[..j] + [log[j]];
      OnCourseWithMore(start, log, j + 1, z, key);
    }
  }

  /** Entries for other records, and entries that undo nothing, make no difference to a record. */
  lemma OthersMakeNoDifference(start: Db, log: seq<Change>, c: Change, z: Db, w: Db, key: Key)
    requires (KeyOf(c) != key || c.operation.OtherOperation?) && SameAt(z, w, key)
    ensures OnCourse(start, log + [c], z, key) <==> OnCourse(start, log, w, key)
  {
    LogsOfAppended(log, c, key);
  }

  lemma ChangeStaysOnCourse(schema: Schema, start: Db, log: seq<Change>, before: Db, c: Change, after: Db, key: Key)
    requires Faithful(schema, before, c, after) && !c.operation.OtherOperation?
    requires OnCourse(start, log, before, key)
    ensures OnCourse(start, log + [c], after, key)
  {
    LogsOfAppended(log, c, key);
    if KeyOf(c) != key {
      assert SameAt(before, after, key);
      OthersMakeNoDifference(start, log, c, after, before, key);
    } else if c.operation.Update? {
      assert GoodRow(schema, key, before[key]) && GoodRow(schema, key, after[key]);
    }
  }

  /** Undoing a change touches only its record, and keeps the database well formed. */
  lemma UndoIsLocal(schema: Schema, before: Db, c: Change, after: Db, z: Db)
    requires Faithful(schema, before, c, after) && GoodDb(schema, z)
    ensures SameBut(z, Undo(schema, z, c).0, KeyOf(c)) && GoodDb(schema, Undo(schema, z, c).0)
    ensures c.operation.OtherOperation? ==> Undo(schema, z, c).0 == z
  {
    if c.operation.Delete? {
      WholeRow(schema, before, c, after);
    }
  }

  lemma WholeRow(schema: Schema, before: Db, c: Change, after: Db)
    requires Faithful(schema, before, c, after) && c.operation.Delete?
    ensures c.table in schema && c.oldData.value == before[KeyOf(c)]
    ensures (map col | col in schema[c.table] :: if col in c.oldData.value then c.oldData.value[col] else Null) == c.oldData.value
  {
    assert GoodRow(schema, KeyOf(c), before[KeyOf(c)]);
  }

  /** What undoing a change does to its record, wherever the database stands. */
  lemma UndoOfRecord(schema: Schema, before: Db, c: Change, after: Db, z: Db)
    requires Faithful(schema, before, c, after) && GoodDb(schema, z) && !c.operation.OtherOperation?
    ensures var key := KeyOf(c);
            var step := Undo(schema, z, c);
            && (key in step.0 <==> !c.operation.Insert? && (c.operation.Delete? || key in z))
            && (step.1 <==> !(c.operation.Delete? && key in z))
            && (c.operation.Update? && key in z ==> step.0[key] == z[key] + c.oldData.value)
            && (c.operation.Delete? ==> step.0[key] == if key in z then z[key] else before[key])
  {
    var key := KeyOf(c);
    if c.operation.Delete? {
      WholeRow(schema, before, c, after);
    }
    if c.operation.Update? {
      assert GoodRow(schema, key, before[key]);
      assert "id" in c.oldData.value ==> c.oldData.value["id"] == Text(key.id);
    }
    if c.operation.Insert? {
      assert GoodRow(schema, key, after[key]);
    }
  }

  /** Undoing a change of a record keeps it on course, and never brings it back on course. */
  lemma UndoKeepsCourse(schema: Schema, start: Db, log: seq<Change>, before: Db, c: Change, after: Db, z: Db)
    requires Faithful(schema, before, c, after) && GoodDb(schema, z) && !c.operation.OtherOperation?
    requires GoodDb(schema, start) && OnCourse(start, log, before, KeyOf(c))
    ensures OnCourse(start, log + [c], z, KeyOf(c)) <==> OnCourse(start, log, Undo(schema, z, c).0, KeyOf(c))
  {
    LogsOfAppended(log, c, KeyOf(c));
    UndoOfRecord(schema, before, c, after, z);
    if !Logs(log, Insert, KeyOf(c)) && c.operation.Update? && KeyOf(c) in z {
      UpdateKeepsCourse(schema, start, log, before, c, z[KeyOf(c)]);
    }
  }

  /** For an update the columns of the record decide. */
  lemma UpdateKeepsCourse(schema: Schema, start: Db, log: seq<Change>, before: Db, c: Change, row: Row)
    requires GoodDb(schema, start) && GoodDb(schema, before)
    requires c.operation.Update? && c.oldData.Some? && KeyOf(c) in before
    requires var data := c.oldData.value;
             data.Keys <= before[KeyOf(c)].Keys && forall col :: col in data ==> data[col] == before[KeyOf(c)][col]
    requires GoodRow(schema, KeyOf(c), row)
    requires OnCourse(start, log, before, KeyOf(c)) && !Logs(log, Insert, KeyOf(c))
    ensures var key, data := KeyOf(c), c.oldData.value;
            Agrees(start, log + [c], row, key) <==> Agrees(start, log, row + data, key)
  {
    var key, data := KeyOf(c), c.oldData.value;
    LogsOfAppended(log, c, key);
    assert GoodRow(schema, key, before[key]) && GoodRow(schema, key, start[key]);
    assert (row + data).Keys == row.Keys;
  }

  // ---------------------------------------------------------------- unwinding a history

  /** The plan, played against the history it came from: newest entry first, skipping what is not wanted. */
  ghost function Unwind(schema: Schema, z: Db, log: seq<Change>, t: int, tables: seq<string>): Db
    decreases |log|
  {
    if log == [] then z
    else
      var c := log[|log| - 1];
      Unwind(schema, StepFor(schema, z, c, t, tables).0, log[..|log| - 1], t, tables)
  }

  /** How many of its steps fail. */
  ghost function FailedSteps(schema: Schema, z: Db, log: seq<Change>, t: int, tables: seq<string>): nat
    decreases |log|
  {
    if log == [] then 0
    else
      var c := log[|log| - 1];
      var step := StepFor(schema, z, c, t, tables);
      (if step.1 then 0 else 1) + FailedSteps(schema, step.0, log[..|log| - 1], t, tables)
  }

  /** The step for the entry `c`; one that is not wanted does nothing, and succeeds. */
  ghost function StepFor(schema: Schema, z: Db, c: Change, t: int, tables: seq<string>): (Db, bool) {
    if Wanted(c, t, tables, "") then Undo(schema, z, c) else (z, true)
  }

  lemma UnwindOneMore(schema: Schema, z: Db, log: seq<Change>, c: Change, t: int, tables: seq<string>)
    ensures var step := StepFor(schema, z, c, t, tables);
            && Unwind(schema, z, log + [c], t, tables) == Unwind(schema, step.0, log, t, tables)
            && FailedSteps(schema, z, log + [c], t, tables) ==
               (if step.1 then 0 else 1) + FailedSteps(schema, step.0, log, t, tables)
  {
    assert (log + [c])[..|log|] == log;
  }

  /** Every rollback in the history left every record on course back to the start. */
  ghost predicate RollbacksOnCourse(states: seq<Db>, log: seq<Change>)
    requires |states| == |log| + 1
  {
    forall i :: 0 <= i < |log| && log[i].operation.OtherOperation? ==> AllOnCourse(states[0], log[..i], states[i + 1])
  }

  ghost predicate AllOnCourse(start: Db, log: seq<Change>, z: Db) {
    forall key: Key :: OnCourse(start, log, z, key)
  }

  /** Then every state the history passed through is on course. */
  lemma {:induction false} StateIsOnCourse(schema: Schema, states: seq<Db>, log: seq<Change>, n: nat, key: Key)
    requires History(schema, states, log) && RollbacksOnCourse(states, log) && n <= |log|
    ensures OnCourse(states[0], log[..n], states[n], key)
  {
    if n == 0 {
      NothingToUndo(states[0], states[0], key);
      assert log[..0] == [];
    } else {
      var c := log[n - 1];
      assert log[..n] == log[..n - 1] + [c];
      StateIsOnCourse(schema, states, log, n - 1, key);
      if c.operation.OtherOperation? {
        assert AllOnCourse(states[0], log[..n - 1], states[n]);
        OnCourseGrows(states[0], log[..n - 1], c, states[n], key);
      } else {
        assert Faithful(schema, states[n - 1], c, states[n]);
        ChangeStaysOnCourse(schema, states[0], log[..n - 1], states[n - 1], c, states[n], key);
      }
    }
  }

  /** One step of unwinding, seen from any record. */
  lemma StepKeepsCourse(schema: Schema, states: seq<Db>, log: seq<Change>, n: nat, z: Db, key: Key)
    requires History(schema, states, log) && RollbacksOnCourse(states, log) && n < |log| && GoodDb(schema, z)
    ensures var w := Undo(schema, z, log[n]).0;
            && (OnCourse(states[0], log[..n] + [log[n]], z, key) <==> OnCourse(states[0], log[..n], w, key))
            && GoodDb(schema, w) && (KeyOf(log[n]) != key ==> SameAt(z, w, key))
  {
    var c := log[n];
    var w := Undo(schema, z, c).0;
    assert Faithful(schema, states[n], c, states[n + 1]);
    UndoIsLocal(schema, states[n], c, states[n + 1], z);
    if KeyOf(c) == key && !c.operation.OtherOperation? {
      StateIsOnCourse(schema, states, log, n, key);
      UndoKeepsCourse(schema, states[0], log[..n], states[n], c, states[n + 1], z);
    } else {
      assert SameAt(z, w, key);
      OthersMakeNoDifference(states[0], log[..n], c, z, w, key);
    }
  }

  /** Covered records are on course after the step exactly if they were before; the others stay. */
  ghost predicate Steered(start: Db, long: seq<Change>, z: Db, short: seq<Change>, w: Db, tables: seq<string>, key: Key) {
    if Covered(tables, key.table) then OnCourse(start, long, z, key) <==> OnCourse(start, short, w, key)
    else SameAt(w, z, key)
  }

  lemma StepSteers(schema: Schema, states: seq<Db>, log: seq<Change>, n: nat, z: Db, t: int, tables: seq<string>, key: Key)
    requires History(schema, states, log) && RollbacksOnCourse(states, log) && n < |log|
    requires GoodDb(schema, z) && log[n].timestamp > t
    ensures var w := StepFor(schema, z, log[n], t, tables).0;
            GoodDb(schema, w) && Steered(states[0], log[..n + 1], z, log[..n], w, tables, key)
  {
    assert log[..n + 1] == log[..n] + [log[n]];
    StepKeepsCourse(schema, states, log, n, z, key);
    if !Wanted(log[n], t, tables, "") && Covered(tables, key.table) {
      OthersMakeNoDifference(states[0], log[..n], log[n], z, z, key);
    }
  }

  lemma UnwindSlice(schema: Schema, z: Db, log: seq<Change>, k: nat, n: nat, t: int, tables: seq<string>)
    requires k < n <= |log|
    ensures Unwind(schema, z, log[k..n], t, tables) ==
            Unwind(schema, StepFor(schema, z, log[n - 1], t, tables).0, log[k..n - 1], t, tables)
  {
    UnwindOneMore(schema, z, log[k..n - 1], log[n - 1], t, tables);
    assert log[k..n] == log[k..n - 1] + [log[n - 1]];
  }

  /** Unwinding entries `k` to `n` steers the database back to entry `k`. */
  ghost predicate UnwindSteers(schema: Schema, start: Db, log: seq<Change>, k: nat, n: nat, z: Db,
                               t: int, tables: seq<string>, key: Key)
    requires k <= n <= |log|
  {
    var w := Unwind(schema, z, log[k..n], t, tables);
    GoodDb(schema, w) && Steered(start, log[..n], z, log[..k], w, tables, key)
  }

  lemma UnwindNothing(schema: Schema, start: Db, log: seq<Change>, k: nat, z: Db, t: int, tables: seq<string>, key: Key)
    requires k <= |log| && GoodDb(schema, z)
    ensures UnwindSteers(schema, start, log, k, k, z, t, tables, key)
  {
    assert log[k..k] == [];
  }

  lemma UnwindSteersOn(schema: Schema, start: Db, log: seq<Change>, k: nat, n: nat, z: Db, w: Db,
                       t: int, tables: seq<string>, key: Key)
    requires k < n <= |log| && w == StepFor(schema, z, log[n - 1], t, tables).0
    requires Steered(start, log[..n], z, log[..n - 1], w, tables, key)
    requires UnwindSteers(schema, start, log, k, n - 1, w, t, tables, key)
    ensures UnwindSteers(schema, start, log, k, n, z, t, tables, key)
  {
    UnwindSlice(schema, z, log, k, n, t, tables);
  }

  /**
   Unwinding entries `k` to `n` of a history: records of covered tables are on course afterwards
   exactly if they were before, and all others stay what they are.
   */
  lemma {:induction false} UnwindKeepsCourse(schema: Schema, states: seq<Db>, log: seq<Change>, k: nat, n: nat, z: Db,
                                             t: int, tables: seq<string>, key: Key)
    requires History(schema, states, log) && RollbacksOnCourse(states, log) && k <= n <= |log|
    requires GoodDb(schema, z) && forall i :: k <= i < n ==> log[i].timestamp > t
    ensures UnwindSteers(schema, states[0], log, k, n, z, t, tables, key)
    decreases n
  {
    if k < n {
      var w := StepFor(schema, z, log[n - 1], t, tables).0;
      StepSteers(schema, states, log, n - 1, z, t, tables, key);
      UnwindKeepsCourse(schema, states, log, k, n - 1, w, t, tables, key);
      UnwindSteersOn(schema, states[0], log, k, n, z, w, t, tables, key);
    } else {
      UnwindNothing(schema, states[0], log, k, z, t, tables, key);
    }
  }

  /** Unwinding a whole history, exactly. */
  lemma UnwindRestoresIff(schema: Schema, states: seq<Db>, log: seq<Change>, z: Db, t: int, tables: seq<string>, key: Key)
    requires History(schema, states, log) && RollbacksOnCourse(states, log) && GoodDb(schema, z)
    requires forall i :: 0 <= i < |log| ==> log[i].timestamp > t
    ensures var after := Unwind(schema, z, log, t, tables);
            && GoodDb(schema, after)
            && if Covered(tables, key.table) then SameAt(after, states[0], key) <==> OnCourse(states[0], log, z, key)
               else SameAt(after, z, key)
  {
    UnwindKeepsCourse(schema, states, log, 0, |log|, z, t, tables, key);
    assert log[0..|log|] == log && log[..|log|] == log && log[..0] == [];
    NothingToUndo(states[0], Unwind(schema, z, log, t, tables), key);
  }

  // ---------------------------------------------------------------- from the query to the history

  ghost predicate Increasing(log: seq<Change>) {
    forall i, j :: 0 <= i < j < |log| ==> log[i].timestamp < log[j].timestamp
  }

  lemma {:induction false} SelectedIsWanted(log: seq<Change>, t: int, tables: seq<string>, author: string, c: Change)
    ensures c in Select(log, t, tables, author) <==> c in log && Wanted(c, t, tables, author)
  {
    if log != [] {
      var n := |log| - 1;
      SelectedIsWanted(log[..n], t, tables, author, c);
      assert log == log[..n] + [log[n]];
    }
  }

  /** What a plan holds: the logged entries after `t`, of these tables and this author, if any are named. */
  lemma PlanHolds(plan: seq<Change>, log: seq<Change>, t: int, tables: seq<string>, author: string, c: Change)
    requires IsPlan(plan, log, t, tables, author)
    ensures c in plan <==> c in log && c.timestamp > t && (tables == [] || c.table in tables)
                           && (author == "" || c.author == author)
  {
    SelectedIsWanted(log, t, tables, author, c);
    assert c in plan <==> c in multiset(plan);
    assert c in Select(log, t, tables, author) <==> c in multiset(Select(log, t, tables, author));
  }

  lemma SelectOneMore(log: seq<Change>, c: Change, t: int, tables: seq<string>, author: string)
    ensures Select(log + [c], t, tables, author) ==
            Select(log, t, tables, author) + if Wanted(c, t, tables, author) then [c] else []
  {
    assert (log + [c])[..|log|] == log;
  }

  /** With strictly increasing timestamps the newest wanted entry opens every plan. */
  lemma PlanOpensWithNewest(plan: seq<Change>, log: seq<Change>, newest: Change, t: int, tables: seq<string>, author: string)
    requires IsPlan(plan, log + [newest], t, tables, author) && Increasing(log + [newest])
    requires Wanted(newest, t, tables, author)
    ensures plan != [] && plan[0] == newest && IsPlan(plan[1..], log, t, tables, author)
  {
    var whole := log + [newest];
    SelectOneMore(log, newest, t, tables, author);
    assert newest in multiset(plan);
    var k :| 0 <= k < |plan| && plan[k] == newest;
    assert plan[0] in multiset(plan);
    SelectedIsWanted(whole, t, tables, author, plan[0]);
    var i :| 0 <= i < |whole| && whole[i] == plan[0];
    assert whole[|log|] == newest;
    PlanGoesOn(plan, log, newest, t, tables, author);
  }

  lemma PlanGoesOn(plan: seq<Change>, log: seq<Change>, newest: Change, t: int, tables: seq<string>, author: string)
    requires IsPlan(plan, log + [newest], t, tables, author) && plan != [] && plan[0] == newest
    requires Wanted(newest, t, tables, author)
    ensures IsPlan(plan[1..], log, t, tables, author)
  {
    var rest, selected := plan[1..], Select(log, t, tables, author);
    SelectOneMore(log, newest, t, tables, author);
    assert plan == [newest] + rest;
    SameRest(newest, rest, selected);
  }

  lemma SameRest(c: Change, rest: seq<Change>, selected: seq<Change>)
    requires multiset([c] + rest) == multiset(selected + [c])
    ensures multiset(rest) == multiset(selected)
  {
    assert multiset(rest) == multiset([c] + rest) - multiset{c};
    assert multiset(selected) == multiset(selected + [c]) - multiset{c};
  }

  lemma NoPlanForNothing(plan: seq<Change>, t: int, tables: seq<string>, author: string)
    requires IsPlan(plan, [], t, tables, author)
    ensures plan == []
  {
    assert |multiset(plan)| == |plan|;
  }

  /** What is left of a plan once the newest entry is dealt with. */
  lemma PlanAfter(plan: seq<Change>, log: seq<Change>, newest: Change, t: int, tables: seq<string>) returns (rest: seq<Change>)
    requires IsPlan(plan, log + [newest], t, tables, "") && Increasing(log + [newest])
    ensures IsPlan(rest, log, t, tables, "")
    ensures plan == (if Wanted(newest, t, tables, "") then [newest] + rest else rest)
  {
    if Wanted(newest, t, tables, "") {
      PlanOpensWithNewest(plan, log, newest, t, tables, "");
      rest := plan[1..];
    } else {
      SelectOneMore(log, newest, t, tables, "");
      assert Select(log, t, tables, "") + [] == Select(log, t, tables, "");
      rest := plan;
    }
  }

  lemma PlayFirst(schema: Schema, z: Db, plan: seq<Change>, rest: seq<Change>, c: Change, t: int, tables: seq<string>)
    requires plan == (if Wanted(c, t, tables, "") then [c] + rest else rest)
    ensures var step := StepFor(schema, z, c, t, tables);
            && UndoAll(schema, z, plan) == UndoAll(schema, step.0, rest)
            && Failures(schema, z, plan) == (if step.1 then 0 else 1) + Failures(schema, step.0, rest)
  {
    assert ([c] + rest)[1..] == rest;
  }

  /** Whatever order the database returns, executing the plan is unwinding the history. */
  lemma {:induction false} PlanIsUnwind(schema: Schema, z: Db, plan: seq<Change>, log: seq<Change>, t: int,
                                        tables: seq<string>)
    requires IsPlan(plan, log, t, tables, "") && Increasing(log)
    ensures UndoAll(schema, z, plan) == Unwind(schema, z, log, t, tables)
    ensures Failures(schema, z, plan) == FailedSteps(schema, z, log, t, tables)
    decreases |log|
  {
    if log == [] {
      NoPlanForNothing(plan, t, tables, "");
    } else {
      var front, c := log[..|log| - 1], log[|log| - 1];
      assert log == front + [c];
      UnwindOneMore(schema, z, front, c, t, tables);
      var rest := PlanAfter(plan, front, c, t, tables);
      PlanIsUnwind(schema, StepFor(schema, z, c, t, tables).0, rest, front, t, tables);
      PlayFirst(schema, z, plan, rest, c, t, tables);
    }
  }

  /** Entries up to the target time play no part. */
  lemma {:induction false} OldEntriesStay(schema: Schema, z: Db, log: seq<Change>, m: nat, t: int, tables: seq<string>)
    requires m <= |log| && forall i :: 0 <= i < m ==> log[i].timestamp <= t
    ensures Unwind(schema, z, log, t, tables) == Unwind(schema, z, log[m..], t, tables)
    ensures FailedSteps(schema, z, log, t, tables) == FailedSteps(schema, z, log[m..], t, tables)
    decreases |log|
  {
    if log != [] {
      var front, c := log[..|log| - 1], log[|log| - 1];
      var w := StepFor(schema, z, c, t, tables).0;
      assert log == front + [c];
      UnwindOneMore(schema, z, front, c, t, tables);
      if m == |log| {
        OldEntriesStay(schema, w, front, m - 1, t, tables);
        assert front[m - 1..] == [] && log[m..] == [];
      } else {
        OldEntriesStay(schema, w, front, m, t, tables);
        UnwindOneMore(schema, z, front[m..], c, t, tables);
        assert log[m..] == front[m..] + [c];
      }
    }
  }

  // ---------------------------------------------------------------- what a rollback restores

  /** `m` entries of the log are no later than `t`, and they come first. */
  ghost predicate Since(log: seq<Change>, t: int, m: nat) {
    m <= |log| && forall i :: 0 <= i < |log| ==> (log[i].timestamp <= t <==> i < m)
  }

  /** The record at `key` is as it was at some moment since entry `m`. */
  ghost predicate WasSo(z: Db, states: seq<Db>, m: nat, key: Key) {
    exists j :: m <= j < |states| && SameAt(z, states[j], key)
  }

  /**
   Exactly what rolling back restores.  Let the log faithfully record how the database went through
   `states`, with strictly increasing timestamps, let entry `m` be the first after time `t`, and let
   every rollback since then have left the records on course.  From any database, executing any
   plan for `t` makes a record of a covered table what it was at `t` if and only if the record is
   on course, and changes no other table.
   */
  lemma RollbackRestoresIff(schema: Schema, states: seq<Db>, log: seq<Change>, t: int, tables: seq<string>,
                            m: nat, z: Db, plan: seq<Change>, key: Key)
    requires History(schema, states, log) && Increasing(log) && Since(log, t, m)
    requires RollbacksOnCourse(states[m..], log[m..])
    requires IsPlan(plan, log, t, tables, "") && GoodDb(schema, z)
    ensures var after := UndoAll(schema, z, plan);
            if Covered(tables, key.table) then SameAt(after, states[m], key) <==> OnCourse(states[m], log[m..], z, key)
            else SameAt(after, z, key)
    ensures GoodDb(schema, UndoAll(schema, z, plan))
  {
    PlanIsUnwind(schema, z, plan, log, t, tables);
    OldEntriesStay(schema, z, log, m, t, tables);
    StatesAreGood(schema, states, log, m);
    var recent, passed := log[m..], states[m..];
    assert History(schema, passed, recent);
    UnwindRestoresIff(schema, passed, recent, z, t, tables, key);
  }

  /** Whatever the record was at some moment since `t` is on course. */
  lemma PastIsOnCourse(schema: Schema, states: seq<Db>, log: seq<Change>, m: nat, z: Db, key: Key)
    requires History(schema, states, log) && m <= |log|
    requires RollbacksOnCourse(states[m..], log[m..]) && WasSo(z, states, m, key)
    ensures OnCourse(states[m], log[m..], z, key)
  {
    StatesAreGood(schema, states, log, m);
    var recent, passed := log[m..], states[m..];
    assert History(schema, passed, recent);
    var j :| m <= j < |states| && SameAt(z, states[j], key);
    StateIsOnCourse(schema, passed, recent, j - m, key);
    assert passed[j - m] == states[j];
    OnCourseWithMore(states[m], recent, j - m, z, key);
  }

  /**
   Rolling back restores.  Start from any database whose covered records are as they were at some
   moment since `t`, each at its own, as an interrupted rollback may leave them: afterwards every
   covered table is as it was at `t`, and no other table has changed.
   */
  lemma RollbackRestores(schema: Schema, states: seq<Db>, log: seq<Change>, t: int, tables: seq<string>,
                         m: nat, z: Db, plan: seq<Change>)
    requires History(schema, states, log) && Increasing(log) && Since(log, t, m)
    requires RollbacksOnCourse(states[m..], log[m..])
    requires IsPlan(plan, log, t, tables, "") && GoodDb(schema, z)
    requires forall key: Key :: Covered(tables, key.table) ==> WasSo(z, states, m, key)
    ensures forall key: Key :: SameAt(UndoAll(schema, z, plan), if Covered(tables, key.table) then states[m] else z, key)
  {
    forall key: Key
      ensures SameAt(UndoAll(schema, z, plan), if Covered(tables, key.table) then states[m] else z, key)
    {
      RollbackRestoresIff(schema, states, log, t, tables, m, z, plan, key);
      if Covered(tables, key.table) {
        PastIsOnCourse(schema, states, log, m, z, key);
      }
    }
  }

  lemma NewestWasSo(states: seq<Db>, m: nat)
    requires m < |states|
    ensures forall key: Key :: WasSo(states[|states| - 1], states, m, key) && WasSo(states[m], states, m, key)
  {
    forall key: Key ensures WasSo(states[|states| - 1], states, m, key) && WasSo(states[m], states, m, key) {
      assert SameAt(states[|states| - 1], states[|states| - 1], key) && SameAt(states[m], states[m], key);
    }
  }

  /** A complete rollback from the newest state gives exactly the database as it was. */
  lemma FullRollbackRestores(schema: Schema, states: seq<Db>, log: seq<Change>, t: int, m: nat, plan: seq<Change>)
    requires History(schema, states, log) && Increasing(log) && Since(log, t, m)
    requires RollbacksOnCourse(states[m..], log[m..]) && IsPlan(plan, log, t, [], "")
    ensures UndoAll(schema, states[|log|], plan) == states[m]
  {
    StatesAreGood(schema, states, log, |log|);
    NewestWasSo(states, m);
    RollbackRestores(schema, states, log, t, [], m, states[|log|], plan);
    var after := UndoAll(schema, states[|log|], plan);
    forall key: Key ensures SameAt(after, states[m], key) {
      assert Covered([], key.table);
    }
    SameEverywhere(after, states[m]);
  }

  /**
   Running the same plan twice is running it once, although the second run may count errors:
   a record whose deletion was undone is already there.
   */
  lemma RollbackIsIdempotent(schema: Schema, states: seq<Db>, log: seq<Change>, t: int, tables: seq<string>,
                             m: nat, plan: seq<Change>)
    requires History(schema, states, log) && Increasing(log) && Since(log, t, m)
    requires RollbacksOnCourse(states[m..], log[m..]) && IsPlan(plan, log, t, tables, "")
    ensures var once := UndoAll(schema, states[|log|], plan);
            UndoAll(schema, once, plan) == once && GoodDb(schema, once)
            && forall key: Key :: Covered(tables, key.table) ==> SameAt(once, states[m], key)
  {
    var newest := states[|log|];
    var once := UndoAll(schema, newest, plan);
    StatesAreGood(schema, states, log, |log|);
    NewestWasSo(states, m);
    RollbackRestores(schema, states, log, t, tables, m, newest, plan);
    RollbackRestoresIff(schema, states, log, t, tables, m, newest, plan, Key("", ""));
    forall key: Key | Covered(tables, key.table) ensures WasSo(once, states, m, key) {
      assert SameAt(once, states[m], key);
    }
    RollbackRestores(schema, states, log, t, tables, m, once, plan);
    var twice := UndoAll(schema, once, plan);
    forall key: Key ensures SameAt(twice, once, key) {
      assert SameAt(once, if Covered(tables, key.table) then states[m] else newest, key);
      assert SameAt(twice, if Covered(tables, key.table) then states[m] else once, key);
    }
    SameEverywhere(twice, once);
  }

  // ---------------------------------------------------------------- one change

  /** Undoing the newest change from the newest state succeeds, and gives exactly the state before it. */
  lemma UndoNewestSucceeds(schema: Schema, before: Db, c: Change, after: Db)
    requires Faithful(schema, before, c, after) && (c.operation.OtherOperation? ==> after == before)
    ensures Undo(schema, after, c) == (before, true)
  {
    var key := KeyOf(c);
    var back := Undo(schema, after, c).0;
    if c.operation.Update? {
      assert after[key] + c.oldData.value == before[key];
    }
    if c.operation.Delete? {
      var row := c.oldData.value;
      assert (map col | col in schema[c.table] :: if col in row then row[col] else Null) == row;
    }
    forall k ensures SameAt(back, before, k) {
      if k != key && !c.operation.OtherOperation? {
        assert SameAt(before, after, k);
      }
    }
    SameEverywhere(back, before);
  }

  /** Columns and tables that do not exist make a statement fail, and a failing statement changes nothing. */
  lemma UnknownNamesFail(schema: Schema, db: Db, table: string, id: string, data: Row)
    requires table !in schema || exists col :: col in data && col !in schema[table]
    ensures UpdateRow(schema, db, table, id, data) == (db, false) && InsertRow(schema, db, table, data) == (db, false)
    ensures table !in schema ==> DeleteRow(schema, db, table, id) == (db, false)
  {
  }

  /** What an update does to the row with the id, if its data leaves the id alone. */
  lemma UpdateMeans(schema: Schema, db: Db, table: string, id: string, data: Row)
    requires table in schema && (forall col :: col in data ==> col in schema[table]) && GoodDb(schema, db)
    requires "id" in data ==> data["id"] == Text(id)
    ensures var key, step := Key(table, id), UpdateRow(schema, db, table, id, data);
            && step.1 && SameBut(db, step.0, key)
            && (key in step.0 <==> key in db)
            && (key in db ==> step.0[key].Keys == db[key].Keys
                              && forall col :: col in db[key] ==>
                                   step.0[key][col] == if col in data then data[col] else db[key][col])
  {
    if Key(table, id) in db {
      assert GoodRow(schema, Key(table, id), db[Key(table, id)]);
    }
  }

  /** What an insert does: it needs an id that is free, and leaves the other columns empty. */
  lemma InsertMeans(schema: Schema, db: Db, table: string, data: Row)
    requires table in schema && "id" in schema[table] && forall col :: col in data ==> col in schema[table]
    ensures var step := InsertRow(schema, db, table, data);
            if "id" !in data || data["id"] == Null || Key(table, data["id"].text) in db then step == (db, false)
            else
              var key := Key(table, data["id"].text);
              && step.1 && SameBut(db, step.0, key) && key in step.0 && step.0[key].Keys == schema[table]
              && forall col :: col in schema[table] ==> step.0[key][col] == if col in data then data[col] else Null
  {
  }

  /** A delete of a known table takes the row with the id, if there is one. */
  lemma DeleteMeans(schema: Schema, db: Db, table: string, id: string)
    requires table in schema
    ensures var step := DeleteRow(schema, db, table, id);
            step.1 && Key(table, id) !in step.0 && SameBut(db, step.0, Key(table, id))
  {
  }

  /** An entry that lacks what its undoing needs is passed over, and counts as a success. */
  lemma PassedOver(schema: Schema, db: Db, c: Change)
    requires var named, data := c.recordId.Some? && c.recordId.value != "", c.oldData.Some? && c.oldData.value.Keys != {};
             match c.operation
             case Insert => !named
             case Update => !named || !data
             case Delete => !data
             case OtherOperation(_) => true
    ensures Undo(schema, db, c) == (db, true)
  {
    assert c.oldData.Some? ==> (c.oldData.value.Keys == {} <==> c.oldData.value == map[]);
  }

  /** Re-inserting a record that is there fails, and changes nothing. */
  lemma ReinsertFails(schema: Schema, before: Db, c: Change, after: Db)
    requires Faithful(schema, before, c, after) && c.operation.Delete?
    ensures Undo(schema, before, c) == (before, false)
  {
    var row := c.oldData.value;
    assert (map col | col in schema[c.table] :: if col in row then row[col] else Null) == row;
  }
}
