/**
 Undo by reverse replay.  A database is a map from (table, id) to a row; the three SQL
 statements a rollback issues are modelled with their errors: an unknown table or column,
 and a primary key that is already taken.
 */
module ChangeRollback {
  import opened Common

  datatype Value = Null | Text(text: string)
  type Row = map<string, Value>

  datatype Key = Key(table: string, id: string)
  type Db = map<Key, Row>

  /** The columns of every table; each table has a text primary key `id`. */
  type Schema = map<string, set<string>>

  datatype Operation = Insert | Update | Delete | OtherOperation(name: string)

  datatype Change = Change(
    id: string, timestamp: int, operation: Operation, table: string,
    recordId: Option<string>, oldData: Option<Row>, newData: Option<Row>, author: string)

  predicate Named(c: Change) {
    c.recordId.Some? && c.recordId.value != ""
  }

  predicate HasOldData(c: Change) {
    c.oldData.Some? && c.oldData.value != map[]
  }

  // ---------------------------------------------------------------- the statements

  function DeleteRow(schema: Schema, db: Db, table: string, id: string): (Db, bool) {
    if table !in schema then (db, false) else (db - {Key(table, id)}, true)
  }

  /** Stores `row` under the id it carries, unless that id is missing or taken. */
  function StoreRow(db: Db, table: string, row: Row): (Db, bool) {
    if "id" !in row || row["id"].Null? || Key(table, row["id"].text) in db then (db, false)
    else (db[Key(table, row["id"].text) := row], true)
  }

  function UpdateRow(schema: Schema, db: Db, table: string, id: string, data: Row): (Db, bool) {
    var key := Key(table, id);
    if table !in schema || !(data.Keys <= schema[table]) then (db, false)
    else if key !in db then (db, true)
    else
      var row := db[key] + data;
      if "id" in row && row["id"] == Text(id) then (db[key := row], true)
      else
        var moved := StoreRow(db - {key}, table, row);
        if moved.1 then moved else (db, false)
  }

  function InsertRow(schema: Schema, db: Db, table: string, data: Row): (Db, bool) {
    if table !in schema || !(data.Keys <= schema[table]) then (db, false)
    else StoreRow(db, table, map col | col in schema[table] :: if col in data then data[col] else Null)
  }

  /** One rollback step: the new database and whether the step counts as a success. */
  function Undo(schema: Schema, db: Db, c: Change): (Db, bool) {
    match c.operation
    case Insert => if Named(c) then DeleteRow(schema, db, c.table, c.recordId.value) else (db, true)
    case Update =>
      if HasOldData(c) && Named(c) then UpdateRow(schema, db, c.table, c.recordId.value, c.oldData.value)
      else (db, true)
    case Delete => if HasOldData(c) then InsertRow(schema, db, c.table, c.oldData.value) else (db, true)
    case OtherOperation(_) => (db, true)
  }

  function UndoAll(schema: Schema, db: Db, plan: seq<Change>): Db
    decreases |plan|
  {
    if plan == [] then db else UndoAll(schema, Undo(schema, db, plan[0]).0, plan[1..])
  }

  function Failures(schema: Schema, db: Db, plan: seq<Change>): nat
    decreases |plan|
  {
    if plan == [] then 0
    else
      var step := Undo(schema, db, plan[0]);
      (if step.1 then 0 else 1) + Failures(schema, step.0, plan[1..])
  }

  // ---------------------------------------------------------------- the plan

  /** The WHERE clause of the plan query; an empty filter filters nothing. */
  predicate Wanted(c: Change, t: int, tables: seq<string>, author: string) {
    && c.timestamp > t
    && (tables == [] || c.table in tables)
    && (author == "" || c.author == author)
  }

  function Select(log: seq<Change>, t: int, tables: seq<string>, author: string): seq<Change> {
    if log == [] then []
    else
      var n := |log| - 1;
      Select(log[..n], t, tables, author) + if Wanted(log[n], t, tables, author) then [log[n]] else []
  }

  /** Any answer the database may give to the plan query: rows with equal timestamps come in any order. */
  ghost predicate IsPlan(plan: seq<Change>, log: seq<Change>, t: int, tables: seq<string>, author: string) {
    multiset(plan) == multiset(Select(log, t, tables, author)) && Descending(plan)
  }

  ghost predicate Descending(plan: seq<Change>) {
    forall i, j :: 0 <= i < j < |plan| ==> plan[i].timestamp >= plan[j].timestamp
  }

  /** One such answer. */
  function Place(c: Change, plan: seq<Change>): seq<Change> {
    if plan == [] || plan[0].timestamp <= c.timestamp then [c] + plan else [plan[0]] + Place(c, plan[1..])
  }

  function Query(log: seq<Change>, t: int, tables: seq<string>, author: string): seq<Change> {
    if log == [] then []
    else
      var n := |log| - 1;
      var rest := Query(log[..n], t, tables, author);
      if Wanted(log[n], t, tables, author) then Place(log[n], rest) else rest
  }

  lemma DescendsFrom(c: Change, plan: seq<Change>)
    requires Descending(plan) && forall k :: 0 <= k < |plan| ==> plan[k].timestamp <= c.timestamp
    ensures Descending([c] + plan) && multiset([c] + plan) == multiset(plan) + multiset{c}
  {
  }

  lemma StaysBelow(c: Change, plan: seq<Change>, r: seq<Change>, top: int)
    requires multiset(r) == multiset(plan) + multiset{c}
    requires c.timestamp <= top && forall k :: 0 <= k < |plan| ==> plan[k].timestamp <= top
    ensures forall k :: 0 <= k < |r| ==> r[k].timestamp <= top
  {
    forall k | 0 <= k < |r| ensures r[k].timestamp <= top {
      assert r[k] in multiset(r);
      assert r[k] == c || r[k] in plan;
    }
  }

  lemma {:induction false} PlaceKeepsOrder(c: Change, plan: seq<Change>)
    requires Descending(plan)
    ensures Descending(Place(c, plan)) && multiset(Place(c, plan)) == multiset(plan) + multiset{c}
  {
    if plan == [] || plan[0].timestamp <= c.timestamp {
      DescendsFrom(c, plan);
    } else {
      var first, rest := plan[0], plan[1..];
      PlaceKeepsOrder(c, rest);
      StaysBelow(c, rest, Place(c, rest), first.timestamp);
      DescendsFrom(first, Place(c, rest));
      assert plan == [first] + rest;
    }
  }

  lemma {:induction false} QueryIsPlan(log: seq<Change>, t: int, tables: seq<string>, author: string)
    ensures IsPlan(Query(log, t, tables, author), log, t, tables, author)
  {
    if log != [] {
      var n := |log| - 1;
      QueryIsPlan(log[..n], t, tables, author);
      if Wanted(log[n], t, tables, author) {
        PlaceKeepsOrder(log[n], Query(log[..n], t, tables, author));
      }
    }
  }

  // ---------------------------------------------------------------- the manager

  datatype Backup = Backup(id: string, timestamp: int)

  /** The first backup point with this id, or the number of backup points. */
  function FindBackup(backups: seq<Backup>, id: string): (i: nat)
    ensures i <= |backups|
    ensures i < |backups| ==> backups[i].id == id
    ensures forall k :: 0 <= k < i ==> backups[k].id != id
  {
    if backups == [] then 0 else if backups[0].id == id then 0 else 1 + FindBackup(backups[1..], id)
  }

  /** What a rollback logs about itself. */
  function RollbackEntry(id: string, at: int, author: string): Change {
    Change(id, at, OtherOperation("rollback"), "change_log", Some(id), None, Some(map[]), author)
  }

  /** An entry of this rollback, written at this time by this author, that undoes nothing. */
  predicate IsRollbackEntry(c: Change, id: string, at: int, author: string) {
    && c.operation == OtherOperation("rollback") && c.timestamp == at && c.author == author
    && c.table == "change_log" && c.recordId == Some(id) && c.oldData.None?
  }

  const CACHE_LIMIT := 1000
  const CACHE_KEPT := 500

  class RollbackManager {
    const schema: Schema
    var db: Db
    var log: seq<Change>
    var cache: seq<Change>
    var backups: seq<Backup>

    constructor (schema: Schema, db: Db)
      ensures this.schema == schema && this.db == db && log == [] && cache == [] && backups == []
    {
      this.schema, this.db := schema, db;
      log, cache, backups := [], [], [];
    }

    /** The cache is trimmed to its newest entries; a failed insert is only logged, not raised. */
    method LogChange(entry: Change, stored: bool)
      requires |cache| <= CACHE_LIMIT
      modifies this
      ensures log == if stored then old(log) + [entry] else old(log)
      ensures |cache| <= CACHE_LIMIT
      ensures cache == (if |old(cache)| < 1000 then old(cache) else old(cache)[501..]) + [entry]
      ensures db == old(db) && backups == old(backups)
    {
      if stored {
        log := log + [entry];
      }
      cache := cache + [entry];
      if |cache| > CACHE_LIMIT {
        cache := cache[|cache| - CACHE_KEPT..];
      }
    }

    /**
     Runs a plan to its end, counting failed steps instead of stopping at them.  The clock is read
     for the backup point before the steps, and for the log entry after them.
     */
    method ExecuteRollback(plan: seq<Change>, confirm: bool, rollbackId: string, backupId: string,
                           before: int, after: int, author: string, stored: bool)
      returns (ok: bool, successes: nat, errors: nat)
      requires |cache| <= CACHE_LIMIT
      modifies this
      ensures |cache| <= CACHE_LIMIT
      ensures !confirm ==> !ok && successes == 0 == errors && db == old(db) && log == old(log) && backups == old(backups)
                           && cache == old(cache)
      ensures confirm ==> |cache| > 0 && IsRollbackEntry(cache[|cache| - 1], rollbackId, after, author)
      ensures confirm ==> db == UndoAll(schema, old(db), plan)
      ensures confirm ==> errors == Failures(schema, old(db), plan) && successes + errors == |plan|
      ensures confirm ==> (ok <==> errors == 0)
      ensures confirm ==> log == if stored then old(log) + [RollbackEntry(rollbackId, after, author)] else old(log)
      ensures confirm ==> backups == old(backups) + [Backup(backupId, before)]
    {
      successes, errors := 0, 0;
      if !confirm {
        return false, successes, errors;
      }
      backups := backups + [Backup(backupId, before)];
      for i := 0 to |plan|
        invariant UndoAll(schema, db, plan[i..]) == UndoAll(schema, old(db), plan)
        invariant errors + Failures(schema, db, plan[i..]) == Failures(schema, old(db), plan)
        invariant successes + errors == i
        invariant log == old(log) && cache == old(cache) && backups == old(backups) + [Backup(backupId, before)]
      {
        var step := Undo(schema, db, plan[i]);
        assert plan[i..][0] == plan[i] && plan[i..][1..] == plan[i + 1..];
        db := step.0;
        if step.1 {
          successes := successes + 1;
        } else {
          errors := errors + 1;
        }
      }
      LogChange(RollbackEntry(rollbackId, after, author), stored);
      ok := errors == 0;
    }

    /**
     Rolls everything back to the moment a backup point was taken.  That is an ordinary rollback: it
     takes a backup point of its own and logs itself.
     */
    method RestoreFromBackup(backupId: string, confirm: bool, rollbackId: string, preBackupId: string,
                             before: int, after: int, stored: bool)
      returns (ok: bool)
      requires |cache| <= CACHE_LIMIT
      modifies this
      ensures |cache| <= CACHE_LIMIT
      ensures var i := FindBackup(old(backups), backupId);
              if !confirm || i == |old(backups)| || Query(old(log), old(backups)[i].timestamp, [], "") == [] then
                !ok && db == old(db) && log == old(log) && backups == old(backups) && cache == old(cache)
              else
                var plan := Query(old(log), old(backups)[i].timestamp, [], "");
                && db == UndoAll(schema, old(db), plan) && (ok <==> Failures(schema, old(db), plan) == 0)
                && log == (if stored then old(log) + [RollbackEntry(rollbackId, after, "backup_restore")] else old(log))
                && backups == old(backups) + [Backup(preBackupId, before)]
                && |cache| > 0 && IsRollbackEntry(cache[|cache| - 1], rollbackId, after, "backup_restore")
    {
      if !confirm {
        return false;
      }
      var i := FindBackup(backups, backupId);
      if i == |backups| {
        return false;
      }
      var plan := Query(log, backups[i].timestamp, [], "");
      if plan == [] {
        return false;
      }
      var successes, errors;
      ok, successes, errors := ExecuteRollback(plan, true, rollbackId, preBackupId, before, after, "backup_restore", stored);
    }
  }
}
