/**
 The persistence layer seen from a handler: a table of rows with an
 auto-incrementing key, a clock, and the possibility that any call fails.
 */
module Store {

  /** A table: its rows and the key the next insert receives. */
  datatype Table<T> = Table(rows: seq<T>, nextId: int)

  /** What the environment contributes to one handler call: whether the
      store call throws, and the current time stamped on new rows. */
  datatype StoreEnv = StoreEnv(fails: bool, now: int)

  /** Keys are distinct and all below `nextId`, so `nextId` is fresh. */
  predicate WellKeyed<T>(db: Table<T>, key: T -> int) {
    && (forall i :: 0 <= i < |db.rows| ==> key(db.rows[i]) < db.nextId)
    && (forall i, j :: 0 <= i < j < |db.rows| ==> key(db.rows[i]) != key(db.rows[j]))
  }

  /** `create`: appends `row` and advances the key counter. */
  function Insert<T>(db: Table<T>, row: T): (r: Table<T>)
    ensures |r.rows| == |db.rows| + 1
    ensures r.rows[..|db.rows|] == db.rows && r.rows[|db.rows|] == row
    ensures r.nextId > db.nextId
  {
    Table(db.rows + [row], db.nextId + 1)
  }

  /** A row created with the fresh key keeps keys distinct and fresh. */
  lemma InsertKeepsKeys<T>(db: Table<T>, row: T, key: T -> int)
    requires WellKeyed(db, key)
    requires key(row) == db.nextId
    ensures WellKeyed(Insert(db, row), key)
  {
    var r := Insert(db, row);
    forall i, j | 0 <= i < j < |r.rows|
      ensures key(r.rows[i]) != key(r.rows[j])
    {
      if j == |db.rows| {
        assert r.rows[i] == db.rows[i];
      } else {
        assert r.rows[i] == db.rows[i] && r.rows[j] == db.rows[j];
      }
    }
  }
}
