/** The shard store: one SQLite file per first letter (the partition), each
    holding tables named by a two-letter prefix, each table keyed by the
    sequence (its primary key) with a boolean `found` column. SQLite is
    abstracted to nested maps; a map holds at most one row per key, which is
    what the primary key guarantees. */
module Shards {
  import opened Text

  /** The exceptions the core can raise. */
  datatype Error =
    | LengthNotFive    // ValueError('Sequence must be 5 letters')
    | NoSuchTable      // sqlite3.OperationalError: no such table
    | IndexOutOfRange  // IndexError from list or string indexing
    | ZeroStep         // ValueError: range() arg 3 must not be zero

  datatype Option<T> = None | Some(value: T)

  datatype Result<T> = Success(value: T) | Failure(error: Error)

  datatype Outcome = Pass | Fail(error: Error)

  type Table = map<string, bool>
  type Partition = map<string, Table>
  type Db = map<char, Partition>

  /** Where a run of several committed steps ended: all steps done, or
      stopped by an exception with the state committed before it. */
  datatype Step = Done(db: Db) | Stopped(db: Db, error: Error)

  /** The store after a single call that commits its work or raises. */
  function Ending(db: Db, r: Outcome): Step
  {
    match r
    case Pass => Done(db)
    case Fail(e) => Stopped(db, e)
  }

  /** The partition of `letter`. `sqlite3.connect` creates a missing file,
      so a missing partition reads as one without tables. */
  function Part(db: Db, letter: char): Partition
  {
    if letter in db then db[letter] else map[]
  }

  /** The 26 tables `first + 'a'` .. `first + 'z'` are all present. */
  predicate HasAllTables(p: Partition, first: char)
  {
    forall j :: 0 <= j < 26 ==> [first, Letter(j)] in p
  }

  /** Every partition `a` .. `z` has all 26 of its tables. */
  predicate AllTables(db: Db)
  {
    forall j :: 0 <= j < 26 ==> HasAllTables(Part(db, Letter(j)), Letter(j))
  }

  /** A name create.py gives to a table of partition `first`. */
  predicate IsTableOf(name: string, first: char)
  {
    |name| == 2 && name[0] == first && IsLowerLetter(name[1])
  }

  /** The two stores have the same partitions, tables and rows; only the
      `found` flags may differ. */
  predicate SameRows(a: Db, b: Db)
  {
    && a.Keys == b.Keys
    && (forall c :: c in a ==> a[c].Keys == b[c].Keys)
    && (forall c, n :: c in a && n in a[c] ==> a[c][n].Keys == b[c][n].Keys)
  }

  /** Keeping the same rows is transitive. */
  lemma SameRowsTrans(a: Db, b: Db, c: Db)
    requires SameRows(a, b) && SameRows(b, c)
    ensures SameRows(a, c)
  {
  }

  /** `UPDATE t SET found = b WHERE sequence = ?` once per key: sets the flag
      of each key that has a row, and inserts nothing. */
  function SetRows(t: Table, keys: seq<string>, b: bool): (r: Table)
    ensures r.Keys == t.Keys
    ensures forall k :: k in t ==> r[k] == if k in keys then b else t[k]
  {
    map k | k in t :: if k in keys then b else t[k]
  }

  /** `INSERT OR IGNORE INTO t (sequence) VALUES (?)` once per key. The
      `found` column takes its default, FALSE; an existing row wins. */
  function InsertOrIgnore(t: Table, keys: seq<string>): (r: Table)
    ensures forall k :: k in t ==> k in r && r[k] == t[k]
    ensures forall k :: k in r ==> k in t || k in keys
  {
    (map k | k in keys :: false) + t
  }

  /** Insert-or-ignore adds exactly the missing keys, with `found` false, and
      keeps every existing row and its flag. */
  lemma InsertOrIgnoreRows(t: Table, keys: seq<string>)
    ensures InsertOrIgnore(t, keys).Keys == t.Keys + Elements(keys)
    ensures forall k :: k in t ==> InsertOrIgnore(t, keys)[k] == t[k]
    ensures forall k :: k in keys && k !in t ==> !InsertOrIgnore(t, keys)[k]
  {
  }

  /** Running the same insert-or-ignore twice is running it once. */
  lemma InsertOrIgnoreIdempotent(t: Table, keys: seq<string>)
    ensures InsertOrIgnore(InsertOrIgnore(t, keys), keys) == InsertOrIgnore(t, keys)
  {
    var once := InsertOrIgnore(t, keys);
    assert InsertOrIgnore(once, keys).Keys == once.Keys;
  }

  /** A table that started empty holds one row per distinct key. */
  lemma InsertOrIgnoreIntoEmpty(keys: seq<string>)
    requires Distinct(keys)
    ensures |InsertOrIgnore(map[], keys)| == |keys|
  {
    assert InsertOrIgnore(map[], keys).Keys == Elements(keys);
    DistinctCard(keys);
  }

  /** One more key: inserted unflagged unless it already has a row. */
  lemma InsertOrIgnoreSnoc(t: Table, keys: seq<string>, k: string)
    ensures var r := InsertOrIgnore(t, keys);
            InsertOrIgnore(t, keys + [k]) == if k in r then r else r[k := false]
  {
  }

  /** `executemany` of the insert-or-ignore: one row at a time, skipping
      keys that already have a row. */
  method InsertRows(t: Table, keys: seq<string>) returns (r: Table)
    ensures r == InsertOrIgnore(t, keys)
  {
    r := t;
    var i := 0;
    while i < |keys|
      invariant 0 <= i <= |keys|
      invariant r == InsertOrIgnore(t, keys[..i])
    {
      InsertOrIgnoreSnoc(t, keys[..i], keys[i]);
      assert keys[..i + 1] == keys[..i] + [keys[i]];
      if keys[i] !in r {
        r := r[keys[i] := false];
      }
      i := i + 1;
    }
    assert keys[..i] == keys;
  }

  /** The store: every partition file under the databases directory. */
  class Store {
    var db: Db

    constructor (db: Db)
      ensures this.db == db
    {
      this.db := db;
    }
  }
}
