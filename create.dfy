/** create.py: for each first letter, open (and so create) the partition
    and `CREATE TABLE IF NOT EXISTS` its 26 tables; a new table has no
    rows. */
module Create {
  import opened Text
  import opened Shards

  /** The table names `first + 'a'` .. `first + Letter(j - 1)`. */
  function SchemaNames(first: char, j: nat): (r: set<string>)
    requires j <= 26
    ensures forall n :: n in r <==> IsTableOf(n, first) && n[1] as int - 97 < j
  {
    var r := set k | 0 <= k < j :: [first, Letter(k)];
    forall n | IsTableOf(n, first) && n[1] as int - 97 < j ensures n in r {
      LetterIndex(n[1]);
      assert n == [first, Letter(n[1] as int - 97)];
    }
    r
  }

  /** Partition `p` after the statements for the tables below j: every
      existing table as it was, every missing one empty. */
  function CreatedPartition(p: Partition, first: char, j: nat): (r: Partition)
    requires j <= 26
    ensures forall n :: n in p ==> n in r && r[n] == p[n]
    ensures forall n :: n in r && n !in p ==> IsTableOf(n, first) && n[1] as int - 97 < j && r[n] == map[]
  {
    map n | n in p.Keys + SchemaNames(first, j) :: if n in p then p[n] else map[]
  }

  /** The first letters `a` .. `Letter(i - 1)`. */
  function Letters(i: nat): (r: set<char>)
    requires i <= 26
    ensures forall c :: c in r <==> IsLowerLetter(c) && c as int - 97 < i
  {
    var r := set k | 0 <= k < i :: Letter(k);
    forall c | IsLowerLetter(c) && c as int - 97 < i ensures c in r {
      LetterIndex(c);
    }
    r
  }

  /** The store after the partitions below i are done. */
  function CreatedUpTo(db: Db, i: nat): Db
    requires i <= 26
  {
    map c | c in db.Keys + Letters(i) ::
      if IsLowerLetter(c) && c as int - 97 < i then CreatedPartition(Part(db, c), c, 26) else db[c]
  }

  /** What create.py leaves in the store. */
  function Created(db: Db): (r: Db)
    ensures forall c :: c in db ==> c in r && db[c].Keys <= r[c].Keys
    ensures forall c :: c in r && c !in db ==> IsLowerLetter(c)
  {
    CreatedUpTo(db, 26)
  }

  /** One more table statement: the partition gains the table only when it
      was missing. */
  lemma CreateTableStep(p: Partition, first: char, j: nat)
    requires j < 26
    ensures var name := [first, Letter(j)];
            var q := CreatedPartition(p, first, j);
            CreatedPartition(p, first, j + 1) == if name in q then q else q[name := map[]]
  {
    var name := [first, Letter(j)];
    assert SchemaNames(first, j + 1) == SchemaNames(first, j) + {name};
  }

  /** One more partition: it becomes its created version, the others stay. */
  lemma CreatePartitionStep(db: Db, i: nat)
    requires i < 26
    ensures Part(CreatedUpTo(db, i), Letter(i)) == Part(db, Letter(i))
    ensures CreatedUpTo(db, i + 1)
            == CreatedUpTo(db, i)[Letter(i) := CreatedPartition(Part(db, Letter(i)), Letter(i), 26)]
  {
    var c := Letter(i);
    assert Letters(i + 1) == Letters(i) + {c};
  }

  /** The 26 statements on one partition's connection. */
  method CreateTables(p: Partition, first: char) returns (q: Partition)
    ensures q == CreatedPartition(p, first, 26)
  {
    q := p;
    assert CreatedPartition(p, first, 0) == p;
    var j := 0;
    while j < 26
      invariant 0 <= j <= 26
      invariant q == CreatedPartition(p, first, j)
    {
      var name := [first, Letter(j)];
      CreateTableStep(p, first, j);
      if name !in q {
        q := q[name := map[]];
      }
      j := j + 1;
    }
  }

  /** The loop of create.py: each partition is committed after its 26
      statements, none of which fails. */
  method CreateAll(store: Store)
    modifies store
    ensures store.db == Created(old(store.db))
  {
    ghost var db0 := store.db;
    assert CreatedUpTo(db0, 0) == db0;
    var i := 0;
    while i < 26
      invariant 0 <= i <= 26
      invariant store.db == CreatedUpTo(db0, i)
    {
      var first := Letter(i);
      CreatePartitionStep(db0, i);
      var p := CreateTables(Part(store.db, first), first);
      store.db := store.db[first := p];
      i := i + 1;
    }
  }

  /** After the run all 26 * 26 tables exist. */
  lemma CreatedHasAllTables(db: Db)
    ensures AllTables(Created(db))
  {
    forall j, k | 0 <= j < 26 && 0 <= k < 26
      ensures [Letter(j), Letter(k)] in Part(Created(db), Letter(j))
    {
      assert Letter(j) in Letters(26);
      assert [Letter(j), Letter(k)] in SchemaNames(Letter(j), 26);
    }
  }

  /** IF NOT EXISTS: every table that existed keeps all its rows and flags. */
  lemma CreatedKeepsTables(db: Db, c: char, n: string)
    requires c in db && n in db[c]
    ensures c in Created(db) && n in Created(db)[c] && Created(db)[c][n] == db[c][n]
  {
  }

  /** A table the run adds is one of the 26 tables of its partition, and it
      is empty. No partition other than `a` .. `z` is added. */
  lemma CreatedNewTables(db: Db, c: char, n: string)
    requires c in Created(db) && n in Created(db)[c]
    requires n !in Part(db, c)
    ensures IsLowerLetter(c) && IsTableOf(n, c)
    ensures Created(db)[c][n] == map[]
  {
  }

  /** Creating a partition's tables a second time changes nothing. */
  lemma CreatedPartitionIdempotent(p: Partition, first: char)
    ensures CreatedPartition(CreatedPartition(p, first, 26), first, 26) == CreatedPartition(p, first, 26)
  {
  }

  /** Running create.py twice is running it once. */
  lemma CreatedIdempotent(db: Db)
    ensures Created(Created(db)) == Created(db)
  {
    var once := Created(db);
    forall c | c in once ensures Created(once)[c] == once[c] {
      if IsLowerLetter(c) {
        assert c in Letters(26);
        CreatedPartitionIdempotent(Part(db, c), c);
      }
    }
    assert Created(once).Keys == once.Keys;
  }
}
