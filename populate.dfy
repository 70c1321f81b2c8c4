/** populate.py: for each first letter and each second letter, insert every
    sequence `first + second + xyz` with INSERT OR IGNORE, committing once
    per partition. */
module Populate {
  import opened Text
  import opened Shards
  import Create

  /** 26 * 26 * 26: the suffixes `itertools.product(ascii_lowercase, repeat=3)`
      yields. */
  const SuffixCount: nat := 17576

  /** The k-th tuple of `itertools.product(ascii_lowercase, repeat=3)`: the
      three base-26 digits of k, most significant first. */
  function Suffix(k: nat): (r: string)
    requires k < SuffixCount
    ensures |r| == 3 && IsLowerLetter(r[0]) && IsLowerLetter(r[1]) && IsLowerLetter(r[2])
  {
    [Letter(k / 676), Letter(k / 26 % 26), Letter(k % 26)]
  }

  /** A three-letter lowercase string. */
  predicate IsSuffix(x: string)
  {
    |x| == 3 && IsLowerLetter(x[0]) && IsLowerLetter(x[1]) && IsLowerLetter(x[2])
  }

  /** The position of a suffix in the product order. */
  function SuffixIndex(x: string): (k: nat)
    requires IsSuffix(x)
    ensures k < SuffixCount
  {
    (x[0] as int - 97) * 676 + (x[1] as int - 97) * 26 + (x[2] as int - 97)
  }

  /** Reading the digits back gives the position. */
  lemma SuffixRoundTrip(k: nat)
    requires k < SuffixCount
    ensures SuffixIndex(Suffix(k)) == k
  {
    var a, r := k / 676, k % 676;
    assert k == a * 676 + r;
    assert k / 26 == a * 26 + r / 26;
    assert k / 26 % 26 == r / 26;
    assert k % 26 == r % 26;
  }

  /** Every three-letter lowercase string is generated, at its position. */
  lemma IndexRoundTrip(x: string)
    requires IsSuffix(x)
    ensures Suffix(SuffixIndex(x)) == x
  {
    var d0, d1, d2 := x[0] as int - 97, x[1] as int - 97, x[2] as int - 97;
    var k := SuffixIndex(x);
    assert k / 676 == d0;
    assert k / 26 == d0 * 26 + d1;
    assert k / 26 % 26 == d1;
    assert k % 26 == d2;
  }

  /** `a` comes strictly before `b` in dictionary order. */
  predicate LexLess(a: string, b: string)
    decreases |a|
  {
    a != [] && b != [] && (a[0] < b[0] || (a[0] == b[0] && LexLess(a[1..], b[1..])))
  }

  /** Positions follow dictionary order: a later tuple is a larger string. */
  lemma SuffixIndexOrder(x: string, y: string)
    requires IsSuffix(x) && IsSuffix(y)
    ensures SuffixIndex(x) < SuffixIndex(y) <==> LexLess(x, y)
  {
    var x1, y1 := x[1..], y[1..];
    var x2, y2 := x1[1..], y1[1..];
    assert x2[1..] == [] && !LexLess(x2[1..], y2[1..]);
    assert LexLess(x2, y2) <==> x[2] < y[2];
    assert LexLess(x1, y1) <==> x[1] < y[1] || (x[1] == y[1] && x[2] < y[2]);
    assert LexLess(x, y) <==> x[0] < y[0] || (x[0] == y[0] && LexLess(x1, y1));
  }

  /** The generation order is dictionary order over the last three letters. */
  lemma SuffixOrdered(k: nat, l: nat)
    requires k < l < SuffixCount
    ensures LexLess(Suffix(k), Suffix(l))
  {
    SuffixRoundTrip(k);
    SuffixRoundTrip(l);
    SuffixIndexOrder(Suffix(k), Suffix(l));
  }

  /** The list populate.py builds for table `first + second`. */
  function Generated(first: char, second: char): (r: seq<string>)
    ensures |r| == SuffixCount
    ensures forall k :: 0 <= k < |r| ==> r[k] == [first, second] + Suffix(k)
  {
    seq(SuffixCount, k requires 0 <= k < SuffixCount => [first, second] + Suffix(k))
  }

  /** A five-letter string with prefix `first + second` and lowercase
      letters after it. */
  predicate IsSequenceOf(x: string, first: char, second: char)
  {
    |x| == 5 && x[0] == first && x[1] == second && IsSuffix(x[2..])
  }

  /** Every generated entry is a five-letter sequence of the table. */
  lemma GeneratedShape(first: char, second: char, k: nat)
    requires k < SuffixCount
    ensures IsSequenceOf(Generated(first, second)[k], first, second)
  {
    var x := Generated(first, second)[k];
    assert x[2..] == Suffix(k);
  }

  /** The generated entries are pairwise distinct. */
  lemma GeneratedDistinct(first: char, second: char)
    ensures Distinct(Generated(first, second))
  {
    var g := Generated(first, second);
    forall k, l | 0 <= k < l < |g| ensures g[k] != g[l] {
      assert g[k][2..] == Suffix(k) && g[l][2..] == Suffix(l);
      SuffixRoundTrip(k);
      SuffixRoundTrip(l);
    }
  }

  /** The generated entries are exactly the sequences of the table. */
  lemma GeneratedComplete(first: char, second: char, x: string)
    ensures x in Generated(first, second) <==> IsSequenceOf(x, first, second)
  {
    var g := Generated(first, second);
    if IsSequenceOf(x, first, second) {
      var k := SuffixIndex(x[2..]);
      IndexRoundTrip(x[2..]);
      assert x == [first, second] + x[2..];
      assert g[k] == x;
    } else if x in g {
      var k :| 0 <= k < |g| && g[k] == x;
      GeneratedShape(first, second, k);
    }
  }

  /** Partition `p` after the inserts into its tables below j. */
  function PopulatedTables(p: Partition, first: char, j: nat): (r: Partition)
    ensures r.Keys == p.Keys
    ensures forall n :: n in p && !IsTableOf(n, first) ==> r[n] == p[n]
  {
    map n | n in p ::
      if IsTableOf(n, first) && n[1] as int - 97 < j then InsertOrIgnore(p[n], Generated(first, n[1]))
      else p[n]
  }

  /** The store after the partitions below i have been populated and
      committed. */
  function PopulatedUpTo(db: Db, i: nat): Db
  {
    map c | c in db :: if IsLowerLetter(c) && c as int - 97 < i then PopulatedTables(db[c], c, 26) else db[c]
  }

  /** What populate.py leaves in the store, from partition i on: a missing
      table raises inside partition i, whose inserts are then never
      committed, while the partitions before it are. */
  function PopulateFrom(db: Db, i: nat): (r: Step)
    requires i <= 26
    ensures r.Stopped? ==> r.error == NoSuchTable
    decreases 26 - i
  {
    if i == 26 then Done(PopulatedUpTo(db, 26))
    else if !HasAllTables(Part(db, Letter(i)), Letter(i)) then Stopped(PopulatedUpTo(db, i), NoSuchTable)
    else PopulateFrom(db, i + 1)
  }

  /** One more insert statement on the partition's connection. */
  lemma PopulateTableStep(p: Partition, first: char, j: nat)
    requires j < 26 && [first, Letter(j)] in p
    ensures var name := [first, Letter(j)];
            var q := PopulatedTables(p, first, j);
            && q[name] == p[name]
            && PopulatedTables(p, first, j + 1)
               == q[name := InsertOrIgnore(p[name], Generated(first, Letter(j)))]
  {
    var name := [first, Letter(j)];
    var q := PopulatedTables(p, first, j);
    var next := q[name := InsertOrIgnore(p[name], Generated(first, Letter(j)))];
    forall n | n in p ensures PopulatedTables(p, first, j + 1)[n] == next[n] {
      PopulatedTableAt(p, first, j, n);
    }
  }

  /** Pointwise: only table `first + Letter(j)` changes from j to j + 1. */
  lemma PopulatedTableAt(p: Partition, first: char, j: nat, n: string)
    requires j < 26 && n in p
    ensures PopulatedTables(p, first, j + 1)[n]
            == if n == [first, Letter(j)] then InsertOrIgnore(p[n], Generated(first, Letter(j)))
               else PopulatedTables(p, first, j)[n]
  {
    if IsTableOf(n, first) && n[1] as int - 97 == j {
      LetterIndex(n[1]);
      assert n == [first, Letter(j)];
    }
  }

  /** Partition i is read as it was before the run. */
  lemma PopulateUntouched(db: Db, i: nat)
    requires i < 26
    ensures Part(PopulatedUpTo(db, i), Letter(i)) == Part(db, Letter(i))
  {
  }

  /** One more partition: it is committed populated. */
  lemma PopulatePartitionStep(db: Db, i: nat)
    requires i < 26 && HasAllTables(Part(db, Letter(i)), Letter(i))
    ensures Letter(i) in db
    ensures PopulatedUpTo(db, i + 1)
            == PopulatedUpTo(db, i)[Letter(i) := PopulatedTables(db[Letter(i)], Letter(i), 26)]
  {
    var c := Letter(i);
    assert [c, Letter(0)] in Part(db, c);
    var next := PopulatedUpTo(db, i)[c := PopulatedTables(db[c], c, 26)];
    forall d | d in db ensures PopulatedUpTo(db, i + 1)[d] == next[d] {
      if d != c && IsLowerLetter(d) {
        assert d as int - 97 < i + 1 <==> d as int - 97 < i;
      }
    }
  }

  /** The 26 insert statements on one partition's connection; a missing
      table raises before the partition is committed. */
  method PopulateTables(p: Partition, first: char) returns (r: Result<Partition>)
    ensures r.Success? <==> HasAllTables(p, first)
    ensures r.Failure? ==> r.error == NoSuchTable
    ensures r.Success? ==> r.value == PopulatedTables(p, first, 26)
  {
    var q := p;
    assert PopulatedTables(p, first, 0) == p;
    var j := 0;
    while j < 26
      invariant 0 <= j <= 26
      invariant forall k :: 0 <= k < j ==> [first, Letter(k)] in p
      invariant q == PopulatedTables(p, first, j)
    {
      var name := [first, Letter(j)];
      if name !in q {
        return Failure(NoSuchTable);
      }
      PopulateTableStep(p, first, j);
      var rows := InsertRows(q[name], Generated(first, Letter(j)));
      q := q[name := rows];
      j := j + 1;
    }
    return Success(q);
  }

  /** The loop of populate.py. */
  method PopulateAll(store: Store) returns (r: Outcome)
    modifies store
    ensures Ending(store.db, r) == PopulateFrom(old(store.db), 0)
  {
    ghost var db0 := store.db;
    assert PopulatedUpTo(db0, 0) == db0;
    var i := 0;
    while i < 26
      invariant 0 <= i <= 26
      invariant store.db == PopulatedUpTo(db0, i)
      invariant PopulateFrom(db0, i) == PopulateFrom(db0, 0)
    {
      var first := Letter(i);
      PopulateUntouched(db0, i);
      var populated := PopulateTables(Part(store.db, first), first);
      if populated.Failure? {
        return Fail(populated.error);
      }
      PopulatePartitionStep(db0, i);
      store.db := store.db[first := populated.value];
      i := i + 1;
    }
    return Pass;
  }

  /** The run finishes exactly when every partition has its 26 tables, and
      then every partition is populated. */
  lemma {:induction false} PopulateFromDone(db: Db, i: nat)
    requires i <= 26
    ensures PopulateFrom(db, i).Done? <==>
              forall j :: i <= j < 26 ==> HasAllTables(Part(db, Letter(j)), Letter(j))
    ensures PopulateFrom(db, i).Done? ==> PopulateFrom(db, i).db == PopulatedUpTo(db, 26)
    decreases 26 - i
  {
    if i < 26 {
      PopulateFromDone(db, i + 1);
    }
  }

  /** Table `first + second` after its insert: the rows it had with their
      flags, plus every sequence of the table that was missing, unfound. */
  lemma PopulatedTable(p: Partition, first: char, second: char, k: string)
    requires [first, second] in p && IsLowerLetter(second)
    ensures var old_t, t := p[[first, second]], PopulatedTables(p, first, 26)[[first, second]];
            && (k in t <==> k in old_t || IsSequenceOf(k, first, second))
            && (k in old_t ==> t[k] == old_t[k])
            && (k in t && k !in old_t ==> !t[k])
  {
    var n := [first, second];
    assert IsTableOf(n, first) && n[1] == second;
    GeneratedComplete(first, second, k);
    InsertOrIgnoreRows(p[n], Generated(first, second));
  }

  /** The store once every partition is populated. */
  function Populated(db: Db): (r: Db)
    ensures r.Keys == db.Keys
    ensures forall c :: c in db && !IsLowerLetter(c) ==> r[c] == db[c]
  {
    PopulatedUpTo(db, 26)
  }

  /** populate.py finishes exactly when all 676 tables exist, and then
      leaves every partition populated. */
  lemma PopulateOutcome(db: Db)
    ensures PopulateFrom(db, 0).Done? <==> AllTables(db)
    ensures AllTables(db) ==> PopulateFrom(db, 0) == Done(Populated(db))
  {
    PopulateFromDone(db, 0);
  }

  /** Populating adds no partition and no table, and touches no table
      other than the 676 it names. */
  lemma PopulatedSameTables(db: Db, c: char, n: string)
    ensures var d := Populated(db);
            && d.Keys == db.Keys
            && (c in db ==> d[c].Keys == db[c].Keys)
            && (c in db && n in db[c] && !(IsLowerLetter(c) && IsTableOf(n, c)) ==> d[c][n] == db[c][n])
  {
  }

  /** What populating leaves in table `first + second`: every row it had,
      with its flag, and every sequence of the table, the new ones
      unfound. */
  lemma PopulatedRows(db: Db, first: char, second: char, k: string)
    requires AllTables(db)
    requires IsLowerLetter(first) && IsLowerLetter(second)
    ensures var n := [first, second];
            && n in Part(db, first) && n in Part(Populated(db), first)
            && var old_t, t := Part(db, first)[n], Part(Populated(db), first)[n];
               && (k in t <==> k in old_t || IsSequenceOf(k, first, second))
               && (k in old_t ==> t[k] == old_t[k])
               && (k in t && k !in old_t ==> !t[k])
  {
    LetterIndex(first);
    LetterIndex(second);
    assert HasAllTables(Part(db, first), first);
    assert first in db;
    PopulatedTable(db[first], first, second, k);
  }

  /** After populating, every lowercase five-letter sequence is a row of
      its own table. */
  lemma PopulatedComplete(db: Db, x: string)
    requires AllTables(db)
    requires |x| == 5 && forall i :: 0 <= i < 5 ==> IsLowerLetter(x[i])
    ensures x[..2] in Part(Populated(db), x[0]) && x in Part(Populated(db), x[0])[x[..2]]
  {
    assert IsSequenceOf(x, x[0], x[1]);
    assert x[..2] == [x[0], x[1]];
    PopulatedRows(db, x[0], x[1], x);
  }

  /** A table that started empty ends with exactly 26 ** 3 rows. */
  lemma PopulatedEmptyTable(p: Partition, first: char, second: char)
    requires IsLowerLetter(second)
    requires [first, second] in p && p[[first, second]] == map[]
    ensures |PopulatedTables(p, first, 26)[[first, second]]| == SuffixCount
  {
    var n := [first, second];
    assert IsTableOf(n, first) && n[1] == second;
    GeneratedDistinct(first, second);
    InsertOrIgnoreIntoEmpty(Generated(first, second));
  }

  /** Populating a populated partition changes nothing. */
  lemma PopulatedTablesIdempotent(p: Partition, first: char)
    ensures PopulatedTables(PopulatedTables(p, first, 26), first, 26) == PopulatedTables(p, first, 26)
  {
    var once := PopulatedTables(p, first, 26);
    forall n | n in once ensures PopulatedTables(once, first, 26)[n] == once[n] {
      if IsTableOf(n, first) {
        InsertOrIgnoreIdempotent(p[n], Generated(first, n[1]));
      }
    }
  }

  /** Running populate.py a second time changes nothing. */
  lemma PopulateIdempotent(db: Db)
    ensures Populated(Populated(db)) == Populated(db)
  {
    var once := Populated(db);
    forall c | c in once ensures Populated(once)[c] == once[c] {
      if IsLowerLetter(c) {
        PopulatedTablesIdempotent(db[c], c);
      }
    }
  }

  /** Populating keeps every table, so all 676 still exist. */
  lemma PopulatedKeepsAllTables(db: Db)
    requires AllTables(db)
    ensures AllTables(Populated(db))
  {
    var once := Populated(db);
    forall j, k | 0 <= j < 26 && 0 <= k < 26 ensures [Letter(j), Letter(k)] in Part(once, Letter(j)) {
      assert HasAllTables(Part(db, Letter(j)), Letter(j));
      PopulatedSameTables(db, Letter(j), []);
    }
  }

  /** A finished run keeps every table, so a second run finishes too, and
      leaves the store as the first left it. */
  lemma PopulateTwice(db: Db)
    requires AllTables(db)
    ensures PopulateFrom(Populated(db), 0) == Done(Populated(db))
  {
    PopulatedKeepsAllTables(db);
    PopulateOutcome(Populated(db));
    PopulateIdempotent(db);
  }

  /** Running create.py first guarantees that populate.py finishes. */
  lemma CreateThenPopulate(db: Db)
    ensures PopulateFrom(Create.Created(db), 0).Done?
  {
    Create.CreatedHasAllTables(db);
    PopulateOutcome(Create.Created(db));
  }
}
