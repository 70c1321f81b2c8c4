/** __main__.py: chunking a list with `split_array`, and the overall
    statistics of `get_all_stats`. */
module App {
  import opened Text
  import opened Shards
  import opened Database
  import Create
  import Populate

  /** `[a[i:i + n] for i in range(0, len(a), n)]`. A step of 0 makes `range`
      raise; a negative step makes the range empty. */
  function SplitArray<T>(a: seq<T>, n: int): (r: Result<seq<seq<T>>>)
    ensures r.Failure? <==> n == 0
    ensures r.Failure? ==> r.error == ZeroStep
    ensures n < 0 ==> r == Success([])
  {
    if n == 0 then Failure(ZeroStep)
    else if n < 0 then Success([])
    else Success(Chunks(a, n))
  }

  /** The chunks for a positive step: the slices starting at 0, n, 2n, ...,
      the last one clipped at the end of the list as Python slicing is. */
  function Chunks<T>(a: seq<T>, n: nat): (r: seq<seq<T>>)
    requires n > 0
    ensures r == [] <==> a == []
    ensures |r| <= |a|
    decreases |a|
  {
    if a == [] then []
    else if |a| <= n then [a]
    else [a[..n]] + Chunks(a[n..], n)
  }

  /** The chunks one after another. */
  function Flatten<T>(chunks: seq<seq<T>>): seq<T>
  {
    if chunks == [] then [] else chunks[0] + Flatten(chunks[1..])
  }

  /** Concatenating the chunks gives back the list. */
  lemma {:induction false} ChunksFlatten<T>(a: seq<T>, n: nat)
    requires n > 0
    ensures Flatten(Chunks(a, n)) == a
    decreases |a|
  {
    if |a| > n {
      var c := Chunks(a, n);
      assert c[0] == a[..n] && c[1..] == Chunks(a[n..], n);
      ChunksFlatten(a[n..], n);
      assert a[..n] + a[n..] == a;
    } else if a != [] {
      assert Chunks(a, n) == [a];
      assert Flatten(Chunks(a, n)) == a + Flatten([]);
    }
  }

  /** Every chunk is non-empty and at most n long; every chunk but the last
      is exactly n long. */
  lemma {:induction false} ChunkSizes<T>(a: seq<T>, n: nat, k: nat)
    requires n > 0 && k < |Chunks(a, n)|
    ensures 0 < |Chunks(a, n)[k]| <= n
    ensures k < |Chunks(a, n)| - 1 ==> |Chunks(a, n)[k]| == n
    decreases |a|
  {
    if |a| > n && k > 0 {
      var c := Chunks(a, n);
      assert c[k] == Chunks(a[n..], n)[k - 1];
      ChunkSizes(a[n..], n, k - 1);
    }
  }

  /** The number of chunks is the ceiling of `|a| / n`: m chunks hold the
      list and m - 1 would not. */
  lemma {:induction false} ChunkCount<T>(a: seq<T>, n: nat)
    requires n > 0
    ensures var m := |Chunks(a, n)|;
            (m - 1) * n < |a| <= m * n
    decreases |a|
  {
    if |a| > n {
      ChunkCount(a[n..], n);
      var m := |Chunks(a[n..], n)|;
      assert |Chunks(a, n)| == m + 1;
      MulSucc(m, n);
      if m > 0 {
        MulSucc(m - 1, n);
      }
    }
  }

  /** The same count as `(|a| + n - 1) // n`, the length of
      `range(0, len(a), n)`. */
  lemma ChunkCountDiv<T>(a: seq<T>, n: nat)
    requires n > 0
    ensures |Chunks(a, n)| == (|a| + n - 1) / n
  {
    ChunkCount(a, n);
    var m := |Chunks(a, n)|;
    if m > 0 {
      MulSucc(m - 1, n);
    }
    DivOfRange(|a| + n - 1, m, n);
  }

  /** x // n is the m with `m * n <= x < m * n + n`. */
  lemma DivOfRange(x: nat, m: nat, n: nat)
    requires n > 0 && m * n <= x < m * n + n
    ensures x / n == m
  {
    var q := x / n;
    assert q * n <= x < q * n + n;
    if q < m {
      LessOrEqualTimes(q + 1, m, n);
    } else if q > m {
      LessOrEqualTimes(m + 1, q, n);
    }
  }

  lemma LessOrEqualTimes(x: nat, y: nat, n: nat)
    requires x <= y
    ensures x * n <= y * n
  {
  }

  lemma MulSucc(k: nat, n: nat)
    ensures (k + 1) * n == k * n + n
  {
  }

  /** The end of a slice `[.. e]` as Python clips it to a list of length m. */
  function Clip(e: nat, m: nat): nat
  {
    if e <= m then e else m
  }

  /** Slicing after dropping n elements is slicing further along. */
  lemma SliceShift<T>(a: seq<T>, n: nat, s: nat, e: nat)
    requires n <= |a| && s <= e <= |a| - n
    ensures a[n..][s..e] == a[s + n..e + n]
  {
  }

  /** Chunk k is the slice `a[k * n : k * n + n]`, clipped at the end. */
  lemma {:induction false} ChunkAt<T>(a: seq<T>, n: nat, k: nat)
    requires n > 0 && k < |Chunks(a, n)|
    ensures k * n < |a|
    ensures Chunks(a, n)[k] == a[k * n..Clip(k * n + n, |a|)]
    decreases |a|
  {
    if k > 0 {
      var rest := a[n..];
      assert Chunks(a, n)[k] == Chunks(rest, n)[k - 1];
      ChunkAt(rest, n, k - 1);
      MulSucc(k - 1, n);
      var s := (k - 1) * n;
      SliceShift(a, n, s, Clip(s + n, |rest|));
    }
  }

  /** `split_array` on an empty list gives no chunks, whatever the step
      (except 0, which raises). */
  lemma SplitNothing<T>(a: seq<T>, n: int)
    requires a == [] && n != 0
    ensures SplitArray(a, n) == Success([])
  {
  }

  /** Sum of the partition totals of `a` .. `Letter(k - 1)`. */
  function OverallTotal(db: Db, k: nat): nat
    requires k <= 26 && forall j :: 0 <= j < k ==> HasAllTables(Part(db, Letter(j)), Letter(j))
  {
    if k == 0 then 0
    else
      assert HasAllTables(Part(db, Letter(k - 1)), Letter(k - 1));
      OverallTotal(db, k - 1) + TotalUpTo(Part(db, Letter(k - 1)), Letter(k - 1), 26)
  }

  /** Sum of the partition found counts of `a` .. `Letter(k - 1)`. */
  function OverallFound(db: Db, k: nat): nat
    requires k <= 26 && forall j :: 0 <= j < k ==> HasAllTables(Part(db, Letter(j)), Letter(j))
  {
    if k == 0 then 0
    else
      assert HasAllTables(Part(db, Letter(k - 1)), Letter(k - 1));
      OverallFound(db, k - 1) + FoundUpTo(Part(db, Letter(k - 1)), Letter(k - 1), 26)
  }

  /** The overall count is 0 exactly when every partition's summed count is 0. */
  lemma {:induction false} OverallTotalZero(db: Db, k: nat)
    requires k <= 26 && forall j :: 0 <= j < k ==> HasAllTables(Part(db, Letter(j)), Letter(j))
    ensures OverallTotal(db, k) == 0 <==> forall j :: 0 <= j < k ==> TotalUpTo(Part(db, Letter(j)), Letter(j), 26) == 0
  {
    if k > 0 {
      OverallTotalZero(db, k - 1);
      assert HasAllTables(Part(db, Letter(k - 1)), Letter(k - 1));
      var last := TotalUpTo(Part(db, Letter(k - 1)), Letter(k - 1), 26);
      assert OverallTotal(db, k) == OverallTotal(db, k - 1) + last;
    }
  }

  /** The store never holds more found sequences than sequences. */
  lemma {:induction false} OverallFoundWithinTotal(db: Db, k: nat)
    requires k <= 26 && forall j :: 0 <= j < k ==> HasAllTables(Part(db, Letter(j)), Letter(j))
    ensures OverallFound(db, k) <= OverallTotal(db, k)
  {
    if k > 0 {
      OverallFoundWithinTotal(db, k - 1);
      FoundWithinTotal(Part(db, Letter(k - 1)), Letter(k - 1), 26);
    }
  }

  /** `get_all_stats`: `get_statistics` for `a` .. `z`, summing totals and
      found counts; the first partition missing a table raises. The overall
      figures it logs last are returned; the per-letter log lines are not
      modelled. */
  method GetAllStats(db: Db) returns (r: Result<Stats>)
    ensures r.Success? <==> AllTables(db)
    ensures r.Failure? ==> r.error == NoSuchTable
    ensures r.Success? ==>
              && r.value.total == OverallTotal(db, 26)
              && r.value.found == OverallFound(db, 26)
              && r.value.found <= r.value.total
              && r.value.percentage == Percentage(r.value.found, r.value.total)
              && (r.value.total == 0 ==> r.value.percentage == 0.0)
  {
    var totalOverall, foundOverall := 0, 0;
    var i := 0;
    while i < 26
      invariant 0 <= i <= 26
      invariant forall j :: 0 <= j < i ==> HasAllTables(Part(db, Letter(j)), Letter(j))
      invariant totalOverall == OverallTotal(db, i) && foundOverall == OverallFound(db, i)
    {
      var stats := GetStatistics(db, Letter(i));
      if stats.Failure? {
        return Failure(stats.error);
      }
      forall j | 0 <= j <= i ensures HasAllTables(Part(db, Letter(j)), Letter(j)) {
        if j == i {
          assert HasAllTables(Part(db, Letter(i)), Letter(i));
        }
      }
      totalOverall := totalOverall + stats.value.total;
      foundOverall := foundOverall + stats.value.found;
      i := i + 1;
    }
    OverallFoundWithinTotal(db, 26);
    return Success(Stats(totalOverall, foundOverall, Percentage(foundOverall, totalOverall)));
  }

  /** The store create.py and then populate.py build from nothing. */
  function Fresh(): Db
  {
    Populate.Populated(Create.Created(map[]))
  }

  /** Every table of the fresh store holds 26 ** 3 rows. */
  lemma FreshTable(j: nat, k: nat)
    requires j < 26 && k < 26
    ensures [Letter(j), Letter(k)] in Part(Fresh(), Letter(j))
    ensures |Part(Fresh(), Letter(j))[[Letter(j), Letter(k)]]| == Populate.SuffixCount
  {
    var c := Letter(j);
    var q := FreshPartition(j, k);
    Populate.PopulatedEmptyTable(q, c, Letter(k));
    FreshPopulated(j);
  }

  /** Partition j of the store create.py builds from nothing: its tables,
      all empty. */
  lemma FreshPartition(j: nat, k: nat) returns (q: Partition)
    requires j < 26 && k < 26
    ensures var created := Create.Created(map[]);
            Letter(j) in created && q == created[Letter(j)]
    ensures [Letter(j), Letter(k)] in q && q[[Letter(j), Letter(k)]] == map[]
  {
    var c, n := Letter(j), [Letter(j), Letter(k)];
    var created := Create.Created(map[]);
    assert c in Create.Letters(26);
    q := created[c];
    assert q == Create.CreatedPartition(map[], c, 26);
    assert n in Create.SchemaNames(c, 26);
  }

  /** Populating partition j of the created store. */
  lemma FreshPopulated(j: nat)
    requires j < 26
    ensures var created := Create.Created(map[]);
            Letter(j) in created
            && Part(Fresh(), Letter(j)) == Populate.PopulatedTables(created[Letter(j)], Letter(j), 26)
  {
    var c := Letter(j);
    var created := Create.Created(map[]);
    assert c in Create.Letters(26);
    assert c in created;
  }

  /** A partition whose 26 tables each hold 26 ** 3 rows counts k of them
      as k * 26 ** 3 rows. */
  lemma {:induction false} FullTotalUpTo(p: Partition, letter: char, k: nat)
    requires k <= 26
    requires forall j :: 0 <= j < 26 ==> [letter, Letter(j)] in p && |p[[letter, Letter(j)]]| == Populate.SuffixCount
    ensures TotalUpTo(p, letter, k) == k * Populate.SuffixCount
  {
    if k > 0 {
      FullTotalUpTo(p, letter, k - 1);
    }
  }

  /** After create.py and populate.py on an empty store, `get_statistics`
      counts 26 * 26 ** 3 rows in each partition and `get_all_stats` counts
      26 * 26 * 26 ** 3 rows overall. */
  lemma {:induction false} FreshTotals(k: nat)
    requires k <= 26
    ensures AllTables(Fresh())
    ensures forall j :: 0 <= j < 26 ==> TotalUpTo(Part(Fresh(), Letter(j)), Letter(j), 26) == 26 * Populate.SuffixCount
    ensures OverallTotal(Fresh(), k) == k * (26 * Populate.SuffixCount)
  {
    forall j | 0 <= j < 26
      ensures HasAllTables(Part(Fresh(), Letter(j)), Letter(j))
      ensures TotalUpTo(Part(Fresh(), Letter(j)), Letter(j), 26) == 26 * Populate.SuffixCount
    {
      FreshPartitionTotal(j);
    }
    FullOverallTotal(Fresh(), k);
  }

  /** When each of the first `k` partitions totals 26 full tables, the overall
      total is `k` times that. */
  lemma {:induction false} FullOverallTotal(db: Db, k: nat)
    requires k <= 26
    requires forall j :: 0 <= j < 26 ==>
               HasAllTables(Part(db, Letter(j)), Letter(j)) &&
               TotalUpTo(Part(db, Letter(j)), Letter(j), 26) == 26 * Populate.SuffixCount
    ensures OverallTotal(db, k) == k * (26 * Populate.SuffixCount)
  {
    if k > 0 {
      FullOverallTotal(db, k - 1);
      var full := TotalUpTo(Part(db, Letter(k - 1)), Letter(k - 1), 26);
      assert OverallTotal(db, k) == OverallTotal(db, k - 1) + full;
      MulSucc(k - 1, 26 * Populate.SuffixCount);
    }
  }

  /** One partition of the fresh store holds all its tables, each full. */
  lemma FreshPartitionTotal(j: nat)
    requires j < 26
    ensures HasAllTables(Part(Fresh(), Letter(j)), Letter(j))
    ensures TotalUpTo(Part(Fresh(), Letter(j)), Letter(j), 26) == 26 * Populate.SuffixCount
  {
    var p := Part(Fresh(), Letter(j));
    forall i | 0 <= i < 26
      ensures [Letter(j), Letter(i)] in p
      ensures |p[[Letter(j), Letter(i)]]| == Populate.SuffixCount
    {
      FreshTable(j, i);
    }
    FullTotalUpTo(p, Letter(j), 26);
  }
}
