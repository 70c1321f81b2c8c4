/** database.py: point lookup, batch update of one table, the line
    transform used when reading sequence files, not-found extraction and
    per-partition statistics. */
module Database {
  import opened Text
  import opened Shards

  /** `get_is_found`: lowercases first, then checks the length, then reads
      the one row of table `s[:2]` in partition `s[0]`. */
  function GetIsFound(db: Db, sequence: string): (r: Result<Option<bool>>)
    ensures r == Failure(LengthNotFive) <==> |sequence| != 5
    ensures r.Failure? ==> r.error == LengthNotFive || r.error == NoSuchTable
    ensures r == Failure(NoSuchTable) <==>
              |sequence| == 5 && Lower(sequence)[..2] !in Part(db, LowerChar(sequence[0]))
  {
    var s := Lower(sequence);
    if |s| != 5 then Failure(LengthNotFive)
    else
      var p := Part(db, s[0]);
      var name := s[..2];
      if name !in p then Failure(NoSuchTable)
      else if s in p[name] then Success(Some(p[name][s]))
      else Success(None)
  }

  /** The row a valid sequence reads: present exactly when the lowered
      sequence is a key of its table, and then its flag. */
  lemma GetIsFoundRow(db: Db, sequence: string)
    requires GetIsFound(db, sequence).Success?
    ensures var s := Lower(sequence);
            var t := Part(db, s[0])[s[..2]];
            GetIsFound(db, sequence).value == if s in t then Some(t[s]) else None
  {
  }

  /** The lookup reads table `s[:2]` of partition `s[0]` and nothing else:
      two stores that agree on that table give the same answer. */
  lemma GetIsFoundReadsOneTable(db1: Db, db2: Db, sequence: string)
    requires |sequence| == 5
    requires var s := Lower(sequence);
             var p1, p2 := Part(db1, s[0]), Part(db2, s[0]);
             (s[..2] in p1 <==> s[..2] in p2) && (s[..2] in p1 ==> p1[s[..2]] == p2[s[..2]])
    ensures GetIsFound(db1, sequence) == GetIsFound(db2, sequence)
  {
  }

  /** The table `update_sequences` writes: `sequences[0][:2]`, matched the
      way SQLite matches a quoted name, ignoring ASCII case. */
  function UpdateTarget(sequences: seq<string>): (r: string)
    requires sequences != []
    ensures |r| == if |sequences[0]| < 2 then |sequences[0]| else 2
    ensures forall i :: 0 <= i < |r| ==> r[i] == LowerChar(sequences[0][i])
  {
    Lower(Take2(sequences[0]))
  }

  /** What `update_sequences(letter, sequences, isFound)` leaves in the store. */
  function Updated(db: Db, letter: char, sequences: seq<string>, isFound: bool): (r: Result<Db>)
    ensures sequences == [] ==> r == Success(db)
    ensures r.Failure? <==> sequences != [] && UpdateTarget(sequences) !in Part(db, letter)
    ensures r.Failure? ==> r.error == NoSuchTable
  {
    if sequences == [] then Success(db)
    else
      var p := Part(db, letter);
      var name := UpdateTarget(sequences);
      if name !in p then Failure(NoSuchTable)
      else Success(db[letter := p[name := SetRows(p[name], LowerAll(sequences), isFound)]])
  }

  /** `update_sequences`: one UPDATE per sequence against one table, then a
      commit. A missing table raises before any row changes. */
  method UpdateSequences(store: Store, letter: char, sequences: seq<string>, isFound: bool)
    returns (r: Outcome)
    modifies store
    ensures match Updated(old(store.db), letter, sequences, isFound)
              case Success(d) => r == Pass && store.db == d
              case Failure(e) => r == Fail(e) && store.db == old(store.db)
  {
    if sequences == [] {
      return Pass;
    }
    var p := Part(store.db, letter);
    var name := Lower(Take2(sequences[0]));
    if name !in p {
      return Fail(NoSuchTable);
    }
    var t := p[name];
    var i := 0;
    while i < |sequences|
      invariant 0 <= i <= |sequences|
      invariant t == SetRows(p[name], LowerAll(sequences[..i]), isFound)
    {
      var s := Lower(sequences[i]);
      if s in t {
        t := t[s := isFound];
      }
      assert LowerAll(sequences[..i + 1]) == LowerAll(sequences[..i]) + [s];
      i := i + 1;
    }
    assert sequences[..i] == sequences;
    store.db := store.db[letter := p[name := t]];
    return Pass;
  }

  /** An update only flips flags: no partition, table or row is added or
      removed. */
  lemma UpdateKeepsRows(db: Db, letter: char, sequences: seq<string>, isFound: bool)
    requires Updated(db, letter, sequences, isFound).Success?
    ensures SameRows(db, Updated(db, letter, sequences, isFound).value)
  {
  }

  /** The effect of an update on any one row: the flag becomes `isFound`
      for a lowered input sequence in the target table of `letter`, and
      every other row, table and partition keeps its value. */
  lemma UpdateEffect(db: Db, letter: char, sequences: seq<string>, isFound: bool,
                     c: char, n: string, k: string)
    requires Updated(db, letter, sequences, isFound).Success?
    requires c in db && n in db[c] && k in db[c][n]
    ensures var d := Updated(db, letter, sequences, isFound).value;
            d[c][n][k] ==
              if sequences != [] && c == letter && n == UpdateTarget(sequences)
                 && k in LowerAll(sequences)
              then isFound else db[c][n][k]
  {
  }

  /** Round trip: after an update, every input sequence that had a row in
      the target table reads back as `isFound`. */
  lemma UpdateThenGet(db: Db, letter: char, sequences: seq<string>, isFound: bool, i: nat)
    requires Updated(db, letter, sequences, isFound).Success?
    requires i < |sequences|
    requires var s := Lower(sequences[i]);
             |s| == 5 && s[0] == letter && s[..2] == UpdateTarget(sequences)
    requires GetIsFound(db, sequences[i]).Success? && GetIsFound(db, sequences[i]).value.Some?
    ensures GetIsFound(Updated(db, letter, sequences, isFound).value, sequences[i])
            == Success(Some(isFound))
  {
    assert LowerAll(sequences)[i] == Lower(sequences[i]);
  }

  /** A sequence that is not among the lowered inputs reads the same after
      the update as before. */
  lemma UpdateLeavesOthers(db: Db, letter: char, sequences: seq<string>, isFound: bool,
                           sequence: string)
    requires Updated(db, letter, sequences, isFound).Success?
    requires Lower(sequence) !in LowerAll(sequences)
    ensures GetIsFound(Updated(db, letter, sequences, isFound).value, sequence)
            == GetIsFound(db, sequence)
  {
  }

  /** A line as `get_sequences_from_file` hands it on: not blank, without
      white space at either end, and without upper-case letters. */
  predicate IsNormalised(x: string)
  {
    x != [] && IsLowered(x) && !IsSpace(x[0]) && !IsSpace(x[|x| - 1])
  }

  /** Lowering a string without white space at either end yields a
      normalised one. */
  lemma LowerTrimmed(x: string)
    requires x != [] && !IsSpace(x[0]) && !IsSpace(x[|x| - 1])
    ensures IsNormalised(Lower(x))
  {
    var y := Lower(x);
    assert y[0] == LowerChar(x[0]);
    assert y[|y| - 1] == LowerChar(x[|x| - 1]);
    LowerKeepsSpace(x[0]);
    LowerKeepsSpace(x[|x| - 1]);
    LowerIsLowered(x);
  }

  /** Stripping and then lowering a non-blank line yields a normalised one. */
  lemma NormalisedLine(line: string)
    requires Strip(line) != []
    ensures IsNormalised(Lower(Strip(line)))
  {
    LowerTrimmed(Strip(line));
  }

  /** What one line of the file contributes: nothing when it is blank,
      else its stripped, lowered text. */
  function NormaliseLine(line: string): (r: seq<string>)
    ensures |r| <= 1
  {
    if Strip(line) == [] then [] else [Lower(Strip(line))]
  }

  /** The transform in `get_sequences_from_file`:
      `[line.strip().lower() for line in file if line.strip()]`. */
  function NormaliseLines(lines: seq<string>): (r: seq<string>)
    ensures |r| <= |lines|
  {
    if lines == [] then [] else NormaliseLine(lines[0]) + NormaliseLines(lines[1..])
  }

  /** What one line contributes is normalised. */
  lemma NormaliseLineNormalised(line: string)
    ensures forall x :: x in NormaliseLine(line) ==> IsNormalised(x)
  {
    if Strip(line) != [] {
      NormalisedLine(line);
    }
  }

  /** Every sequence handed on is non-blank, stripped and lowercase. */
  lemma {:induction false} NormaliseLinesNormalised(lines: seq<string>)
    ensures forall x :: x in NormaliseLines(lines) ==> IsNormalised(x)
  {
    if lines != [] {
      NormaliseLineNormalised(lines[0]);
      NormaliseLinesNormalised(lines[1..]);
      assert NormaliseLines(lines) == NormaliseLine(lines[0]) + NormaliseLines(lines[1..]);
    }
  }

  /** One line in, at most one sequence out: a blank line is dropped, any
      other line becomes its stripped, lowered text. */
  lemma NormaliseOneLine(line: string)
    ensures NormaliseLines([line]) ==
            if forall i :: 0 <= i < |line| ==> IsSpace(line[i]) then [] else [Lower(Strip(line))]
  {
    StripEmptyIffBlank(line);
    assert [line][1..] == [];
    assert NormaliseLines([line]) == NormaliseLine(line) + [];
  }

  /** The transform works line by line, in input order. */
  lemma {:induction false} NormaliseAppend(a: seq<string>, b: seq<string>)
    ensures NormaliseLines(a + b) == NormaliseLines(a) + NormaliseLines(b)
  {
    if a != [] {
      assert (a + b)[0] == a[0] && (a + b)[1..] == a[1..] + b;
      NormaliseAppend(a[1..], b);
      var x := NormaliseLine(a[0]);
      var na, nb := NormaliseLines(a[1..]), NormaliseLines(b);
      assert x + (na + nb) == (x + na) + nb;
    } else {
      assert a + b == b;
    }
  }

  /** Normalising already-normalised lines changes nothing. */
  lemma {:induction false} NormaliseIdempotent(lines: seq<string>)
    ensures NormaliseLines(NormaliseLines(lines)) == NormaliseLines(lines)
  {
    NormaliseLinesNormalised(lines);
    NormalisedFixed(NormaliseLines(lines));
  }

  /** A normalised line is handed on unchanged. */
  lemma NormaliseLineFixed(x: string)
    requires IsNormalised(x)
    ensures NormaliseLine(x) == [x]
  {
    StripTrimmed(x);
    LoweredFixed(x);
  }

  lemma {:induction false} NormalisedFixed(lines: seq<string>)
    requires forall x :: x in lines ==> IsNormalised(x)
    ensures NormaliseLines(lines) == lines
  {
    if lines != [] {
      var x, rest := lines[0], lines[1..];
      assert lines == [x] + rest;
      NormalisedFixed(rest);
      NormaliseLineFixed(x);
    }
  }

  /** `get_not_found_sequences(letter, second)`: every sequence of table
      `letter + second`, its name matched ignoring ASCII case, whose flag is
      false, each once. A missing table raises. The order of the rows is
      not modelled. */
  method NotFoundSequences(db: Db, letter: char, second: char) returns (r: Result<seq<string>>)
    ensures r.Failure? <==> Lower([letter, second]) !in Part(db, letter)
    ensures r.Failure? ==> r.error == NoSuchTable
    ensures r.Success? ==>
              var t := Part(db, letter)[Lower([letter, second])];
              && (forall k :: k in r.value <==> k in t && !t[k])
              && Distinct(r.value)
              && |r.value| + FoundCount(t) == |t|
  {
    var p := Part(db, letter);
    var name := Lower([letter, second]);
    if name !in p {
      return Failure(NoSuchTable);
    }
    var t := p[name];
    var rest := t.Keys;
    var out := [];
    while rest != {}
      invariant rest <= t.Keys
      invariant forall k :: k in out <==> k in t && k !in rest && !t[k]
      invariant Distinct(out)
      decreases rest
    {
      var k :| k in rest;
      if !t[k] {
        out := out + [k];
      }
      rest := rest - {k};
    }
    NotFoundCount(t, out);
    return Success(out);
  }

  /** `SELECT COUNT(*) FROM t WHERE found = 1` */
  function FoundCount(t: Table): (n: nat)
    ensures n <= |t|
  {
    var found := set k | k in t && t[k];
    assert found <= t.Keys;
    SubsetCard(found, t.Keys);
    |found|
  }

  lemma {:induction false} SubsetCard<T>(a: set<T>, b: set<T>)
    requires a <= b
    ensures |a| <= |b|
  {
    if a != {} {
      var x :| x in a;
      SubsetCard(a - {x}, b - {x});
    }
  }

  /** The rows with a false flag and those with a true flag share out the
      table. */
  lemma NotFoundCount(t: Table, out: seq<string>)
    requires forall k :: k in out <==> k in t && !t[k]
    requires Distinct(out)
    ensures |out| + FoundCount(t) == |t|
  {
    var notFound := set k | k in t && !t[k];
    var found := set k | k in t && t[k];
    assert Elements(out) == notFound;
    DistinctCard(out);
    assert t.Keys == notFound + found;
    assert notFound !! found;
  }

  /** Sum of `COUNT(*)` over tables `letter + Letter(0)` .. `letter + Letter(k - 1)`. */
  function TotalUpTo(p: Partition, letter: char, k: nat): nat
    requires k <= 26 && forall j :: 0 <= j < k ==> [letter, Letter(j)] in p
  {
    if k == 0 then 0 else TotalUpTo(p, letter, k - 1) + |p[[letter, Letter(k - 1)]]|
  }

  /** Sum of `COUNT(*) ... WHERE found = 1` over the same tables. */
  function FoundUpTo(p: Partition, letter: char, k: nat): nat
    requires k <= 26 && forall j :: 0 <= j < k ==> [letter, Letter(j)] in p
  {
    if k == 0 then 0 else FoundUpTo(p, letter, k - 1) + FoundCount(p[[letter, Letter(k - 1)]])
  }

  /** The summed count is 0 exactly when every one of the tables is empty. */
  lemma {:induction false} TotalUpToZero(p: Partition, letter: char, k: nat)
    requires k <= 26 && forall j :: 0 <= j < k ==> [letter, Letter(j)] in p
    ensures TotalUpTo(p, letter, k) == 0 <==> forall j :: 0 <= j < k ==> p[[letter, Letter(j)]] == map[]
  {
    if k > 0 {
      TotalUpToZero(p, letter, k - 1);
    }
  }

  /** A partition never has more found rows than rows. */
  lemma {:induction false} FoundWithinTotal(p: Partition, letter: char, k: nat)
    requires k <= 26 && forall j :: 0 <= j < k ==> [letter, Letter(j)] in p
    ensures FoundUpTo(p, letter, k) <= TotalUpTo(p, letter, k)
  {
    if k > 0 {
      FoundWithinTotal(p, letter, k - 1);
    }
  }

  /** `found / total * 100`, and 0 when there are no rows. Python's float
      rounding is not modelled. */
  function Percentage(found: nat, total: nat): (r: real)
    ensures total == 0 ==> r == 0.0
    ensures found <= total ==> 0.0 <= r <= 100.0
  {
    if total == 0 then 0.0 else (found as real / total as real) * 100.0
  }

  datatype Stats = Stats(total: nat, found: nat, percentage: real)

  /** `get_statistics(letter)`: adds up the two counts of the 26 tables of
      the partition. A missing table raises. The quoted names
      `letter + second` are matched ignoring ASCII case, as SQLite does. */
  method GetStatistics(db: Db, letter: char) returns (r: Result<Stats>)
    ensures r.Success? <==> HasAllTables(Part(db, letter), LowerChar(letter))
    ensures r.Failure? ==> r.error == NoSuchTable
    ensures r.Success? ==>
              var p := Part(db, letter);
              && r.value.total == TotalUpTo(p, LowerChar(letter), 26)
              && r.value.found == FoundUpTo(p, LowerChar(letter), 26)
              && r.value.found <= r.value.total
              && r.value.percentage == Percentage(r.value.found, r.value.total)
              && (r.value.total == 0 ==> r.value.percentage == 0.0)
  {
    var p := Part(db, letter);
    var first := LowerChar(letter);
    var total, found := 0, 0;
    var i := 0;
    while i < 26
      invariant 0 <= i <= 26
      invariant forall j :: 0 <= j < i ==> [first, Letter(j)] in p
      invariant total == TotalUpTo(p, first, i) && found == FoundUpTo(p, first, i)
    {
      var name := [first, Letter(i)];
      if name !in p {
        return Failure(NoSuchTable);
      }
      total := total + |p[name]|;
      found := found + FoundCount(p[name]);
      i := i + 1;
    }
    FoundWithinTotal(p, first, 26);
    return Success(Stats(total, found, Percentage(found, total)));
  }
}
