/** processing.py: grouping sequences into 26 buckets by one character and
    handing each non-empty bucket to the store. */
module Processing {
  import opened Text
  import opened Shards
  import opened Database

  /** The list slot `grouped[ord(s[pos]) - 97]` selects in a list of 26, with
      Python's indexing: a negative index from -26 on counts from the end,
      anything else (or a string too short to have `s[pos]`) raises
      IndexError, shown as `None`. */
  function Slot(s: string, pos: nat): (r: Option<nat>)
    ensures r.Some? ==> pos < |s| && r.value < 26
  {
    if pos >= |s| then None
    else
      var k := s[pos] as int - 97;
      if 0 <= k < 26 then Some(k)
      else if -26 <= k < 0 then Some(k + 26)
      else None
  }

  /** On a lowercase letter the slot is the letter's own: bucket i holds
      exactly the sequences whose character at `pos` is `chr(97 + i)`. */
  lemma SlotOfLetter(s: string, pos: nat, i: nat)
    requires pos < |s| && IsLowerLetter(s[pos]) && i < 26
    ensures Slot(s, pos) == Some(i) <==> s[pos] == Letter(i)
  {
  }

  /** Without an alphabet check, the characters `[ \ ] ^ _ `` (codes 91 to 96)
      wrap to slots 20 to 25: "a]xyz" joins the sequences whose second letter
      is 'w'. */
  lemma SlotWraps()
    ensures Slot("a]xyz", 1) == Some(22) && Letter(22) == 'w'
    ensures Slot("a{xyz", 1) == None
  {
  }

  /** For every input: the index exists exactly for codes 71 to 122; codes
      97 to 122 are their own slot and codes 71 to 96 count from the end of
      the list. */
  lemma SlotCases(s: string, pos: nat)
    ensures Slot(s, pos).Some? <==> pos < |s| && 71 <= s[pos] as int <= 122
    ensures pos < |s| && 97 <= s[pos] as int <= 122 ==> Slot(s, pos) == Some(s[pos] as int - 97)
    ensures pos < |s| && 71 <= s[pos] as int <= 96 ==> Slot(s, pos) == Some(s[pos] as int - 71)
  {
  }

  /** After lowering no code from 65 to 90 is left, so a lowered string
      has a slot exactly when its character at `pos` is a lowercase letter
      or one of the six codes 91 to 96, which wrap to slots 20 to 25. */
  lemma SlotOfLowered(s: string, pos: nat)
    requires IsLowered(s)
    ensures Slot(s, pos).Some? <==> pos < |s| && (IsLowerLetter(s[pos]) || 91 <= s[pos] as int <= 96)
    ensures pos < |s| && 91 <= s[pos] as int <= 96 ==> 20 <= Slot(s, pos).value <= 25
  {
  }

  /** The sequences of `ss` that land in slot `i`, in input order. */
  function Bucket(ss: seq<string>, pos: nat, i: nat): (r: seq<string>)
    ensures |r| <= |ss|
    ensures forall x :: x in r <==> x in ss && Slot(x, pos) == Some(i)
  {
    if ss == [] then []
    else
      var init := ss[..|ss| - 1];
      var last := ss[|ss| - 1];
      assert ss == init + [last];
      Bucket(init, pos, i) + if Slot(last, pos) == Some(i) then [last] else []
  }

  /** The 26 buckets, in slot order. */
  function Buckets(ss: seq<string>, pos: nat): (r: seq<seq<string>>)
    ensures |r| == 26
  {
    seq(26, i requires 0 <= i < 26 => Bucket(ss, pos, i))
  }

  /** No sequence makes the grouping raise. */
  predicate AllSlotted(ss: seq<string>, pos: nat)
  {
    forall k :: 0 <= k < |ss| ==> Slot(ss[k], pos).Some?
  }

  /** The grouping loop of `process_batch` (pos 1) and of
      `process_single_file` (pos 0): lowercase each sequence and append it
      to its slot's list. IndexError stops it before the store is touched. */
  method GroupByLetter(sequences: seq<string>, pos: nat) returns (r: Result<seq<seq<string>>>)
    ensures r.Success? <==> AllSlotted(LowerAll(sequences), pos)
    ensures r.Failure? ==> r.error == IndexOutOfRange
    ensures r.Success? ==> r.value == Buckets(LowerAll(sequences), pos)
  {
    var lowered := LowerAll(sequences);
    var grouped := new seq<string>[26](_ => []);
    var j := 0;
    while j < |sequences|
      invariant 0 <= j <= |sequences|
      invariant AllSlotted(lowered[..j], pos)
      invariant forall i :: 0 <= i < 26 ==> grouped[i] == Bucket(lowered[..j], pos, i)
    {
      var s := Lower(sequences[j]);
      var slot := Slot(s, pos);
      if slot.None? {
        assert !Slot(lowered[j], pos).Some?;
        return Failure(IndexOutOfRange);
      }
      GroupStep(lowered, j, pos);
      grouped[slot.value] := grouped[slot.value] + [s];
      j := j + 1;
    }
    assert lowered[..j] == lowered;
    return Success(grouped[..]);
  }

  /** One more sequence in the grouping loop: it goes to its own slot's
      bucket, the other buckets stay. */
  lemma GroupStep(lowered: seq<string>, j: nat, pos: nat)
    requires j < |lowered| && AllSlotted(lowered[..j], pos) && Slot(lowered[j], pos).Some?
    ensures AllSlotted(lowered[..j + 1], pos)
    ensures forall i :: 0 <= i < 26 ==>
              Bucket(lowered[..j + 1], pos, i)
              == Bucket(lowered[..j], pos, i) + if Slot(lowered[j], pos) == Some(i) then [lowered[j]] else []
  {
    assert lowered[..j + 1][..j] == lowered[..j];
  }

  /** Every member of bucket i whose character at `pos` is a lowercase letter
      has `chr(97 + i)` there. */
  lemma BucketMembers(ss: seq<string>, pos: nat, i: nat, x: string)
    requires i < 26 && x in Bucket(ss, pos, i) && IsLowerLetter(x[pos])
    ensures x[pos] == Letter(i)
  {
    SlotOfLetter(x, pos, i);
  }

  /** Buckets are filters: bucketing a concatenation concatenates the
      buckets, so each bucket keeps the input order. */
  lemma {:induction false} BucketAppend(a: seq<string>, b: seq<string>, pos: nat, i: nat)
    ensures Bucket(a + b, pos, i) == Bucket(a, pos, i) + Bucket(b, pos, i)
  {
    if b == [] {
      assert a + b == a;
    } else {
      var init := b[..|b| - 1];
      assert (a + b)[..|a + b| - 1] == a + init;
      BucketAppend(a, init, pos, i);
    }
  }

  /** All the buckets one after another. */
  function Concat(bs: seq<seq<string>>): seq<string>
  {
    if bs == [] then [] else bs[0] + Concat(bs[1..])
  }

  lemma {:induction false} ConcatGrow(bs: seq<seq<string>>, k: nat, x: string)
    requires k < |bs|
    ensures multiset(Concat(bs[k := bs[k] + [x]])) == multiset(Concat(bs)) + multiset{x}
  {
    var grown := bs[k := bs[k] + [x]];
    assert Concat(grown) == grown[0] + Concat(grown[1..]);
    assert Concat(bs) == bs[0] + Concat(bs[1..]);
    if k == 0 {
      assert grown[1..] == bs[1..];
      assert multiset(grown[0]) == multiset(bs[0]) + multiset{x};
    } else {
      assert grown[1..] == bs[1..][k - 1 := bs[1..][k - 1] + [x]];
      ConcatGrow(bs[1..], k - 1, x);
      assert grown[0] == bs[0];
    }
  }

  /** Appending one sequence appends it to its own slot's bucket only. */
  lemma BucketsSnoc(init: seq<string>, last: string, pos: nat)
    requires Slot(last, pos).Some?
    ensures var k := Slot(last, pos).value;
            var before := Buckets(init, pos);
            Buckets(init + [last], pos) == before[k := before[k] + [last]]
  {
    var ss := init + [last];
    var k := Slot(last, pos).value;
    var before := Buckets(init, pos);
    forall i | 0 <= i < 26
      ensures Buckets(ss, pos)[i] == before[k := before[k] + [last]][i]
    {
      assert ss[..|ss| - 1] == init;
    }
  }

  /** The buckets together are a permutation of the (lowered) input when no
      sequence made the grouping raise. */
  lemma {:induction false} BucketsPermutation(ss: seq<string>, pos: nat)
    requires AllSlotted(ss, pos)
    ensures multiset(Concat(Buckets(ss, pos))) == multiset(ss)
  {
    if ss == [] {
      var empty := Buckets(ss, pos);
      assert forall i :: 0 <= i < 26 ==> empty[i] == [];
      ConcatEmpty(empty);
    } else {
      var init := ss[..|ss| - 1];
      var last := ss[|ss| - 1];
      assert ss == init + [last];
      assert AllSlotted(init, pos) by {
        forall k | 0 <= k < |init| ensures Slot(init[k], pos).Some? {
          assert init[k] == ss[k];
        }
      }
      BucketsPermutation(init, pos);
      BucketsSnoc(init, last, pos);
      ConcatGrow(Buckets(init, pos), Slot(last, pos).value, last);
    }
  }

  lemma {:induction false} ConcatEmpty(bs: seq<seq<string>>)
    requires forall i :: 0 <= i < |bs| ==> bs[i] == []
    ensures Concat(bs) == []
  {
    if bs != [] {
      ConcatEmpty(bs[1..]);
    }
  }

  /** `for batch in grouped: if batch: update_sequences(letter, batch)`, from
      bucket i on. Each call commits on its own, so an exception keeps the
      buckets before it. */
  function ApplyBatches(db: Db, letter: char, batches: seq<seq<string>>, i: nat): (r: Step)
    requires i <= |batches|
    ensures r.Stopped? ==> r.error == NoSuchTable
    ensures forall c :: c != letter ==> Part(r.db, c) == Part(db, c)
    ensures (forall k :: i <= k < |batches| ==> batches[k] == []) ==> r == Done(db)
    decreases |batches| - i
  {
    if i == |batches| then Done(db)
    else if batches[i] == [] then ApplyBatches(db, letter, batches, i + 1)
    else
      match Updated(db, letter, batches[i], true)
      case Failure(e) => Stopped(db, e)
      case Success(d) => ApplyBatches(d, letter, batches, i + 1)
  }

  /** What `process_batch(letter, sequences)` leaves in the store. */
  function BatchProcessed(db: Db, letter: char, sequences: seq<string>): (r: Step)
    ensures r.Stopped? ==> r.error == NoSuchTable || r.error == IndexOutOfRange
    ensures forall c :: c != letter ==> Part(r.db, c) == Part(db, c)
  {
    var lowered := LowerAll(sequences);
    if !AllSlotted(lowered, 1) then Stopped(db, IndexOutOfRange)
    else ApplyBatches(db, letter, Buckets(lowered, 1), 0)
  }

  /** `process_batch`: group by second letter, then one `update_sequences`
      call per non-empty bucket, in slot order. */
  method ProcessBatch(store: Store, letter: char, sequences: seq<string>) returns (r: Outcome)
    modifies store
    ensures Ending(store.db, r) == BatchProcessed(old(store.db), letter, sequences)
  {
    var grouped := GroupByLetter(sequences, 1);
    if grouped.Failure? {
      return Fail(grouped.error);
    }
    var batches := grouped.value;
    ghost var run := ApplyBatches(store.db, letter, batches, 0);
    assert run == BatchProcessed(old(store.db), letter, sequences);
    var i := 0;
    while i < 26
      invariant 0 <= i <= 26
      invariant ApplyBatches(store.db, letter, batches, i) == run
    {
      if batches[i] != [] {
        r := UpdateSequences(store, letter, batches[i], true);
        if r.Fail? {
          return;
        }
      }
      i := i + 1;
    }
    return Pass;
  }

  /** Table `name` with the flag set for every key among `keys` that has a
      row there and whose own prefix is `name`. */
  function Mark(t: Table, keys: seq<string>, name: string): Table
  {
    map k | k in t :: if k in keys && Take2(k) == name then true else t[k]
  }

  /** The partition with every table marked. */
  function MarkAll(p: Partition, keys: seq<string>): Partition
  {
    map n | n in p :: Mark(p[n], keys, n)
  }

  /** The partition with the tables of slots below i marked. */
  function MarkBelow(p: Partition, keys: seq<string>, letter: char, i: nat): Partition
  {
    map n | n in p :: if IsTableOf(n, letter) && n[1] as int - 97 < i then Mark(p[n], keys, n) else p[n]
  }

  /** Every key is lowered and starts with `letter` and a lowercase letter. */
  predicate KeysOf(letter: char, keys: seq<string>)
  {
    forall k :: k in keys ==> |k| >= 2 && Lower(k) == k && k[0] == letter && IsLowerLetter(k[1])
  }

  /** ... and the table of every key exists in partition `p`. */
  predicate TargetsIn(p: Partition, letter: char, keys: seq<string>)
  {
    KeysOf(letter, keys) && forall k :: k in keys ==> k[..2] in p
  }

  lemma LowerAllFixed(xs: seq<string>)
    requires forall x :: x in xs ==> Lower(x) == x
    ensures LowerAll(xs) == xs
  {
  }

  /** For a key of partition `letter`, slot i and table `letter + chr(97 + i)`
      pick the same keys. */
  lemma SlotIsTable(k: string, letter: char, i: nat)
    requires |k| >= 2 && k[0] == letter && IsLowerLetter(k[1]) && i < 26
    ensures Slot(k, 1) == Some(i) <==> Take2(k) == [letter, Letter(i)]
  {
    SlotOfLetter(k, 1, i);
    if Take2(k) == [letter, Letter(i)] {
      assert k[1] == Take2(k)[1];
    }
  }

  /** An empty bucket: no key of slot i, so marking slot i changes nothing. */
  lemma MarkSkip(p: Partition, keys: seq<string>, letter: char, i: nat)
    requires TargetsIn(p, letter, keys) && i < 26
    requires Bucket(keys, 1, i) == []
    ensures MarkBelow(p, keys, letter, i + 1) == MarkBelow(p, keys, letter, i)
  {
    var name := [letter, Letter(i)];
    if name in p {
      forall k | k in p[name]
        ensures Mark(p[name], keys, name)[k] == p[name][k]
      {
        if k in keys {
          SlotIsTable(k, letter, i);
        }
      }
    }
    forall n | n in p
      ensures MarkBelow(p, keys, letter, i + 1)[n] == MarkBelow(p, keys, letter, i)[n]
    {
      if IsTableOf(n, letter) && n[1] as int - 97 == i {
        assert n == name;
      }
    }
  }

  /** The table a non-empty bucket i of partition `letter` names is
      `letter + chr(97 + i)`. */
  lemma BatchTarget(p: Partition, keys: seq<string>, letter: char, i: nat)
    requires TargetsIn(p, letter, keys) && i < 26
    requires Bucket(keys, 1, i) != []
    ensures UpdateTarget(Bucket(keys, 1, i)) == [letter, Letter(i)]
    ensures [letter, Letter(i)] in p
  {
    var first := Bucket(keys, 1, i)[0];
    assert first in keys && Slot(first, 1) == Some(i);
    SlotIsTable(first, letter, i);
    LoweredFixed([letter, Letter(i)]);
  }

  /** Setting bucket i's keys marks table `letter + chr(97 + i)`. */
  lemma BatchRows(t: Table, keys: seq<string>, letter: char, i: nat)
    requires KeysOf(letter, keys) && i < 26
    ensures SetRows(t, LowerAll(Bucket(keys, 1, i)), true) == Mark(t, keys, [letter, Letter(i)])
  {
    var batch := Bucket(keys, 1, i);
    var name := [letter, Letter(i)];
    assert forall x :: x in batch ==> x in keys;
    LowerAllFixed(batch);
    forall k | k in t
      ensures SetRows(t, batch, true)[k] == Mark(t, keys, name)[k]
    {
      if k in keys {
        SlotIsTable(k, letter, i);
      }
    }
  }

  /** Marking table `letter + chr(97 + i)` on top of the slots below i
      gives the slots below i + 1. */
  lemma MarkStep(p: Partition, keys: seq<string>, letter: char, i: nat)
    requires i < 26 && [letter, Letter(i)] in p
    ensures var name := [letter, Letter(i)];
            var q := MarkBelow(p, keys, letter, i);
            q[name := Mark(p[name], keys, name)] == MarkBelow(p, keys, letter, i + 1)
  {
    var name := [letter, Letter(i)];
    var q := MarkBelow(p, keys, letter, i);
    forall n | n in p
      ensures q[name := Mark(p[name], keys, name)][n] == MarkBelow(p, keys, letter, i + 1)[n]
    {
      if IsTableOf(n, letter) && n[1] as int - 97 == i {
        assert n == name;
      }
    }
  }

  /** The `update_sequences` call of a non-empty bucket i takes the
      partition from the tables below i marked to those below i + 1. */
  lemma MarkBatch(db: Db, letter: char, keys: seq<string>, i: nat)
    requires letter in db && TargetsIn(db[letter], letter, keys) && i < 26
    requires Bucket(keys, 1, i) != []
    ensures Updated(db[letter := MarkBelow(db[letter], keys, letter, i)], letter, Bucket(keys, 1, i), true)
            == Success(db[letter := MarkBelow(db[letter], keys, letter, i + 1)])
  {
    var p := db[letter];
    var batch := Bucket(keys, 1, i);
    var name := [letter, Letter(i)];
    var q := MarkBelow(p, keys, letter, i);
    MarkBatchPartition(p, keys, letter, i);
    var d := db[letter := q];
    var marked := SetRows(q[name], LowerAll(batch), true);
    assert Part(d, letter) == q;
    assert Updated(d, letter, batch, true) == Success(d[letter := q[name := marked]]);
    ReplaceTwice(db, letter, q, q[name := marked]);
  }

  lemma ReplaceTwice(db: Db, letter: char, a: Partition, b: Partition)
    ensures db[letter := a][letter := b] == db[letter := b]
  {
  }

  /** The same step on the partition: the UPDATE of bucket i's keys turns
      the tables below i marked into the tables below i + 1 marked. */
  lemma MarkBatchPartition(p: Partition, keys: seq<string>, letter: char, i: nat)
    requires TargetsIn(p, letter, keys) && i < 26
    requires Bucket(keys, 1, i) != []
    ensures var name := [letter, Letter(i)];
            var q := MarkBelow(p, keys, letter, i);
            && UpdateTarget(Bucket(keys, 1, i)) == name
            && name in q
            && q[name := SetRows(q[name], LowerAll(Bucket(keys, 1, i)), true)] == MarkBelow(p, keys, letter, i + 1)
  {
    var name := [letter, Letter(i)];
    BatchTarget(p, keys, letter, i);
    BatchRows(p[name], keys, letter, i);
    MarkStep(p, keys, letter, i);
    assert MarkBelow(p, keys, letter, i)[name] == p[name];
  }

  /** One bucket of `process_batch`: from the tables below i marked to the
      tables below i + 1 marked, raising nothing. */
  lemma MarkOne(db: Db, letter: char, keys: seq<string>, i: nat)
    requires letter in db && TargetsIn(db[letter], letter, keys) && i < 26
    ensures ApplyBatches(db[letter := MarkBelow(db[letter], keys, letter, i)], letter, Buckets(keys, 1), i)
            == ApplyBatches(db[letter := MarkBelow(db[letter], keys, letter, i + 1)], letter, Buckets(keys, 1), i + 1)
  {
    if Bucket(keys, 1, i) == [] {
      MarkSkip(db[letter], keys, letter, i);
    } else {
      MarkBatch(db, letter, keys, i);
    }
  }

  /** From bucket i on, the calls mark the remaining tables and raise
      nothing. */
  lemma {:induction false} MarkFrom(db: Db, letter: char, keys: seq<string>, i: nat)
    requires letter in db && TargetsIn(db[letter], letter, keys) && i <= 26
    ensures ApplyBatches(db[letter := MarkBelow(db[letter], keys, letter, i)], letter, Buckets(keys, 1), i)
            == Done(db[letter := MarkBelow(db[letter], keys, letter, 26)])
    decreases 26 - i
  {
    if i < 26 {
      MarkOne(db, letter, keys, i);
      MarkFrom(db, letter, keys, i + 1);
    }
  }

  /** Keys of partition `letter` with a lowercase second letter all have a
      slot. */
  lemma KeysSlotted(letter: char, keys: seq<string>)
    requires KeysOf(letter, keys)
    ensures AllSlotted(keys, 1)
  {
    forall k | 0 <= k < |keys| ensures Slot(keys[k], 1).Some? {
      assert keys[k] in keys;
      LetterIndex(keys[k][1]);
    }
  }

  /** Marking the tables of all 26 slots marks the whole partition: a key
      of partition `letter` never has its prefix in another table. */
  lemma MarkBelowAll(p: Partition, keys: seq<string>, letter: char)
    requires KeysOf(letter, keys)
    ensures MarkBelow(p, keys, letter, 0) == p
    ensures MarkBelow(p, keys, letter, 26) == MarkAll(p, keys)
  {
    forall n | n in p ensures MarkBelow(p, keys, letter, 26)[n] == MarkAll(p, keys)[n] {
      if !IsTableOf(n, letter) {
        forall k | k in p[n] ensures Mark(p[n], keys, n)[k] == p[n][k] {
          if k in keys && Take2(k) == n {
            assert false;
          }
        }
      }
    }
  }

  /** Net effect of `process_batch(letter, sequences)` when every sequence
      belongs to partition `letter`, has a lowercase second letter and its
      table exists: every input sequence that has a row in its own table is
      now found, and nothing else changes. */
  lemma BatchMarksFound(db: Db, letter: char, sequences: seq<string>)
    requires TargetsIn(Part(db, letter), letter, LowerAll(sequences))
    ensures BatchProcessed(db, letter, sequences)
            == Done(if sequences == [] then db
                    else db[letter := MarkAll(Part(db, letter), LowerAll(sequences))])
  {
    var keys := LowerAll(sequences);
    if sequences == [] {
      BatchOfNothing(db, letter);
    } else {
      assert keys[0] in keys;
      var p := db[letter];
      KeysSlotted(letter, keys);
      MarkBelowAll(p, keys, letter);
      assert db[letter := MarkBelow(p, keys, letter, 0)] == db;
      MarkFrom(db, letter, keys, 0);
    }
  }

  /** `b` is `a` with some flags raised: same partitions, tables and rows,
      and every found sequence still found. */
  predicate Raised(a: Db, b: Db)
  {
    && SameRows(a, b)
    && forall c, n, k :: c in a && n in a[c] && k in a[c][n] && a[c][n][k] ==> b[c][n][k]
  }

  /** Raising flags twice is raising flags. */
  lemma RaisedTrans(a: Db, b: Db, c: Db)
    requires Raised(a, b) && Raised(b, c)
    ensures Raised(a, c)
  {
  }

  /** An `update_sequences` call with `isFound` true only raises flags of
      partition `letter`. */
  lemma UpdateRaises(db: Db, letter: char, sequences: seq<string>)
    requires Updated(db, letter, sequences, true).Success?
    ensures Raised(db, Updated(db, letter, sequences, true).value)
    ensures forall c :: c in db && c != letter ==> Updated(db, letter, sequences, true).value[c] == db[c]
  {
    UpdateKeepsRows(db, letter, sequences, true);
  }

  /** The calls of `process_batch` from bucket i on only raise flags of
      partition `letter`, whether they finish or stop. */
  lemma {:induction false} BatchesRaise(db: Db, letter: char, batches: seq<seq<string>>, i: nat)
    requires i <= |batches|
    ensures Raised(db, ApplyBatches(db, letter, batches, i).db)
    ensures forall c :: c in db && c != letter ==> ApplyBatches(db, letter, batches, i).db[c] == db[c]
    decreases |batches| - i
  {
    if i < |batches| && batches[i] != [] {
      match Updated(db, letter, batches[i], true)
      case Failure(_) =>
      case Success(d) =>
        UpdateRaises(db, letter, batches[i]);
        BatchesRaise(d, letter, batches, i + 1);
        RaisedTrans(db, d, ApplyBatches(d, letter, batches, i + 1).db);
    } else if i < |batches| {
      BatchesRaise(db, letter, batches, i + 1);
    }
  }

  /** Whatever the input, `process_batch` never adds or removes a row, never
      clears a flag and never touches another partition. */
  lemma BatchRaises(db: Db, letter: char, sequences: seq<string>)
    ensures Raised(db, BatchProcessed(db, letter, sequences).db)
    ensures forall c :: c in db && c != letter ==> BatchProcessed(db, letter, sequences).db[c] == db[c]
  {
    if AllSlotted(LowerAll(sequences), 1) {
      BatchesRaise(db, letter, Buckets(LowerAll(sequences), 1), 0);
    }
  }

  /** `process_letter`: `process_batch` between two log lines. */
  method ProcessLetter(store: Store, letter: char, sequences: seq<string>) returns (r: Outcome)
    modifies store
    ensures Ending(store.db, r) == BatchProcessed(old(store.db), letter, sequences)
  {
    r := ProcessBatch(store, letter, sequences);
  }

  /** An empty list makes no `update_sequences` call. */
  lemma BatchOfNothing(db: Db, letter: char)
    ensures BatchProcessed(db, letter, []) == Done(db)
  {
    var none := Buckets([], 1);
    assert forall i :: 0 <= i < 26 ==> none[i] == [];
    NoBatches(db, letter, none, 0);
  }

  lemma {:induction false} NoBatches(db: Db, letter: char, batches: seq<seq<string>>, i: nat)
    requires i <= |batches|
    requires forall j :: i <= j < |batches| ==> batches[j] == []
    ensures ApplyBatches(db, letter, batches, i) == Done(db)
    decreases |batches| - i
  {
    if i < |batches| {
      NoBatches(db, letter, batches, i + 1);
    }
  }

  /** `process_letter(chr(97 + i), group)` for each non-empty group from i
      on; an exception stops the run with what was committed before it. */
  function LettersProcessed(db: Db, groups: seq<seq<string>>, i: nat): (r: Step)
    requires |groups| == 26 && i <= 26
    ensures r.Stopped? ==> r.error == NoSuchTable || r.error == IndexOutOfRange
    ensures forall c :: !(IsLowerLetter(c) && c as int - 97 >= i) ==> Part(r.db, c) == Part(db, c)
    decreases 26 - i
  {
    if i == 26 then Done(db)
    else if groups[i] == [] then LettersProcessed(db, groups, i + 1)
    else
      match BatchProcessed(db, Letter(i), groups[i])
      case Stopped(d, e) => Stopped(d, e)
      case Done(d) => LettersProcessed(d, groups, i + 1)
  }

  /** What `process_single_file` does once it has the sequences of the
      file: nothing when there are none, else group by first letter and
      process each group under its letter. */
  function SequencesProcessed(db: Db, sequences: seq<string>): (r: Step)
    ensures sequences == [] ==> r == Done(db)
    ensures r.Stopped? ==> r.error == NoSuchTable || r.error == IndexOutOfRange
    ensures forall c :: !IsLowerLetter(c) ==> Part(r.db, c) == Part(db, c)
  {
    if sequences == [] then Done(db)
    else
      var lowered := LowerAll(sequences);
      if !AllSlotted(lowered, 0) then Stopped(db, IndexOutOfRange)
      else LettersProcessed(db, Buckets(lowered, 0), 0)
  }

  /** What `process_single_file` leaves in the store, given the lines of
      the file. */
  function FileProcessed(db: Db, lines: seq<string>): (r: Step)
    ensures r.Stopped? ==> r.error == NoSuchTable || r.error == IndexOutOfRange
    ensures forall c :: !IsLowerLetter(c) ==> Part(r.db, c) == Part(db, c)
  {
    SequencesProcessed(db, NormaliseLines(lines))
  }

  /** `process_single_file`: read the sequences, then group and process
      them. */
  method ProcessSingleFile(store: Store, lines: seq<string>) returns (r: Outcome)
    modifies store
    ensures Ending(store.db, r) == FileProcessed(old(store.db), lines)
  {
    var sequences := NormaliseLines(lines);
    r := ProcessSequences(store, sequences);
  }

  /** The body of `process_single_file` after the file is read. */
  method ProcessSequences(store: Store, sequences: seq<string>) returns (r: Outcome)
    modifies store
    ensures Ending(store.db, r) == SequencesProcessed(old(store.db), sequences)
  {
    if sequences == [] {
      return Pass;
    }
    var grouped := GroupByLetter(sequences, 0);
    if grouped.Failure? {
      return Fail(grouped.error);
    }
    var groups := grouped.value;
    ghost var run := LettersProcessed(store.db, groups, 0);
    assert run == SequencesProcessed(old(store.db), sequences);
    var i := 0;
    while i < 26
      invariant 0 <= i <= 26
      invariant LettersProcessed(store.db, groups, i) == run
    {
      if groups[i] != [] {
        r := ProcessLetter(store, Letter(i), groups[i]);
        if r.Fail? {
          return;
        }
      }
      i := i + 1;
    }
    return Pass;
  }

  /** A file without a non-blank line causes no update. */
  lemma BlankFile(db: Db, lines: seq<string>)
    requires forall i, j :: 0 <= i < |lines| && 0 <= j < |lines[i]| ==> IsSpace(lines[i][j])
    ensures FileProcessed(db, lines) == Done(db)
  {
    BlankLines(lines);
  }

  lemma {:induction false} BlankLines(lines: seq<string>)
    requires forall i, j :: 0 <= i < |lines| && 0 <= j < |lines[i]| ==> IsSpace(lines[i][j])
    ensures NormaliseLines(lines) == []
  {
    if lines != [] {
      StripEmptyIffBlank(lines[0]);
      assert forall i, j :: 0 <= i < |lines| - 1 && 0 <= j < |lines[1..][i]| ==> IsSpace(lines[1..][i][j]) by {
        forall i, j | 0 <= i < |lines| - 1 && 0 <= j < |lines[1..][i]| ensures IsSpace(lines[1..][i][j]) {
          assert lines[1..][i] == lines[i + 1];
        }
      }
      BlankLines(lines[1..]);
    }
  }

  /** Each group is processed under `chr(97 + i)`, which is the first letter
      of every sequence in it when the file holds lowercase letters only. */
  lemma GroupLetter(lines: seq<string>, i: nat, s: string)
    requires i < 26
    requires s in Buckets(LowerAll(NormaliseLines(lines)), 0)[i]
    requires IsLowerLetter(s[0])
    ensures s[0] == Letter(i)
  {
    BucketMembers(LowerAll(NormaliseLines(lines)), 0, i, s);
  }

  /** The letters of `process_single_file` from group i on only raise
      flags. */
  lemma {:induction false} LettersRaise(db: Db, groups: seq<seq<string>>, i: nat)
    requires |groups| == 26 && i <= 26
    ensures Raised(db, LettersProcessed(db, groups, i).db)
    decreases 26 - i
  {
    if i < 26 {
      if groups[i] == [] {
        LettersRaise(db, groups, i + 1);
      } else {
        BatchRaises(db, Letter(i), groups[i]);
        match BatchProcessed(db, Letter(i), groups[i])
        case Stopped(_, _) =>
        case Done(d) =>
          LettersRaise(d, groups, i + 1);
          RaisedTrans(db, d, LettersProcessed(d, groups, i + 1).db);
      }
    }
  }

  /** Whatever the file holds, `process_single_file` never adds or removes
      a row and never clears a flag. */
  lemma FileRaises(db: Db, lines: seq<string>)
    ensures Raised(db, FileProcessed(db, lines).db)
  {
    var sequences := NormaliseLines(lines);
    var lowered := LowerAll(sequences);
    if sequences != [] && AllSlotted(lowered, 0) {
      LettersRaise(db, Buckets(lowered, 0), 0);
    }
  }
}
