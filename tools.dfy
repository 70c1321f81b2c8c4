/** tools.py: `DatabaseManager`, the one-sequence-at-a-time interface to the
    shard store. */
module Tools {
  import opened Text
  import opened Shards
  import Database

  /** What `set_is_found(sequence, isFound)` leaves in the store: the length
      is checked before anything else, then one UPDATE of table `s[:2]` in
      partition `s[0]`, with `s` the lowered sequence. */
  function FoundSet(db: Db, sequence: string, isFound: bool): (r: Result<Db>)
    ensures r.Failure? <==> |sequence| != 5 || Lower(sequence)[..2] !in Part(db, LowerChar(sequence[0]))
    ensures |sequence| != 5 ==> r == Failure(LengthNotFive)
    ensures r.Failure? && |sequence| == 5 ==> r.error == NoSuchTable
  {
    if |sequence| != 5 then Failure(LengthNotFive)
    else
      var s := Lower(sequence);
      var p := Part(db, s[0]);
      var name := s[..2];
      if name !in p then Failure(NoSuchTable)
      else Success(db[s[0] := p[name := SetRows(p[name], [s], isFound)]])
  }

  /** `set_is_found` is `update_sequences` on the one-element list of the
      sequence, under the sequence's own first letter. */
  lemma FoundSetIsUpdate(db: Db, sequence: string, isFound: bool)
    requires |sequence| == 5
    ensures FoundSet(db, sequence, isFound)
            == Database.Updated(db, LowerChar(sequence[0]), [sequence], isFound)
  {
    var s := Lower(sequence);
    assert Lower(Take2(sequence)) == s[..2];
    assert Database.UpdateTarget([sequence]) == s[..2];
    assert LowerAll([sequence]) == [s];
  }

  /** Round trip: after `set_is_found(s, b)` the lookup of `s` reads `b`
      when `s` had a row, and still no row when it had none. */
  lemma SetThenGet(db: Db, sequence: string, isFound: bool)
    requires FoundSet(db, sequence, isFound).Success?
    ensures var after := Database.GetIsFound(FoundSet(db, sequence, isFound).value, sequence);
            match Database.GetIsFound(db, sequence)
            case Success(Some(_)) => after == Success(Some(isFound))
            case Success(None) => after == Success(None)
            case Failure(_) => false
  {
  }

  /** Every other sequence reads the same before and after. */
  lemma SetLeavesOthers(db: Db, sequence: string, isFound: bool, other: string)
    requires FoundSet(db, sequence, isFound).Success?
    requires Lower(other) != Lower(sequence)
    ensures Database.GetIsFound(FoundSet(db, sequence, isFound).value, other)
            == Database.GetIsFound(db, other)
  {
  }

  /** Setting a flag never adds or removes a partition, table or row. */
  lemma SetKeepsRows(db: Db, sequence: string, isFound: bool)
    requires FoundSet(db, sequence, isFound).Success?
    ensures SameRows(db, FoundSet(db, sequence, isFound).value)
  {
  }

  /** `bulk_set_is_found`: `set_is_found(s.strip(), isFound)` for each `s` in
      order. Each call commits on its own, so the first exception keeps
      every earlier update. */
  function BulkSet(db: Db, sequences: seq<string>, isFound: bool): (r: Step)
    ensures r.Stopped? ==> r.error == LengthNotFive || r.error == NoSuchTable
  {
    if sequences == [] then Done(db)
    else
      match FoundSet(db, Strip(sequences[0]), isFound)
      case Failure(e) => Stopped(db, e)
      case Success(d) => BulkSet(d, sequences[1..], isFound)
  }

  /** A bulk update, complete or stopped, adds or removes no partition,
      table or row. */
  lemma {:induction false} BulkSetKeepsRows(db: Db, sequences: seq<string>, isFound: bool)
    ensures SameRows(db, BulkSet(db, sequences, isFound).db)
  {
    var last := BulkSet(db, sequences, isFound).db;
    if sequences != [] && FoundSet(db, Strip(sequences[0]), isFound).Success? {
      var d := FoundSet(db, Strip(sequences[0]), isFound).value;
      assert last == BulkSet(d, sequences[1..], isFound).db;
      SetKeepsRows(db, Strip(sequences[0]), isFound);
      BulkSetKeepsRows(d, sequences[1..], isFound);
      SameRowsTrans(db, d, last);
    } else {
      assert last == db;
    }
  }

  /** One step of the bulk update, from position i of the list. */
  lemma BulkSetStep(db: Db, sequences: seq<string>, i: nat, isFound: bool)
    requires i < |sequences|
    ensures BulkSet(db, sequences[i..], isFound) ==
            match FoundSet(db, Strip(sequences[i]), isFound)
            case Failure(e) => Stopped(db, e)
            case Success(d) => BulkSet(d, sequences[i + 1..], isFound)
  {
    assert sequences[i..][0] == sequences[i];
    assert sequences[i..][1..] == sequences[i + 1..];
  }

  /** A bulk update of two lists is the bulk update of the first followed by
      that of the second, unless the first stopped. */
  lemma {:induction false} BulkSetAppend(db: Db, a: seq<string>, b: seq<string>, isFound: bool)
    ensures BulkSet(db, a + b, isFound) ==
            match BulkSet(db, a, isFound)
            case Done(d) => BulkSet(d, b, isFound)
            case Stopped(d, e) => Stopped(d, e)
  {
    if a == [] {
      assert a + b == b;
    } else {
      assert (a + b)[0] == a[0] && (a + b)[1..] == a[1..] + b;
      match FoundSet(db, Strip(a[0]), isFound)
      case Failure(_) =>
      case Success(d) => BulkSetAppend(d, a[1..], b, isFound);
    }
  }

  /** `main` strips the literal `"\n\n\t"` to the empty string, so it hands
      `['']` to `bulk_set_is_found`, which raises on the length check before
      touching the store. */
  lemma MainRaises(db: Db)
    ensures Strip("\n\n\t") == []
    ensures BulkSet(db, [Strip("\n\n\t")], true) == Stopped(db, LengthNotFive)
  {
    assert IsSpace('\t') && IsSpace('\n');
    assert StripLeft("\n\n\t") == StripLeft("\n\t") == StripLeft("\t") == [];
  }

  /** `DatabaseManager`: every call reaches the same shard files. */
  class DatabaseManager {
    const shards: Store

    constructor (shards: Store)
      ensures this.shards == shards
    {
      this.shards := shards;
    }

    /** `get_is_found`: checks the length before lowering, then reads table
        `first + second` of partition `first`. */
    function GetIsFound(sequence: string): (r: Result<Option<bool>>)
      reads shards
      ensures r.Failure? <==> |sequence| != 5 || Lower(sequence)[..2] !in Part(shards.db, LowerChar(sequence[0]))
      ensures |sequence| != 5 ==> r == Failure(LengthNotFive)
      ensures r.Success? ==>
                var s := Lower(sequence);
                var t := Part(shards.db, s[0])[s[..2]];
                r.value == if s in t then Some(t[s]) else None
    {
      if |sequence| != 5 then Failure(LengthNotFive)
      else
        var s := Lower(sequence);
        var first, second := s[0], s[1];
        var p := Part(shards.db, first);
        var name := [first, second];
        assert name == s[..2];
        if name !in p then Failure(NoSuchTable)
        else if s in p[name] then Success(Some(p[name][s]))
        else Success(None)
    }

    /** The manager's lookup and `database.get_is_found` agree on every
        input, although one checks the length before lowering and the other
        after. */
    lemma GetIsFoundAgrees(sequence: string)
      ensures GetIsFound(sequence) == Database.GetIsFound(shards.db, sequence)
    {
      if |sequence| == 5 {
        var s := Lower(sequence);
        assert [s[0], s[1]] == s[..2];
      }
    }

    /** `set_is_found`: raises on a bad length, else one UPDATE and a commit. */
    method SetIsFound(sequence: string, isFound: bool) returns (r: Outcome)
      modifies shards
      ensures match FoundSet(old(shards.db), sequence, isFound)
                case Success(d) => r == Pass && shards.db == d
                case Failure(e) => r == Fail(e) && shards.db == old(shards.db)
    {
      if |sequence| != 5 {
        return Fail(LengthNotFive);
      }
      var s := Lower(sequence);
      var first, second := s[0], s[1];
      var p := Part(shards.db, first);
      var name := [first, second];
      assert name == s[..2];
      if name !in p {
        return Fail(NoSuchTable);
      }
      var t := p[name];
      if s in t {
        t := t[s := isFound];
      }
      assert t == SetRows(p[name], [s], isFound);
      shards.db := shards.db[first := p[name := t]];
      return Pass;
    }

    /** `bulk_set_is_found`: strips each sequence and sets its flag, in
        order; the first exception ends the loop. */
    method BulkSetIsFound(sequences: seq<string>, isFound: bool) returns (r: Outcome)
      modifies shards
      ensures Ending(shards.db, r) == BulkSet(old(shards.db), sequences, isFound)
    {
      ghost var run := BulkSet(shards.db, sequences, isFound);
      var i := 0;
      while i < |sequences|
        invariant 0 <= i <= |sequences|
        invariant BulkSet(shards.db, sequences[i..], isFound) == run
      {
        ghost var before := shards.db;
        ghost var step := FoundSet(before, Strip(sequences[i]), isFound);
        BulkSetStep(before, sequences, i, isFound);
        r := SetIsFound(Strip(sequences[i]), isFound);
        if r.Fail? {
          assert step == Failure(r.error) && shards.db == before;
          return;
        }
        assert step == Success(shards.db);
        i := i + 1;
      }
      return Pass;
    }
  }
}
