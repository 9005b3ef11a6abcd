/**
 * The word database and its cleaning step. A database is a table of rows with
 * a `word` and a `count` column; cleaning adds a `freq` column (each count over
 * the sum of all counts) and keeps the rows of the configured word length whose
 * frequency is strictly above the cutoff, in their original order.
 */
module Database {

  /** One row of the input table. */
  datatype Row = Row(word: string, count: nat)

  /** One row of the cleaned table: the input row plus its `freq` column. */
  datatype Entry = Entry(word: string, count: nat, freq: real)

  /** The sum of the `count` column. */
  function Total(db: seq<Row>): (total: nat)
  {
    if db == [] then 0 else db[0].count + Total(db[1..])
  }

  /** The cleaned-table row made from `row` when the counts sum to `total`. */
  function FreqEntry(row: Row, total: nat): (e: Entry)
    requires total > 0
  {
    Entry(row.word, row.count, row.count as real / total as real)
  }

  /**
   * A copy of the table with the `freq` column added: every row's count over
   * `total`, the sum of the counts of the whole table.
   */
  function WithFrequency(db: seq<Row>, total: nat): (r: seq<Entry>)
    requires total > 0
    ensures |r| == |db|
    ensures forall i :: 0 <= i < |db| ==> r[i] == FreqEntry(db[i], total)
  {
    if db == [] then [] else [FreqEntry(db[0], total)] + WithFrequency(db[1..], total)
  }

  /** The two masks of the cleaning step: the word length and the strict cutoff. */
  predicate Kept(e: Entry, length: int, cutoff: real)
  {
    |e.word| == length && e.freq > cutoff
  }

  /** The rows of `entries` on which both masks hold. */
  function Select(entries: seq<Entry>, length: int, cutoff: real): (r: seq<Entry>)
    ensures |r| <= |entries|
    ensures forall e :: e in r ==> e in entries && Kept(e, length, cutoff)
  {
    if entries == [] then []
    else
      var rest := Select(entries[1..], length, cutoff);
      if Kept(entries[0], length, cutoff) then [entries[0]] + rest else rest
  }

  /**
   * The cleaned database. When every count is zero the division yields NaN in
   * each row (0 / 0), and a NaN frequency never exceeds the cutoff, so nothing
   * is kept.
   */
  function CleanDb(db: seq<Row>, length: int, cutoff: real): (r: seq<Entry>)
    ensures forall e :: e in r ==> |e.word| == length && e.freq > cutoff
  {
    var total := Total(db);
    if total == 0 then [] else Select(WithFrequency(db, total), length, cutoff)
  }

  /**
   * `r` is `entries` restricted to the positions `idx`, listed in increasing
   * order, and `idx` holds exactly the positions whose row passes both masks.
   */
  ghost predicate OrderedFilterOf(r: seq<Entry>, entries: seq<Entry>, idx: seq<nat>, length: int, cutoff: real)
  {
    && |idx| == |r|
    && (forall k :: 0 <= k < |idx| ==> idx[k] < |entries| && r[k] == entries[idx[k]])
    && (forall k, l :: 0 <= k < l < |idx| ==> idx[k] < idx[l])
    && (forall i :: 0 <= i < |entries| ==> (Kept(entries[i], length, cutoff) <==> i in idx))
  }

  /** `Select` keeps exactly the rows passing both masks, in their original order. */
  lemma {:induction false} SelectIsOrderedFilter(entries: seq<Entry>, length: int, cutoff: real)
    returns (idx: seq<nat>)
    ensures OrderedFilterOf(Select(entries, length, cutoff), entries, idx, length, cutoff)
  {
    if entries == [] {
      idx := [];
    } else {
      var tail := SelectIsOrderedFilter(entries[1..], length, cutoff);
      idx := ConsFilter(entries, tail, length, cutoff);
    }
  }

  /** One step of `SelectIsOrderedFilter`: from the positions kept in the tail to those kept in the whole. */
  lemma ConsFilter(entries: seq<Entry>, tail: seq<nat>, length: int, cutoff: real) returns (idx: seq<nat>)
    requires entries != []
    requires OrderedFilterOf(Select(entries[1..], length, cutoff), entries[1..], tail, length, cutoff)
    ensures OrderedFilterOf(Select(entries, length, cutoff), entries, idx, length, cutoff)
  {
    var rest := Select(entries[1..], length, cutoff);
    var shifted := seq(|tail|, k requires 0 <= k < |tail| => tail[k] + 1);
    ShiftedPositions(entries, rest, tail, shifted, length, cutoff);
    assert Select(entries, length, cutoff) == if Kept(entries[0], length, cutoff) then [entries[0]] + rest else rest;
    if Kept(entries[0], length, cutoff) {
      idx := [0] + shifted;
      PrependKept(entries, rest, shifted, length, cutoff);
    } else {
      idx := shifted;
      SkipDropped(entries, rest, shifted, length, cutoff);
    }
  }

  /** When the first row fails a mask, the tail's result and shifted positions are the whole's. */
  lemma SkipDropped(entries: seq<Entry>, rest: seq<Entry>, shifted: seq<nat>, length: int, cutoff: real)
    requires entries != [] && !Kept(entries[0], length, cutoff)
    requires |shifted| == |rest|
    requires forall k :: 0 <= k < |shifted| ==> 1 <= shifted[k] < |entries| && rest[k] == entries[shifted[k]]
    requires forall k, l :: 0 <= k < l < |shifted| ==> shifted[k] < shifted[l]
    requires forall i :: 1 <= i < |entries| ==> (Kept(entries[i], length, cutoff) <==> i in shifted)
    requires 0 !in shifted
    ensures OrderedFilterOf(rest, entries, shifted, length, cutoff)
  {
  }

  /** When the first row passes the masks, it and position 0 go in front of the tail's result. */
  lemma PrependKept(entries: seq<Entry>, rest: seq<Entry>, shifted: seq<nat>, length: int, cutoff: real)
    requires entries != [] && Kept(entries[0], length, cutoff)
    requires |shifted| == |rest|
    requires forall k :: 0 <= k < |shifted| ==> 1 <= shifted[k] < |entries| && rest[k] == entries[shifted[k]]
    requires forall k, l :: 0 <= k < l < |shifted| ==> shifted[k] < shifted[l]
    requires forall i :: 1 <= i < |entries| ==> (Kept(entries[i], length, cutoff) <==> i in shifted)
    ensures OrderedFilterOf([entries[0]] + rest, entries, [0] + shifted, length, cutoff)
  {
    var idx := [0] + shifted;
    var r := [entries[0]] + rest;
    forall k | 1 <= k < |idx|
      ensures idx[k] < |entries| && r[k] == entries[idx[k]]
    {
      assert idx[k] == shifted[k - 1] && r[k] == rest[k - 1];
    }
    forall k, l | 0 <= k < l < |idx|
      ensures idx[k] < idx[l]
    {
      assert idx[l] == shifted[l - 1];
      if k > 0 {
        assert idx[k] == shifted[k - 1];
      }
    }
    forall i | 0 <= i < |entries|
      ensures Kept(entries[i], length, cutoff) <==> i in idx
    {
      if i > 0 {
        assert i in idx <==> i in shifted;
      }
    }
  }

  /** Shifting the tail's positions by one gives the positions kept among `entries` after the first. */
  lemma ShiftedPositions(entries: seq<Entry>, rest: seq<Entry>, tail: seq<nat>, shifted: seq<nat>, length: int, cutoff: real)
    requires entries != []
    requires OrderedFilterOf(rest, entries[1..], tail, length, cutoff)
    requires |shifted| == |tail| && forall k :: 0 <= k < |tail| ==> shifted[k] == tail[k] + 1
    ensures |shifted| == |rest|
    ensures forall k :: 0 <= k < |shifted| ==> 1 <= shifted[k] < |entries| && rest[k] == entries[shifted[k]]
    ensures forall k, l :: 0 <= k < l < |shifted| ==> shifted[k] < shifted[l]
    ensures forall i :: 1 <= i < |entries| ==> (Kept(entries[i], length, cutoff) <==> i in shifted)
    ensures 0 !in shifted
  {
    forall k | 0 <= k < |shifted|
      ensures 1 <= shifted[k] < |entries| && rest[k] == entries[shifted[k]]
    {
      assert entries[1..][tail[k]] == entries[shifted[k]];
    }
    forall i | 1 <= i < |entries|
      ensures Kept(entries[i], length, cutoff) <==> i in shifted
    {
      assert entries[i] == entries[1..][i - 1];
      if i - 1 in tail {
        var k :| 0 <= k < |tail| && tail[k] == i - 1;
        assert shifted[k] == i;
      }
    }
  }

  /** Whether the cleaning step keeps `row` of a table whose counts sum to `total`. */
  predicate RowKept(row: Row, total: nat, length: int, cutoff: real)
    requires total > 0
  {
    |row.word| == length && row.count as real / total as real > cutoff
  }

  /**
   * The cleaned database lists, in input order, exactly the rows of the right
   * length whose count over the total of the WHOLE input exceeds the cutoff,
   * each with that frequency added.
   */
  lemma CleanDbIsOrderedFilter(db: seq<Row>, length: int, cutoff: real) returns (idx: seq<nat>)
    requires Total(db) > 0
    ensures |idx| == |CleanDb(db, length, cutoff)|
    ensures forall k :: 0 <= k < |idx| ==>
              idx[k] < |db| && CleanDb(db, length, cutoff)[k] == FreqEntry(db[idx[k]], Total(db))
    ensures forall k, l :: 0 <= k < l < |idx| ==> idx[k] < idx[l]
    ensures forall i :: 0 <= i < |db| ==> (RowKept(db[i], Total(db), length, cutoff) <==> i in idx)
  {
    idx := SelectIsOrderedFilter(WithFrequency(db, Total(db)), length, cutoff);
  }

  /** Every row of the cleaned database is a row of the input with its frequency added. */
  lemma CleanDbRowsComeFromInput(db: seq<Row>, length: int, cutoff: real, e: Entry)
    requires e in CleanDb(db, length, cutoff)
    ensures Total(db) > 0
    ensures exists i :: 0 <= i < |db| && e == FreqEntry(db[i], Total(db)) && RowKept(db[i], Total(db), length, cutoff)
  {
    var idx := CleanDbIsOrderedFilter(db, length, cutoff);
    var k :| 0 <= k < |idx| && CleanDb(db, length, cutoff)[k] == e;
    assert db[idx[k]].word == e.word;
  }

  /** Every frequency of the `freq` column lies between 0 and 1. */
  lemma FrequencyInUnitInterval(db: seq<Row>, i: nat)
    requires i < |db| && Total(db) > 0
    ensures 0.0 <= FreqEntry(db[i], Total(db)).freq <= 1.0
  {
    CountAtMostTotal(db, i);
    RatioInUnitInterval(db[i].count, Total(db));
  }

  /** A count no larger than a positive total is a fraction of it between 0 and 1. */
  lemma RatioInUnitInterval(count: nat, total: nat)
    requires 0 < total && count <= total
    ensures 0.0 <= count as real / total as real <= 1.0
  {
    var c, t := count as real, total as real;
    assert (c / t) * t == c;
  }

  /** No row's count exceeds the sum of all counts. */
  lemma {:induction false} CountAtMostTotal(db: seq<Row>, i: nat)
    requires i < |db|
    ensures db[i].count <= Total(db)
  {
    if i > 0 {
      CountAtMostTotal(db[1..], i - 1);
    }
  }

  /**
   * With a positive total, the strict cutoff on the frequency is the
   * float-free test `count > cutoff * total`.
   */
  lemma KeptIffCrossMultiplied(row: Row, total: nat, length: int, cutoff: real)
    requires total > 0
    ensures RowKept(row, total, length, cutoff) <==> |row.word| == length && row.count as real > cutoff * total as real
  {
    var f := row.count as real / total as real;
    assert f * total as real == row.count as real;
    if f > cutoff {
      assert f * total as real > cutoff * total as real;
    } else {
      assert f * total as real <= cutoff * total as real;
    }
  }

  /** The sum of the counts is zero only when every row has count zero. */
  lemma {:induction false} ZeroTotal(db: seq<Row>)
    ensures Total(db) == 0 <==> forall i :: 0 <= i < |db| ==> db[i].count == 0
  {
    if db != [] {
      ZeroTotal(db[1..]);
      assert forall i :: 1 <= i < |db| ==> db[i] == db[1..][i - 1];
    }
  }
}
