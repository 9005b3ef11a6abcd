/**
 * The game back end: a session object that holds the cleaned word database,
 * the number of attempts made, the per-letter information state and the
 * target word. The attempt counter and the state table are unset until the
 * first call to `Start`.
 */
module Backend {
  import opened Wrappers
  import opened Alphabet
  import opened Database

  /** What is known about one letter. */
  datatype ClonleState =
    | Unknown    // no information yet
    | Contained  // in the word, location not found
    | Located    // in the word, location found

  datatype Error =
    | NotInitialized  // the state was read before `Start`
    | EmptyDatabase   // a target was sampled from a cleaned database with no rows

  /** The constructor's default frequency cutoff, 0.4e-5. */
  const DefaultFrequencyCutoff: real := 0.000004
  /** The constructor's default maximum number of attempts. */
  const DefaultMaxAttempts: int := 6

  /** The table every letter is reset to by `Start`. */
  function UnknownTable(): (t: map<char, ClonleState>)
  {
    map c | c in AsciiLowercase :: Unknown
  }

  /** The reset table has one entry for each of the 26 lowercase letters, and all are `Unknown`. */
  lemma UnknownTableShape()
    ensures UnknownTable().Keys == LowercaseSet()
    ensures |UnknownTable()| == 26
    ensures forall c :: c in UnknownTable() <==> IsLowercaseLetter(c)
    ensures forall c :: c in UnknownTable() ==> UnknownTable()[c] == Unknown
  {
    LowercaseSetSize();
    forall c ensures c in UnknownTable() <==> IsLowercaseLetter(c) {
      LowercaseSetIsRange(c);
    }
  }

  /** Whether `word` is the `word` column of some row of `db`. */
  predicate InDatabase(word: string, db: seq<Entry>)
  {
    exists i :: 0 <= i < |db| && db[i].word == word
  }

  class ClonleBackend {
    const length: int
    const frequencyCutoff: real
    const maxAttempts: int
    /** The cleaned database, computed once by the constructor. */
    const database: seq<Entry>

    /** Attempts made; `None` before `Start`. */
    var attempts: Option<nat>
    /** The per-letter information state; `None` before `Start`. */
    var state: Option<map<char, ClonleState>>
    /** The word to guess; there is none before a successful `Start`. */
    var target: Option<string>

    /**
     * The object invariant: the counter and the table are set together, a set
     * table covers exactly the 26 letters, a target is a word of the cleaned
     * database, and every word there has the configured length.
     */
    ghost predicate Valid()
      reads this
    {
      && attempts.None? == state.None?
      && (state.Some? ==> state.value.Keys == LowercaseSet())
      && (target.Some? ==> state.Some? && InDatabase(target.value, database))
      && (forall e :: e in database ==> |e.word| == length && e.freq > frequencyCutoff)
    }

    /** A new back end over the raw table `db`; nothing is set until `Start`. */
    constructor (db: seq<Row>, length: int, frequencyCutoff: real, maxAttempts: int)
      ensures Valid()
      ensures this.length == length && this.frequencyCutoff == frequencyCutoff && this.maxAttempts == maxAttempts
      ensures attempts == None && state == None && target == None
      ensures database == CleanDb(db, length, frequencyCutoff)
    {
      this.length := length;
      this.frequencyCutoff := frequencyCutoff;
      this.maxAttempts := maxAttempts;
      attempts := None;
      state := None;
      target := None;
      database := CleanDb(db, length, frequencyCutoff);
    }

    /** The information state, or `NotInitialized` while it is unset. */
    function GetState(): (r: Result<map<char, ClonleState>, Error>)
      reads this
      ensures r.Failure? <==> state.None?
      ensures r.Failure? ==> r.error == NotInitialized
      ensures r.Success? ==> r.value == state.value
    {
      match state
      case None => Failure(NotInitialized)
      case Some(table) => Success(table)
    }

    /**
     * Starts a new game: zero attempts, every letter `Unknown`, then a target
     * drawn from the cleaned database. Whatever the previous state was, the
     * counter and the table are reset; if the database is empty the draw fails
     * after the reset and the target is left as it was.
     */
    method Start() returns (outcome: Outcome<Error>)
      requires Valid()
      modifies this`attempts, this`state, this`target
      ensures Valid()
      ensures attempts == Some(0) && state == Some(UnknownTable())
      ensures outcome.Pass? <==> |database| > 0
      ensures outcome.Pass? ==> target.Some? && InDatabase(target.value, database)
      ensures outcome.Fail? ==> outcome.error == EmptyDatabase && target == old(target)
    {
      attempts := Some(0);
      ResetState();
      UnknownTableShape();
      var drawn := SelectTarget();
      match drawn
      case Success(word) =>
        target := Some(word);
        outcome := Pass;
      case Failure(e) =>
        outcome := Fail(e);
    }

    /** Rebuilds the table letter by letter, mapping each lowercase letter to `Unknown`. */
    method ResetState()
      modifies this`state
      ensures state == Some(UnknownTable())
    {
      state := Some(map[]);
      for k := 0 to |AsciiLowercase|
        invariant state.Some?
        invariant state.value == map c | c in AsciiLowercase[..k] :: Unknown
      {
        assert AsciiLowercase[..k + 1] == AsciiLowercase[..k] + [AsciiLowercase[k]];
        state := Some(state.value[AsciiLowercase[k] := Unknown]);
      }
      assert AsciiLowercase[..|AsciiLowercase|] == AsciiLowercase;
    }

    /**
     * Draws a word of the cleaned database. Which row is drawn is left open:
     * any row of the database may be chosen.
     */
    method SelectTarget() returns (r: Result<string, Error>)
      requires Valid()
      ensures r.Success? <==> |database| > 0
      ensures r.Success? ==> InDatabase(r.value, database) && |r.value| == length
      ensures r.Failure? ==> r.error == EmptyDatabase
    {
      if |database| == 0 {
        r := Failure(EmptyDatabase);
      } else {
        var i :| 0 <= i < |database|;
        assert database[i] in database;
        r := Success(database[i].word);
      }
    }
  }
}
