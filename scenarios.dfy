/**
 * Client-side scenarios: what a caller of the back end can conclude from the
 * contracts alone, for the lifecycle and for the small tables the test suite
 * builds.
 */
module Scenarios {
  import opened Wrappers
  import opened Alphabet
  import opened Database
  import opened Backend

  /**
   * The lifecycle on any table: before `Start` the counter is unset and the
   * state cannot be read; after `Start`, and again after a second `Start`, the
   * counter is zero and the state reads back as the 26 letters, all `Unknown`.
   */
  method Lifecycle(db: seq<Row>, length: int, cutoff: real, maxAttempts: int)
    returns (attemptsBefore: Option<nat>, before: Result<map<char, ClonleState>, Error>,
             attemptsAfter: Option<nat>, after: Result<map<char, ClonleState>, Error>,
             attemptsRestarted: Option<nat>, restarted: Result<map<char, ClonleState>, Error>)
    ensures attemptsBefore == None && before == Failure(NotInitialized)
    ensures attemptsAfter == Some(0) && attemptsRestarted == Some(0)
    ensures after.Success? && restarted.Success? && after.value == restarted.value
    ensures after.Success? ==> |after.value| == 26
    ensures after.Success? ==> forall c :: c in after.value <==> IsLowercaseLetter(c)
    ensures after.Success? ==> forall c :: c in after.value ==> after.value[c] == Unknown
  {
    var game := new ClonleBackend(db, length, cutoff, maxAttempts);
    attemptsBefore := game.attempts;
    before := game.GetState();
    var _ := game.Start();
    attemptsAfter := game.attempts;
    after := game.GetState();
    var _ := game.Start();
    attemptsRestarted := game.attempts;
    restarted := game.GetState();
    UnknownTableShape();
  }

  /** The three-letter table `foo`/`bar` with counts 4 and 3. */
  function SmallTable(): (db: seq<Row>)
  {
    [Row("foo", 4), Row("bar", 3)]
  }

  /**
   * With the default cutoff both words of the small table survive cleaning,
   * so `Start` succeeds and picks one of them.
   */
  method StartOnSmallTable() returns (outcome: Outcome<Error>, target: Option<string>)
    ensures outcome == Pass
    ensures target == Some("foo") || target == Some("bar")
  {
    var game := new ClonleBackend(SmallTable(), 3, DefaultFrequencyCutoff, DefaultMaxAttempts);
    assert game.database == [Entry("foo", 4, 4.0 / 7.0), Entry("bar", 3, 3.0 / 7.0)];
    outcome := game.Start();
    target := game.target;
  }

  /** With cutoff 0.5 only `foo` (frequency 4/7) is kept; `bar` (3/7) is not. */
  lemma CutoffKeepsOneRow()
    ensures CleanDb(SmallTable(), 3, 0.5) == [Entry("foo", 4, 4.0 / 7.0)]
  {
  }

  /**
   * Frequencies count every row of the input: `foo` is the only three-letter
   * word, yet its frequency is 1/4 because of the four-letter row, so a 0.5
   * cutoff drops it.
   */
  lemma FrequencyCountsOtherLengths()
    ensures CleanDb([Row("foo", 1), Row("abcd", 3)], 3, 0.5) == []
  {
  }

  /** A frequency equal to the cutoff is not enough: the comparison is strict. */
  lemma CutoffIsStrict()
    ensures CleanDb([Row("foo", 1), Row("bar", 1)], 3, 0.5) == []
  {
  }

  /** `length` is used as given: with length 0, an empty word above the cutoff is kept. */
  lemma EmptyWordAtLengthZero()
    ensures CleanDb([Row("", 1), Row("foo", 1)], 0, 0.4) == [Entry("", 1, 1.0 / 2.0)]
  {
  }
}
