# Clonle back end, modelled in Dafny

Clonle is a Wordle-style word game. Its back end, `ClonleBackend` in
`backend.py`, holds a cleaned word database and the state of one game. That
state is the number of attempts made, a table giving a `ClonleState`
(`UNKNOWN`, `CONTAINED`, `LOCATED`) for each lowercase letter, and the target
word. This project models that back end in two parts.

- **Database cleaning** (`database.dfy`, module `Database`). The input table's
  rows are `(word, count)`. Cleaning copies the table and adds a `freq`
  column: each count divided by the sum of the counts of the whole input. It
  then keeps, in input order, the rows whose word has the configured length
  and whose frequency is strictly above the cutoff. These are pure functions
  over `seq<Row>` and `seq<Entry>`. Frequencies are exact `real`s.
- **Lifecycle** (`backend.dfy`, module `Backend`). The class `ClonleBackend`
  has `Option` fields for `attempts`, `state` and `target`. They stay unset
  until `Start`. `GetState` fails with `NotInitialized` while the table is
  unset. `Start` sets the counter to zero and rebuilds the table with a loop
  over the 26 letters. Then it draws some word of the cleaned database; which
  word is drawn is left open (a nondeterministic choice). The configuration
  and the cleaned database are `const` fields, because nothing reassigns them
  after the constructor.

`alphabet.dfy` proves the facts about `ascii_lowercase` that the table
relies on. `wrappers.dfy` holds `Option`, `Result` and `Outcome`.
`scenarios.dfy` restates the lifecycle and cleaning cases from
`test_backend.py` as client methods and lemmas. It also holds three cases
that follow from the code and its docstring.

Where the code and its docstring disagree, the model follows the code. The
docstring (backend.py:29-30) says words *below* the cutoff are ignored, which
would keep a word whose frequency equals the cutoff. The code's test is strict
(`>`, backend.py:93), so such a word is dropped (`Scenarios.CutoffIsStrict`).

Two further facts about the code:
- the cleaned table keeps the input order of the rows;
- `length` is not checked. A negative length keeps no rows. Length 0 keeps
  only rows whose word is empty (`Scenarios.EmptyWordAtLengthZero`).

Two more cases are modelled as the libraries would behave:
- **All counts zero** (including an empty table). Every row's frequency is
  `0 / 0`, which is NaN, and NaN never exceeds the cutoff. So the cleaned
  database is empty (`Database.CleanDb`, `Database.ZeroTotal`).
- **Sampling from an empty cleaned database.** This raises. `Start` has
  already reset the counter and the table when it does, and the target is
  left as it was (`Fail(EmptyDatabase)` from `Backend.ClonleBackend.Start`).

## Model

| member | source | states |
|---|---|---|
| `Database.WithFrequency` | backend.py:89-90 | the copied table has one row per input row, in order; row `i` keeps its word and count and gets frequency `count / total` |
| `Database.Select` | backend.py:92-95 | the result is no longer than the input; every row in it comes from the input and passes both the length mask and the strict cutoff mask |
| `Database.CleanDb` | backend.py:86-95 | every row of the cleaned database has exactly the configured length and a frequency strictly above the cutoff |
| `Database.SelectIsOrderedFilter` | backend.py:92-95 | the masked table is the input restricted to an increasing list of positions, and a position is in that list exactly when its row passes both masks |
| `Database.CleanDbIsOrderedFilter` | backend.py:89-95 | the cleaned database lists, in input order, exactly the input rows of the right length whose count over the whole input's total exceeds the cutoff, each with that frequency |
| `Database.CleanDbRowsComeFromInput` | backend.py:89-95 | every cleaned row is some input row with its frequency added, and it passes both masks; a non-empty result implies a positive total |
| `Database.KeptIffCrossMultiplied` | backend.py:90-93 | with a positive total, `count / total > cutoff` holds exactly when `count > cutoff * total` |
| `Database.FrequencyInUnitInterval` | backend.py:90 | every frequency lies between 0 and 1 |
| `Database.ZeroTotal` | backend.py:90 | the total is zero exactly when every count is zero, which is the case in which every frequency is NaN |
| `Alphabet.AsciiLowercaseInOrder` | backend.py:80 | `ascii_lowercase` has 26 characters, the letters 'a' to 'z' in order |
| `Alphabet.LowercaseSetIsRange` | backend.py:80 | a character is in `ascii_lowercase` exactly when it lies between 'a' and 'z' |
| `Alphabet.LowercaseSetSize` | backend.py:80 | `ascii_lowercase` holds 26 distinct letters |
| `Backend.UnknownTableShape` | backend.py:78-81 | the reset table's keys are exactly the 26 lowercase letters, and every value is `Unknown` |
| `Backend.ClonleBackend.constructor` | backend.py:44-60 | the configuration is stored, `attempts`, `state` and `target` are unset, and the database is the cleaned input |
| `Backend.ClonleBackend.GetState` | backend.py:62-66 | fails with `NotInitialized` exactly when the table is unset; otherwise returns the stored table |
| `Backend.ClonleBackend.Start` | backend.py:68-76 | whatever the previous state, afterwards `attempts` is 0 and the table is all `Unknown`; it succeeds exactly when the cleaned database is non-empty, and the target is then a word of it; on failure the target is unchanged; the invariant is kept |
| `Backend.ClonleBackend.ResetState` | backend.py:78-81 | the loop over `ascii_lowercase` leaves the table mapping every lowercase letter, and nothing else, to `Unknown` |
| `Backend.ClonleBackend.SelectTarget` | backend.py:97-99 | returns a word of the cleaned database, which has the configured length, exactly when the database is non-empty; otherwise fails with `EmptyDatabase` |
| `Scenarios.Lifecycle` | test_backend.py:52-75 | for any table: before `Start`, `attempts` is unset and `GetState` fails; after `Start`, and again after a second `Start`, `attempts` is 0 and the state is the 26 letters, all `Unknown` |
| `Scenarios.StartOnSmallTable` | test_backend.py:98-99 | on the table `foo`/`bar` with the default cutoff, `Start` succeeds and the target is one of the table's words |
| `Scenarios.CutoffKeepsOneRow` | test_backend.py:102-104 | counts 4 and 3 with cutoff 0.5 keep exactly one row, `foo` |
| `Scenarios.FrequencyCountsOtherLengths` | backend.py:29-31 | frequencies are computed before the length filter: a word that is the only one of its length is still dropped when its share of the whole table is below the cutoff |
| `Scenarios.CutoffIsStrict` | backend.py:93 | a frequency equal to the cutoff is dropped |
| `Scenarios.EmptyWordAtLengthZero` | backend.py:92 | the length mask compares the word's length with `length` as it is, so with length 0 an empty word above the cutoff is kept |

## Left out

- Guess scoring (`attempt`), `GameOverError`, the `MISSING` letter state and the
  `target_frequency_cutoff` argument of `start`: the tests and `clonle.py` use
  them, but `backend.py` does not define them, so there is no code to model.
- Random choice of the word: `numpy.random.default_rng` and pandas `sample`
  are library calls. `SelectTarget` may return any word of the cleaned
  database, and the `rng` constructor argument is not modelled. The code
  never uses the generator it builds, so seeding and determinism are not
  modelled either.
- Counts are non-negative integers (`nat`). Negative or fractional counts are
  not modelled. With them the total can be zero while some counts are not,
  and pandas then gives frequencies of `inf` and `-inf`. The tables built in
  `test_backend.py` (lines 13-27) all hold positive integer counts. The file
  that `clonle.py` reads is not part of this model.
- Database.Total: pandas holds `count` as 64-bit integers, and its sum wraps
  past 2^63-1; `Total` is unbounded, so tables whose counts sum beyond that
  are not modelled. For example, two counts of 2^62 sum to -2^63 in pandas,
  which keeps no row, while `CleanDb` keeps both rows with frequency 0.5.
- Floating point: frequencies are exact reals. Rounding in the float division
  can differ from exact `count / total` near the cutoff.
- Taking the database as a file name, as the constructor's docstring allows:
  the code treats its argument as a table only. Reading the CSV file is I/O in
  `clonle.py`.
- `Backend.ClonleBackend.GetState`: returns the table as a value. Python
  returns the dictionary object itself, so a caller can change it; that
  aliasing is not modelled.
- `clonle.py` (argument parsing, coloured terminal output, the input loop,
  history display): presentation and I/O.
- `_select_word`: its body is empty.
- `max_attempts`: it is stored and nothing in `backend.py` reads it.
