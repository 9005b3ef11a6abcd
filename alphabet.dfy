/** The 26 lowercase ASCII letters the per-letter state table is keyed by. */
module Alphabet {

  /** Python's `string.ascii_lowercase`. */
  const AsciiLowercase: string := "abcdefghijklmnopqrstuvwxyz"

  predicate IsLowercaseLetter(c: char) {
    'a' <= c <= 'z'
  }

  /** The set of characters of `AsciiLowercase`. */
  function LowercaseSet(): (letters: set<char>)
  {
    set c | c in AsciiLowercase
  }

  /** `AsciiLowercase` holds the letters from 'a' to 'z' in order, each once. */
  lemma AsciiLowercaseInOrder()
    ensures |AsciiLowercase| == 26
    ensures forall i :: 0 <= i < 26 ==> AsciiLowercase[i] as int == 'a' as int + i
  {
  }

  /** A character is in `AsciiLowercase` exactly when it lies between 'a' and 'z'. */
  lemma LowercaseSetIsRange(c: char)
    ensures c in LowercaseSet() <==> IsLowercaseLetter(c)
  {
    AsciiLowercaseInOrder();
    if IsLowercaseLetter(c) {
      var i := c as int - 'a' as int;
      assert AsciiLowercase[i] == c;
    }
  }

  /** The alphabet has exactly 26 distinct letters. */
  lemma LowercaseSetSize()
    ensures |LowercaseSet()| == 26
  {
    AsciiLowercaseInOrder();
    DistinctCard(AsciiLowercase);
  }

  /** The set of elements of a sequence without repetitions has its length. */
  lemma {:induction false} DistinctCard<T>(s: seq<T>)
    requires forall i, j :: 0 <= i < j < |s| ==> s[i] != s[j]
    ensures |set x | x in s| == |s|
  {
    if s != [] {
      DistinctCard(s[1..]);
      assert (set x | x in s) == {s[0]} + (set x | x in s[1..]);
      assert s[0] !in (set x | x in s[1..]);
    }
  }
}
