/** Facts about sequence concatenation that the proofs use as steps. */
module Seqs {
  /** A nonempty sequence is its prefix and then its last element. */
  lemma Snoc<T>(s: seq<T>)
    requires |s| > 0
    ensures s == s[..|s| - 1] + [s[|s| - 1]]
  {
  }

  /** A nonempty prefix followed by a rest is its first element and then the remainder. */
  lemma ConsSlice<T>(x: seq<T>, y: seq<T>)
    requires 0 < |x|
    ensures x + y == [x[0]] + (x[1..] + y)
  {
  }

  lemma Associative<T>(x: seq<T>, y: seq<T>, z: seq<T>)
    ensures x + (y + z) == x + y + z
  {
  }
}
