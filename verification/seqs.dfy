/** Small facts about sequences used by both halves of the model. */
module Seqs {

  /** No element occurs twice. */
  ghost predicate Distinct<T>(s: seq<T>) {
    forall i, j :: 0 <= i < j < |s| ==> s[i] != s[j]
  }

  /** The set of elements of a sequence. */
  function Elems<T>(s: seq<T>): set<T> {
    set x | x in s
  }

  /** The position of the first occurrence of `x` in `s`. */
  function FirstIndex<T(==)>(s: seq<T>, x: T): (i: nat)
    requires x in s
    ensures i < |s| && s[i] == x
    ensures forall k :: 0 <= k < i ==> s[k] != x
  {
    if s[0] == x then 0 else 1 + FirstIndex(s[1..], x)
  }

  /** The empty sequence is a left unit of concatenation. */
  lemma EmptyConcat<T>(x: seq<T>)
    ensures [] + x == x
  {
  }

  /** ... and a right unit. */
  lemma ConcatEmpty<T>(x: seq<T>)
    ensures x + [] == x
  {
  }

  /** Concatenation is associative. */
  lemma ConcatAssoc<T>(x: seq<T>, y: seq<T>, z: seq<T>)
    ensures (x + y) + z == x + (y + z)
  {
  }

  /** A sequence without repetitions has exactly as many elements as its set. */
  lemma {:induction false} DistinctCardinality<T>(s: seq<T>)
    requires Distinct(s)
    ensures |Elems(s)| == |s|
  {
    if |s| > 0 {
      var init := s[..|s| - 1];
      assert Distinct(init);
      DistinctCardinality(init);
      assert s[|s| - 1] !in init;
      assert Elems(s) == Elems(init) + {s[|s| - 1]} by {
        assert s == init + [s[|s| - 1]];
      }
    }
  }

  /** In a sequence without repetitions every element occurs exactly once. */
  lemma {:induction false} DistinctOccursOnce<T>(s: seq<T>, x: T)
    requires Distinct(s)
    ensures multiset(s)[x] == (if x in s then 1 else 0)
  {
    if |s| > 0 {
      var init := s[..|s| - 1];
      assert s == init + [s[|s| - 1]];
      assert Distinct(init);
      DistinctOccursOnce(init, x);
      assert s[|s| - 1] !in init;
    }
  }
}
