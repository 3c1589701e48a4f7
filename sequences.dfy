/** Facts about sequences shared by several modules. */
module Sequences {

  /** No value occurs twice. */
  predicate Distinct<T(==)>(s: seq<T>)
  {
    forall i, j :: 0 <= i < j < |s| ==> s[i] != s[j]
  }

  /** A non-empty sequence is its head followed by its tail. */
  lemma ConsHeadTail<T>(s: seq<T>)
    requires s != []
    ensures [s[0]] + s[1..] == s
  {
  }

  /** A sequence without repeats keeps none in its tail, and its head is not in the tail. */
  lemma DistinctHeadTail<T>(s: seq<T>)
    requires Distinct(s) && s != []
    ensures Distinct(s[1..]) && s[0] !in s[1..]
  {
    forall i, j | 0 <= i < j < |s[1..]| ensures s[1..][i] != s[1..][j] {
      assert s[1..][i] == s[i + 1] && s[1..][j] == s[j + 1];
    }
    forall j | 0 <= j < |s[1..]| ensures s[1..][j] != s[0] {
      assert s[1..][j] == s[j + 1];
    }
  }

  /**
   * When `s` has no repeats, neither has its tail, nor its head followed by
   * a sequence without repeats drawn from that tail.
   */
  lemma DistinctStep<T>(s: seq<T>, rest: seq<T>)
    requires s != [] && forall x :: x in rest ==> x in s[1..]
    ensures Distinct(s) ==> Distinct(s[1..]) && (Distinct(rest) ==> Distinct([s[0]] + rest))
  {
    if Distinct(s) {
      DistinctHeadTail(s);
      var r := [s[0]] + rest;
      if Distinct(rest) {
        forall i, j | 0 <= i < j < |r| ensures r[i] != r[j] {
          assert r[j] == rest[j - 1] && r[j] in rest;
          if i > 0 { assert r[i] == rest[i - 1]; }
        }
      }
    }
  }

  /** `r` is `s` with some elements left out, the rest in their order (matched greedily from the front). */
  predicate IsSubsequence<T(==)>(r: seq<T>, s: seq<T>)
    decreases |s|
  {
    r == [] || (s != [] && if r[0] == s[0] then IsSubsequence(r[1..], s[1..]) else IsSubsequence(r, s[1..]))
  }

  /** Concatenation is associative. */
  lemma Assoc<T>(a: seq<T>, b: seq<T>, c: seq<T>)
    ensures a + (b + c) == (a + b) + c
  {
  }
}
