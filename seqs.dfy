/** Sequence helpers shared by the reducer and generator models. */
module Seqs {

  /** `s` begins with `p`, as Java's `String.startsWith`. */
  predicate StartsWith<T(==)>(s: seq<T>, p: seq<T>) {
    |p| <= |s| && s[..|p|] == p
  }

  /** The index of the first element of `s` equal to `x` (`List.indexOf`). */
  function FirstIndex<T(==)>(s: seq<T>, x: T): (i: nat)
    requires x in s
    ensures i < |s| && s[i] == x
    ensures forall j :: 0 <= j < i ==> s[j] != x
  {
    if s[0] == x then 0 else 1 + FirstIndex(s[1..], x)
  }

  /**
    * `s` with the element at `i` replaced by the elements of `ins`, in order:
    * the effect of `remove(i)` followed by `add(i + k, ins[k])` for each `k`.
    */
  function Splice<T>(s: seq<T>, i: nat, ins: seq<T>): (r: seq<T>)
    requires i < |s|
    ensures |r| == |s| - 1 + |ins|
    ensures forall k {:trigger r[k]} :: 0 <= k < |r| ==>
              r[k] == if k < i then s[k] else if k < i + |ins| then ins[k - i] else s[k + 1 - |ins|]
  {
    s[..i] + ins + s[i + 1..]
  }

  /** Elements of a splice come from `s` (other than the one at `i`) or from `ins`. */
  lemma SpliceMultiset<T>(s: seq<T>, i: nat, ins: seq<T>)
    requires i < |s|
    ensures multiset(Splice(s, i, ins)) == multiset(s) - multiset{s[i]} + multiset(ins)
  {
    assert s == s[..i] + [s[i]] + s[i + 1..];
    assert multiset(s) == multiset(s[..i]) + multiset{s[i]} + multiset(s[i + 1..]);
  }
}
