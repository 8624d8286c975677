/** Counting: quorums of 2f+1 validators out of n share at least 4f+2-n of them. */
module Quorums {
  import opened Types

  /** The validator indices below n. */
  function Below(n: nat): (s: set<uint16>)
    requires n <= 0x1_0000
    ensures forall i: uint16 :: i in s <==> i < n
    ensures |s| == n
  {
    if n == 0 then {} else Below(n - 1) + {n - 1}
  }

  lemma SubsetSize<T>(a: set<T>, b: set<T>)
    requires a <= b
    ensures |a| <= |b|
  {
    assert b == a + (b - a);
  }

  /** Two sets within a universe overlap by at least what their sizes exceed it. */
  lemma Overlap<T>(a: set<T>, b: set<T>, universe: set<T>)
    requires a <= universe && b <= universe
    ensures |a * b| >= |a| + |b| - |universe|
  {
    assert |a + b| == |a| + |b| - |a * b|;
    SubsetSize(a + b, universe);
  }

  /** A set larger than another has an element outside it. */
  lemma Outside<T>(a: set<T>, b: set<T>) returns (x: T)
    requires |a| > |b|
    ensures x in a && x !in b
  {
    if a <= b { SubsetSize(a, b); }
    x :| x in a && x !in b;
  }
}
