/** Distinct index sequences. */
module Permutations {

  ghost predicate Distinct<T(!new)>(ids: seq<T>) {
    forall i, j :: 0 <= i < j < |ids| ==> ids[i] != ids[j]
  }

  ghost predicate Below(ids: seq<nat>, n: nat) {
    forall i :: 0 <= i < |ids| ==> ids[i] < n
  }

  /** `ids` lists every index below `n` exactly once. */
  ghost predicate IsPermutation(ids: seq<nat>, n: nat) {
    |ids| == n && Distinct(ids) && Below(ids, n)
  }

  ghost function Range(n: nat): (s: set<nat>)
    ensures |s| == n
    ensures forall i :: i in s <==> 0 <= i < n
  {
    if n == 0 then {} else Range(n - 1) + {n - 1}
  }

  ghost function Members(ids: seq<nat>): (s: set<nat>)
    ensures forall x :: x in s <==> x in ids
    ensures Distinct(ids) ==> |s| == |ids|
  {
    if ids == [] then {} else {ids[0]} + Members(ids[1..])
  }

  lemma {:induction false} SubsetSize(a: set<nat>, b: set<nat>)
    requires a <= b
    ensures |a| <= |b|
    decreases a
  {
    if a != {} {
      var x :| x in a;
      SubsetSize(a - {x}, b - {x});
    }
  }

  /** A permutation reaches every index. */
  lemma PermutationCovers(ids: seq<nat>, n: nat, t: nat)
    requires IsPermutation(ids, n) && t < n
    ensures t in ids
  {
    if t !in ids {
      SubsetSize(Members(ids), Range(n) - {t});
    }
  }
}
