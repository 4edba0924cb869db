/** Concatenating a list of sequences, and repeating one cyclically. */
module Sequences {
  import opened NatArithmetic

  function Flatten<T>(parts: seq<seq<T>>): seq<T> {
    if parts == [] then [] else Flatten(parts[..|parts| - 1]) + parts[|parts| - 1]
  }

  lemma FlattenAppend<T>(parts: seq<seq<T>>, p: seq<T>)
    ensures Flatten(parts + [p]) == Flatten(parts) + p
  {
    assert (parts + [p])[..|parts|] == parts;
  }

  lemma SubSlice<T>(s: seq<T>, from: nat, to: nat, lo: nat, hi: nat)
    requires from <= to <= |s| && lo <= hi <= to - from
    ensures s[from..to][lo..hi] == s[from + lo..from + hi]
  {
    var a, b := s[from..to][lo..hi], s[from + lo..from + hi];
    assert |a| == |b| == hi - lo;
    forall i | 0 <= i < |a| ensures a[i] == b[i] {
      assert a[i] == s[from..to][lo + i] == s[from + (lo + i)];
    }
  }

  /** Equal consecutive pieces of a sequence make it up. */
  lemma FlattenPieces<T>(parts: seq<seq<T>>, whole: seq<T>, size: nat)
    requires |whole| == Times(|parts|, size)
    requires forall i: nat :: i < |parts| ==>
      Times(i, size) + size <= |whole| && parts[i] == whole[Times(i, size)..Times(i, size) + size]
    ensures Flatten(parts) == whole
  {
    FlattenFirstPieces(parts, whole, size, |parts|);
    assert parts[..|parts|] == parts && whole[..|whole|] == whole;
  }

  lemma {:induction false} FlattenFirstPieces<T>(parts: seq<seq<T>>, whole: seq<T>, size: nat, n: nat)
    requires n <= |parts| && Times(n, size) <= |whole|
    requires forall i: nat :: i < |parts| ==>
      Times(i, size) + size <= |whole| && parts[i] == whole[Times(i, size)..Times(i, size) + size]
    ensures Flatten(parts[..n]) == whole[..Times(n, size)]
  {
    hide Times;
    TimesStep(n, size);
    if n > 0 {
      FlattenFirstPieces(parts, whole, size, n - 1);
      assert parts[..n] == parts[..n - 1] + [parts[n - 1]];
      FlattenAppend(parts[..n - 1], parts[n - 1]);
    }
  }

  function At<T>(s: seq<T>, i: nat): T
    requires s != []
  {
    s[i % |s|]
  }

  /** The first `n` elements of `s` repeated for ever. */
  function Cyclic<T>(s: seq<T>, n: nat): (r: seq<T>)
    requires s != []
    ensures |r| == n
  {
    seq(n, i requires 0 <= i => At(s, i))
  }

  /** The first cycle is the sequence itself, and every cycle repeats it. */
  lemma AtWraps<T>(s: seq<T>, i: nat)
    requires s != []
    ensures i < |s| ==> At(s, i) == s[i]
    ensures At(s, i + |s|) == At(s, i)
  {
    hide Times;
    var n := |s|;
    Quotient(i, n);
    Remainder(i, n, i / n);
    TimesStep(i / n, n);
    QuotientUnique(i + n, n, i / n + 1);
    Remainder(i + n, n, i / n + 1);
  }

  /** After whole cycles the next elements are the first ones. */
  lemma CyclicExtend<T>(s: seq<T>, n: nat, more: nat)
    requires s != [] && n % |s| == 0 && more <= |s|
    ensures Cyclic(s, n + more) == Cyclic(s, n) + s[..more]
  {
    forall j: nat | j < more ensures At(s, n + j) == s[j] {
      ModMultiple(n, j, |s|);
    }
  }
}
