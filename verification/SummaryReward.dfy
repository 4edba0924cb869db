/** The summarization reward: the longest common subsequence of two word lists by a two-row table, scored as F1. */
module SummaryReward {

  /** `e` places the words of `s` at increasing positions of `t`. */
  ghost predicate Embeds<T>(s: seq<T>, t: seq<T>, e: seq<nat>) {
    && |e| == |s|
    && (forall i :: 0 <= i < |e| ==> e[i] < |t| && s[i] == t[e[i]])
    && (forall i, j :: 0 <= i < j < |e| ==> e[i] < e[j])
  }

  ghost predicate IsSubsequence<T(!new)>(s: seq<T>, t: seq<T>) {
    exists e: seq<nat> :: Embeds(s, t, e)
  }

  ghost predicate IsCommon<T(!new)>(s: seq<T>, a: seq<T>, b: seq<T>) {
    IsSubsequence(s, a) && IsSubsequence(s, b)
  }

  /** What the table computes, cell by cell. */
  function Lcs<T(==)>(a: seq<T>, b: seq<T>): nat {
    if a == [] || b == [] then 0
    else if a[|a| - 1] == b[|b| - 1] then Lcs(a[..|a| - 1], b[..|b| - 1]) + 1
    else Max(Lcs(a[..|a| - 1], b), Lcs(a, b[..|b| - 1]))
  }

  function Max(m: nat, n: nat): nat { if m < n then n else m }

  /** Two rows of the table, the current one filled from left to right. */
  method LcsLength<T(==, 0)>(left: seq<T>, right: seq<T>) returns (n: nat)
    ensures n == Lcs(left, right)
  {
    var previous := new nat[|right| + 1](_ => 0);
    for i := 0 to |left|
      invariant previous.Length == |right| + 1
      invariant forall j :: 0 <= j <= |right| ==> previous[j] == Lcs(left[..i], right[..j])
    {
      var current := new nat[|right| + 1](_ => 0);
      for j := 1 to |right| + 1
        invariant forall k :: 0 <= k <= |right| ==> previous[k] == Lcs(left[..i], right[..k])
        invariant forall k :: 0 <= k < j ==> current[k] == Lcs(left[..i + 1], right[..k])
      {
        assert left[..i + 1][..i] == left[..i] && right[..j][..j - 1] == right[..j - 1];
        current[j] := if left[i] == right[j - 1] then previous[j - 1] + 1 else Max(previous[j], current[j - 1]);
      }
      previous := current;
    }
    assert left[..|left|] == left && right[..|right|] == right;
    n := previous[|right|];
  }

  // ---------------------------------------------------------------- the length is the maximum

  lemma EmbedsShorter<T>(s: seq<T>, t: seq<T>, e: seq<nat>)
    requires Embeds(s, t, e) && s != []
    ensures Embeds(s[..|s| - 1], t[..e[|e| - 1]], e[..|e| - 1])
    ensures forall n: nat :: e[|e| - 1] < n <= |t| ==> Embeds(s, t[..n], e)
  {}

  lemma EmbedsLonger<T>(s: seq<T>, t: seq<T>, e: seq<nat>, n: nat)
    requires n <= |t| && Embeds(s, t[..n], e)
    ensures Embeds(s, t, e)
    ensures n < |t| ==> Embeds(s + [t[n]], t[..n + 1], e + [n])
  {}

  /** No common subsequence is longer. */
  lemma {:induction false} NoLonger<T>(s: seq<T>, a: seq<T>, b: seq<T>, e: seq<nat>, f: seq<nat>)
    requires Embeds(s, a, e) && Embeds(s, b, f)
    ensures |s| <= Lcs(a, b)
    decreases |a| + |b|
  {
    if s != [] {
      var m, n, last := |a| - 1, |b| - 1, |s| - 1;
      EmbedsShorter(s, a, e);
      EmbedsShorter(s, b, f);
      if a[m] == b[n] {
        EmbedsLonger(s[..last], a[..m], e[..last], e[last]) by { assert a[..m][..e[last]] == a[..e[last]]; }
        EmbedsLonger(s[..last], b[..n], f[..last], f[last]) by { assert b[..n][..f[last]] == b[..f[last]]; }
        NoLonger(s[..last], a[..m], b[..n], e[..last], f[..last]);
      } else if e[last] < m {
        NoLonger(s, a[..m], b, e, f);
      } else {
        NoLonger(s, a, b[..n], e, f);
      }
    }
  }

  /** The length is attained. */
  lemma {:induction false} Attained<T>(a: seq<T>, b: seq<T>) returns (s: seq<T>, e: seq<nat>, f: seq<nat>)
    ensures |s| == Lcs(a, b) && Embeds(s, a, e) && Embeds(s, b, f)
    decreases |a| + |b|
  {
    if a == [] || b == [] {
      s, e, f := [], [], [];
    } else {
      var m, n := |a| - 1, |b| - 1;
      if a[m] == b[n] {
        s, e, f := Attained(a[..m], b[..n]);
        EmbedsLonger(s, a, e, m);
        EmbedsLonger(s, b, f, n);
        assert a[..m + 1] == a && b[..n + 1] == b;
        s, e, f := s + [a[m]], e + [m], f + [n];
      } else if Lcs(a[..m], b) >= Lcs(a, b[..n]) {
        s, e, f := Attained(a[..m], b);
        EmbedsLonger(s, a, e, m);
      } else {
        s, e, f := Attained(a, b[..n]);
        EmbedsLonger(s, b, f, n);
      }
    }
  }

  /** The table's value is the maximum length of a common subsequence. */
  lemma LcsIsMaximum<T(!new)>(a: seq<T>, b: seq<T>)
    ensures exists s: seq<T> :: IsCommon(s, a, b) && |s| == Lcs(a, b)
    ensures forall s: seq<T> :: IsCommon(s, a, b) ==> |s| <= Lcs(a, b)
  {
    var s, e, f := Attained(a, b);
    assert IsCommon(s, a, b);
    forall s: seq<T> | IsCommon(s, a, b) ensures |s| <= Lcs(a, b) {
      var e: seq<nat> :| Embeds(s, a, e);
      var f: seq<nat> :| Embeds(s, b, f);
      NoLonger(s, a, b, e, f);
    }
  }

  // ---------------------------------------------------------------- the score

  /** The reward; a foreign data source raises. */
  datatype Score = WrongSource | Score(value: real)

  /** `s` is common to both lists and no common subsequence is longer. */
  ghost predicate IsLongestCommon<T(!new)>(s: seq<T>, a: seq<T>, b: seq<T>) {
    IsCommon(s, a, b) && forall t: seq<T> :: IsCommon(t, a, b) ==> |t| <= |s|
  }

  /** `value` is the harmonic mean of precision and recall, whichever longest common subsequence counts the overlap. */
  ghost predicate IsHarmonicMean<T(!new)>(value: real, a: seq<T>, b: seq<T>) {
    forall s: seq<T> :: IsLongestCommon(s, a, b) ==> value * (|a| as real + |b| as real) == 2.0 * |s| as real
  }

  method ComputeScore<T(==, 0, !new)>(dataSource: string, generated: seq<T>, reference: seq<T>) returns (r: Score)
    ensures r == (if dataSource != "vn_summarization" then WrongSource else Score(F1(generated, reference)))
    ensures r.Score? && generated != [] && reference != [] ==> IsHarmonicMean(r.value, generated, reference)
    ensures r.Score? && (generated == [] || reference == []) ==> r.value == 0.0
  {
    hide IsHarmonicMean, Lcs;
    if dataSource != "vn_summarization" { return WrongSource; }
    if generated == [] || reference == [] { return Score(0.0); }
    ScoreIsHarmonicMean(generated, reference);
    var overlap := LcsLength(generated, reference);
    r := Score(2.0 * overlap as real / (|generated| + |reference|) as real);
  }

  function F1<T(==)>(a: seq<T>, b: seq<T>): real {
    if a == [] || b == [] then 0.0 else 2.0 * Lcs(a, b) as real / (|a| + |b|) as real
  }

  /** The score times both lengths together is twice the overlap, and there is a longest common subsequence. */
  lemma ScoreIsHarmonicMean<T(!new)>(a: seq<T>, b: seq<T>)
    requires a != [] && b != []
    ensures IsHarmonicMean(F1(a, b), a, b) && exists s: seq<T> :: IsLongestCommon(s, a, b)
  {
    hide IsCommon, Lcs, F1;
    LcsIsMaximum(a, b);
    var longest: seq<T> :| IsCommon(longest, a, b) && |longest| == Lcs(a, b);
    assert IsLongestCommon(longest, a, b);
    ScoreTimesLengths(a, b);
    forall s: seq<T> | IsLongestCommon(s, a, b) ensures F1(a, b) * (|a| as real + |b| as real) == 2.0 * |s| as real {
      assert |s| == Lcs(a, b);
    }
  }

  lemma ScoreTimesLengths<T>(a: seq<T>, b: seq<T>)
    requires a != [] && b != []
    ensures F1(a, b) * (|a| as real + |b| as real) == 2.0 * Lcs(a, b) as real
  {
    hide Lcs;
  }

  /** With `p` the precision and `r` the recall of the overlap, that is `2 / (1 / p + 1 / r)`. */
  lemma HarmonicMean(n: real, a: real, b: real, value: real)
    requires 0.0 < n <= a && n <= b && value * (a + b) == 2.0 * n
    ensures value == 2.0 / (1.0 / (n / a) + 1.0 / (n / b))
  {
    assert 1.0 / (n / a) == a / n && 1.0 / (n / b) == b / n;
    assert a / n + b / n == (a + b) / n;
    assert value == 2.0 * n / (a + b);
  }

  /** An increasing placement of `n` words moves each word to the right. */
  lemma {:induction false} EmbedsGrows<T>(s: seq<T>, t: seq<T>, e: seq<nat>, i: nat)
    requires Embeds(s, t, e) && i < |s|
    ensures i <= e[i] && e[i] + (|s| - 1 - i) < |t|
  {
    if i > 0 { EmbedsGrowsLeft(s, t, e, i); }
    EmbedsGrowsRight(s, t, e, i);
  }

  lemma {:induction false} EmbedsGrowsLeft<T>(s: seq<T>, t: seq<T>, e: seq<nat>, i: nat)
    requires Embeds(s, t, e) && i < |s|
    ensures i <= e[i]
  {
    if i > 0 {
      EmbedsGrowsLeft(s, t, e, i - 1);
      assert e[i - 1] < e[i];
    }
  }

  lemma {:induction false} EmbedsGrowsRight<T>(s: seq<T>, t: seq<T>, e: seq<nat>, i: nat)
    requires Embeds(s, t, e) && i < |s|
    ensures e[i] + (|s| - 1 - i) < |t|
    decreases |s| - i
  {
    if i < |s| - 1 {
      EmbedsGrowsRight(s, t, e, i + 1);
      assert e[i] < e[i + 1];
    }
  }

  /** The overlap never exceeds either list, and fills both only when they are equal. */
  lemma LcsBounds<T>(a: seq<T>, b: seq<T>)
    ensures Lcs(a, b) <= |a| && Lcs(a, b) <= |b|
    ensures Lcs(a, b) == |a| == |b| <==> a == b
  {
    var s, e, f := Attained(a, b);
    if s != [] {
      EmbedsGrows(s, a, e, 0);
      EmbedsGrows(s, b, f, 0);
    }
    if Lcs(a, b) == |a| == |b| {
      forall i | 0 <= i < |a| ensures a[i] == b[i] {
        EmbedsGrows(s, a, e, i);
        EmbedsGrows(s, b, f, i);
      }
    }
    if a == b {
      var id := seq(|a|, i requires 0 <= i < |a| => i);
      assert Embeds(a, a, id);
      NoLonger(a, a, b, id, id);
    }
  }

  /** The score lies between zero and one, is one exactly on equal non-empty lists, and is symmetric. */
  lemma ScoreRange<T(!new)>(a: seq<T>, b: seq<T>)
    ensures 0.0 <= F1(a, b) <= 1.0
    ensures F1(a, b) == 1.0 <==> a == b && a != []
    ensures F1(a, b) == F1(b, a)
  {
    LcsBounds(a, b);
    if a != [] && b != [] {
      var n := |a| + |b|;
      RatioBounds(2 * Lcs(a, b), n);
      LcsSymmetric(a, b);
    }
  }

  lemma RatioBounds(m: nat, n: nat)
    requires m <= n && n > 0
    ensures 0.0 <= m as real / n as real <= 1.0
    ensures m as real / n as real == 1.0 <==> m == n
  {}

  lemma LcsSymmetric<T(!new)>(a: seq<T>, b: seq<T>)
    ensures Lcs(a, b) == Lcs(b, a)
  {
    var s, e, f := Attained(a, b);
    NoLonger(s, b, a, f, e);
    s, e, f := Attained(b, a);
    NoLonger(s, a, b, f, e);
  }
}
