/** Reservoir selection of chat prompts from a stream of unknown length. */
module Reservoir {
  import opened NatArithmetic

  /** A row of the dataset: a usable conversation, or one that is skipped. */
  datatype Row<T> = Skipped | Prompt(messages: T)

  datatype Loaded<T> = NoPrompts | Loaded(prompts: seq<T>)

  function Prompts<T>(rows: seq<Row<T>>): seq<T> {
    if rows == [] then []
    else Prompts(rows[..|rows| - 1])
         + (if rows[|rows| - 1].Prompt? then [rows[|rows| - 1].messages] else [])
  }

  /** The random numbers drawn: the one drawn when `n` prompts were seen lies below `n`. */
  ghost predicate IsDraw(draw: nat -> nat) {
    forall n: nat :: n > 0 ==> draw(n) < n
  }

  /** The positions selected from the first `n` prompts, in slot order. */
  function Selected(k: nat, draw: nat -> nat, n: nat): (r: seq<nat>)
    ensures |r| == (if n < k then n else k)
    ensures forall i :: 0 <= i < |r| ==> r[i] < n
  {
    if n == 0 then []
    else
      var before := Selected(k, draw, n - 1);
      if n <= k then before + [n - 1]
      else if draw(n) < k then before[draw(n) := n - 1]
      else before
  }

  function Pick<T>(prompts: seq<T>, positions: seq<nat>): (r: seq<T>)
    requires forall i :: 0 <= i < |positions| ==> positions[i] < |prompts|
    ensures |r| == |positions|
  {
    seq(|positions|, i requires 0 <= i < |positions| => prompts[positions[i]])
  }

  /** Always the minimum of `n` and `k` different positions. */
  lemma {:induction false} SelectedDistinct(k: nat, draw: nat -> nat, n: nat)
    ensures forall i, j :: 0 <= i < j < |Selected(k, draw, n)| ==> Selected(k, draw, n)[i] != Selected(k, draw, n)[j]
  {
    if n > 0 { SelectedDistinct(k, draw, n - 1); }
  }

  method LoadPromptMessages<T>(rows: seq<Row<T>>, count: int, draw: nat -> nat) returns (r: Loaded<T>)
    requires IsDraw(draw)
    ensures var k: nat := if count < 0 then 0 else count;
      var prompts := Prompts(rows);
      && (r == NoPrompts <==> prompts == [] || count <= 0)
      && (r.Loaded? ==> r.prompts == Pick(prompts, Selected(k, draw, |prompts|)))
  {
    hide Selected, Prompts, Pick;
    var selected: seq<T> := [];
    var seen: nat := 0;
    ghost var k: nat := if count < 0 then 0 else count;
    SelectNone(k, draw, rows);
    for i := 0 to |rows|
      invariant seen == |Prompts(rows[..i])|
      invariant selected == Pick(Prompts(rows[..i]), Selected(k, draw, seen))
    {
      NextRow(rows, i);
      if rows[i].Skipped? { continue; }
      SelectNext(k, draw, Prompts(rows[..i]), rows[i].messages);
      seen := seen + 1;
      if |selected| < count {
        selected := selected + [rows[i].messages];
      } else {
        var replacement := draw(seen);
        if replacement < count { selected := selected[replacement := rows[i].messages]; }
      }
    }
    assert rows[..|rows|] == rows;
    if selected == [] { return NoPrompts; }
    r := Loaded(selected);
  }

  lemma SelectNone<T>(k: nat, draw: nat -> nat, rows: seq<Row<T>>)
    ensures Prompts(rows[..0]) == [] && Selected(k, draw, 0) == [] && Pick<T>([], Selected(k, draw, 0)) == []
  {}

  lemma NextRow<T>(rows: seq<Row<T>>, i: nat)
    requires i < |rows|
    ensures Prompts(rows[..i + 1]) == if rows[i].Prompt? then Prompts(rows[..i]) + [rows[i].messages] else Prompts(rows[..i])
  {
    assert rows[..i + 1][..i] == rows[..i];
  }

  /** What one more prompt does to the selection. */
  lemma SelectNext<T>(k: nat, draw: nat -> nat, prompts: seq<T>, p: T)
    ensures var n := |prompts|;
      var before, after := Pick(prompts, Selected(k, draw, n)), Pick(prompts + [p], Selected(k, draw, n + 1));
      && |before| == (if n < k then n else k)
      && after == (if n < k then before + [p] else if draw(n + 1) < k then before[draw(n + 1) := p] else before)
  {}

  // ---------------------------------------------------------------- uniformity

  /** The slots after the draws `c`, the first of which was made when prompt `k + 1` was seen. */
  function Slots(k: nat, c: seq<nat>): (r: seq<nat>)
    ensures |r| == k
  {
    if c == [] then seq(k, i => i)
    else
      var last := |c| - 1;
      if c[last] < k then Slots(k, c[..last])[c[last] := k + last] else Slots(k, c[..last])
  }

  /** Both descriptions of the selection agree. */
  lemma {:induction false} SlotsAreSelected(k: nat, draw: nat -> nat, n: nat)
    requires n >= k
    ensures Slots(k, seq(n - k, i requires 0 <= i => draw(k + i + 1))) == Selected(k, draw, n)
    decreases n
  {
    var c := seq(n - k, i requires 0 <= i => draw(k + i + 1));
    if n == k {
      FirstSlots(k, draw, k);
    } else {
      SlotsAreSelected(k, draw, n - 1);
      assert c[..|c| - 1] == seq(n - 1 - k, i requires 0 <= i => draw(k + i + 1));
    }
  }

  lemma {:induction false} FirstSlots(k: nat, draw: nat -> nat, n: nat)
    requires n <= k
    ensures Selected(k, draw, n) == seq(n, i => i)
  {
    if n > 0 { FirstSlots(k, draw, n - 1); }
  }

  /** All continuations of the draws `c` to a stream of `n` prompts. */
  function Runs(k: nat, c: seq<nat>, n: nat): nat
    requires k + |c| <= n
    decreases n - |c|, 0
  {
    if k + |c| == n then 1 else RunsBelow(k, c, n, k + |c| + 1)
  }

  /** Those whose next draw is below `m`. */
  function RunsBelow(k: nat, c: seq<nat>, n: nat, m: nat): nat
    requires k + |c| < n
    decreases n - |c| - 1, m + 1
  {
    if m == 0 then 0 else RunsBelow(k, c, n, m - 1) + Runs(k, c + [m - 1], n)
  }

  /** The random numbers of a run whose draws past the first `k` prompts are `c`. */
  function Draws(k: nat, c: seq<nat>): nat -> nat {
    (i: nat) => if k < i <= k + |c| then c[i - k - 1] else 0
  }

  lemma DrawnSlots(k: nat, c: seq<nat>)
    ensures Selected(k, Draws(k, c), k + |c|) == Slots(k, c)
  {
    SlotsAreSelected(k, Draws(k, c), k + |c|);
    assert seq(|c|, i requires 0 <= i => Draws(k, c)(k + i + 1)) == c;
  }

  /** The continuations after which the loop has position `j` selected. */
  function Ways(k: nat, c: seq<nat>, n: nat, j: nat): nat
    requires k + |c| <= n
    decreases n - |c|, 0
  {
    if k + |c| == n then (if j in Selected(k, Draws(k, c), n) then 1 else 0) else WaysBelow(k, c, n, j, k + |c| + 1)
  }

  function WaysBelow(k: nat, c: seq<nat>, n: nat, j: nat, m: nat): nat
    requires k + |c| < n
    decreases n - |c| - 1, m + 1
  {
    if m == 0 then 0 else WaysBelow(k, c, n, j, m - 1) + Ways(k, c + [m - 1], n, j)
  }

  /** The number of draws still to come depends only on how many were made. */
  function Leaves(s: nat, n: nat): nat
    requires s <= n
    decreases n - s
  {
    if s == n then 1 else (s + 1) * Leaves(s + 1, n)
  }

  lemma {:induction false} RunsAreLeaves(k: nat, c: seq<nat>, n: nat)
    requires k + |c| <= n
    ensures Runs(k, c, n) == Leaves(k + |c|, n)
    decreases n - |c|, 0
  {
    if k + |c| < n { RunsBelowAreLeaves(k, c, n, k + |c| + 1); }
  }

  lemma {:induction false} RunsBelowAreLeaves(k: nat, c: seq<nat>, n: nat, m: nat)
    requires k + |c| < n
    ensures RunsBelow(k, c, n, m) == m * Leaves(k + |c| + 1, n)
    decreases n - |c| - 1, m + 1
  {
    if m > 0 {
      RunsBelowAreLeaves(k, c, n, m - 1);
      RunsAreLeaves(k, c + [m - 1], n);
      assert m * Leaves(k + |c| + 1, n) == (m - 1) * Leaves(k + |c| + 1, n) + Leaves(k + |c| + 1, n);
    }
  }

  /** The slots hold different positions, all seen. */
  lemma {:induction false} SlotsDistinct(k: nat, c: seq<nat>)
    ensures forall i :: 0 <= i < k ==> Slots(k, c)[i] < k + |c|
    ensures forall i, i' :: 0 <= i < i' < k ==> Slots(k, c)[i] != Slots(k, c)[i']
  {
    if c != [] { SlotsDistinct(k, c[..|c| - 1]); }
  }

  /** The chance, scaled by `n` and the number of continuations, that `j` survives to the end. */
  function Weight(k: nat, c: seq<nat>, j: nat): nat {
    if j >= k + |c| then k else if j in Slots(k, c) then k + |c| else 0
  }

  /** After one more draw `r`: the new position enters below `k` and the position in that slot leaves. */
  lemma SlotsStep(k: nat, c: seq<nat>, r: nat)
    ensures Slots(k, c + [r]) == if r < k then Slots(k, c)[r := k + |c|] else Slots(k, c)
  {
    assert (c + [r])[..|c|] == c;
  }

  /** The weights of the draws below `m`; `slot` is where `j` sits, or none. */
  function WeightsBelow(k: nat, c: seq<nat>, j: nat, m: nat): nat {
    if m == 0 then 0 else WeightsBelow(k, c, j, m - 1) + Weight(k, c + [m - 1], j)
  }

  /** The weight of a position is the average of its weights after the next draw. */
  lemma WeightIsAverage(k: nat, c: seq<nat>, j: nat)
    ensures WeightsBelow(k, c, j, k + |c| + 1) == (k + |c| + 1) * Weight(k, c, j)
  {
    var s := k + |c|;
    SlotsDistinct(k, c);
    hide WeightsBelow, Slots;
    if j > s {
      LaterWeights(k, c, j, s + 1);
    } else if j == s {
      NewWeights(k, c, s + 1, s + 1);
      Distribute(s + 1, k, 0);
    } else if j in Slots(k, c) {
      var p :| 0 <= p < k && Slots(k, c)[p] == j;
      HeldWeights(k, c, p, s + 1, s + 1);
      Distribute(s + 1, s, 0);
    } else {
      GoneWeights(k, c, j, s + 1);
    }
  }

  lemma {:induction false} LaterWeights(k: nat, c: seq<nat>, j: nat, m: nat)
    requires j > k + |c|
    ensures WeightsBelow(k, c, j, m) == m * k
  {
    if m > 0 {
      LaterWeights(k, c, j, m - 1);
      assert m * k == (m - 1) * k + k;
    }
  }

  lemma {:induction false} NewWeights(k: nat, c: seq<nat>, m: nat, w: nat)
    requires w == k + |c| + 1 && forall i :: 0 <= i < k ==> Slots(k, c)[i] < k + |c|
    ensures WeightsBelow(k, c, k + |c|, m) == Times(if m < k then m else k, w)
  {
    hide Times, Slots;
    TimesStep(if m < k then m else k, w);
    if m > 0 {
      NewWeights(k, c, m - 1, w);
      SlotsStep(k, c, m - 1);
      if m <= k {
        assert Slots(k, c + [m - 1])[m - 1] == k + |c|;
      }
    }
  }

  lemma {:induction false} HeldWeights(k: nat, c: seq<nat>, p: nat, m: nat, w: nat)
    requires w == k + |c| + 1 && p < k && Slots(k, c)[p] < k + |c|
    requires forall i, i' :: 0 <= i < i' < k ==> Slots(k, c)[i] != Slots(k, c)[i']
    ensures WeightsBelow(k, c, Slots(k, c)[p], m) == Times(if m <= p then m else m - 1, w)
  {
    hide Times, Slots;
    TimesStep(if m <= p then m else m - 1, w);
    if m > 0 {
      HeldWeights(k, c, p, m - 1, w);
      SlotsStep(k, c, m - 1);
      if m - 1 != p { assert Slots(k, c + [m - 1])[p] == Slots(k, c)[p]; }
    }
  }

  lemma {:induction false} GoneWeights(k: nat, c: seq<nat>, j: nat, m: nat)
    requires j < k + |c| && j !in Slots(k, c)
    ensures WeightsBelow(k, c, j, m) == 0
  {
    hide Slots;
    if m > 0 {
      GoneWeights(k, c, j, m - 1);
      SlotsStep(k, c, m - 1);
      var after := Slots(k, c + [m - 1]);
      assert forall i :: 0 <= i < |after| ==> after[i] != j;
    }
  }

  lemma {:induction false} WaysAreWeights(k: nat, c: seq<nat>, n: nat, j: nat)
    requires k + |c| <= n && j < n
    ensures n * Ways(k, c, n, j) == Weight(k, c, j) * Leaves(k + |c|, n)
    decreases n - |c|, 0
  {
    var s := k + |c|;
    if s == n {
      DrawnSlots(k, c);
    } else {
      WaysBelowAreWeights(k, c, n, j, s + 1);
      WeightIsAverage(k, c, j);
      Associate(s + 1, Weight(k, c, j), Leaves(s + 1, n));
    }
  }

  lemma Associate(a: nat, b: nat, c: nat)
    ensures (a * b) * c == b * (a * c)
  {}

  lemma {:induction false} WaysBelowAreWeights(k: nat, c: seq<nat>, n: nat, j: nat, m: nat)
    requires k + |c| < n && j < n
    ensures n * WaysBelow(k, c, n, j, m) == WeightsBelow(k, c, j, m) * Leaves(k + |c| + 1, n)
    decreases n - |c| - 1, m + 1
  {
    if m > 0 {
      WaysBelowAreWeights(k, c, n, j, m - 1);
      WaysAreWeights(k, c + [m - 1], n, j);
      Distribute(n, WaysBelow(k, c, n, j, m - 1), Ways(k, c + [m - 1], n, j));
      Distribute(Leaves(k + |c| + 1, n), WeightsBelow(k, c, j, m - 1), Weight(k, c + [m - 1], j));
    }
  }

  lemma Distribute(a: nat, b: nat, c: nat)
    ensures a * (b + c) == a * b + a * c && (b + c) * a == b * a + c * a
  {}

  /** Over all draw sequences the loop selects every position of a stream of `n >= k` prompts equally often: `k` times in `n`. */
  lemma SelectionIsUniform(k: nat, n: nat, j: nat)
    requires k <= n && j < n
    ensures n * Ways(k, [], n, j) == k * Runs(k, [], n)
  {
    WaysAreWeights(k, [], n, j);
    RunsAreLeaves(k, [], n);
    if j < k { assert Slots(k, [])[j] == j; }
  }
}
