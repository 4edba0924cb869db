/** Drawing a token from a row with one uniform number: each token has a cell as long as its probability. */
module InverseDraw {
  import opened Distribution
  import opened RejectionSampling

  /** The token whose cell the number falls into. */
  function Pick(law: seq<real>, v: real): (t: Token)
    requires law != []
    ensures t < |law|
  {
    if |law| == 1 || v < law[0] then 0 else 1 + Pick(law[1..], v - law[0])
  }

  function Cell(law: seq<real>, t: Token): Interval
    requires t < |law|
  {
    Interval(Sum(law[..t]), Sum(law[..t + 1]))
  }

  lemma CellShift(law: seq<real>, t: Token)
    requires 0 < t < |law|
    ensures Cell(law, t) == Interval(law[0] + Cell(law[1..], t - 1).lo, law[0] + Cell(law[1..], t - 1).hi)
  {
    assert law[..t][1..] == law[1..][..t - 1];
    assert law[..t + 1][1..] == law[1..][..t];
  }

  lemma FirstCell(law: seq<real>)
    requires law != []
    ensures Cell(law, 0) == Interval(0.0, law[0])
  {
    assert law[..1][1..] == [];
  }

  /** Cells are as long as the probabilities and start no earlier than zero. */
  lemma {:induction false} CellLength(law: seq<real>, t: Token)
    requires t < |law| && NonNegative(law)
    ensures Cell(law, t).hi - Cell(law, t).lo == law[t] && Cell(law, t).lo >= 0.0
  {
    if t == 0 {
      FirstCell(law);
    } else {
      CellShift(law, t);
      CellLength(law[1..], t - 1);
    }
  }

  lemma SumOfOne(law: seq<real>)
    requires |law| == 1
    ensures Sum(law) == law[0]
  {
    assert law[1..] == [];
  }

  /** A token is drawn exactly by the numbers in its cell. */
  lemma {:induction false} PickEvent(law: seq<real>, v: real, t: Token)
    requires NonNegative(law) && 0.0 <= v < Sum(law) && t < |law|
    ensures Pick(law, v) == t <==> Cell(law, t).Contains(v)
  {
    hide Cell;
    FirstCell(law);
    if |law| == 1 { SumOfOne(law); }
    if t > 0 {
      CellShift(law, t);
      CellLength(law[1..], t - 1);
    }
    if v >= law[0] {
      if t > 0 { PickEvent(law[1..], v - law[0], t - 1); }
    }
  }
}
