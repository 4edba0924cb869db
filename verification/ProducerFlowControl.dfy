/** The hysteresis policy that pauses the online producer, and the pause test each worker derives from it. */
module ProducerFlowControl {
  import opened Options

  /** Watermarks on references and, optionally, bytes; the unset low marks equal the high ones. */
  datatype Limits = Limits(highRefs: int, lowRefs: Option<int>, highBytes: Option<int>, lowBytes: Option<int>, lease: int) {

    function LowRefs(): int { if lowRefs.None? then highRefs else lowRefs.value }

    function LowBytes(): Option<int> {
      if highBytes.None? then None else if lowBytes.None? then highBytes else lowBytes
    }

    /** Construction raises unless this holds. */
    predicate Valid() {
      && highRefs >= 1 && 0 <= LowRefs() <= highRefs
      && (highBytes.None? ==> lowBytes.None?)
      && (highBytes.Some? ==> highBytes.value >= 1 && 0 <= LowBytes().value <= highBytes.value)
      && lease >= 1
    }

    predicate OverHigh(refs: int, bytes: int) {
      Clamp(refs) >= highRefs || (highBytes.Some? && Clamp(bytes) >= highBytes.value)
    }

    predicate UnderLow(refs: int, bytes: int) {
      Clamp(refs) <= LowRefs() && (LowBytes().None? || Clamp(bytes) <= LowBytes().value)
    }

    /** The latch after a check. */
    predicate Latch(paused: bool, refs: int, bytes: int) {
      if !paused && OverHigh(refs, bytes) then true
      else if paused && UnderLow(refs, bytes) then false
      else paused
    }

    /** The largest in-flight count at which a check can let a worker go on. */
    function GoAhead(): int {
      if LowRefs() < highRefs then highRefs - 1 else highRefs
    }
  }

  function Clamp(n: int): int { if n < 0 then 0 else n }

  /** The shared policy object. */
  class FlowControl {
    const limits: Limits
    var paused: bool
    var pauses: nat
    var resumes: nat
    var waits: nat

    constructor (limits: Limits)
      requires limits.Valid()
      ensures this.limits == limits && !paused && pauses == resumes == waits == 0
    {
      this.limits := limits;
      paused, pauses, resumes, waits := false, 0, 0, 0;
    }

    /** The counters tell the latch. */
    ghost predicate Valid()
      reads this
    {
      limits.Valid() && pauses == resumes + (if paused then 1 else 0)
    }

    method ShouldPause(refs: int, bytes: int) returns (r: bool)
      requires Valid()
      modifies this
      ensures Valid() && r == paused == limits.Latch(old(paused), refs, bytes)
      ensures pauses + resumes == old(pauses + resumes) + (if paused != old(paused) then 1 else 0)
      ensures waits == old(waits) + (if paused then 1 else 0)
    {
      var overHigh := Clamp(refs) >= limits.highRefs || (limits.highBytes.Some? && Clamp(bytes) >= limits.highBytes.value);
      var lowBytes := limits.LowBytes();
      var underLow := Clamp(refs) <= limits.LowRefs() && (lowBytes.None? || Clamp(bytes) <= lowBytes.value);
      if !paused && overHigh {
        paused, pauses := true, pauses + 1;
      } else if paused && underLow {
        paused, resumes := false, resumes + 1;
      }
      if paused { waits := waits + 1; }
      return paused;
    }
  }

  /** A capture request, capped. */
  function Lease(limits: Limits, requested: int): nat {
    Clamp(if requested < limits.lease then requested else limits.lease)
  }

  /** It is the largest number of prompts neither the request nor the limit forbids. */
  lemma LeaseIsLargest(limits: Limits, requested: int, n: int)
    requires limits.Valid()
    ensures requested <= 0 ==> Lease(limits, requested) == 0
    ensures requested >= 0 ==> (n <= Lease(limits, requested) <==> n <= requested && n <= limits.lease)
  {}

  /** What a worker does with the policy: it never pauses below the consumer's optimizer window. */
  predicate Pauses(limits: Limits, latch: bool, quantum: int, refs: int, bytes: int) {
    refs >= quantum && limits.Latch(latch, refs, bytes)
  }

  /** Start-up accepts the watermarks only when both reach the optimizer window. */
  predicate Admits(limits: Limits, quantum: int) {
    limits.highRefs >= quantum && limits.LowRefs() >= quantum
  }

  /**
   * At `refs` in flight a worker is surely held back, whatever the latch and the bytes, exactly when `refs`
   * lies above the go-ahead mark: at the high watermark itself the latch releases when the low one equals it.
   */
  lemma HeldBackAbove(limits: Limits, quantum: int, refs: int)
    requires limits.Valid() && quantum >= 1 && Admits(limits, quantum)
    ensures (forall latch, bytes :: Pauses(limits, latch, quantum, refs, bytes)) <==> refs > limits.GoAhead()
  {
    if refs <= limits.GoAhead() {
      if refs < limits.highRefs {
        assert !Pauses(limits, false, quantum, refs, 0);
      } else {
        assert !Pauses(limits, true, quantum, refs, 0);
      }
    }
  }

  /**
   * On bytes alone the policy pauses, whatever the latch and the references, exactly when the bytes reach their high
   * watermark and lie above the low one. A worker then waits once its consumer has a whole window.
   */
  lemma PausesOnBytes(limits: Limits, bytes: int)
    requires limits.Valid()
    ensures (forall latch, refs :: limits.Latch(latch, refs, bytes))
      <==> limits.highBytes.Some? && bytes >= limits.highBytes.value && bytes > limits.LowBytes().value
    ensures limits.highBytes.Some? && bytes > limits.highBytes.value ==>
      forall latch, quantum, refs :: Pauses(limits, latch, quantum, refs, bytes) <==> refs >= quantum
  {
    if forall latch, refs :: limits.Latch(latch, refs, bytes) {
      assert limits.Latch(false, 0, bytes) && limits.Latch(true, 0, bytes);
    }
  }

  /** A reading of references and bytes. */
  datatype Reading = Reading(refs: int, bytes: int)

  predicate High(limits: Limits, r: Reading) {
    r.refs >= limits.highRefs || (limits.highBytes.Some? && r.bytes >= limits.highBytes.value)
  }

  predicate Low(limits: Limits, r: Reading) {
    && (r.refs <= limits.highRefs && (limits.lowRefs.Some? ==> r.refs <= limits.lowRefs.value))
    && (limits.highBytes.Some? ==>
         r.bytes <= limits.highBytes.value && (limits.lowBytes.Some? ==> r.bytes <= limits.lowBytes.value))
  }

  /** The latch after a sequence of checks. */
  function LatchAfter(limits: Limits, readings: seq<Reading>): bool {
    readings != []
    && limits.Latch(LatchAfter(limits, readings[..|readings| - 1]), readings[|readings| - 1].refs, readings[|readings| - 1].bytes)
  }

  /** Hysteresis: where no reading is high and low at once, the policy is paused from a high reading to the next low one. */
  lemma {:induction false} PausedSinceHigh(limits: Limits, readings: seq<Reading>)
    requires limits.Valid()
    requires forall i :: 0 <= i < |readings| ==> !(High(limits, readings[i]) && Low(limits, readings[i]))
    ensures LatchAfter(limits, readings)
      <==> exists i :: 0 <= i < |readings| && High(limits, readings[i]) && forall j :: i < j < |readings| ==> !Low(limits, readings[j])
  {
    if readings != [] {
      var n, front := |readings| - 1, readings[..|readings| - 1];
      var last := readings[n];
      PausedSinceHigh(limits, front);
      assert limits.OverHigh(last.refs, last.bytes) == High(limits, last);
      assert limits.UnderLow(last.refs, last.bytes) == Low(limits, last);
      if LatchAfter(limits, front) && !Low(limits, last) {
        var i :| 0 <= i < |front| && High(limits, front[i]) && forall j :: i < j < |front| ==> !Low(limits, front[j]);
        forall j | i < j < |readings| ensures !Low(limits, readings[j]) { assert j < n ==> readings[j] == front[j]; }
        assert High(limits, readings[i]);
      }
      if i :| 0 <= i < n && High(limits, readings[i]) && forall j :: i < j < |readings| ==> !Low(limits, readings[j]) {
        assert High(limits, front[i]) && forall j :: i < j < |front| ==> !Low(limits, front[j]);
      }
    }
  }

  /** With equal marks the latch flips at every check at the watermark, as long as no bytes are resident. */
  lemma EqualMarksToggle(limits: Limits, latch: bool)
    requires limits.Valid() && limits.LowRefs() == limits.highRefs
    ensures limits.Latch(latch, limits.highRefs, 0) == !latch
  {}

  /** A paused policy lets go once less than a window is in flight and the bytes are low, which is why start-up asks for that. */
  lemma LatchReleasesBelowWindow(limits: Limits, quantum: int, refs: int, bytes: int)
    requires limits.Valid() && quantum >= 1 && Admits(limits, quantum) && refs < quantum
    requires limits.LowBytes().None? || Clamp(bytes) <= limits.LowBytes().value
    ensures !limits.Latch(true, refs, bytes)
  {}
}
