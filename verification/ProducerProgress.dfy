/**
 * While the consumer lacks a whole optimizer window it is never left waiting for good: in a run without faults a
 * worker that may still submit gets, by itself, to a publication.
 *
 * The steps are given one after the other: finish the check under way, pass the gate, submit, lease, capture and
 * publish; what the worker still holds is collected first. Another induction shows that a worker without failed or
 * oversized captures does not break on the way.
 */
module ProducerProgress {
  import opened NatArithmetic
  import opened Options
  import opened Producer
  import opened ProducerFlowControl
  import opened ProducerLedger
  import opened ProducerRuns
  import opened ProducerScenarios

  /** The consumer waits for references, prompts are pending, and worker `w` may still submit. */
  ghost predicate Hungry(c: Config, s: State, w: nat) {
    && w < |s.workers| && !s.stop && s.ledger.InFlight() < c.quantum && s.pending != multiset{}
    && s.workers[w].accepting && s.workers[w].submitted < c.maxRounds
  }

  /** Something was published, or the worker broke or was dropped. */
  predicate Served(published: nat, t: State, w: nat) {
    |t.ledger.published| > published || (w < |t.workers| && (Broken(t.workers[w]) || t.workers[w].dead))
  }

  /** The surroundings do their part: no timeout, no exception, every prompt captured (size unknown), the channel accepts. */
  predicate Faultless(a: Step) {
    && !a.Break? && !a.Throw? && (a.Collect? ==> a.channel == Accepts)
    && (a.Finish? ==> forall i :: 0 <= i < |a.results| ==> a.results[i] == Captured(None))
  }

  /** The steps, all of worker `w` and its captures and without faults, lead from `s` to `t`. */
  ghost predicate Drives(c: Config, s: State, steps: seq<Step>, t: State, w: nat) {
    Leads(c, s, steps, t) && forall i :: 0 <= i < |steps| ==> IsThreadStep(steps[i]) && steps[i].w == w && Faultless(steps[i])
  }

  lemma DriveMore(c: Config, s: State, steps: seq<Step>, t: State, w: nat, a: Step)
    requires Drives(c, s, steps, t, w) && Enabled(c, t, a) && IsThreadStep(a) && a.w == w && Faultless(a)
    ensures Drives(c, s, steps + [a], Apply(c, t, a), w)
  {
    hide Enabled, Apply, Leads;
    LeadsMore(c, s, steps, t, a);
  }

  // ---------------------------------------------------------------- bringing a capture home

  /** A capture with references is published, or the worker breaks. */
  lemma PublishOne(c: Config, s0: State, before: seq<Step>, s: State, w: nat, slot: nat)
    returns (steps: seq<Step>, t: State)
    requires Drives(c, s0, before, s, w) && SlotIs(s, w, slot) && s.workers[w].pc == Collecting
    requires s.workers[w].futures[slot].Returned? && s.workers[w].futures[slot].refs != []
    ensures Drives(c, s0, steps, t, w) && Served(|s.ledger.published|, t, w)
  {
    hide Drives, Tasks, Sum, Sizes, Drained;
    var a := Collect(w, slot, Accepts);
    DriveMore(c, s0, before, s, w, a);
    steps, t := before + [a], Apply(c, s, a);
  }

  /** A running capture with prompts captures them all. */
  lemma FinishOne(c: Config, s0: State, before: seq<Step>, s: State, w: nat, slot: nat)
    returns (steps: seq<Step>, t: State)
    requires Drives(c, s0, before, s, w) && SlotIs(s, w, slot) && s.workers[w].pc == Collecting
    requires s.workers[w].futures[slot].Running? && s.workers[w].futures[slot].tasks != []
    ensures Drives(c, s0, steps, t, w) && Served(|s.ledger.published|, t, w)
  {
    hide Drives, Fated, CapturedRefs;
    var tasks := s.workers[w].futures[slot].tasks;
    var a := Finish(w, slot, Outcomes(|tasks|, |tasks|));
    OutcomeRefs(tasks, |tasks|);
    DriveMore(c, s0, before, s, w, a);
    var u := Apply(c, s, a);
    steps, t := PublishOne(c, s0, before + [a], u, w, slot);
  }

  /** A queued capture leases prompts. */
  lemma LeaseOne(c: Config, s0: State, before: seq<Step>, s: State, w: nat, slot: nat)
    returns (steps: seq<Step>, t: State)
    requires c.Valid() && Drives(c, s0, before, s, w) && SlotIs(s, w, slot) && s.workers[w].pc == Collecting
    requires s.workers[w].futures[slot] == Queued && s.pending != multiset{}
    ensures Drives(c, s0, steps, t, w) && Served(|s.ledger.published|, t, w)
  {
    hide Drives, Drained;
    var n := if |s.pending| < c.lease then |s.pending| else c.lease;
    var tasks := Choose(s.pending, n);
    BelowHigh(c, 0);
    assert n > 0;
    var a := LeaseTasks(w, slot, tasks);
    DriveMore(c, s0, before, s, w, a);
    var u := Apply(c, s, a);
    assert u.workers[w].futures[slot] == Running(tasks);
    steps, t := FinishOne(c, s0, before + [a], u, w, slot);
  }

  /** Some `n` elements of a multiset. */
  lemma {:induction false} Choose(m: multiset<nat>, n: nat) returns (s: seq<nat>)
    requires n <= |m|
    ensures |s| == n && multiset(s) <= m
  {
    if n == 0 {
      s := [];
    } else {
      var x :| x in m;
      var rest := Choose(m - multiset{x}, n - 1);
      s := rest + [x];
      assert multiset(s) == multiset(rest) + multiset{x};
    }
  }

  // ---------------------------------------------------------------- from wherever the worker stands

  /** A worker that was let through and has a free slot submits, collects and publishes. */
  lemma FromSubmitting(c: Config, s0: State, before: seq<Step>, s: State, w: nat)
    returns (steps: seq<Step>, t: State)
    requires c.Valid() && Drives(c, s0, before, s, w) && Hungry(c, s, w)
    requires s.workers[w].pc == Submitting && |s.workers[w].futures| < c.slots
    ensures Drives(c, s0, steps, t, w) && Served(|s.ledger.published|, t, w)
  {
    hide Drives, Drained, Config.Valid;
    var n := |s.workers[w].futures|;
    DriveMore(c, s0, before, s, w, Submit(w));
    var u := Apply(c, s, Submit(w));
    DriveMore(c, s0, before + [Submit(w)], u, w, Settle(w));
    var v := Apply(c, u, Settle(w));
    steps, t := LeaseOne(c, s0, before + [Submit(w)] + [Settle(w)], v, w, n);
  }

  /** With less than a window in flight a fresh look lets the worker through, or the books make it break. */
  lemma FromTop(c: Config, s0: State, before: seq<Step>, s: State, w: nat)
    returns (steps: seq<Step>, t: State)
    requires c.Valid() && Drives(c, s0, before, s, w) && Hungry(c, s, w) && s.workers[w].pc == Top
    ensures Drives(c, s0, steps, t, w) && t.ledger.published == s.ledger.published
    ensures Served(|s.ledger.published|, t, w)
         || (Hungry(c, t, w) && t.workers[w].pc == Submitting && t.workers[w].futures == s.workers[w].futures)
  {
    hide Drives, Sum, Limits.Latch, Config.Valid;
    DriveMore(c, s0, before, s, w, SeeRefs(w));
    var u := Apply(c, s, SeeRefs(w));
    DriveMore(c, s0, before + [SeeRefs(w)], u, w, SeeBytes(w));
    var v := Apply(c, u, SeeBytes(w));
    if v.workers[w].pc == Aborting {
      steps, t := before + [SeeRefs(w)] + [SeeBytes(w)], v;
    } else {
      DriveMore(c, s0, before + [SeeRefs(w)] + [SeeBytes(w)], v, w, Decide(w));
      steps, t := before + [SeeRefs(w)] + [SeeBytes(w)] + [Decide(w)], Apply(c, v, Decide(w));
    }
  }

  /** A worker at its loop top without captures publishes. */
  lemma FromIdle(c: Config, s0: State, before: seq<Step>, s: State, w: nat)
    returns (steps: seq<Step>, t: State)
    requires c.Valid() && Drives(c, s0, before, s, w) && Hungry(c, s, w)
    requires s.workers[w].pc == Top && s.workers[w].futures == []
    ensures Drives(c, s0, steps, t, w) && Served(|s.ledger.published|, t, w)
  {
    hide Drives, Hungry, Leads;
    steps, t := FromTop(c, s0, before, s, w);
    if !Served(|s.ledger.published|, t, w) { steps, t := FromSubmitting(c, s0, steps, t, w); }
  }

  /** Dropping a capture that brings nothing. */
  lemma DropBarren(c: Config, s0: State, before: seq<Step>, s: State, w: nat)
    returns (steps: seq<Step>, t: State)
    requires Drives(c, s0, before, s, w) && Hungry(c, s, w) && s.workers[w].pc == Collecting && s.workers[w].futures != []
    requires s.workers[w].futures[0].Raised? || s.workers[w].futures[0] == Returned([])
    ensures Drives(c, s0, steps, t, w) && t.ledger == s.ledger && |t.workers| == |s.workers|
    ensures Served(|s.ledger.published|, t, w)
         || (Hungry(c, t, w) && t.workers[w].pc == Collecting && |t.workers[w].futures| == |s.workers[w].futures| - 1)
  {
    hide Drives, Drained;
    var a := Collect(w, 0, Accepts);
    DriveMore(c, s0, before, s, w, a);
    steps, t := before + [a], Apply(c, s, a);
  }

  /** A capture that leased nothing ends with nothing. */
  lemma EndEmpty(c: Config, s0: State, before: seq<Step>, s: State, w: nat)
    returns (steps: seq<Step>, t: State)
    requires Drives(c, s0, before, s, w) && Hungry(c, s, w) && s.workers[w].pc == Collecting && s.workers[w].futures != []
    requires s.workers[w].futures[0] == Running([])
    ensures Drives(c, s0, steps, t, w) && t.ledger == s.ledger
    ensures Hungry(c, t, w) && t.workers[w].pc == Collecting && |t.workers[w].futures| == |s.workers[w].futures|
    ensures t.workers[w].futures[0] == Returned([])
  {
    hide Drives, Drained;
    var a := Finish(w, 0, []);
    DriveMore(c, s0, before, s, w, a);
    steps, t := before + [a], Apply(c, s, a);
    assert CapturedRefs([], []) == [] && Fated([], [], Retry) == multiset{};
  }

  /** Going back to the loop top. */
  lemma BackToTop(c: Config, s0: State, before: seq<Step>, s: State, w: nat)
    returns (steps: seq<Step>, t: State)
    requires Drives(c, s0, before, s, w) && Hungry(c, s, w) && s.workers[w].futures == []
    requires s.workers[w].pc == Collecting || s.workers[w].pc == Settling
    ensures Drives(c, s0, steps, t, w) && t.ledger == s.ledger && Hungry(c, t, w)
    ensures t.workers[w].pc == Top && t.workers[w].futures == []
  {
    hide Drives;
    var a := if s.workers[w].pc == Collecting then LoopBack(w) else Settle(w);
    DriveMore(c, s0, before, s, w, a);
    steps, t := before + [a], Apply(c, s, a);
  }

  lemma {:induction false} FromCollecting(c: Config, s0: State, before: seq<Step>, s: State, w: nat)
    returns (steps: seq<Step>, t: State)
    requires c.Valid() && Drives(c, s0, before, s, w) && Hungry(c, s, w) && s.workers[w].pc == Collecting
    ensures Drives(c, s0, steps, t, w) && Served(|s.ledger.published|, t, w)
    decreases |s.workers[w].futures|, if s.workers[w].futures != [] && s.workers[w].futures[0].Running? then 2 else 1
  {
    hide Drives, Config.Valid, Served;
    if s.workers[w].futures == [] {
      steps, t := BackToTop(c, s0, before, s, w);
      steps, t := FromIdle(c, s0, steps, t, w);
    } else {
      match s.workers[w].futures[0]
      case Queued => steps, t := LeaseOne(c, s0, before, s, w, 0);
      case Running(tasks) =>
        if tasks == [] {
          steps, t := EndEmpty(c, s0, before, s, w);
          steps, t := FromCollecting(c, s0, steps, t, w);
        } else {
          steps, t := FinishOne(c, s0, before, s, w, 0);
        }
      case Returned(refs) =>
        if refs == [] {
          steps, t := AfterBarren(c, s0, before, s, w);
        } else {
          steps, t := PublishOne(c, s0, before, s, w, 0);
        }
      case Raised => steps, t := AfterBarren(c, s0, before, s, w);
    }
  }

  lemma {:induction false} AfterBarren(c: Config, s0: State, before: seq<Step>, s: State, w: nat)
    returns (steps: seq<Step>, t: State)
    requires c.Valid() && Drives(c, s0, before, s, w) && Hungry(c, s, w) && s.workers[w].pc == Collecting
    requires s.workers[w].futures != []
    requires s.workers[w].futures[0].Raised? || s.workers[w].futures[0] == Returned([])
    ensures Drives(c, s0, steps, t, w) && Served(|s.ledger.published|, t, w)
    decreases |s.workers[w].futures|, 0
  {
    hide Drives, Config.Valid;
    steps, t := DropBarren(c, s0, before, s, w);
    if !Served(|s.ledger.published|, t, w) { steps, t := FromCollecting(c, s0, steps, t, w); }
  }

  /** Leaving the submission loop or a pause. */
  lemma FromSettling(c: Config, s0: State, before: seq<Step>, s: State, w: nat)
    returns (steps: seq<Step>, t: State)
    requires c.Valid() && Drives(c, s0, before, s, w) && Hungry(c, s, w)
    requires s.workers[w].pc == Settling || (s.workers[w].pc == Submitting && s.workers[w].futures != [])
    ensures Drives(c, s0, steps, t, w) && Served(|s.ledger.published|, t, w)
  {
    hide Drives, Config.Valid, Served;
    if s.workers[w].futures == [] {
      steps, t := BackToTop(c, s0, before, s, w);
      steps, t := FromIdle(c, s0, steps, t, w);
    } else {
      DriveMore(c, s0, before, s, w, Settle(w));
      steps, t := before + [Settle(w)], Apply(c, s, Settle(w));
      steps, t := FromCollecting(c, s0, steps, t, w);
    }
  }

  lemma FromGate(c: Config, s0: State, before: seq<Step>, s: State, w: nat)
    returns (steps: seq<Step>, t: State)
    requires c.Valid() && Drives(c, s0, before, s, w) && Hungry(c, s, w)
    requires s.workers[w].pc == Settling || s.workers[w].pc == Submitting
    ensures Drives(c, s0, steps, t, w) && Served(|s.ledger.published|, t, w)
  {
    hide Drives, Served;
    if s.workers[w].pc == Submitting && s.workers[w].futures == [] {
      BelowHigh(c, 0);
      steps, t := FromSubmitting(c, s0, before, s, w);
    } else {
      steps, t := FromSettling(c, s0, before, s, w);
    }
  }

  /** One step of a worker in the middle of its checks. */
  lemma FinishCheck(c: Config, s0: State, before: seq<Step>, s: State, w: nat)
    returns (steps: seq<Step>, t: State)
    requires Drives(c, s0, before, s, w) && Hungry(c, s, w) && (s.workers[w].pc.ReadRefs? || s.workers[w].pc.ReadBytes?)
    ensures Drives(c, s0, steps, t, w) && t.ledger.published == s.ledger.published
    ensures Served(|s.ledger.published|, t, w)
         || (Hungry(c, t, w) && (t.workers[w].pc == Settling || t.workers[w].pc == Submitting))
  {
    hide Drives, Sum, Limits.Latch;
    steps, t := before, s;
    if s.workers[w].pc.ReadRefs? {
      DriveMore(c, s0, steps, t, w, SeeBytes(w));
      steps, t := steps + [SeeBytes(w)], Apply(c, t, SeeBytes(w));
    }
    if t.workers[w].pc.ReadBytes? {
      DriveMore(c, s0, steps, t, w, Decide(w));
      steps, t := steps + [Decide(w)], Apply(c, t, Decide(w));
    }
  }

  /** From wherever an active worker stands, it reaches a publication, or what happened before makes it break. */
  lemma GetsThrough(c: Config, s: State, w: nat) returns (steps: seq<Step>, t: State)
    requires c.Valid() && Hungry(c, s, w) && !Halted(s.workers[w]) && s.workers[w].pc != Aborting
    ensures Drives(c, s, steps, t, w) && Served(|s.ledger.published|, t, w)
  {
    assert Drives(c, s, [], s, w);
    hide Config.Valid, Leads, Served;
    match s.workers[w].pc
    case Top => steps, t := FromTop(c, s, [], s, w); steps, t := Onwards(c, s, steps, t, w, |s.ledger.published|);
    case ReadRefs(_) => steps, t := FinishCheck(c, s, [], s, w); steps, t := Onwards(c, s, steps, t, w, |s.ledger.published|);
    case ReadBytes(_, _) => steps, t := FinishCheck(c, s, [], s, w); steps, t := Onwards(c, s, steps, t, w, |s.ledger.published|);
    case Submitting => steps, t := FromGate(c, s, [], s, w);
    case Settling => steps, t := FromGate(c, s, [], s, w);
    case Collecting => steps, t := FromCollecting(c, s, [], s, w);
  }

  lemma Onwards(c: Config, s0: State, before: seq<Step>, s: State, w: nat, published: nat)
    returns (steps: seq<Step>, t: State)
    requires c.Valid() && Drives(c, s0, before, s, w) && |s.ledger.published| == published
    requires Served(published, s, w) || (Hungry(c, s, w) && (s.workers[w].pc == Settling || s.workers[w].pc == Submitting))
    ensures Drives(c, s0, steps, t, w) && Served(published, t, w)
  {
    hide Drives, Served, Hungry, Config.Valid;
    if Served(published, s, w) {
      steps, t := before, s;
    } else {
      steps, t := FromGate(c, s0, before, s, w);
    }
  }

  // ---------------------------------------------------------------- sound workers do not break

  /** The hard cap, if any, has room for the references. */
  ghost predicate Fits(c: Config, l: Ledger, refs: seq<Ref>) {
    c.cap.None? || (l.consumed <= |l.published| && l.Unacknowledged() + Sum(Sizes(refs)) <= c.cap.value)
  }

  ghost predicate SoundCapture(c: Config, l: Ledger, f: Future) {
    !f.Raised? && (f.Returned? ==> Fits(c, l, f.refs))
  }

  /** The books are exact, and no capture of the worker has failed or brings more than the hard cap takes. */
  ghost predicate Sound(c: Config, s: State, w: nat) {
    && w < |s.workers| && s.ledger.Exact(c.cap) && !Broken(s.workers[w]) && !s.workers[w].dead
    && forall i :: 0 <= i < |s.workers[w].futures| ==> SoundCapture(c, s.ledger, s.workers[w].futures[i])
  }

  lemma WeightlessFits(c: Config, l: Ledger, refs: seq<Ref>)
    requires l.Exact(c.cap) && forall i :: 0 <= i < |refs| ==> refs[i].estimate == None
    ensures Fits(c, l, refs)
  {
    NoBytes(refs);
    ReconcileKeeps(l, c.cap);
  }

  /** The references a faultless capture brings have no known size. */
  lemma FaultlessRefs(tasks: seq<nat>, results: seq<Capture>)
    requires |tasks| == |results| && forall i :: 0 <= i < |results| ==> results[i] == Captured(None)
    ensures forall i :: 0 <= i < |CapturedRefs(tasks, results)| ==> CapturedRefs(tasks, results)[i].estimate == None
  {
    hide CapturedRefs;
    assert results == Outcomes(|tasks|, |tasks|);
    OutcomeRefs(tasks, |tasks|);
  }

  /** Collecting a sound capture publishes it without complaint. */
  lemma CollectSound(c: Config, s: State, w: nat, slot: nat)
    requires Sound(c, s, w) && Enabled(c, s, Collect(w, slot, Accepts))
    ensures var t := AfterCollect(c, s, w, slot, Accepts);
      Sound(c, t, w) || |t.ledger.published| > |s.ledger.published|
  {
    hide Sum, Sizes, Tasks;
    assert SoundCapture(c, s.ledger, s.workers[w].futures[slot]);
    ReconcileKeeps(s.ledger, c.cap);
  }

  lemma FinishSound(c: Config, s: State, w: nat, slot: nat, results: seq<Capture>)
    requires Sound(c, s, w) && Enabled(c, s, Finish(w, slot, results)) && Faultless(Finish(w, slot, results))
    ensures Sound(c, Apply(c, s, Finish(w, slot, results)), w)
  {
    hide Sum, Sizes, Fated, CapturedRefs, Fits;
    var tasks := s.workers[w].futures[slot].tasks;
    FaultlessRefs(tasks, results);
    WeightlessFits(c, s.ledger, CapturedRefs(tasks, results));
  }

  lemma LeaseSound(c: Config, s: State, w: nat, slot: nat, tasks: seq<nat>)
    requires Sound(c, s, w) && Enabled(c, s, LeaseTasks(w, slot, tasks))
    ensures Sound(c, Apply(c, s, LeaseTasks(w, slot, tasks)), w)
  {
    hide Sum, Sizes, Fits;
    WeightlessFits(c, s.ledger, []);
  }

  lemma CheckSound(c: Config, s: State, w: nat)
    requires Sound(c, s, w) && Enabled(c, s, SeeBytes(w))
    ensures Sound(c, Apply(c, s, SeeBytes(w)), w)
  {
    hide Sum, Sizes;
    ReconcileKeeps(s.ledger, c.cap);
  }

  /** Without faults a sound worker stays sound until something is published. */
  lemma StepSound(c: Config, s: State, a: Step, w: nat)
    requires Sound(c, s, w) && Enabled(c, s, a) && IsThreadStep(a) && a.w == w && Faultless(a)
    ensures Sound(c, Apply(c, s, a), w) || |Apply(c, s, a).ledger.published| > |s.ledger.published|
  {
    hide Fits, Ledger.Exact, Limits.Latch, Drained;
    match a
    case Collect(_, slot, _) => CollectSound(c, s, w, slot);
    case Finish(_, slot, results) => FinishSound(c, s, w, slot, results);
    case LeaseTasks(_, slot, tasks) => LeaseSound(c, s, w, slot, tasks);
    case SeeBytes(_) => CheckSound(c, s, w);
    case _ =>
  }

  lemma StepPublishes(c: Config, s: State, a: Step)
    requires Enabled(c, s, a) && IsThreadStep(a)
    ensures |Apply(c, s, a).ledger.published| >= |s.ledger.published|
  {
    hide Limits.Latch, Drained, Sum, Sizes, Tasks;
  }

  lemma {:induction false} DrivePublishes(c: Config, s: State, steps: seq<Step>, t: State, w: nat)
    requires Drives(c, s, steps, t, w)
    ensures |t.ledger.published| >= |s.ledger.published|
    decreases |steps|
  {
    hide Enabled, Apply, Faultless;
    if steps != [] {
      StepPublishes(c, s, steps[0]);
      DrivePublishes(c, Apply(c, s, steps[0]), steps[1..], t, w);
    }
  }

  lemma {:induction false} DriveSound(c: Config, s: State, steps: seq<Step>, t: State, w: nat)
    requires Drives(c, s, steps, t, w) && Sound(c, s, w)
    ensures Sound(c, t, w) || |t.ledger.published| > |s.ledger.published|
    decreases |steps|
  {
    hide Enabled, Apply, Faultless, Sound;
    if steps != [] {
      var u := Apply(c, s, steps[0]);
      StepPublishes(c, s, steps[0]);
      StepSound(c, s, steps[0], w);
      DrivePublishes(c, u, steps[1..], t, w);
      if Sound(c, u, w) { DriveSound(c, u, steps[1..], t, w); }
    }
  }

  /**
   * In every run: if no publication has broken off, the consumer lacks a whole window, prompts are pending, and an
   * active worker without failed or oversized captures may still submit, then that worker and its captures alone
   * reach a publication, for whatever the latch, the reading or the checks under way say.
   */
  lemma StarvingConsumerIsServed(c: Config, s0: State, before: seq<Step>, s: State, w: nat) returns (steps: seq<Step>, t: State)
    requires c.Valid() && Start(s0) && Leads(c, s0, before, s) && s.ledger.clean
    requires Hungry(c, s, w) && !Halted(s.workers[w]) && !Broken(s.workers[w]) && !s.workers[w].dead
    requires forall i :: 0 <= i < |s.workers[w].futures| ==> SoundCapture(c, s.ledger, s.workers[w].futures[i])
    ensures Drives(c, s, steps, t, w) && |t.ledger.published| > |s.ledger.published|
  {
    hide Leads, Start, Drives, SoundCapture, Conserved, Bounded, Control;
    StartInv(c, s0);
    LeadsInv(c, s0, before, s, BatchTasks(s0.batches));
    steps, t := GetsThrough(c, s, w);
    DriveSound(c, s, steps, t, w);
  }
}
