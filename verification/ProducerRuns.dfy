/**
 * What holds in every run of the online producer.
 *
 * One invariant is carried through all steps: prompts are in one place, the books are exact while no publication has
 * broken off, references in flight plus those still to come stay below the ceiling, and the control state of workers
 * and driver fits. From it follow the bound on references in flight, the conservation of prompts, the exactness of
 * the byte accounting, completeness of a successful end of input, and that a single worker loses nothing.
 */
module ProducerRuns {
  import opened Options
  import opened Producer
  import opened ProducerFlowControl
  import opened ProducerLedger
  import opened Sequences

  /** The steps lead from `s` to `t`. */
  ghost predicate Leads(c: Config, s: State, steps: seq<Step>, t: State)
    decreases |steps|
  {
    if steps == [] then s == t
    else Enabled(c, s, steps[0]) && Leads(c, Apply(c, s, steps[0]), steps[1..], t)
  }

  function BatchTasks(batches: seq<seq<nat>>): multiset<nat> {
    if batches == [] then multiset{} else multiset(batches[0]) + BatchTasks(batches[1..])
  }

  /** The prompts of all batches. */
  lemma {:induction false} BatchTasksAre(batches: seq<seq<nat>>)
    ensures BatchTasks(batches) == multiset(Flatten<nat>(batches))
  {
    if batches != [] {
      BatchTasksAre(batches[1..]);
      FlattenFirst(batches);
    }
  }

  lemma {:induction false} FlattenFirst(batches: seq<seq<nat>>)
    requires batches != []
    ensures Flatten<nat>(batches) == batches[0] + Flatten<nat>(batches[1..])
  {
    var n := |batches| - 1;
    if n > 0 {
      FlattenFirst(batches[..n]);
      assert batches[..n][1..] == batches[1..][..n - 1] && batches[1..][n - 1] == batches[n];
    }
  }

  // ---------------------------------------------------------------- control

  predicate Halted(v: Worker) {
    v.pc == Exited || v.pc == Crashed
  }

  predicate Broken(v: Worker) {
    v.pc == Aborting || v.pc == Crashed
  }

  /** No reference was freed or lost and no publication stopped half-way. */
  predicate Spotless(l: Ledger) {
    l.clean && l.aborted == multiset{} && l.lost == multiset{}
  }

  ghost predicate Control(s: State, all: multiset<nat>) {
    && (forall w: nat :: w < |s.workers| && Halted(s.workers[w]) ==> s.workers[w].futures == [])
    && (s.main != Rolling ==> forall w: nat :: w < |s.workers| ==> Halted(s.workers[w]))
    && (s.main == NextBatch || s.main == Finishing || s.main.Closed? ==>
         forall w: nat :: w < |s.workers| ==> !Broken(s.workers[w]))
    && (s.main != Failed && (forall w: nat :: w < |s.workers| ==> !Broken(s.workers[w])) ==> Spotless(s.ledger))
    && (s.main == Finishing && !s.stop ==> s.batches == [])
    && (s.main == Closed(false) ==> s.batches == [] && s.pending == multiset{} && s.failed == multiset{})
    && s.ingested + BatchTasks(s.batches) == all
  }

  lemma PublishSpotless(l: Ledger, refs: seq<Ref>, cap: Option<int>, channel: Channel)
    requires channel.Breaks? ==> channel.count <= |refs|
    requires Spotless(l) && !Publish(l, refs, cap, channel).raised
    ensures Spotless(Publish(l, refs, cap, channel).ledger)
  {
    hide Sum, Tasks, Sizes;
  }

  /** Halted workers have nothing left to do; broken ones stay broken; only they leave marks on the ledger. */
  lemma ThreadEffect(c: Config, s: State, a: Step)
    requires Enabled(c, s, a) && IsThreadStep(a) && a.w < |s.workers| == |Apply(c, s, a).workers|
    requires Halted(s.workers[a.w]) ==> s.workers[a.w].futures == []
    ensures var v, v', t := s.workers[a.w], Apply(c, s, a).workers[a.w], Apply(c, s, a);
      && !Halted(v)
      && (Halted(v') ==> v'.futures == [])
      && (Broken(v) ==> Broken(v'))
      && (Spotless(s.ledger) && !Broken(v') ==> Spotless(t.ledger))
  {
    hide Drained, Fated, CapturedRefs, Limits.Latch, FutureTasks, AfterCollect, AfterSeeBytes, AfterCapture, AfterAbort, AfterLease,
      AfterSubmit, Spotless;
    if a.Collect? {
      CollectEffect(c, s, a.w, a.slot, a.channel);
    } else if a.SeeBytes? {
      SeeBytesEffect(s, a.w);
    } else if a.Finish? || a.Throw? {
      EndEffect(c, s, a);
    } else if a.AbortOne? || a.LeaseTasks? || a.Submit? {
      SlotEffect(c, s, a);
    }
  }

  lemma SlotEffect(c: Config, s: State, a: Step)
    requires Enabled(c, s, a) && (a.AbortOne? || a.LeaseTasks? || a.Submit?) && a.w < |s.workers| == |Apply(c, s, a).workers|
    requires Halted(s.workers[a.w]) ==> s.workers[a.w].futures == []
    ensures var v, v', t := s.workers[a.w], Apply(c, s, a).workers[a.w], Apply(c, s, a);
      !Halted(v) && v'.pc == v.pc && (Spotless(s.ledger) && v.pc != Aborting ==> Spotless(t.ledger))
  {
    hide FutureTasks;
  }

  lemma SeeBytesEffect(s: State, w: nat)
    requires w < |s.workers| && s.workers[w].pc.ReadRefs?
    ensures var t := AfterSeeBytes(s, w); !Halted(t.workers[w]) && (Spotless(s.ledger) ==> Spotless(t.ledger))
  {
    hide Sum;
  }

  lemma EndEffect(c: Config, s: State, a: Step)
    requires Enabled(c, s, a) && (a.Finish? || a.Throw?)
    ensures var v, v', t := s.workers[a.w], Apply(c, s, a).workers[a.w], Apply(c, s, a);
      v.futures != [] && v'.pc == v.pc && t.ledger == s.ledger
  {
    hide Fated, CapturedRefs;
  }

  lemma CollectEffect(c: Config, s: State, w: nat, slot: nat, channel: Channel)
    requires Enabled(c, s, Collect(w, slot, channel))
    ensures var t := AfterCollect(c, s, w, slot, channel);
      && !Halted(t.workers[w]) && (Spotless(s.ledger) && !Broken(t.workers[w]) ==> Spotless(t.ledger))
  {
    hide Publish, Tasks;
    var f := s.workers[w].futures[slot];
    if f.Returned? && Spotless(s.ledger) && !Publish(s.ledger, f.refs, c.cap, channel).raised {
      PublishSpotless(s.ledger, f.refs, c.cap, channel);
    }
  }

  lemma ThreadControl(c: Config, s: State, a: Step, all: multiset<nat>)
    requires Control(s, all) && Enabled(c, s, a) && IsThreadStep(a)
    ensures Control(Apply(c, s, a), all)
  {
    hide Enabled, Apply, Spotless, BatchTasks;
    ThreadFrame(c, s, a);
    ThreadEffect(c, s, a);
    assert s.main == Rolling;
    var t := Apply(c, s, a);
    assert (forall w: nat :: w < |t.workers| ==> !Broken(t.workers[w])) ==> forall w: nat :: w < |s.workers| ==> !Broken(s.workers[w])
      by { OthersSame(s, t, a.w); }
  }

  lemma OthersSame(s: State, t: State, w: nat)
    requires Touches(s, t, w)
    ensures forall i: nat :: i < |s.workers| && i != w ==> s.workers[i] == t.workers[i]
  {}

  lemma DriverControl(c: Config, s: State, a: Step, all: multiset<nat>)
    requires Control(s, all) && Enabled(c, s, a) && !IsThreadStep(a)
    ensures Control(Apply(c, s, a), all)
  {
    hide AfterStartBatch, AfterJoin, AfterClose, BatchTasks, Drained;
    match a
    case StartBatch => StartBatchControl(s, all);
    case Join => JoinControl(s, all);
    case Close => CloseControl(s, all);
    case _ =>
  }

  lemma JoinControl(s: State, all: multiset<nat>)
    requires Control(s, all) && s.main == Rolling && forall w :: 0 <= w < |s.workers| ==> Halted(s.workers[w])
    ensures Control(AfterJoin(s), all)
  {
    hide BatchTasks, Drained, Spotless;
  }

  lemma CloseControl(s: State, all: multiset<nat>)
    requires Control(s, all) && s.main == Finishing
    ensures Control(AfterClose(s), all)
  {
    NothingRunning(s, all);
    hide BatchTasks, Drained, Spotless;
  }

  lemma StartBatchControl(s: State, all: multiset<nat>)
    requires Control(s, all) && s.main == NextBatch
    ensures Control(AfterStartBatch(s), all)
  {
    var t := AfterStartBatch(s);
    if !s.stop && s.batches != [] {
      assert t.ingested + BatchTasks(t.batches) == all by {
        assert s.ingested + (multiset(s.batches[0]) + BatchTasks(s.batches[1..])) == all;
        hide BatchTasks, Started;
        Regroup(s.ingested, multiset(s.batches[0]), BatchTasks(s.batches[1..]));
      }
      hide BatchTasks, Spotless;
      StartedIdle(s.workers);
    }
  }

  lemma StartedIdle(ws: seq<Worker>)
    requires forall w: nat :: w < |ws| ==> ws[w].futures == []
    ensures forall w: nat :: w < |ws| ==> Started(ws)[w].futures == [] && !Broken(Started(ws)[w])
  {}

  /** Outside a roll-out the pool counts as drained exactly when nothing is pending. */
  lemma NothingRunning(s: State, all: multiset<nat>)
    requires Control(s, all) && s.main != Rolling
    ensures Drained(s) <==> s.pending == multiset{}
  {
    forall w: nat | w < |s.workers| ensures s.workers[w].futures == [] {}
  }

  // ---------------------------------------------------------------- runs

  ghost predicate Inv(c: Config, s: State, all: multiset<nat>) {
    Conserved(s) && Books(c, s) && Bounded(c, s) && Control(s, all)
  }

  lemma StartInv(c: Config, s: State)
    requires c.Valid() && Start(s)
    ensures Inv(c, s, BatchTasks(s.batches))
  {
    StartConserved(s.workers);
    StartBounded(c, s);
    assert s.ledger.published[0..] == [];
  }

  lemma {:induction false} StartConserved(ws: seq<Worker>)
    requires forall w :: 0 <= w < |ws| ==> ws[w].futures == []
    ensures HeldTasks(ws) == multiset{}
  {
    if ws != [] {
      forall w | 0 <= w < |ws[1..]| ensures ws[1..][w].futures == [] { assert ws[w + 1].futures == []; }
      StartConserved(ws[1..]);
    }
  }

  lemma StartBounded(c: Config, s: State)
    requires c.Valid() && Start(s)
    ensures Bounded(c, s)
  {
    StartAllowances(c, s.workers);
    Scale(c.lease, 0, |s.workers| * c.Room());
  }

  lemma {:induction false} StartAllowances(c: Config, ws: seq<Worker>)
    requires forall w :: 0 <= w < |ws| ==> ws[w].futures == [] && ws[w].pc == Exited
    ensures Allowances(c, ws) == 0
  {
    if ws != [] {
      forall w | 0 <= w < |ws[1..]| ensures ws[1..][w].futures == [] && ws[1..][w].pc == Exited { assert ws[w + 1].pc == Exited; }
      StartAllowances(c, ws[1..]);
    }
  }

  lemma IdleBetweenBatches(s: State, all: multiset<nat>)
    requires Control(s, all)
    ensures s.main == NextBatch ==> forall w :: 0 <= w < |s.workers| ==> s.workers[w].futures == []
  {
    forall w: nat | w < |s.workers| && s.main == NextBatch ensures s.workers[w].futures == [] {}
  }

  lemma {:induction false} LeadsInv(c: Config, s: State, steps: seq<Step>, t: State, all: multiset<nat>)
    requires c.Valid() && Inv(c, s, all) && Leads(c, s, steps, t)
    ensures Inv(c, t, all) && |t.workers| == |s.workers|
    decreases |steps|
  {
    hide Enabled, Apply, Conserved, Books, Bounded, Control;
    if steps != [] {
      var a := steps[0];
      StepConserves(c, s, a);
      StepKeepsBooks(c, s, a);
      IdleBetweenBatches(s, all);
      StepBounded(c, s, a);
      if IsThreadStep(a) { ThreadControl(c, s, a, all); } else { DriverControl(c, s, a, all); }
      LeadsInv(c, Apply(c, s, a), steps[1..], t, all);
    }
  }

  /**
   * The references in flight never exceed the go-ahead mark by more than one capture per slot of every worker, or per
   * round of a batch where a batch has fewer rounds than a worker has slots.
   */
  lemma InFlightIsBounded(c: Config, s: State, steps: seq<Step>, t: State)
    requires c.Valid() && Start(s) && Leads(c, s, steps, t)
    ensures t.ledger.InFlight()
         <= (if c.limits.LowRefs() < c.limits.highRefs then c.limits.highRefs - 1 else c.limits.highRefs)
            + c.lease * (|s.workers| * if c.maxRounds < 0 then 0 else if c.maxRounds < c.slots then c.maxRounds else c.slots)
  {
    hide Conserved, Books, Control, Leads, WorkersFit;
    StartInv(c, s);
    LeadsInv(c, s, steps, t, BatchTasks(s.batches));
    Scale(c.lease, 0, Allowances(c, t.workers));
  }

  /** Every ingested prompt is, at all times, in exactly one place. */
  lemma PromptsAreConserved(c: Config, s: State, steps: seq<Step>, t: State)
    requires c.Valid() && Start(s) && Leads(c, s, steps, t)
    ensures t.ingested == t.pending + t.failed + HeldTasks(t.workers) + Tasks(t.ledger.published) + t.ledger.aborted + t.ledger.lost
    ensures t.ingested + BatchTasks(t.batches) == BatchTasks(s.batches)
  {
    hide Books, Bounded, Leads;
    StartInv(c, s);
    LeadsInv(c, s, steps, t, BatchTasks(s.batches));
  }

  /** As long as no publication stopped half-way, nothing is lost and the byte books match the channel. */
  lemma BooksAreExact(c: Config, s: State, steps: seq<Step>, t: State)
    requires c.Valid() && Start(s) && Leads(c, s, steps, t) && t.ledger.clean
    ensures t.ledger.lost == multiset{} && t.ledger.CanReconcile() && t.ledger.consumed <= |t.ledger.published|
    ensures t.ledger.Reconcile().resident == t.ledger.Unacknowledged() && t.ledger.produced == |t.ledger.published|
    ensures c.cap.Some? ==> t.ledger.Unacknowledged() <= t.ledger.resident <= c.cap.value
  {
    hide Conserved, Bounded, Control, Leads;
    StartInv(c, s);
    LeadsInv(c, s, steps, t, BatchTasks(s.batches));
    ReconcileKeeps(t.ledger, c.cap);
  }

  /** A successful end of input that was not requested by the consumer has published every prompt of every batch. */
  lemma SuccessIsComplete(c: Config, s: State, steps: seq<Step>, t: State)
    requires c.Valid() && Start(s) && Leads(c, s, steps, t) && t.main == Closed(false)
    ensures Tasks(t.ledger.published) == BatchTasks(s.batches)
    ensures t.pending == t.failed == HeldTasks(t.workers) == t.ledger.aborted == t.ledger.lost == multiset{}
    ensures t.ledger.produced == |t.ledger.published|
  {
    hide Bounded, Leads, Tasks;
    StartInv(c, s);
    LeadsInv(c, s, steps, t, BatchTasks(s.batches));
    forall w | 0 <= w < |t.workers| ensures t.workers[w].futures == [] { assert Halted(t.workers[w]); }
    StartConserved(t.workers);
    forall w: nat | w < |t.workers| ensures !Broken(t.workers[w]) {}
  }

  // ---------------------------------------------------------------- pausing

  /** The channel only grows, and only the consumer acknowledges. */
  lemma ChannelGrows(c: Config, s: State, a: Step)
    requires Enabled(c, s, a)
    ensures var l, l' := s.ledger, Apply(c, s, a).ledger;
      |l'.published| >= |l.published| && l'.consumed >= l.consumed && (!a.Consume? ==> l'.consumed == l.consumed)
  {
    if a.Collect? {
      CollectGrows(c, s, a.w, a.slot, a.channel);
    } else {
      hide Drained, Fated, CapturedRefs, Limits.Latch, FutureTasks, Tasks, Sum, Sizes, Started, AfterCollect, Publish;
    }
  }

  lemma CollectGrows(c: Config, s: State, w: nat, slot: nat, channel: Channel)
    requires Enabled(c, s, Collect(w, slot, channel))
    ensures var l, l' := s.ledger, AfterCollect(c, s, w, slot, channel).ledger;
      |l'.published| >= |l.published| && l'.consumed == l.consumed
  {
    hide Tasks, Sum, Sizes;
  }

  /** What worker `w` saw in flight was published on top of `from` acknowledged references, or more of them. */
  predicate Seen(s: State, w: nat, from: nat) {
    && w < |s.workers| && from <= s.ledger.consumed
    && (s.workers[w].pc.ReadRefs? || s.workers[w].pc.ReadBytes? ==> s.workers[w].pc.refs + from <= |s.ledger.published|)
  }

  lemma StepKeepsSeen(c: Config, s: State, a: Step, w: nat, from: nat)
    requires Enabled(c, s, a) && Seen(s, w, from)
    ensures Seen(Apply(c, s, a), w, from)
  {
    ChannelGrows(c, s, a);
    if IsThreadStep(a) {
      ThreadFrame(c, s, a);
      ReadingKept(c, s, a);
      hide Enabled, Apply;
    } else {
      hide Seen;
      DriverKeepsSeen(c, s, a, w, from);
    }
  }

  lemma DriverKeepsSeen(c: Config, s: State, a: Step, w: nat, from: nat)
    requires Enabled(c, s, a) && !IsThreadStep(a) && Seen(s, w, from)
    ensures Seen(Apply(c, s, a), w, from)
  {
    hide Drained, BatchTasks;
  }

  lemma ReadingKept(c: Config, s: State, a: Step)
    requires Enabled(c, s, a) && IsThreadStep(a) && a.w < |s.workers| == |Apply(c, s, a).workers|
    ensures var p, p' := s.workers[a.w].pc, Apply(c, s, a).workers[a.w].pc;
      (p'.ReadRefs? || p'.ReadBytes?) ==> (p'.refs == s.ledger.InFlight() || ((p.ReadRefs? || p.ReadBytes?) && p'.refs == p.refs))
  {
    hide Drained, Fated, CapturedRefs, Limits.Latch, FutureTasks, AfterCollect, AfterCapture, AfterLease, AfterAbort, Ledger.Reconcile;
    if a.Collect? {
      CollectPc(c, s, a.w, a.slot, a.channel);
    } else if a.LeaseTasks? || a.Finish? || a.Throw? || a.AbortOne? {
      SlotStepPc(c, s, a);
    }
  }

  lemma CollectPc(c: Config, s: State, w: nat, slot: nat, channel: Channel)
    requires Enabled(c, s, Collect(w, slot, channel))
    ensures var pc := AfterCollect(c, s, w, slot, channel).workers[w].pc; pc == Aborting || pc == Collecting
  {
    hide Publish;
  }

  lemma SlotStepPc(c: Config, s: State, a: Step)
    requires Enabled(c, s, a) && (a.LeaseTasks? || a.Finish? || a.Throw? || a.AbortOne?)
    requires |Apply(c, s, a).workers| == |s.workers|
    ensures Apply(c, s, a).workers[a.w].pc == s.workers[a.w].pc
  {
    hide Fated, CapturedRefs, FutureTasks, Tasks, AfterCollect, AfterSettle, AfterDecide, AfterSeeBytes, Drained;
  }

  lemma {:induction false} LeadsSeen(c: Config, s: State, steps: seq<Step>, t: State, w: nat, from: nat)
    requires Leads(c, s, steps, t) && Seen(s, w, from)
    ensures Seen(t, w, from)
    decreases |steps|
  {
    hide Enabled, Apply, Seen;
    if steps != [] {
      StepKeepsSeen(c, s, steps[0], w, from);
      LeadsSeen(c, Apply(c, s, steps[0]), steps[1..], t, w, from);
    }
  }

  /**
   * A worker that pauses leaves the consumer a whole optimizer window: whatever ran since the worker stood at its loop
   * top, a window has been published on top of what was acknowledged then, so all that may be missing of a window in
   * flight is what the consumer has acknowledged since.
   */
  lemma PauseLeavesWindow(c: Config, s: State, steps: seq<Step>, t: State, w: nat)
    requires Leads(c, s, steps, t) && w < |s.workers| && s.workers[w].pc == Top
    requires w < |t.workers| && t.workers[w].pc.ReadBytes? && AfterDecide(c, t, w).workers[w].pc != Submitting
    ensures |t.ledger.published| >= s.ledger.consumed + c.quantum
    ensures t.ledger.InFlight() + (t.ledger.consumed - s.ledger.consumed) >= c.quantum
  {
    LeadsSeen(c, s, steps, t, w, s.ledger.consumed);
  }

  // ---------------------------------------------------------------- a single worker

  /** Nothing is lost, and after a publication that stopped half-way nobody publishes any more. */
  ghost predicate Lossless(s: State) {
    && s.ledger.lost == multiset{}
    && (s.ledger.clean || forall w: nat :: w < |s.workers| ==> Broken(s.workers[w]))
  }

  /** Only collecting a capture can lose references or leave the books unclean. */
  lemma LossByCollect(c: Config, s: State, a: Step)
    requires Enabled(c, s, a) && !a.Collect?
    ensures Apply(c, s, a).ledger.lost == s.ledger.lost && Apply(c, s, a).ledger.clean == s.ledger.clean
  {
    hide Drained, Fated, CapturedRefs, Limits.Latch, FutureTasks, Tasks, Sum, Sizes, Started;
  }

  /** Collecting from exact books loses nothing, and the worker breaks when the publication stops half-way. */
  lemma CollectLoses(c: Config, s: State, w: nat, slot: nat, channel: Channel)
    requires Enabled(c, s, Collect(w, slot, channel)) && s.ledger.clean && s.ledger.Exact(c.cap)
    ensures var t := AfterCollect(c, s, w, slot, channel);
      t.ledger.lost == s.ledger.lost && (t.ledger.clean || Broken(t.workers[w]))
  {
    hide Tasks, Sum, Sizes, Ledger.Exact, Ledger.Reconcile;
    var f := s.workers[w].futures[slot];
    if f.Returned? {
      PublishKeeps(s.ledger, f.refs, c.cap, channel);
      ReconcileFrames(s.ledger);
      PublishBreaks(s.ledger, f.refs, c.cap, channel);
    }
  }

  lemma PublishBreaks(l: Ledger, refs: seq<Ref>, cap: Option<int>, channel: Channel)
    requires l.clean && (channel.Breaks? ==> channel.count <= |refs|)
    ensures Publish(l, refs, cap, channel).ledger.clean || Publish(l, refs, cap, channel).raised
  {
    hide Tasks, Sum, Sizes;
  }

  lemma SingleStep(c: Config, s: State, a: Step, all: multiset<nat>)
    requires |s.workers| <= 1 && Lossless(s) && Books(c, s) && Control(s, all) && Enabled(c, s, a)
    ensures Lossless(Apply(c, s, a))
  {
    hide Apply, Enabled, Books, BatchTasks, Broken;
    if a.Collect? {
      SingleCollect(c, s, a);
    } else {
      LossByCollect(c, s, a);
      if !s.ledger.clean { BrokenStays(c, s, a, all); }
    }
  }

  lemma SingleCollect(c: Config, s: State, a: Step)
    requires |s.workers| <= 1 && Lossless(s) && Books(c, s) && Enabled(c, s, a) && a.Collect?
    ensures Lossless(Apply(c, s, a))
  {
    ThreadFrame(c, s, a);
    hide Apply, Ledger.Exact, AfterCollect;
    CollectLoses(c, s, a.w, a.slot, a.channel);
  }

  lemma BrokenStays(c: Config, s: State, a: Step, all: multiset<nat>)
    requires |s.workers| <= 1 && Control(s, all) && Enabled(c, s, a)
    requires forall w: nat :: w < |s.workers| ==> Broken(s.workers[w])
    ensures var t := Apply(c, s, a); forall w: nat :: w < |t.workers| ==> Broken(t.workers[w])
  {
    if IsThreadStep(a) {
      hide Enabled, Apply;
      ThreadFrame(c, s, a);
      ThreadEffect(c, s, a);
    } else {
      DriverKeepsBroken(c, s, a, all);
    }
  }

  lemma DriverKeepsBroken(c: Config, s: State, a: Step, all: multiset<nat>)
    requires |s.workers| <= 1 && Control(s, all) && Enabled(c, s, a) && !IsThreadStep(a)
    requires forall w: nat :: w < |s.workers| ==> Broken(s.workers[w])
    ensures var t := Apply(c, s, a); forall w: nat :: w < |t.workers| ==> Broken(t.workers[w])
  {
    hide Drained, BatchTasks, Spotless;
  }

  lemma {:induction false} LeadsLossless(c: Config, s: State, steps: seq<Step>, t: State, all: multiset<nat>)
    requires c.Valid() && Inv(c, s, all) && |s.workers| <= 1 && Lossless(s) && Leads(c, s, steps, t)
    ensures Lossless(t)
    decreases |steps|
  {
    hide Enabled, Apply, Conserved, Books, Bounded, Control, Lossless;
    if steps != [] {
      var a := steps[0];
      SingleStep(c, s, a, all);
      assert Leads(c, s, [a], Apply(c, s, a)) by { assert [a][1..] == []; }
      LeadsInv(c, s, [a], Apply(c, s, a), all);
      LeadsLossless(c, Apply(c, s, a), steps[1..], t, all);
    }
  }

  /** With one worker no reference is ever lost, whatever publications do. */
  lemma SingleWorkerLosesNothing(c: Config, s: State, steps: seq<Step>, t: State)
    requires c.Valid() && Start(s) && |s.workers| <= 1 && Leads(c, s, steps, t)
    ensures t.ledger.lost == multiset{}
  {
    hide Leads, Inv;
    StartInv(c, s);
    LeadsLossless(c, s, steps, t, BatchTasks(s.batches));
  }

  /** Without rounds there are no captures to collect. */
  lemma NothingToCollect(c: Config, s: State, a: Step)
    requires Bounded(c, s) && c.maxRounds < 1 && Enabled(c, s, a)
    ensures !a.Collect?
  {
    hide Exposure, Ceiling;
    if a.Collect? { FitsSlots(c, s, a.w); }
  }

  lemma {:induction false} LeadsWithoutRounds(c: Config, s: State, steps: seq<Step>, t: State, all: multiset<nat>)
    requires c.Valid() && Inv(c, s, all) && c.maxRounds < 1 && Leads(c, s, steps, t)
    ensures t.ledger.lost == s.ledger.lost
    decreases |steps|
  {
    hide Enabled, Apply, Conserved, Books, Bounded, Control;
    if steps != [] {
      var a := steps[0];
      NothingToCollect(c, s, a);
      LossByCollect(c, s, a);
      assert Leads(c, s, [a], Apply(c, s, a)) by { assert [a][1..] == []; }
      LeadsInv(c, s, [a], Apply(c, s, a), all);
      LeadsWithoutRounds(c, Apply(c, s, a), steps[1..], t, all);
    }
  }

  /** With no rounds to submit in nothing is lost either. */
  lemma NoRoundsLoseNothing(c: Config, s: State, steps: seq<Step>, t: State)
    requires c.Valid() && Start(s) && c.maxRounds < 1 && Leads(c, s, steps, t)
    ensures t.ledger.lost == multiset{}
  {
    hide Leads, Inv;
    StartInv(c, s);
    LeadsWithoutRounds(c, s, steps, t, BatchTasks(s.batches));
  }
}
