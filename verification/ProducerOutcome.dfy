/**
 * How the online producer ends: what each step of the driver decides in terms of the pool and the stop signal, when
 * workers are dropped, leave early and stop submitting, and runs that end in success.
 *
 * The driver's steps look at what the workers left behind. In reachable states that is the pool alone, because no
 * capture outlives a batch; so the conditions below speak of pending and failed prompts only.
 */
module ProducerOutcome {
  import opened NatArithmetic
  import opened Options
  import opened Producer
  import opened ProducerFlowControl
  import opened ProducerLedger
  import opened ProducerRuns
  import opened ProducerScenarios

  // ---------------------------------------------------------------- the driver's decisions

  /** The channel closes with a successful end of input exactly when the run was stopped or left nothing over. */
  lemma CloseOutcome(c: Config, s: State, steps: seq<Step>, t: State)
    requires c.Valid() && Start(s) && Leads(c, s, steps, t) && t.main == Finishing
    ensures Enabled(c, t, Close)
    ensures var u := Apply(c, t, Close);
      && (u.main == Closed(t.stop) <==> t.stop || (t.failed == multiset{} && t.pending == multiset{}))
      && (u.main == Failed <==> !t.stop && (t.failed != multiset{} || t.pending != multiset{}))
      && u.ledger == t.ledger && u.pending == t.pending && u.failed == t.failed
  {
    hide Leads, Conserved, Books, Bounded, Start, Spotless, BatchTasks;
    StartInv(c, s);
    LeadsInv(c, s, steps, t, BatchTasks(s.batches));
    NothingRunning(t, BatchTasks(s.batches));
  }

  /** A batch ends the run when a worker crashed, or when one was dropped and prompts are left without a stop. */
  lemma JoinOutcome(c: Config, s: State, steps: seq<Step>, t: State)
    requires c.Valid() && Start(s) && Leads(c, s, steps, t) && Enabled(c, t, Join)
    ensures var u := Apply(c, t, Join);
      && (u.main == Failed
          <==> ((exists w :: 0 <= w < |t.workers| && t.workers[w].pc == Crashed)
                || ((exists w :: 0 <= w < |t.workers| && t.workers[w].dead) && !t.stop && t.pending != multiset{})))
      && (u.main != Failed ==> u.main == if t.stop then Finishing else NextBatch)
      && u.pending == t.pending && u.workers == t.workers && u.batches == t.batches
  {
    hide Leads, Conserved, Books, Bounded, Start, Spotless, BatchTasks;
    StartInv(c, s);
    LeadsInv(c, s, steps, t, BatchTasks(s.batches));
    AllHaltedIsIdle(t, BatchTasks(s.batches));
  }

  lemma AllHaltedIsIdle(s: State, all: multiset<nat>)
    requires Control(s, all) && forall w :: 0 <= w < |s.workers| ==> Halted(s.workers[w])
    ensures Drained(s) <==> s.pending == multiset{}
  {
    forall w: nat | w < |s.workers| ensures s.workers[w].futures == [] {}
  }

  /** The next batch is taken in unless the run was stopped or there is none; it needs a worker that was not dropped. */
  lemma BatchOutcome(c: Config, t: State)
    requires t.main == NextBatch
    ensures Enabled(c, t, StartBatch)
    ensures var u := Apply(c, t, StartBatch);
      if t.stop || t.batches == [] then u == t.(main := Finishing)
      else
        && u.pending == t.pending + multiset(t.batches[0]) && u.ingested == t.ingested + multiset(t.batches[0])
        && u.batches == t.batches[1..] && u.ledger == t.ledger
        && u.main == (if exists w :: 0 <= w < |t.workers| && !t.workers[w].dead then Rolling else Failed)
        && (u.main == Rolling ==> forall w :: 0 <= w < |t.workers| ==>
             if t.workers[w].dead then u.workers[w].pc == Exited
             else u.workers[w] == Worker(Top, t.workers[w].futures, true, 0, 0, false))
  {}

  // ---------------------------------------------------------------- dropping and stopping workers

  /** A failed capture adds to the worker's streak, which drops it exactly when it gets to the limit; any other ends the streak. */
  lemma StreakDecides(c: Config, s: State, w: nat, slot: nat, channel: Channel)
    requires Enabled(c, s, Collect(w, slot, channel))
    ensures var v, v' := s.workers[w], Apply(c, s, Collect(w, slot, channel)).workers[w];
      if v.futures[slot].Raised? then
        && v'.failures == v.failures + 1
        && (v'.dead <==> v.dead || v.failures + 1 >= c.maxFailures)
        && (v'.accepting <==> v.accepting && v.failures + 1 < c.maxFailures)
      else v'.failures == 0 && v'.dead == v.dead && v'.accepting == v.accepting
  {
    hide Publish, Tasks;
  }

  /** In this step a capture ends, and prompt `x` meets the given fate. */
  predicate Meets(s: State, a: Step, x: nat, fate: Capture) {
    && (a.Finish? || a.Throw?) && SlotIs(s, a.w, a.slot) && s.workers[a.w].futures[a.slot].Running?
    && |a.results| == |s.workers[a.w].futures[a.slot].tasks|
    && exists i :: 0 <= i < |a.results| && s.workers[a.w].futures[a.slot].tasks[i] == x && a.results[i] == fate
  }

  /** A prompt fails for good exactly in a capture that says so, and one to be tried again returns to the pool. */
  lemma CaptureDecides(c: Config, s: State, a: Step, x: nat)
    requires Enabled(c, s, a)
    ensures x in Apply(c, s, a).failed <==> x in s.failed || Meets(s, a, x, Terminal)
    ensures a.Finish? || a.Throw? ==> (x in Apply(c, s, a).pending <==> x in s.pending || Meets(s, a, x, Retry))
  {
    hide Drained, Fated, CapturedRefs, Limits.Latch, Ledger.Reconcile, Ledger.CanReconcile, Publish, FutureTasks;
    if a.Finish? || a.Throw? {
      FatedAre(s.workers[a.w].futures[a.slot].tasks, a.results, Terminal, x);
      FatedAre(s.workers[a.w].futures[a.slot].tasks, a.results, Retry, x);
    }
  }

  ghost predicate MeetsDuring(c: Config, s: State, steps: seq<Step>, x: nat, fate: Capture)
    decreases |steps|
  {
    steps != [] && Enabled(c, s, steps[0])
    && (Meets(s, steps[0], x, fate) || MeetsDuring(c, Apply(c, s, steps[0]), steps[1..], x, fate))
  }

  /** In every run exactly the prompts that met a terminal failure count as failed. */
  lemma {:induction false} FailedMetTerminal(c: Config, s: State, steps: seq<Step>, t: State, x: nat)
    requires Leads(c, s, steps, t)
    ensures x in t.failed <==> x in s.failed || MeetsDuring(c, s, steps, x, Terminal)
    decreases |steps|
  {
    hide Apply, Enabled, Meets;
    if steps != [] {
      CaptureDecides(c, s, steps[0], x);
      FailedMetTerminal(c, Apply(c, s, steps[0]), steps[1..], t, x);
    }
  }

  // ---------------------------------------------------------------- leaving early

  /** Worker `v` has left its loop although it was accepted and had rounds left. */
  predicate LeftEarly(c: Config, v: Worker) {
    v.pc == Exited && v.accepting && v.submitted < c.maxRounds && !v.dead
  }

  ghost predicate LeftWhenDrained(c: Config, s: State) {
    s.main == Rolling ==> forall w :: 0 <= w < |s.workers| && LeftEarly(c, s.workers[w]) ==> Drained(s)
  }

  predicate NoneRunning(v: Worker) {
    forall i :: 0 <= i < |v.futures| ==> !v.futures[i].Running?
  }

  /** A step of worker `a.w` fills no drained pool again, and makes it leave early only when the pool is drained. */
  ghost predicate LeavesWell(c: Config, s: State, t: State, w: nat)
    requires w < |s.workers| == |t.workers|
  {
    && (s.pending == multiset{} && NoneRunning(s.workers[w]) ==> t.pending == multiset{} && NoneRunning(t.workers[w]))
    && (LeftEarly(c, t.workers[w]) ==> Drained(s) || LeftEarly(c, s.workers[w]))
  }

  lemma CollectLeavesWell(c: Config, s: State, w: nat, slot: nat, channel: Channel)
    requires Enabled(c, s, Collect(w, slot, channel))
    ensures LeavesWell(c, s, AfterCollect(c, s, w, slot, channel), w)
  {
    hide Publish, Tasks, Drained;
  }

  lemma CaptureLeavesWell(c: Config, s: State, a: Step)
    requires Enabled(c, s, a) && (a.LeaseTasks? || a.Finish? || a.Throw?) && a.w < |s.workers| == |Apply(c, s, a).workers|
    ensures LeavesWell(c, s, Apply(c, s, a), a.w)
  {
    hide Drained, Fated, CapturedRefs, FutureTasks, AfterCollect, AfterSettle, AfterDecide, AfterSeeBytes, AfterSeeRefs, AfterSubmit,
      AfterAbort;
  }

  lemma SlotLeavesWell(c: Config, s: State, a: Step)
    requires Enabled(c, s, a) && (a.AbortOne? || a.Submit?) && a.w < |s.workers| == |Apply(c, s, a).workers|
    ensures LeavesWell(c, s, Apply(c, s, a), a.w)
  {
    hide Drained, FutureTasks, AfterCollect, AfterSettle, AfterDecide, AfterSeeBytes, AfterSeeRefs, AfterCapture, AfterLease;
  }

  lemma WorkerLeavesWell(c: Config, s: State, a: Step)
    requires a.SeeRefs? || a.SeeBytes? || a.Decide? || a.Settle? || a.LoopBack? || a.Break? || a.EndAbort?
    requires Enabled(c, s, a) && a.w < |s.workers| == |Apply(c, s, a).workers|
    ensures LeavesWell(c, s, Apply(c, s, a), a.w)
  {
    hide Drained, Limits.Latch, Ledger.Reconcile, Ledger.CanReconcile, AfterCollect, AfterCapture, AfterLease, AfterAbort, AfterSubmit;
  }

  lemma StepLeavesWell(c: Config, s: State, a: Step)
    requires Enabled(c, s, a) && IsThreadStep(a) && a.w < |s.workers| == |Apply(c, s, a).workers|
    ensures LeavesWell(c, s, Apply(c, s, a), a.w)
  {
    if a.Collect? {
      CollectLeavesWell(c, s, a.w, a.slot, a.channel);
    } else {
      hide Enabled, Apply, LeavesWell;
      if a.LeaseTasks? || a.Finish? || a.Throw? {
        CaptureLeavesWell(c, s, a);
      } else if a.AbortOne? || a.Submit? {
        SlotLeavesWell(c, s, a);
      } else {
        WorkerLeavesWell(c, s, a);
      }
    }
  }

  lemma TouchLeavesWhenDrained(c: Config, s: State, t: State, w: nat)
    requires Touches(s, t, w) && LeavesWell(c, s, t, w) && LeftWhenDrained(c, s)
    ensures LeftWhenDrained(c, t)
  {
    if Drained(s) { assert NoneRunning(s.workers[w]); }
  }

  lemma StepLeavesWhenDrained(c: Config, s: State, a: Step)
    requires Enabled(c, s, a) && LeftWhenDrained(c, s)
    ensures LeftWhenDrained(c, Apply(c, s, a))
  {
    if IsThreadStep(a) {
      ThreadFrame(c, s, a);
      hide Enabled, Apply, LeavesWell, LeftWhenDrained;
      StepLeavesWell(c, s, a);
      TouchLeavesWhenDrained(c, s, Apply(c, s, a), a.w);
    } else {
      hide Limits.Latch, AfterCollect, AfterSettle, AfterDecide, AfterSeeBytes, AfterSeeRefs, AfterSubmit, AfterCapture, AfterLease, AfterAbort;
    }
  }

  /** In every run, a worker that left its loop without being dropped, stopped or out of rounds left a drained pool. */
  lemma EarlyExitMeansDrained(c: Config, s: State, steps: seq<Step>, t: State)
    requires Start(s) && Leads(c, s, steps, t)
    ensures t.main == Rolling ==> forall w :: 0 <= w < |t.workers| && LeftEarly(c, t.workers[w]) ==> Drained(t)
  {
    hide Drained, LeftEarly, Leads;
    LeadsLeavesWhenDrained(c, s, steps, t);
  }

  lemma {:induction false} LeadsLeavesWhenDrained(c: Config, s: State, steps: seq<Step>, t: State)
    requires LeftWhenDrained(c, s) && Leads(c, s, steps, t)
    ensures LeftWhenDrained(c, t)
    decreases |steps|
  {
    hide Apply, Enabled, LeftWhenDrained;
    if steps != [] {
      StepLeavesWhenDrained(c, s, steps[0]);
      LeadsLeavesWhenDrained(c, Apply(c, s, steps[0]), steps[1..], t);
    }
  }

  /** After the stop signal, worker `w` is at its loop top or submits no more. */
  predicate WindsDown(s: State, w: nat, submitted: nat) {
    && s.stop && w < |s.workers| && s.workers[w].submitted == submitted
    && (s.workers[w].pc == Top || !s.workers[w].accepting)
  }

  lemma StepWindsDown(c: Config, s: State, a: Step, w: nat, submitted: nat)
    requires WindsDown(s, w, submitted) && Enabled(c, s, a)
    ensures WindsDown(Apply(c, s, a), w, submitted)
  {
    if IsThreadStep(a) {
      ThreadFrame(c, s, a);
      hide Enabled, Apply, WindsDown;
      if a.w != w {
        OtherStepWindsDown(s, Apply(c, s, a), a.w, w, submitted);
      } else if a.Collect? {
        CollectWindsDown(c, s, w, a.slot, a.channel, submitted);
      } else if a.LeaseTasks? || a.Finish? || a.Throw? || a.AbortOne? {
        CaptureWindsDown(c, s, a, submitted);
      } else {
        WorkerWindsDown(c, s, a, submitted);
      }
    } else {
      hide Drained;
    }
  }

  lemma OtherStepWindsDown(s: State, t: State, v: nat, w: nat, submitted: nat)
    requires Touches(s, t, v) && v != w && WindsDown(s, w, submitted)
    ensures WindsDown(t, w, submitted)
  {}

  lemma CollectWindsDown(c: Config, s: State, w: nat, slot: nat, channel: Channel, submitted: nat)
    requires WindsDown(s, w, submitted) && Enabled(c, s, Collect(w, slot, channel))
    ensures WindsDown(AfterCollect(c, s, w, slot, channel), w, submitted)
  {
    hide Publish, Tasks;
  }

  lemma CaptureWindsDown(c: Config, s: State, a: Step, submitted: nat)
    requires Enabled(c, s, a) && (a.LeaseTasks? || a.Finish? || a.Throw? || a.AbortOne?) && WindsDown(s, a.w, submitted)
    ensures WindsDown(Apply(c, s, a), a.w, submitted)
  {
    hide Drained, Fated, CapturedRefs, FutureTasks, AfterCollect, AfterSettle, AfterDecide, AfterSeeBytes, AfterSeeRefs, AfterSubmit;
  }

  lemma WorkerWindsDown(c: Config, s: State, a: Step, submitted: nat)
    requires Enabled(c, s, a)
    requires a.SeeRefs? || a.SeeBytes? || a.Decide? || a.Submit? || a.Settle? || a.LoopBack? || a.Break? || a.EndAbort?
    requires WindsDown(s, a.w, submitted)
    ensures WindsDown(Apply(c, s, a), a.w, submitted)
  {
    hide Drained, Limits.Latch, Ledger.Reconcile, Ledger.CanReconcile, AfterCollect, AfterCapture, AfterLease, AfterAbort;
  }

  /** Once the stop signal is up, a worker at its loop top never submits again, in this batch or another. */
  lemma {:induction false} StoppedWorkerSubmitsNothing(c: Config, s: State, steps: seq<Step>, t: State, w: nat)
    requires s.stop && w < |s.workers| && s.workers[w].pc == Top && Leads(c, s, steps, t)
    ensures w < |t.workers| && t.workers[w].submitted == s.workers[w].submitted
  {
    LeadsWindsDown(c, s, steps, t, w, s.workers[w].submitted);
  }

  lemma {:induction false} LeadsWindsDown(c: Config, s: State, steps: seq<Step>, t: State, w: nat, submitted: nat)
    requires WindsDown(s, w, submitted) && Leads(c, s, steps, t)
    ensures WindsDown(t, w, submitted)
    decreases |steps|
  {
    hide Enabled, Apply, WindsDown;
    if steps != [] {
      StepWindsDown(c, s, steps[0], w, submitted);
      LeadsWindsDown(c, Apply(c, s, steps[0]), steps[1..], t, w, submitted);
    }
  }

  // ---------------------------------------------------------------- runs that succeed

  lemma {:induction false} TaskCount(refs: seq<Ref>)
    ensures |Tasks(refs)| == |refs|
  {
    if refs != [] { TaskCount(refs[..|refs| - 1]); }
  }

  /** Every prompt published leaves none that failed. */
  lemma NothingFailed(c: Config, s: State, steps: seq<Step>, t: State, flight: nat, latch: bool)
    requires c.Valid() && Start(s) && Leads(c, s, steps, t) && Between(t, flight, latch) && t.batches == []
    requires |BatchTasks(s.batches)| == flight
    ensures t.failed == multiset{}
  {
    hide Leads, Start, BatchTasks, Tasks, HeldTasks;
    PromptsAreConserved(c, s, steps, t);
    TaskCount(t.ledger.published);
    assert BatchTasks([]) == multiset{} by { NoBatches(); }
    assert |t.ingested| == flight;
    assert |t.ingested| == |t.pending| + |t.failed| + |HeldTasks(t.workers)| + flight + |t.ledger.aborted| + |t.ledger.lost|;
  }

  lemma NoBatches()
    ensures BatchTasks([]) == multiset{}
  {}

  lemma OneBatch(m: nat)
    ensures |BatchTasks([Range(0, m)])| == m
  {
    assert [Range(0, m)][1..] == [];
    assert BatchTasks([Range(0, m)]) == multiset(Range(0, m));
  }

  /** With a worker and a round to submit in, every configuration has a run that publishes all prompts and succeeds. */
  lemma SomeRunSucceeds(c: Config, workers: nat) returns (s: State, steps: seq<Step>, t: State)
    requires c.Valid() && workers >= 1 && c.maxRounds >= 1
    ensures Start(s) && |s.workers| == workers && BatchTasks(s.batches) != multiset{} && Leads(c, s, steps, t)
    ensures t.main == Closed(false) && Tasks(t.ledger.published) == BatchTasks(s.batches)
  {
    hide Leads, Scene, Between, Start, Range, BatchTasks, Tasks, Config.Valid;
    var n := c.lease;
    s := Initial(workers, [Range(0, n)]);
    StartsBetween(workers, [Range(0, n)]);
    NoSteps(c, s);
    var u: State, latch: bool;
    steps, u, latch := PublishAll(c, s, [], s);
    OneBatch(n);
    NothingFailed(c, s, steps, u, n, latch);
    steps, t := Finish(c, s, steps, u, n, latch);
    SuccessIsComplete(c, s, steps, t);
  }

  /** The first worker captures and publishes the only batch; then all exit and are joined. */
  lemma PublishAll(c: Config, s0: State, before: seq<Step>, s: State) returns (steps: seq<Step>, t: State, latch: bool)
    requires c.Valid() && c.maxRounds >= 1 && Leads(c, s0, before, s) && Between(s, 0, false) && s.workers != []
    requires s.batches == [Range(0, c.lease)]
    ensures Leads(c, s0, steps, t) && Between(t, c.lease, latch) && t.batches == [] && c.lease >= 1
  {
    hide Leads, Scene, Between, Limits.Latch, AllExited;
    BelowHigh(c, 0);
    TimesLaws(1, c.lease, 0);
    var u: State, v: State;
    steps, u := OpenBatch(c, s0, before, s, 0, c.lease, false);
    steps, v := Look(c, s0, steps, u, 0, 0, 0, c.lease, false);
    steps, u := Work(c, s0, steps, v, 0, 1, c.lease, 0, 0, c.lease);
    steps, v := TurnTo(c, s0, steps, u, 0, Top, c.lease, c.lease, c.lease);
    steps, u, latch := ExitAll(c, s0, steps, v, 0, c.lease, c.lease, false);
    steps, t := JoinBatch(c, s0, steps, u, c.lease, c.lease, latch);
  }

  lemma Finish(c: Config, s0: State, before: seq<Step>, s: State, flight: nat, latch: bool)
    returns (steps: seq<Step>, t: State)
    requires Leads(c, s0, before, s) && Between(s, flight, latch) && s.batches == [] && s.failed == multiset{}
    ensures Leads(c, s0, steps, t) && t.main == Closed(false)
  {
    hide Leads;
    var u := Apply(c, s, StartBatch);
    LeadsMore(c, s0, before, s, StartBatch);
    assert Drained(u);
    LeadsMore(c, s0, before + [StartBatch], u, Close);
    steps, t := before + [StartBatch] + [Close], Apply(c, u, Close);
  }

  /** A producer stopped before its first batch closes the channel as stopped. */
  lemma StoppedRunCloses(c: Config, s: State) returns (steps: seq<Step>, t: State)
    requires Start(s)
    ensures Leads(c, s, steps, t) && t.main == Closed(true) && t.ledger == s.ledger
  {
    hide Leads;
    NoSteps(c, s);
    var u := Apply(c, s, Stop);
    LeadsMore(c, s, [], s, Stop);
    var v := Apply(c, u, StartBatch);
    LeadsMore(c, s, [] + [Stop], u, StartBatch);
    LeadsMore(c, s, [] + [Stop] + [StartBatch], v, Close);
    steps, t := [] + [Stop] + [StartBatch] + [Close], Apply(c, v, Close);
  }
}
