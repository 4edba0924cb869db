/**
 * The online producer: rollout workers with several capture slots each, the prompt pool, the shared pause policy
 * and the reference channel. The steps of the driver, the workers, the captures and the consumer interleave
 * arbitrarily.
 *
 * Every step is shown to keep each prompt in one place, the books exact unless a publication breaks off, and the
 * references in flight plus those the allowed captures may still bring below a ceiling.
 */
module Producer {
  import opened Options
  import opened ProducerFlowControl
  import opened ProducerLedger

  /** `slots` captures per worker, each leasing up to `lease` prompts. */
  datatype Config = Config(limits: Limits, quantum: int, cap: Option<int>, slots: nat, lease: nat,
                           maxRounds: int, maxFailures: int) {
    predicate Valid() {
      && limits.Valid() && quantum >= 1 && Admits(limits, quantum) && slots >= 1 && lease == Lease(limits, limits.lease)
      && (cap.Some? ==> cap.value >= 1 && (limits.highBytes.Some? ==> cap.value >= limits.highBytes.value))
    }

    /** How many captures a worker can have at once: its slots, within the rounds of a batch. */
    function Room(): nat {
      if maxRounds < 0 then 0 else if maxRounds < slots then maxRounds else slots
    }
  }

  /** A capture call: submitted, working on leased prompts, or done with references or an exception. */
  datatype Future = Queued | Running(tasks: seq<nat>) | Returned(refs: seq<Ref>) | Raised

  /** Where a worker thread stands; a reading is what it last saw of the channel. */
  datatype Pc = Top | ReadRefs(refs: int) | ReadBytes(refs: int, bytes: int) | Submitting | Settling | Collecting
              | Aborting | Exited | Crashed

  datatype Worker = Worker(pc: Pc, futures: seq<Future>, accepting: bool, submitted: nat, failures: nat, dead: bool)

  datatype Main = NextBatch | Rolling | Finishing | Failed | Closed(stopped: bool)

  /** `batches` are the prompt batches of all epochs still to come; `stop` is the consumer's stop signal. */
  datatype State = State(main: Main, workers: seq<Worker>, paused: bool, ledger: Ledger, pending: multiset<nat>,
                         failed: multiset<nat>, ingested: multiset<nat>, batches: seq<seq<nat>>, stop: bool)

  // ---------------------------------------------------------------- prompts inside captures

  function FutureTasks(f: Future): multiset<nat> {
    match f
    case Running(tasks) => multiset(tasks)
    case Returned(refs) => Tasks(refs)
    case _ => multiset{}
  }

  function SlotTasks(fs: seq<Future>): multiset<nat> {
    if fs == [] then multiset{} else FutureTasks(fs[0]) + SlotTasks(fs[1..])
  }

  function HeldTasks(ws: seq<Worker>): multiset<nat> {
    if ws == [] then multiset{} else SlotTasks(ws[0].futures) + HeldTasks(ws[1..])
  }

  function Without<T>(s: seq<T>, i: nat): seq<T>
    requires i < |s|
  {
    s[..i] + s[i + 1..]
  }

  // ---------------------------------------------------------------- steps

  /** What became of a leased prompt. */
  datatype Capture = Captured(estimate: Option<int>) | Retry | Terminal

  function CapturedRefs(tasks: seq<nat>, results: seq<Capture>): seq<Ref>
    requires |tasks| == |results|
  {
    if tasks == [] then []
    else CapturedRefs(tasks[..|tasks| - 1], results[..|tasks| - 1])
         + (if results[|tasks| - 1].Captured? then [Ref(tasks[|tasks| - 1], results[|tasks| - 1].estimate)] else [])
  }

  /** The leased prompts with the given fate. */
  function Fated(tasks: seq<nat>, results: seq<Capture>, fate: Capture): multiset<nat>
    requires |tasks| == |results|
  {
    if tasks == [] then multiset{}
    else Fated(tasks[..|tasks| - 1], results[..|tasks| - 1], fate)
         + (if results[|tasks| - 1] == fate then multiset{tasks[|tasks| - 1]} else multiset{})
  }

  /** Exactly the captured prompts have references, with their own size estimates. */
  lemma {:induction false} CapturedRefsAre(tasks: seq<nat>, results: seq<Capture>, r: Ref)
    requires |tasks| == |results|
    ensures r in CapturedRefs(tasks, results)
      <==> exists i :: 0 <= i < |tasks| && tasks[i] == r.task && results[i] == Captured(r.estimate)
  {
    if tasks != [] {
      var n := |tasks| - 1;
      CapturedRefsAre(tasks[..n], results[..n], r);
      if i :| 0 <= i < n && tasks[i] == r.task && results[i] == Captured(r.estimate) {
        assert tasks[..n][i] == r.task && results[..n][i] == Captured(r.estimate);
      }
    }
  }

  /** Fates are told apart: a prompt counts under the fate it met. */
  lemma {:induction false} FatedAre(tasks: seq<nat>, results: seq<Capture>, fate: Capture, t: nat)
    requires |tasks| == |results|
    ensures t in Fated(tasks, results, fate) <==> exists i :: 0 <= i < |tasks| && tasks[i] == t && results[i] == fate
  {
    if tasks != [] {
      var n := |tasks| - 1;
      FatedAre(tasks[..n], results[..n], fate, t);
      if i :| 0 <= i < n && tasks[i] == t && results[i] == fate {
        assert tasks[..n][i] == t && results[..n][i] == fate;
      }
    }
  }

  /** A prompt is held exactly when a capture is working on it or has brought it home. */
  lemma {:induction false} HeldTasksAre(ws: seq<Worker>, t: nat)
    ensures t in HeldTasks(ws)
      <==> exists w, i :: 0 <= w < |ws| && 0 <= i < |ws[w].futures| && t in FutureTasks(ws[w].futures[i])
  {
    if ws != [] {
      SlotTasksAre(ws[0].futures, t);
      HeldTasksAre(ws[1..], t);
      if w, i :| 0 <= w < |ws| && 0 <= i < |ws[w].futures| && t in FutureTasks(ws[w].futures[i]) {
        if w > 0 { assert ws[1..][w - 1] == ws[w] && t in FutureTasks(ws[1..][w - 1].futures[i]); }
      }
      if t in HeldTasks(ws[1..]) {
        var w, i :| 0 <= w < |ws[1..]| && 0 <= i < |ws[1..][w].futures| && t in FutureTasks(ws[1..][w].futures[i]);
        assert t in FutureTasks(ws[w + 1].futures[i]);
      }
    }
  }

  lemma {:induction false} SlotTasksAre(fs: seq<Future>, t: nat)
    ensures t in SlotTasks(fs) <==> exists i :: 0 <= i < |fs| && t in FutureTasks(fs[i])
  {
    if fs != [] {
      SlotTasksAre(fs[1..], t);
      if i :| 0 <= i < |fs| && t in FutureTasks(fs[i]) {
        if i > 0 { assert t in FutureTasks(fs[1..][i - 1]); }
      }
      if t in SlotTasks(fs[1..]) {
        var i :| 0 <= i < |fs[1..]| && t in FutureTasks(fs[1..][i]);
        assert t in FutureTasks(fs[i + 1]);
      }
    }
  }

  datatype Step =
    // a worker thread
    | SeeRefs(w: nat) | SeeBytes(w: nat) | Decide(w: nat) | Submit(w: nat) | Settle(w: nat)
    | Collect(w: nat, slot: nat, channel: Channel) | LoopBack(w: nat) | Break(w: nat)
    | AbortOne(w: nat, slot: nat) | EndAbort(w: nat)
    // a capture call
    | LeaseTasks(w: nat, slot: nat, tasks: seq<nat>) | Finish(w: nat, slot: nat, results: seq<Capture>)
    | Throw(w: nat, slot: nat, results: seq<Capture>)
    // the driver
    | StartBatch | Join | Close
    // the consumer
    | Consume(upTo: nat) | Stop

  predicate SlotIs(s: State, w: nat, slot: nat) {
    w < |s.workers| && slot < |s.workers[w].futures|
  }

  predicate Drained(s: State) {
    s.pending == multiset{} && forall w, i ::
      0 <= w < |s.workers| && 0 <= i < |s.workers[w].futures| ==> !s.workers[w].futures[i].Running?
  }

  predicate Enabled(c: Config, s: State, a: Step) {
    match a
    case SeeRefs(w) => w < |s.workers| && s.workers[w].pc == Top
    case SeeBytes(w) => w < |s.workers| && s.workers[w].pc.ReadRefs?
    case Decide(w) => w < |s.workers| && s.workers[w].pc.ReadBytes?
    case Submit(w) =>
      // the count of pending prompts the loop tests may be out of date, so it is not tested here
      && w < |s.workers| && s.workers[w].pc == Submitting && s.workers[w].accepting
      && s.workers[w].submitted < c.maxRounds && |s.workers[w].futures| < c.slots
    case Settle(w) => w < |s.workers| && (s.workers[w].pc == Submitting || s.workers[w].pc == Settling)
    case Collect(w, slot, channel) =>
      && SlotIs(s, w, slot) && s.workers[w].pc == Collecting
      && (s.workers[w].futures[slot].Raised?
          || (s.workers[w].futures[slot].Returned?
              && (channel.Breaks? ==> channel.count <= |s.workers[w].futures[slot].refs|)))
    case LoopBack(w) => w < |s.workers| && s.workers[w].pc == Collecting
    case Break(w) => w < |s.workers| && (s.workers[w].pc.ReadBytes? || s.workers[w].pc.ReadRefs?)
    case AbortOne(w, slot) =>
      && SlotIs(s, w, slot) && s.workers[w].pc == Aborting
      && (s.workers[w].futures[slot].Raised? || s.workers[w].futures[slot].Returned?)
    case EndAbort(w) => w < |s.workers| && s.workers[w].pc == Aborting && s.workers[w].futures == []
    case LeaseTasks(w, slot, tasks) =>
      && SlotIs(s, w, slot) && s.workers[w].futures[slot] == Queued
      && |tasks| == (if |s.pending| < c.lease then |s.pending| else c.lease) && multiset(tasks) <= s.pending
    case Finish(w, slot, results) =>
      SlotIs(s, w, slot) && s.workers[w].futures[slot].Running? && |results| == |s.workers[w].futures[slot].tasks|
    case Throw(w, slot, results) =>
      && SlotIs(s, w, slot) && s.workers[w].futures[slot].Running? && |results| == |s.workers[w].futures[slot].tasks|
      && forall i :: 0 <= i < |results| ==> !results[i].Captured?
    case StartBatch => s.main == NextBatch
    case Join => s.main == Rolling && forall w :: 0 <= w < |s.workers| ==> s.workers[w].pc == Exited || s.workers[w].pc == Crashed
    case Close => s.main == Finishing
    case Consume(upTo) => s.ledger.consumed <= upTo <= |s.ledger.published|
    case Stop => true
  }

  /** Only worker `w`, the ledger, the pool and the latch differ. */
  predicate Touches(s: State, t: State, w: nat) {
    && w < |s.workers| == |t.workers| && t.workers == s.workers[w := t.workers[w]]
    && t.main == s.main && t.stop == s.stop && t.batches == s.batches && t.ingested == s.ingested
  }

  function SetWorker(s: State, w: nat, v: Worker): (r: State)
    requires w < |s.workers|
    ensures Touches(s, r, w)
  {
    s.(workers := s.workers[w := v])
  }

  function SetSlot(s: State, w: nat, slot: nat, f: Future): (r: State)
    requires SlotIs(s, w, slot)
    ensures Touches(s, r, w)
  {
    SetWorker(s, w, s.workers[w].(futures := s.workers[w].futures[slot := f]))
  }

  function DropSlot(s: State, w: nat, slot: nat): (r: State)
    requires SlotIs(s, w, slot)
    ensures Touches(s, r, w)
  {
    SetWorker(s, w, s.workers[w].(futures := Without(s.workers[w].futures, slot)))
  }

  /** The bytes are read under the publish lock, which raises when the books do not match the channel. */
  function AfterSeeBytes(s: State, w: nat): (r: State)
    requires w < |s.workers| && s.workers[w].pc.ReadRefs?
    ensures Touches(s, r, w)
  {
    var v := s.workers[w];
    if s.ledger.CanReconcile() then
      SetWorker(s.(ledger := s.ledger.Reconcile()), w, v.(pc := ReadBytes(v.pc.refs, s.ledger.Reconcile().resident)))
    else SetWorker(s, w, v.(pc := Aborting))
  }

  function AfterDecide(c: Config, s: State, w: nat): (r: State)
    requires w < |s.workers| && s.workers[w].pc.ReadBytes?
    ensures Touches(s, r, w)
  {
    var v := s.workers[w];
    var latch := c.limits.Latch(s.paused, v.pc.refs, v.pc.bytes);
    SetWorker(s.(paused := latch), w, v.(pc := if v.pc.refs >= c.quantum && latch then Settling else Submitting))
  }

  function AfterSettle(c: Config, s: State, w: nat): (r: State)
    requires w < |s.workers|
    ensures Touches(s, r, w)
  {
    var v := s.workers[w];
    SetWorker(s, w, v.(pc :=
      if v.futures != [] then Collecting
      else if Drained(s) || !v.accepting || v.submitted >= c.maxRounds then Exited
      else Top))
  }

  function AfterCollect(c: Config, s: State, w: nat, slot: nat, channel: Channel): (r: State)
    requires Enabled(c, s, Collect(w, slot, channel))
    ensures Touches(s, r, w)
  {
    var v, f := s.workers[w], s.workers[w].futures[slot];
    var t := DropSlot(s, w, slot);
    if f.Raised? then
      var failures := v.failures + 1;
      var out := failures >= c.maxFailures;
      SetWorker(t, w, t.workers[w].(failures := failures, accepting := v.accepting && !out, dead := v.dead || out))
    else
      var p := Publish(s.ledger, f.refs, c.cap, channel);
      SetWorker(t.(ledger := p.ledger), w, t.workers[w].(failures := 0, pc := if p.raised then Aborting else Collecting))
  }

  /** Every worker that is not dropped starts afresh. */
  function Started(ws: seq<Worker>): (r: seq<Worker>)
    ensures |r| == |ws|
  {
    seq(|ws|, i requires 0 <= i < |ws| =>
      if ws[i].dead then ws[i].(pc := Exited) else ws[i].(pc := Top, accepting := true, submitted := 0, failures := 0))
  }

  function AfterStartBatch(s: State): (r: State)
    ensures |r.workers| == |s.workers|
  {
    if s.stop || s.batches == [] then s.(main := Finishing)
    else
      var t := s.(pending := s.pending + multiset(s.batches[0]), ingested := s.ingested + multiset(s.batches[0]),
                  batches := s.batches[1..]);
      if forall w :: 0 <= w < |s.workers| ==> s.workers[w].dead then t.(main := Failed)
      else t.(main := Rolling, workers := Started(s.workers))
  }

  function AfterJoin(s: State): (r: State)
    ensures |r.workers| == |s.workers|
  {
    if exists w :: 0 <= w < |s.workers| && s.workers[w].pc == Crashed then s.(main := Failed)
    else if (exists w :: 0 <= w < |s.workers| && s.workers[w].dead) && !s.stop && !Drained(s) then s.(main := Failed)
    else s.(main := if s.stop then Finishing else NextBatch)
  }

  function AfterClose(s: State): (r: State)
    ensures |r.workers| == |s.workers|
  {
    if !s.stop && (s.failed != multiset{} || !Drained(s)) then s.(main := Failed) else s.(main := Closed(s.stop))
  }

  /** A capture is over: uncaptured prompts go back to the pool or fail for good. */
  function AfterCapture(s: State, w: nat, slot: nat, results: seq<Capture>, f: Future): (r: State)
    requires SlotIs(s, w, slot) && s.workers[w].futures[slot].Running? && |results| == |s.workers[w].futures[slot].tasks|
    ensures Touches(s, r, w)
  {
    var tasks := s.workers[w].futures[slot].tasks;
    SetSlot(s.(pending := s.pending + Fated(tasks, results, Retry), failed := s.failed + Fated(tasks, results, Terminal)),
            w, slot, f)
  }

  function AfterLease(s: State, w: nat, slot: nat, tasks: seq<nat>): (r: State)
    requires SlotIs(s, w, slot)
    ensures Touches(s, r, w)
  {
    SetSlot(s.(pending := s.pending - multiset(tasks)), w, slot, if tasks == [] then Returned([]) else Running(tasks))
  }

  function AfterAbort(s: State, w: nat, slot: nat): (r: State)
    requires SlotIs(s, w, slot)
    ensures Touches(s, r, w)
  {
    DropSlot(s.(ledger := s.ledger.(aborted := s.ledger.aborted + FutureTasks(s.workers[w].futures[slot]))), w, slot)
  }

  function AfterSubmit(s: State, w: nat): (r: State)
    requires w < |s.workers|
    ensures Touches(s, r, w)
  {
    var v := s.workers[w];
    SetWorker(s, w, v.(futures := v.futures + [Queued], submitted := v.submitted + 1))
  }

  function AfterSeeRefs(s: State, w: nat): (r: State)
    requires w < |s.workers|
    ensures Touches(s, r, w)
  {
    SetWorker(s, w, s.workers[w].(pc := ReadRefs(s.ledger.InFlight()), accepting := s.workers[w].accepting && !s.stop))
  }

  function Moved(s: State, w: nat, pc: Pc): (r: State)
    requires w < |s.workers|
    ensures Touches(s, r, w)
  {
    SetWorker(s, w, s.workers[w].(pc := pc))
  }

  function Apply(c: Config, s: State, a: Step): State
    requires Enabled(c, s, a)
  {
    match a
    case SeeRefs(w) => AfterSeeRefs(s, w)
    case SeeBytes(w) => AfterSeeBytes(s, w)
    case Decide(w) => AfterDecide(c, s, w)
    case Submit(w) => AfterSubmit(s, w)
    case Settle(w) => AfterSettle(c, s, w)
    case Collect(w, slot, channel) => AfterCollect(c, s, w, slot, channel)
    case LoopBack(w) => Moved(s, w, Top)
    case Break(w) => Moved(s, w, Aborting)
    case AbortOne(w, slot) => AfterAbort(s, w, slot)
    case EndAbort(w) => Moved(s, w, Crashed)
    case LeaseTasks(w, slot, tasks) => AfterLease(s, w, slot, tasks)
    case Finish(w, slot, results) =>
      AfterCapture(s, w, slot, results, Returned(CapturedRefs(s.workers[w].futures[slot].tasks, results)))
    case Throw(w, slot, results) => AfterCapture(s, w, slot, results, Raised)
    case StartBatch => AfterStartBatch(s)
    case Join => AfterJoin(s)
    case Close => AfterClose(s)
    case Consume(upTo) => s.(ledger := s.ledger.(consumed := upTo))
    case Stop => s.(stop := true)
  }

  predicate IsThreadStep(a: Step) {
    !a.StartBatch? && !a.Join? && !a.Close? && !a.Consume? && !a.Stop?
  }

  /** A step of a worker or a capture touches one worker only. */
  lemma ThreadFrame(c: Config, s: State, a: Step)
    requires Enabled(c, s, a) && IsThreadStep(a)
    ensures Touches(s, Apply(c, s, a), a.w)
    ensures a.Collect? ==> Apply(c, s, a) == AfterCollect(c, s, a.w, a.slot, a.channel)
  {
    hide SetWorker, SetSlot, DropSlot, AfterSeeBytes, AfterDecide, AfterSettle, AfterCollect, AfterCapture, AfterLease,
      AfterAbort, AfterSubmit, AfterSeeRefs, Moved, Touches;
  }

  ghost predicate Start(s: State) {
    && s.main == NextBatch && !s.paused && !s.stop
    && s.ledger == Ledger([], 0, 0, [], 0, 0, multiset{}, multiset{}, true)
    && s.pending == s.failed == s.ingested == multiset{}
    && forall w :: 0 <= w < |s.workers| ==> s.workers[w].futures == [] && s.workers[w].pc == Exited && !s.workers[w].dead
  }

  // ---------------------------------------------------------------- every prompt is in exactly one place

  /** Each ingested prompt is pending, failed, inside a capture, published, aborted or lost, and only one of these. */
  ghost predicate Conserved(s: State) {
    s.ingested == s.pending + s.failed + HeldTasks(s.workers) + Tasks(s.ledger.published) + s.ledger.aborted + s.ledger.lost
  }

  /** How often prompt `t` occurs outside the pool. */
  function Outside(s: State, t: nat): nat {
    HeldTasks(s.workers)[t] + Tasks(s.ledger.published)[t] + s.ledger.aborted[t] + s.ledger.lost[t]
  }

  lemma {:induction false} SlotTasksSet(fs: seq<Future>, i: nat, f: Future, t: nat)
    requires i < |fs|
    ensures SlotTasks(fs[i := f])[t] + FutureTasks(fs[i])[t] == SlotTasks(fs)[t] + FutureTasks(f)[t]
  {
    hide FutureTasks;
    if i == 0 {
      assert fs[0 := f][1..] == fs[1..];
    } else {
      SlotTasksSet(fs[1..], i - 1, f, t);
      assert fs[i := f][1..] == fs[1..][i - 1 := f];
    }
  }

  lemma {:induction false} SlotTasksDrop(fs: seq<Future>, i: nat, t: nat)
    requires i < |fs|
    ensures SlotTasks(Without(fs, i))[t] + FutureTasks(fs[i])[t] == SlotTasks(fs)[t]
  {
    hide FutureTasks;
    if i == 0 {
      assert Without(fs, 0) == fs[1..];
    } else {
      SlotTasksDrop(fs[1..], i - 1, t);
      assert Without(fs, i)[1..] == Without(fs[1..], i - 1);
    }
  }

  lemma {:induction false} SlotTasksAdd(fs: seq<Future>, f: Future, t: nat)
    ensures SlotTasks(fs + [f])[t] == SlotTasks(fs)[t] + FutureTasks(f)[t]
  {
    hide FutureTasks;
    if fs == [] {
      assert fs + [f] == [f];
    } else {
      SlotTasksAdd(fs[1..], f, t);
      assert (fs + [f])[1..] == fs[1..] + [f];
    }
  }

  lemma {:induction false} HeldTasksSet(ws: seq<Worker>, w: nat, v: Worker, t: nat)
    requires w < |ws|
    ensures HeldTasks(ws[w := v])[t] + SlotTasks(ws[w].futures)[t] == HeldTasks(ws)[t] + SlotTasks(v.futures)[t]
  {
    hide SlotTasks;
    if w == 0 {
      assert ws[0 := v][1..] == ws[1..];
    } else {
      HeldTasksSet(ws[1..], w - 1, v, t);
      assert ws[w := v][1..] == ws[1..][w - 1 := v];
    }
  }

  lemma {:induction false} HeldTasksStarted(ws: seq<Worker>)
    ensures HeldTasks(Started(ws)) == HeldTasks(ws)
  {
    hide SlotTasks;
    if ws != [] {
      HeldTasksStarted(ws[1..]);
      assert Started(ws)[1..] == Started(ws[1..]);
    }
  }

  /** A capture ends with every leased prompt captured, returned to the pool or failed for good. */
  lemma {:induction false} FatesCover(tasks: seq<nat>, results: seq<Capture>, t: nat)
    requires |tasks| == |results|
    ensures multiset(tasks)[t]
         == Tasks(CapturedRefs(tasks, results))[t] + Fated(tasks, results, Retry)[t] + Fated(tasks, results, Terminal)[t]
  {
    if tasks != [] {
      var n := |tasks| - 1;
      FatesCover(tasks[..n], results[..n], t);
      assert multiset(tasks)[t] == multiset(tasks[..n])[t] + multiset{tasks[n]}[t] by { assert tasks == tasks[..n] + [tasks[n]]; }
      FateStep(tasks, results, Retry, t);
      FateStep(tasks, results, Terminal, t);
      CapturedStep(tasks, results, t);
    }
  }

  lemma FateStep(tasks: seq<nat>, results: seq<Capture>, fate: Capture, t: nat)
    requires |tasks| == |results| > 0
    ensures var n := |tasks| - 1;
      Fated(tasks, results, fate)[t] == Fated(tasks[..n], results[..n], fate)[t]
                                      + (if results[n] == fate then multiset{tasks[n]}[t] else 0)
  {}

  lemma CapturedStep(tasks: seq<nat>, results: seq<Capture>, t: nat)
    requires |tasks| == |results| > 0
    ensures var n := |tasks| - 1;
      Tasks(CapturedRefs(tasks, results))[t] == Tasks(CapturedRefs(tasks[..n], results[..n]))[t]
                                              + (if results[n].Captured? then multiset{tasks[n]}[t] else 0)
  {
    var n := |tasks| - 1;
    var front := CapturedRefs(tasks[..n], results[..n]);
    if results[n].Captured? {
      TasksAppend(front, [Ref(tasks[n], results[n].estimate)]);
      SingleTask(Ref(tasks[n], results[n].estimate));
    } else {
      assert front + [] == front;
    }
  }

  lemma {:induction false} CapturedBounded(tasks: seq<nat>, results: seq<Capture>)
    requires |tasks| == |results|
    ensures |CapturedRefs(tasks, results)| <= |tasks|
    ensures (forall i :: 0 <= i < |results| ==> !results[i].Captured?) ==> CapturedRefs(tasks, results) == []
  {
    if tasks != [] { CapturedBounded(tasks[..|tasks| - 1], results[..|tasks| - 1]); }
  }

  lemma SingleTask(r: Ref)
    ensures Tasks([r]) == multiset{r.task} && Tasks([]) == multiset{}
  {
    assert [r][..0] == [];
  }

  /** Replacing a worker changes the prompts held by what its captures hold. */
  lemma SetSlotTasks(s: State, w: nat, slot: nat, f: Future, t: nat)
    requires SlotIs(s, w, slot)
    ensures HeldTasks(SetSlot(s, w, slot, f).workers)[t] + FutureTasks(s.workers[w].futures[slot])[t]
         == HeldTasks(s.workers)[t] + FutureTasks(f)[t]
  {
    hide HeldTasks, SlotTasks, FutureTasks;
    var fs := s.workers[w].futures;
    SlotTasksSet(fs, slot, f, t);
    HeldTasksSet(s.workers, w, s.workers[w].(futures := fs[slot := f]), t);
  }

  lemma DropSlotTasks(s: State, w: nat, slot: nat, v: Worker, t: nat)
    requires SlotIs(s, w, slot) && v.futures == Without(s.workers[w].futures, slot)
    ensures HeldTasks(s.workers[w := v])[t] + FutureTasks(s.workers[w].futures[slot])[t] == HeldTasks(s.workers)[t]
  {
    hide HeldTasks, SlotTasks, FutureTasks;
    SlotTasksDrop(s.workers[w].futures, slot, t);
    HeldTasksSet(s.workers, w, v, t);
  }

  lemma CollectConserves(c: Config, s: State, w: nat, slot: nat, channel: Channel, t: nat)
    requires Enabled(c, s, Collect(w, slot, channel))
    ensures Outside(AfterCollect(c, s, w, slot, channel), t) == Outside(s, t)
  {
    hide HeldTasks, SlotTasks, Tasks, Publish, Drained;
    var f := s.workers[w].futures[slot];
    var r := AfterCollect(c, s, w, slot, channel);
    assert r.workers == s.workers[w := r.workers[w]];
    DropSlotTasks(s, w, slot, r.workers[w], t);
    if f.Returned? {
      PublishConserves(s.ledger, f.refs, c.cap, channel);
      var p := Publish(s.ledger, f.refs, c.cap, channel).ledger;
      assert (Tasks(p.published) + p.aborted + p.lost)[t]
          == (Tasks(s.ledger.published) + s.ledger.aborted + s.ledger.lost + Tasks(f.refs))[t];
    }
  }

  /** A step that leaves the captures of all workers alone. */
  lemma SameFutures(s: State, w: nat, v: Worker, t: nat)
    requires w < |s.workers| && v.futures == s.workers[w].futures
    ensures HeldTasks(SetWorker(s, w, v).workers)[t] == HeldTasks(s.workers)[t]
  {
    hide HeldTasks, SlotTasks;
    HeldTasksSet(s.workers, w, v, t);
  }

  /** Steps of a worker thread other than collecting neither lose nor duplicate a prompt. */
  lemma ThreadConserves(c: Config, s: State, a: Step, t: nat)
    requires Enabled(c, s, a)
    requires a.SeeRefs? || a.SeeBytes? || a.Decide? || a.Submit? || a.Settle? || a.LoopBack? || a.Break? || a.AbortOne? || a.EndAbort?
    ensures Outside(Apply(c, s, a), t) == Outside(s, t)
  {
    hide HeldTasks, SlotTasks, Tasks, FutureTasks, Drained, Sum, Sizes;
    var r := Apply(c, s, a);
    if a.Submit? {
      SlotTasksAdd(s.workers[a.w].futures, Queued, t);
      HeldTasksSet(s.workers, a.w, r.workers[a.w], t);
      QueuedTasks();
    } else if a.AbortOne? {
      DropSlotTasks(s, a.w, a.slot, r.workers[a.w], t);
    } else {
      SameFutures(s, a.w, r.workers[a.w], t);
    }
  }

  lemma QueuedTasks()
    ensures FutureTasks(Queued) == FutureTasks(Raised) == FutureTasks(Returned([])) == multiset{}
  {}

  /** The steps of a capture move prompts between the pool and the capture. */
  lemma CaptureConserves(c: Config, s: State, a: Step, t: nat)
    requires Enabled(c, s, a) && (a.LeaseTasks? || a.Finish? || a.Throw?)
    ensures var r := Apply(c, s, a);
      r.pending[t] + r.failed[t] + Outside(r, t) == s.pending[t] + s.failed[t] + Outside(s, t)
  {
    hide HeldTasks, SlotTasks, Tasks, Fated, CapturedRefs, Drained, AfterCapture, AfterLease, Outside;
    QueuedTasks();
    match a
    case LeaseTasks(w, slot, tasks) => LeaseConserves(s, w, slot, tasks, t);
    case Finish(w, slot, results) =>
      EndConserves(s, w, slot, results, Returned(CapturedRefs(s.workers[w].futures[slot].tasks, results)), t);
    case Throw(w, slot, results) =>
      CapturedBounded(s.workers[w].futures[slot].tasks, results);
      SingleTask(Ref(0, None));
      EndConserves(s, w, slot, results, Raised, t);
  }

  lemma LeaseConserves(s: State, w: nat, slot: nat, tasks: seq<nat>, t: nat)
    requires SlotIs(s, w, slot) && s.workers[w].futures[slot] == Queued && multiset(tasks) <= s.pending
    ensures var r := AfterLease(s, w, slot, tasks);
      r.pending[t] + r.failed[t] + Outside(r, t) == s.pending[t] + s.failed[t] + Outside(s, t)
  {
    hide HeldTasks, SlotTasks, Tasks;
    QueuedTasks();
    SetSlotTasks(s, w, slot, if tasks == [] then Returned([]) else Running(tasks), t);
  }

  lemma EndConserves(s: State, w: nat, slot: nat, results: seq<Capture>, f: Future, t: nat)
    requires SlotIs(s, w, slot) && s.workers[w].futures[slot].Running? && |results| == |s.workers[w].futures[slot].tasks|
    requires FutureTasks(f) == Tasks(CapturedRefs(s.workers[w].futures[slot].tasks, results))
    ensures var r := AfterCapture(s, w, slot, results, f);
      r.pending[t] + r.failed[t] + Outside(r, t) == s.pending[t] + s.failed[t] + Outside(s, t)
  {
    hide HeldTasks, SlotTasks, Tasks, Fated, CapturedRefs;
    FatesCover(s.workers[w].futures[slot].tasks, results, t);
    SetSlotTasks(s, w, slot, f, t);
  }

  lemma StepConserves(c: Config, s: State, a: Step)
    requires Enabled(c, s, a) && Conserved(s)
    ensures Conserved(Apply(c, s, a))
  {
    hide HeldTasks, Tasks, Enabled, Apply;
    var r := Apply(c, s, a);
    forall t: nat
      ensures r.ingested[t] == r.pending[t] + r.failed[t] + HeldTasks(r.workers)[t] + Tasks(r.ledger.published)[t]
                             + r.ledger.aborted[t] + r.ledger.lost[t]
    {
      assert s.ingested[t] == s.pending[t] + s.failed[t] + Outside(s, t);
      StepConservesAt(c, s, a, t);
    }
  }

  lemma StepConservesAt(c: Config, s: State, a: Step, t: nat)
    requires Enabled(c, s, a) && s.ingested[t] == s.pending[t] + s.failed[t] + Outside(s, t)
    ensures var r := Apply(c, s, a); r.ingested[t] == r.pending[t] + r.failed[t] + Outside(r, t)
  {
    if a.StartBatch? || a.Join? || a.Close? || a.Consume? || a.Stop? {
      DriverConserves(c, s, a, t);
    } else {
      hide Enabled, Apply, Outside;
      ThreadFrame(c, s, a);
      if a.LeaseTasks? || a.Finish? || a.Throw? {
        CaptureConserves(c, s, a, t);
      } else {
        PoolFrame(c, s, a);
        if a.Collect? {
          CollectConserves(c, s, a.w, a.slot, a.channel, t);
        } else {
          ThreadConserves(c, s, a, t);
        }
      }
    }
  }

  lemma PoolFrame(c: Config, s: State, a: Step)
    requires Enabled(c, s, a) && IsThreadStep(a) && !a.LeaseTasks? && !a.Finish? && !a.Throw?
    ensures Apply(c, s, a).pending == s.pending && Apply(c, s, a).failed == s.failed
  {
    hide Drained, Publish, Tasks, Limits.Latch, FutureTasks, Ledger.Reconcile;
  }

  lemma DriverConserves(c: Config, s: State, a: Step, t: nat)
    requires Enabled(c, s, a) && s.ingested[t] == s.pending[t] + s.failed[t] + Outside(s, t)
    requires a.StartBatch? || a.Join? || a.Close? || a.Consume? || a.Stop?
    ensures var r := Apply(c, s, a); r.ingested[t] == r.pending[t] + r.failed[t] + Outside(r, t)
  {
    hide HeldTasks, Tasks, Drained;
    HeldTasksStarted(s.workers);
  }

  // ---------------------------------------------------------------- the books

  /** Unless a publication stopped half-way, the books are exact and no reference is lost. */
  ghost predicate Books(c: Config, s: State) {
    s.ledger.clean ==> s.ledger.Exact(c.cap) && s.ledger.lost == multiset{}
  }

  lemma StepKeepsBooks(c: Config, s: State, a: Step)
    requires Enabled(c, s, a) && Books(c, s)
    ensures Books(c, Apply(c, s, a))
  {
    hide Ledger.Exact, Publish, Tasks, Drained, FutureTasks, Limits.Latch, Fated, CapturedRefs, Ledger.Reconcile, Started;
    if s.ledger.clean {
      ReconcileKeeps(s.ledger, c.cap);
      if a.Collect? && s.workers[a.w].futures[a.slot].Returned? {
        CollectKeepsBooks(c, s, a.w, a.slot, a.channel);
      } else if a.Consume? {
        ConsumeKeeps(s.ledger, c.cap, a.upTo);
      } else if a.AbortOne? {
        AbortKeepsBooks(s.ledger, c.cap, FutureTasks(s.workers[a.w].futures[a.slot]));
      } else {
        LedgerFrame(c, s, a);
        ReconcileFrames(s.ledger);
      }
    } else {
      StaysUnclean(c, s, a);
    }
  }

  lemma LedgerFrame(c: Config, s: State, a: Step)
    requires Enabled(c, s, a) && !a.Consume? && !a.AbortOne?
    requires !(a.Collect? && s.workers[a.w].futures[a.slot].Returned?)
    ensures var l := Apply(c, s, a).ledger;
      l == s.ledger || (s.ledger.CanReconcile() && l == s.ledger.Reconcile())
  {
    hide Publish, Tasks, Drained, FutureTasks, Limits.Latch, Fated, CapturedRefs, Ledger.Reconcile, Started;
  }

  lemma AbortKeepsBooks(l: Ledger, cap: Option<int>, tasks: multiset<nat>)
    requires l.Exact(cap)
    ensures l.(aborted := l.aborted + tasks).Exact(cap)
  {}

  lemma CollectKeepsBooks(c: Config, s: State, w: nat, slot: nat, channel: Channel)
    requires Enabled(c, s, Collect(w, slot, channel)) && Books(c, s) && s.ledger.clean
    requires s.workers[w].futures[slot].Returned?
    ensures Books(c, AfterCollect(c, s, w, slot, channel))
  {
    hide Ledger.Exact, Publish;
    PublishKeeps(s.ledger, s.workers[w].futures[slot].refs, c.cap, channel);
  }

  lemma StaysUnclean(c: Config, s: State, a: Step)
    requires Enabled(c, s, a) && !s.ledger.clean
    ensures !Apply(c, s, a).ledger.clean
  {
    hide Tasks, Drained, FutureTasks, Limits.Latch, Fated, CapturedRefs, Started, Sum, Sizes;
  }

  // ---------------------------------------------------------------- the watermark overshoot

  predicate SmallFuture(c: Config, f: Future) {
    match f
    case Running(tasks) => |tasks| <= c.lease
    case Returned(refs) => |refs| <= c.lease
    case _ => true
  }

  ghost predicate WorkerFits(c: Config, v: Worker) {
    && |v.futures| <= c.Room() && |v.futures| <= v.submitted
    && forall i :: 0 <= i < |v.futures| ==> SmallFuture(c, v.futures[i])
  }

  ghost predicate WorkersFit(c: Config, s: State) {
    forall w :: 0 <= w < |s.workers| ==> WorkerFits(c, s.workers[w])
  }

  /** The captures a worker may still run on the strength of what it has seen: as many as fit while it may submit. */
  function Allowance(c: Config, v: Worker): nat {
    if v.pc == Submitting || ((v.pc.ReadRefs? || v.pc.ReadBytes?) && v.pc.refs <= c.limits.GoAhead()) then c.Room()
    else |v.futures|
  }

  function Allowances(c: Config, ws: seq<Worker>): nat {
    if ws == [] then 0 else Allowance(c, ws[0]) + Allowances(c, ws[1..])
  }

  lemma {:induction false} AllowancesSet(c: Config, ws: seq<Worker>, w: nat, v: Worker)
    requires w < |ws|
    ensures Allowances(c, ws[w := v]) + Allowance(c, ws[w]) == Allowances(c, ws) + Allowance(c, v)
  {
    hide Allowance;
    if w == 0 {
      assert ws[0 := v][1..] == ws[1..];
    } else {
      AllowancesSet(c, ws[1..], w - 1, v);
      assert ws[w := v][1..] == ws[1..][w - 1 := v];
    }
  }

  lemma {:induction false} AllowancesBounded(c: Config, ws: seq<Worker>)
    requires forall w :: 0 <= w < |ws| ==> WorkerFits(c, ws[w])
    ensures Allowances(c, ws) <= |ws| * c.Room()
  {
    if ws != [] {
      assert WorkerFits(c, ws[0]);
      forall w | 0 <= w < |ws[1..]| ensures WorkerFits(c, ws[1..][w]) { assert WorkerFits(c, ws[w + 1]); }
      AllowancesBounded(c, ws[1..]);
      assert |ws| * c.Room() == c.Room() + |ws[1..]| * c.Room();
    }
  }

  lemma {:induction false} AllowancesStarted(c: Config, ws: seq<Worker>)
    ensures Allowances(c, Started(ws)) <= Allowances(c, ws)
    requires forall w :: 0 <= w < |ws| ==> |ws[w].futures| <= c.Room()
  {
    if ws != [] {
      assert |ws[0].futures| <= c.Room();
      forall w | 0 <= w < |ws[1..]| ensures |ws[1..][w].futures| <= c.Room() { assert |ws[w + 1].futures| <= c.Room(); }
      AllowancesStarted(c, ws[1..]);
      assert Started(ws)[1..] == Started(ws[1..]);
    }
  }

  /** References in flight plus those the allowed captures may still bring. */
  function Exposure(c: Config, s: State): int {
    s.ledger.InFlight() + c.lease * Allowances(c, s.workers)
  }

  function Ceiling(c: Config, workers: nat): int {
    c.limits.GoAhead() + c.lease * (workers * c.Room())
  }

  ghost predicate Bounded(c: Config, s: State) {
    WorkersFit(c, s) && Exposure(c, s) <= Ceiling(c, |s.workers|)
  }

  lemma Scale(n: nat, a: int, b: int)
    requires a <= b
    ensures n * a <= n * b && n * (a + 1) == n * a + n
  {}

  /** The worker `w` and the ledger change, the allowance of `w` not growing faster than the flight shrinks. */
  lemma ExposureSet(c: Config, s: State, t: State, w: nat)
    requires w < |s.workers| == |t.workers| && t.workers == s.workers[w := t.workers[w]]
    requires var d := Allowance(c, s.workers[w]) - Allowance(c, t.workers[w]);
      && d >= 0 && t.ledger.InFlight() <= s.ledger.InFlight() + (if d >= 1 then c.lease else 0)
    ensures Exposure(c, t) <= Exposure(c, s)
  {
    hide Allowance, Allowances;
    AllowancesSet(c, s.workers, w, t.workers[w]);
    var a, b := Allowances(c, t.workers), Allowances(c, s.workers);
    if a < b {
      Scale(c.lease, a + 1, b);
      Scale(c.lease, a, a);
    }
  }

  lemma FitsSet(c: Config, s: State, t: State, w: nat)
    requires WorkersFit(c, s) && w < |s.workers| == |t.workers|
    requires t.workers == s.workers[w := t.workers[w]] && WorkerFits(c, t.workers[w])
    ensures WorkersFit(c, t)
  {
    hide WorkerFits;
    forall i | 0 <= i < |t.workers| ensures WorkerFits(c, t.workers[i]) {
      assert i != w ==> t.workers[i] == s.workers[i];
    }
  }

  /** The single reading that opens a worker's slots is taken at or below the go-ahead mark. */
  lemma SeeRefsBounded(c: Config, s: State, w: nat)
    requires c.Valid() && Bounded(c, s) && Enabled(c, s, SeeRefs(w))
    ensures Bounded(c, Apply(c, s, SeeRefs(w)))
  {
    hide Allowances, WorkerFits;
    var t := Apply(c, s, SeeRefs(w));
    assert WorkerFits(c, s.workers[w]);
    assert WorkerFits(c, t.workers[w]) by { SameSlots(c, s.workers[w], t.workers[w]); }
    FitsSet(c, s, t, w);
    if s.ledger.InFlight() <= c.limits.GoAhead() {
      AllowancesBounded(c, t.workers);
      Scale(c.lease, Allowances(c, t.workers), |t.workers| * c.Room());
    } else {
      ExposureSet(c, s, t, w);
    }
  }

  lemma SameSlots(c: Config, v: Worker, v': Worker)
    requires WorkerFits(c, v) && v'.futures == v.futures && (v'.submitted == v.submitted || v'.futures == [])
    ensures WorkerFits(c, v')
  {}

  /** A worker goes on to submit only after a reading at or below the go-ahead mark. */
  lemma DecideBounded(c: Config, s: State, w: nat)
    requires c.Valid() && Bounded(c, s) && Enabled(c, s, Decide(w))
    ensures Bounded(c, Apply(c, s, Decide(w)))
  {
    hide Allowances, WorkerFits;
    var v, t := s.workers[w], AfterDecide(c, s, w);
    assert WorkerFits(c, v) && |v.futures| <= c.Room() by { FitsSlots(c, s, w); }
    SameSlots(c, v, t.workers[w]);
    FitsSet(c, s, t, w);
    HeldBackAbove(c.limits, c.quantum, v.pc.refs);
    if v.pc.refs > c.limits.GoAhead() {
      assert Pauses(c.limits, s.paused, c.quantum, v.pc.refs, v.pc.bytes);
    }
    ExposureSet(c, s, t, w);
  }

  lemma FitsSlots(c: Config, s: State, w: nat)
    requires WorkersFit(c, s) && w < |s.workers|
    ensures WorkerFits(c, s.workers[w]) && |s.workers[w].futures| <= c.Room()
    ensures forall i :: 0 <= i < |s.workers[w].futures| ==> SmallFuture(c, s.workers[w].futures[i])
  {
    assert WorkerFits(c, s.workers[w]);
  }

  /** Publishing a capture spends one unit of the allowance. */
  lemma CollectBounded(c: Config, s: State, w: nat, slot: nat, channel: Channel)
    requires Bounded(c, s) && Enabled(c, s, Collect(w, slot, channel))
    ensures Bounded(c, AfterCollect(c, s, w, slot, channel))
  {
    hide Allowances, Publish, Tasks;
    FitsSlots(c, s, w);
    var f := s.workers[w].futures[slot];
    assert SmallFuture(c, f);
    if f.Returned? { PublishFlight(s.ledger, f.refs, c.cap, channel); }
    var t := AfterCollect(c, s, w, slot, channel);
    FitsSet(c, s, t, w);
    ExposureSet(c, s, t, w);
  }

  lemma PublishFlight(l: Ledger, refs: seq<Ref>, cap: Option<int>, channel: Channel)
    requires channel.Breaks? ==> channel.count <= |refs|
    ensures Publish(l, refs, cap, channel).ledger.InFlight() <= l.InFlight() + |refs|
  {
    hide Sum, Tasks, Sizes;
  }

  /** Other steps of one worker. */
  lemma ThreadBounded(c: Config, s: State, a: Step)
    requires Bounded(c, s) && Enabled(c, s, a)
    requires a.SeeBytes? || a.Submit? || a.Settle? || a.LoopBack? || a.Break? || a.EndAbort?
    ensures Bounded(c, Apply(c, s, a))
  {
    hide Allowances, Drained, Tasks, FutureTasks, Sum;
    FitsSlots(c, s, a.w);
    var t := Apply(c, s, a);
    FitsSet(c, s, t, a.w);
    ExposureSet(c, s, t, a.w);
  }

  /** Replacing a capture by another small one. */
  lemma SetSlotBounded(c: Config, s: State, t: State, w: nat, slot: nat, f: Future)
    requires Bounded(c, s) && SlotIs(s, w, slot) && SmallFuture(c, f)
    requires t.workers == SetSlot(s, w, slot, f).workers && t.ledger == s.ledger
    ensures Bounded(c, t)
  {
    hide Allowances, Tasks, SmallFuture;
    FitsSlots(c, s, w);
    FitsSet(c, s, t, w);
    ExposureSet(c, s, t, w);
  }

  /** Steps of a capture, and of the cleanup. */
  lemma CaptureBounded(c: Config, s: State, a: Step)
    requires Bounded(c, s) && Enabled(c, s, a) && (a.LeaseTasks? || a.Finish? || a.Throw? || a.AbortOne?)
    ensures Bounded(c, Apply(c, s, a))
  {
    hide Drained, Tasks, FutureTasks, Fated, CapturedRefs, AfterCapture, AfterLease, AfterAbort, Bounded;
    match a
    case LeaseTasks(w, slot, tasks) => LeaseBounded(c, s, w, slot, tasks);
    case Finish(w, slot, results) =>
      BoundedFuture(c, s, w, slot);
      CapturedBounded(s.workers[w].futures[slot].tasks, results);
      EndBounded(c, s, w, slot, results, Returned(CapturedRefs(s.workers[w].futures[slot].tasks, results)));
    case Throw(w, slot, results) => EndBounded(c, s, w, slot, results, Raised);
    case AbortOne(w, slot) => AbortBounded(c, s, w, slot);
  }

  lemma LeaseBounded(c: Config, s: State, w: nat, slot: nat, tasks: seq<nat>)
    requires Bounded(c, s) && SlotIs(s, w, slot) && |tasks| <= c.lease
    ensures Bounded(c, AfterLease(s, w, slot, tasks))
  {
    hide Bounded;
    SetSlotBounded(c, s, AfterLease(s, w, slot, tasks), w, slot, if tasks == [] then Returned([]) else Running(tasks));
  }

  lemma EndBounded(c: Config, s: State, w: nat, slot: nat, results: seq<Capture>, f: Future)
    requires Bounded(c, s) && SmallFuture(c, f)
    requires SlotIs(s, w, slot) && s.workers[w].futures[slot].Running? && |results| == |s.workers[w].futures[slot].tasks|
    ensures Bounded(c, AfterCapture(s, w, slot, results, f))
  {
    hide Bounded, Fated, SmallFuture;
    SetSlotBounded(c, s, AfterCapture(s, w, slot, results, f), w, slot, f);
  }

  lemma BoundedFuture(c: Config, s: State, w: nat, slot: nat)
    requires Bounded(c, s) && SlotIs(s, w, slot)
    ensures SmallFuture(c, s.workers[w].futures[slot])
  {
    FitsSlots(c, s, w);
  }

  lemma AbortBounded(c: Config, s: State, w: nat, slot: nat)
    requires Bounded(c, s) && SlotIs(s, w, slot) && s.workers[w].pc == Aborting
    ensures Bounded(c, AfterAbort(s, w, slot))
  {
    hide Allowances, Tasks, FutureTasks;
    FitsSlots(c, s, w);
    FitsSet(c, s, AfterAbort(s, w, slot), w);
    ExposureSet(c, s, AfterAbort(s, w, slot), w);
  }

  lemma StepBounded(c: Config, s: State, a: Step)
    requires c.Valid() && Bounded(c, s) && Enabled(c, s, a)
    requires s.main == NextBatch ==> forall w :: 0 <= w < |s.workers| ==> s.workers[w].futures == []
    ensures Bounded(c, Apply(c, s, a)) && |Apply(c, s, a).workers| == |s.workers|
  {
    if a.StartBatch? || a.Join? || a.Close? || a.Consume? || a.Stop? {
      DriverBounded(c, s, a);
    } else {
      ThreadFrame(c, s, a);
      hide Enabled, Apply, Bounded;
      if a.SeeRefs? {
        SeeRefsBounded(c, s, a.w);
      } else if a.Decide? {
        DecideBounded(c, s, a.w);
      } else if a.Collect? {
        assert Enabled(c, s, Collect(a.w, a.slot, a.channel));
        CollectBounded(c, s, a.w, a.slot, a.channel);
      } else if a.LeaseTasks? || a.Finish? || a.Throw? || a.AbortOne? {
        CaptureBounded(c, s, a);
      } else {
        ThreadBounded(c, s, a);
      }
    }
  }

  lemma DriverBounded(c: Config, s: State, a: Step)
    requires Bounded(c, s) && Enabled(c, s, a) && (a.StartBatch? || a.Join? || a.Close? || a.Consume? || a.Stop?)
    requires s.main == NextBatch ==> forall w :: 0 <= w < |s.workers| ==> s.workers[w].futures == []
    ensures Bounded(c, Apply(c, s, a)) && |Apply(c, s, a).workers| == |s.workers|
  {
    hide Drained, Allowances;
    forall w: nat | w < |s.workers| ensures WorkerFits(c, s.workers[w]) && |s.workers[w].futures| <= c.Room() {
      FitsSlots(c, s, w);
    }
    AllowancesStarted(c, s.workers);
    Scale(c.lease, Allowances(c, Started(s.workers)), Allowances(c, s.workers));
    if a.StartBatch? {
      forall w | 0 <= w < |s.workers| ensures WorkerFits(c, Started(s.workers)[w]) {
        SameSlots(c, s.workers[w], Started(s.workers)[w]);
      }
    }
  }
}
