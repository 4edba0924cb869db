/**
 * Runs of the online producer that exist for every configuration: with equal watermarks captures come on top of a
 * full high watermark, and with two workers a batch can be lost.
 *
 * The first run fills the channel one reference at a time, lets every worker look while the latch is open, and then
 * all slots of all workers bring full captures. In the second, one worker's publication breaks after the transfer,
 * the consumer acknowledges what was transferred, and the next worker's batch meets books that no longer match.
 * Together with the bounds of `ProducerRuns` they give the exact conditions.
 */
module ProducerScenarios {
  import opened NatArithmetic
  import opened Options
  import opened Producer
  import opened ProducerFlowControl
  import opened ProducerLedger
  import opened ProducerRuns

  // ---------------------------------------------------------------- building runs

  lemma {:induction false} LeadsMore(c: Config, s: State, steps: seq<Step>, t: State, a: Step)
    requires Leads(c, s, steps, t) && Enabled(c, t, a)
    ensures Leads(c, s, steps + [a], Apply(c, t, a))
    decreases |steps|
  {
    hide Enabled, Apply;
    if steps == [] {
      assert ([] + [a])[1..] == [] && Leads(c, Apply(c, s, a), [], Apply(c, t, a));
    } else {
      LeadsMore(c, Apply(c, s, steps[0]), steps[1..], t, a);
      assert (steps + [a])[1..] == steps[1..] + [a];
    }
  }

  /** The prompts from `a` to `m`. */
  function Range(a: nat, m: nat): (r: seq<nat>)
    requires a <= m
    ensures |r| == m - a
  {
    seq(m - a, i requires 0 <= i => a + i)
  }

  lemma RangeSplit(a: nat, b: nat, m: nat)
    requires a <= b <= m
    ensures multiset(Range(a, b)) <= multiset(Range(a, m))
    ensures multiset(Range(a, m)) - multiset(Range(a, b)) == multiset(Range(b, m))
    ensures |multiset(Range(a, m))| == m - a
  {
    assert Range(a, m) == Range(a, b) + Range(b, m);
  }

  /** A roll-out with `flight` references published, none acknowledged, none of any size, and prompts `a` to `m` pending. */
  ghost predicate Scene(s: State, flight: nat, a: nat, m: nat, latch: bool) {
    && s.main == Rolling && !s.stop && s.paused == latch && a <= m && s.pending == multiset(Range(a, m))
    && |s.ledger.published| == |s.ledger.sizes| == flight && s.ledger.consumed == s.ledger.accounted == 0 && s.ledger.resident == 0
  }

  /** Worker `w` differs between `s` and `t`, becoming `v`; the other workers and the batches to come do not. */
  predicate Becomes(s: State, t: State, w: nat, v: Worker) {
    w < |s.workers| && t.workers == s.workers[w := v] && t.batches == s.batches
  }

  /** A worker looks at the channel and decides. */
  lemma Look(c: Config, s0: State, before: seq<Step>, s: State, w: nat, flight: nat, a: nat, m: nat, latch: bool)
    returns (steps: seq<Step>, t: State)
    requires Leads(c, s0, before, s) && Scene(s, flight, a, m, latch) && w < |s.workers| && s.workers[w].pc == Top
    ensures var go := c.limits.Latch(latch, flight, 0);
      && Leads(c, s0, steps, t) && Scene(t, flight, a, m, go)
      && Becomes(s, t, w, s.workers[w].(pc := if flight >= c.quantum && go then Settling else Submitting))
  {
    hide Leads, Limits.Latch, Scene, Apply, Enabled;
    SeeRefsScene(c, s, w, flight, a, m, latch);
    var s1 := Apply(c, s, SeeRefs(w));
    LeadsMore(c, s0, before, s, SeeRefs(w));
    SeeBytesScene(c, s1, w, flight, a, m, latch);
    var s2 := Apply(c, s1, SeeBytes(w));
    LeadsMore(c, s0, before + [SeeRefs(w)], s1, SeeBytes(w));
    DecideScene(c, s2, w, flight, a, m, latch);
    t := Apply(c, s2, Decide(w));
    LeadsMore(c, s0, before + [SeeRefs(w)] + [SeeBytes(w)], s2, Decide(w));
    steps := before + [SeeRefs(w)] + [SeeBytes(w)] + [Decide(w)];
  }

  lemma SeeRefsScene(c: Config, s: State, w: nat, flight: nat, a: nat, m: nat, latch: bool)
    requires Scene(s, flight, a, m, latch) && w < |s.workers| && s.workers[w].pc == Top
    ensures Enabled(c, s, SeeRefs(w))
    ensures var t := Apply(c, s, SeeRefs(w));
      Scene(t, flight, a, m, latch) && Becomes(s, t, w, s.workers[w].(pc := ReadRefs(flight)))
  {
    hide Range;
  }

  lemma SeeBytesScene(c: Config, s: State, w: nat, flight: nat, a: nat, m: nat, latch: bool)
    requires Scene(s, flight, a, m, latch) && w < |s.workers| && s.workers[w].pc == ReadRefs(flight)
    ensures Enabled(c, s, SeeBytes(w))
    ensures var t := Apply(c, s, SeeBytes(w));
      Scene(t, flight, a, m, latch) && Becomes(s, t, w, s.workers[w].(pc := ReadBytes(flight, 0)))
  {
    hide Range, Sum;
    NothingAcknowledged(s.ledger);
  }

  lemma DecideScene(c: Config, s: State, w: nat, flight: nat, a: nat, m: nat, latch: bool)
    requires Scene(s, flight, a, m, latch) && w < |s.workers| && s.workers[w].pc == ReadBytes(flight, 0)
    ensures Enabled(c, s, Decide(w))
    ensures var t, go := Apply(c, s, Decide(w)), c.limits.Latch(latch, flight, 0);
      && Scene(t, flight, a, m, go)
      && Becomes(s, t, w, s.workers[w].(pc := if flight >= c.quantum && go then Settling else Submitting))
  {
    hide Range, Limits.Latch;
  }

  lemma NothingAcknowledged(l: Ledger)
    requires l.consumed == l.accounted
    ensures l.CanReconcile() && l.Reconcile() == l
  {
    assert l.sizes[0..] == l.sizes && l.sizes[..0] == [];
  }

  /** A paused worker with nothing to collect goes back to its loop top while prompts are pending. */
  lemma Idle(c: Config, s0: State, before: seq<Step>, s: State, w: nat, flight: nat, a: nat, m: nat, latch: bool)
    returns (steps: seq<Step>, t: State)
    requires Leads(c, s0, before, s) && Scene(s, flight, a, m, latch) && a < m && w < |s.workers|
    requires s.workers[w].pc == Settling && s.workers[w].futures == [] && s.workers[w].accepting
    requires s.workers[w].submitted < c.maxRounds
    ensures Leads(c, s0, steps, t) && Scene(t, flight, a, m, latch) && Becomes(s, t, w, s.workers[w].(pc := Top))
  {
    hide Leads;
    assert Range(a, m)[0] in multiset(Range(a, m));
    LeadsMore(c, s0, before, s, Settle(w));
    steps, t := before + [Settle(w)], Apply(c, s, Settle(w));
  }

  /** At the high watermark with equal marks a worker gets through at its first or second look. */
  lemma GetThrough(c: Config, s0: State, before: seq<Step>, s: State, w: nat, a: nat, m: nat, latch: bool)
    returns (steps: seq<Step>, t: State)
    requires c.Valid() && c.limits.LowRefs() == c.limits.highRefs
    requires Leads(c, s0, before, s) && Scene(s, c.limits.highRefs, a, m, latch) && a < m && w < |s.workers|
    requires s.workers[w].pc == Top && s.workers[w].futures == [] && s.workers[w].accepting
    requires s.workers[w].submitted < c.maxRounds
    ensures Leads(c, s0, steps, t) && Scene(t, c.limits.highRefs, a, m, false)
    ensures Becomes(s, t, w, s.workers[w].(pc := Submitting))
  {
    hide Leads, Scene, Config.Valid, Limits.Latch;
    var h := c.limits.highRefs;
    MarksToggle(c, latch);
    MarksToggle(c, !latch);
    steps, t := Look(c, s0, before, s, w, h, a, m, latch);
    if !latch {
      var u := t;
      steps, t := Idle(c, s0, steps, u, w, h, a, m, true);
      u := t;
      steps, t := Look(c, s0, steps, u, w, h, a, m, true);
    }
  }

  /** Looking at the high watermark flips the latch, and a set latch pauses. */
  lemma MarksToggle(c: Config, latch: bool)
    requires c.Valid() && c.limits.LowRefs() == c.limits.highRefs
    ensures c.limits.highRefs >= 1 && c.limits.highRefs >= c.quantum
    ensures c.limits.Latch(latch, c.limits.highRefs, 0) == !latch
  {
    EqualMarksToggle(c.limits, latch);
  }

  /** Submitting `n` capture calls. */
  lemma {:induction false} SubmitMany(c: Config, s0: State, before: seq<Step>, s: State, w: nat, n: nat, flight: nat, a: nat, m: nat)
    returns (steps: seq<Step>, t: State)
    requires Leads(c, s0, before, s) && Scene(s, flight, a, m, false) && w < |s.workers|
    requires s.workers[w].pc == Submitting && s.workers[w].accepting
    requires |s.workers[w].futures| + n <= c.slots && s.workers[w].submitted + n <= c.maxRounds
    ensures Leads(c, s0, steps, t) && Scene(t, flight, a, m, false)
    ensures Becomes(s, t, w, s.workers[w].(futures := s.workers[w].futures + Queue(n), submitted := s.workers[w].submitted + n))
    decreases n
  {
    hide Leads, Scene;
    if n == 0 {
      steps, t := before, s;
      assert s.workers[w].futures + Queue(0) == s.workers[w].futures;
      assert s.workers == s.workers[w := s.workers[w]];
    } else {
      SubmitOne(c, s0, before, s, w, flight, a, m);
      var u := Apply(c, s, Submit(w));
      steps, t := SubmitMany(c, s0, before + [Submit(w)], u, w, n - 1, flight, a, m);
      assert (s.workers[w].futures + [Queued]) + Queue(n - 1) == s.workers[w].futures + Queue(n);
    }
  }

  lemma SubmitOne(c: Config, s0: State, before: seq<Step>, s: State, w: nat, flight: nat, a: nat, m: nat)
    requires Leads(c, s0, before, s) && Scene(s, flight, a, m, false) && w < |s.workers|
    requires s.workers[w].pc == Submitting && s.workers[w].accepting
    requires |s.workers[w].futures| < c.slots && s.workers[w].submitted < c.maxRounds
    ensures Enabled(c, s, Submit(w))
    ensures var t, v := Apply(c, s, Submit(w)), s.workers[w];
      && Leads(c, s0, before + [Submit(w)], t) && Scene(t, flight, a, m, false)
      && Becomes(s, t, w, v.(futures := v.futures + [Queued], submitted := v.submitted + 1))
  {
    hide Leads;
    LeadsMore(c, s0, before, s, Submit(w));
  }

  function Queue(n: nat): (r: seq<Future>)
    ensures |r| == n
  {
    seq(n, _ => Queued)
  }

  /** What a capture of `lease` prompts brings when `k` are captured and the others fail for good. */
  function Outcomes(lease: nat, k: nat): (r: seq<Capture>)
    ensures |r| == lease
  {
    seq(lease, i => if i < k then Captured(None) else Terminal)
  }

  lemma {:induction false} OutcomeRefs(tasks: seq<nat>, k: nat)
    ensures var r := CapturedRefs(tasks, Outcomes(|tasks|, k));
      && |r| == (if k < |tasks| then k else |tasks|) && forall i :: 0 <= i < |r| ==> r[i].estimate == None
    ensures Fated(tasks, Outcomes(|tasks|, k), Retry) == multiset{}
  {
    if tasks != [] {
      OutcomeRefs(tasks[..|tasks| - 1], k);
      assert Outcomes(|tasks|, k)[..|tasks| - 1] == Outcomes(|tasks| - 1, k);
    }
  }

  /** The first queued call of a worker leases the next prompts and captures `k` of them. */
  lemma Capture(c: Config, s0: State, before: seq<Step>, s: State, w: nat, k: nat, flight: nat, a: nat, m: nat)
    returns (steps: seq<Step>, t: State, refs: seq<Ref>)
    requires Leads(c, s0, before, s) && Scene(s, flight, a, m, false) && w < |s.workers|
    requires s.workers[w].futures != [] && s.workers[w].futures[0] == Queued
    requires 1 <= k <= c.lease && a + c.lease <= m
    ensures Leads(c, s0, steps, t) && Scene(t, flight, a + c.lease, m, false) && t.ledger == s.ledger
    ensures |refs| == k && forall i :: 0 <= i < |refs| ==> refs[i].estimate == None
    ensures Becomes(s, t, w, s.workers[w].(futures := s.workers[w].futures[0 := Returned(refs)]))
  {
    hide Leads, Range, Scene, Enabled, Apply, CapturedRefs, Outcomes;
    var tasks := Range(a, a + c.lease);
    TakePrompts(c, s0, before, s, w, flight, a, m);
    var lease := LeaseTasks(w, 0, tasks);
    var u := Apply(c, s, lease);
    EndCapture(c, s0, before + [lease], u, w, tasks, k, flight, a + c.lease, m);
    var done := Finish(w, 0, Outcomes(c.lease, k));
    steps, t, refs := before + [lease] + [done], Apply(c, u, done), CapturedRefs(tasks, Outcomes(c.lease, k));
    assert s.workers[w].futures[0 := Running(tasks)][0 := Returned(refs)] == s.workers[w].futures[0 := Returned(refs)];
  }

  lemma TakePrompts(c: Config, s0: State, before: seq<Step>, s: State, w: nat, flight: nat, a: nat, m: nat)
    requires Leads(c, s0, before, s) && Scene(s, flight, a, m, false) && w < |s.workers|
    requires s.workers[w].futures != [] && s.workers[w].futures[0] == Queued && c.lease >= 1 && a + c.lease <= m
    ensures var tasks := Range(a, a + c.lease);
      var lease := LeaseTasks(w, 0, tasks);
      && Enabled(c, s, lease) && var t := Apply(c, s, lease);
      && Leads(c, s0, before + [lease], t) && Scene(t, flight, a + c.lease, m, false) && t.ledger == s.ledger
      && Becomes(s, t, w, s.workers[w].(futures := s.workers[w].futures[0 := Running(tasks)]))
  {
    hide Leads, Range;
    RangeSplit(a, a + c.lease, m);
    LeadsMore(c, s0, before, s, LeaseTasks(w, 0, Range(a, a + c.lease)));
  }

  lemma EndCapture(c: Config, s0: State, before: seq<Step>, s: State, w: nat, tasks: seq<nat>, k: nat, flight: nat, a: nat, m: nat)
    requires Leads(c, s0, before, s) && Scene(s, flight, a, m, false) && w < |s.workers|
    requires s.workers[w].futures != [] && s.workers[w].futures[0] == Running(tasks) && k <= |tasks|
    ensures var done := Finish(w, 0, Outcomes(|tasks|, k));
      var refs := CapturedRefs(tasks, Outcomes(|tasks|, k));
      && Enabled(c, s, done) && |refs| == k && (forall i :: 0 <= i < |refs| ==> refs[i].estimate == None)
      && var t := Apply(c, s, done);
      && Leads(c, s0, before + [done], t) && Scene(t, flight, a, m, false) && t.ledger == s.ledger
      && Becomes(s, t, w, s.workers[w].(futures := s.workers[w].futures[0 := Returned(refs)]))
  {
    hide Leads, Range, CapturedRefs, Fated, Outcomes;
    OutcomeRefs(tasks, k);
    LeadsMore(c, s0, before, s, Finish(w, 0, Outcomes(|tasks|, k)));
  }

  lemma {:induction false} NoBytes(refs: seq<Ref>)
    requires forall i :: 0 <= i < |refs| ==> refs[i].estimate == None
    ensures Sum(Sizes(refs)) == 0
  {
    if refs != [] {
      NoBytes(refs[1..]);
      assert Sizes(refs)[1..] == Sizes(refs[1..]);
    }
  }

  /** Publishing references without size. */
  lemma PublishWeightless(c: Config, l: Ledger, refs: seq<Ref>)
    requires c.Valid() && l.consumed == l.accounted && l.resident == 0
    requires refs != [] && forall i :: 0 <= i < |refs| ==> refs[i].estimate == None
    ensures var p := Publish(l, refs, c.cap, Accepts);
      && !p.raised && p.ledger.published == l.published + refs && p.ledger.resident == 0 && |p.ledger.sizes| == |l.sizes| + |refs|
      && p.ledger.consumed == l.consumed && p.ledger.accounted == l.accounted
  {
    hide Sum, Sizes, Tasks;
    NoBytes(refs);
    NothingAcknowledged(l);
  }

  /** A collecting worker publishes its first capture. */
  lemma PublishFirst(c: Config, s0: State, before: seq<Step>, s: State, w: nat, refs: seq<Ref>, flight: nat, a: nat, m: nat)
    returns (steps: seq<Step>, t: State)
    requires c.Valid() && Leads(c, s0, before, s) && Scene(s, flight, a, m, false) && w < |s.workers|
    requires s.workers[w].pc == Collecting && s.workers[w].futures != [] && s.workers[w].futures[0] == Returned(refs)
    requires refs != [] && forall i :: 0 <= i < |refs| ==> refs[i].estimate == None
    ensures Leads(c, s0, steps, t) && Scene(t, flight + |refs|, a, m, false)
    ensures Becomes(s, t, w, s.workers[w].(futures := s.workers[w].futures[1..], failures := 0))
  {
    hide Leads, Range, Publish, Tasks, Config.Valid;
    var collect := Collect(w, 0, Accepts);
    PublishWeightless(c, s.ledger, refs);
    t := Apply(c, s, collect);
    LeadsMore(c, s0, before, s, collect);
    steps := before + [collect];
    assert Without(s.workers[w].futures, 0) == s.workers[w].futures[1..];
  }

  /** Going from submitting to collecting, and from collecting back to the loop top. */
  lemma TurnTo(c: Config, s0: State, before: seq<Step>, s: State, w: nat, pc: Pc, flight: nat, a: nat, m: nat)
    returns (steps: seq<Step>, t: State)
    requires Leads(c, s0, before, s) && Scene(s, flight, a, m, false) && w < |s.workers|
    requires (pc == Collecting && s.workers[w].pc == Submitting && s.workers[w].futures != [])
          || (pc == Top && s.workers[w].pc == Collecting)
    ensures Leads(c, s0, steps, t) && Scene(t, flight, a, m, false) && t.ledger == s.ledger
    ensures Becomes(s, t, w, s.workers[w].(pc := pc))
  {
    hide Leads, Range, Drained;
    var step := if pc == Top then LoopBack(w) else Settle(w);
    LeadsMore(c, s0, before, s, step);
    steps, t := before + [step], Apply(c, s, step);
  }

  /** A collecting worker with `n` queued calls captures and publishes `k` prompts in each. */
  lemma {:induction false} Drain(c: Config, s0: State, before: seq<Step>, s: State, w: nat, n: nat, k: nat, flight: nat, a: nat, m: nat)
    returns (steps: seq<Step>, t: State)
    requires c.Valid() && Leads(c, s0, before, s) && Scene(s, flight, a, m, false) && w < |s.workers|
    requires s.workers[w].pc == Collecting && s.workers[w].futures == Queue(n) && s.workers[w].failures == 0
    requires 1 <= k <= c.lease && a + Times(n, c.lease) <= m
    ensures Leads(c, s0, steps, t) && Scene(t, flight + Times(n, k), a + Times(n, c.lease), m, false)
    ensures Becomes(s, t, w, s.workers[w].(futures := []))
    decreases n
  {
    hide Leads, Scene, Times, Config.Valid;
    TimesStep(n, c.lease);
    TimesStep(n, k);
    if n == 0 {
      steps, t := before, s;
      assert s.workers == s.workers[w := s.workers[w].(futures := [])];
    } else {
      var refs: seq<Ref>;
      var u: State;
      steps, u, refs := Capture(c, s0, before, s, w, k, flight, a, m);
      var v: State;
      steps, v := PublishFirst(c, s0, steps, u, w, refs, flight, a + c.lease, m);
      assert Queue(n)[0 := Returned(refs)][1..] == Queue(n - 1);
      steps, t := Drain(c, s0, steps, v, w, n - 1, k, flight + k, a + c.lease, m);
    }
  }

  /** A worker that was let through submits `n` calls, captures `k` prompts in each and publishes them. */
  lemma Work(c: Config, s0: State, before: seq<Step>, s: State, w: nat, n: nat, k: nat, flight: nat, a: nat, m: nat)
    returns (steps: seq<Step>, t: State)
    requires c.Valid() && Leads(c, s0, before, s) && Scene(s, flight, a, m, false) && w < |s.workers|
    requires s.workers[w].pc == Submitting && s.workers[w].futures == [] && s.workers[w].accepting
    requires s.workers[w].failures == 0 && 1 <= n <= c.slots && s.workers[w].submitted + n <= c.maxRounds
    requires 1 <= k <= c.lease && a + Times(n, c.lease) <= m
    ensures Leads(c, s0, steps, t) && Scene(t, flight + Times(n, k), a + Times(n, c.lease), m, false)
    ensures Becomes(s, t, w, s.workers[w].(pc := Collecting, submitted := s.workers[w].submitted + n))
  {
    hide Leads, Scene, Times, Config.Valid;
    var u: State, v: State;
    steps, u := SubmitMany(c, s0, before, s, w, n, flight, a, m);
    assert [] + Queue(n) == Queue(n);
    steps, v := TurnTo(c, s0, steps, u, w, Collecting, flight, a, m);
    steps, t := Drain(c, s0, steps, v, w, n, k, flight, a, m);
  }

  lemma BelowHigh(c: Config, flight: nat)
    requires c.Valid() && flight < c.limits.highRefs
    ensures !c.limits.Latch(false, flight, 0) && c.lease >= 1 && c.slots >= 1
  {}

  /** At the high watermark all workers get through one after the other. */
  lemma {:induction false} OpenAll(c: Config, s0: State, before: seq<Step>, s: State, n: nat, a: nat, m: nat, latch: bool)
    returns (steps: seq<Step>, t: State)
    requires c.Valid() && c.limits.LowRefs() == c.limits.highRefs && n <= |s.workers|
    requires Leads(c, s0, before, s) && Scene(s, c.limits.highRefs, a, m, latch) && a < m && (n == |s.workers| ==> !latch)
    requires forall i :: n <= i < |s.workers| ==>
      s.workers[i].pc == Top && s.workers[i].futures == [] && s.workers[i].accepting && s.workers[i].submitted < c.maxRounds
    ensures Leads(c, s0, steps, t) && Scene(t, c.limits.highRefs, a, m, false) && |t.workers| == |s.workers|
    ensures forall i :: 0 <= i < |s.workers| ==>
      t.workers[i] == if i < n then s.workers[i] else s.workers[i].(pc := Submitting)
    decreases |s.workers| - n
  {
    hide Leads, Scene, Config.Valid, Limits.LowRefs;
    if n == |s.workers| {
      steps, t := before, s;
    } else {
      var u: State;
      steps, u := GetThrough(c, s0, before, s, n, a, m, latch);
      steps, t := OpenAll(c, s0, steps, u, n + 1, a, m, false);
    }
  }

  /** Every worker that got through uses all its slots and publishes full captures. */
  lemma {:induction false} WorkAll(c: Config, s0: State, before: seq<Step>, s: State, n: nat, flight: nat, a: nat, m: nat)
    returns (steps: seq<Step>, t: State)
    requires c.Valid() && n <= |s.workers| && Leads(c, s0, before, s) && Scene(s, flight, a, m, false)
    requires a + Times(|s.workers| - n, Times(c.slots, c.lease)) <= m
    requires forall i :: n <= i < |s.workers| ==>
      && s.workers[i].pc == Submitting && s.workers[i].futures == [] && s.workers[i].accepting && s.workers[i].failures == 0
      && s.workers[i].submitted + c.slots <= c.maxRounds
    ensures Leads(c, s0, steps, t)
    ensures t.ledger.InFlight() == flight + Times(|s.workers| - n, Times(c.slots, c.lease))
    decreases |s.workers| - n
  {
    hide Leads, Times;
    var each := Times(c.slots, c.lease);
    TimesStep(|s.workers| - n, each);
    if n == |s.workers| {
      steps, t := before, s;
    } else {
      hide Scene;
      BelowHigh(c, 0);
      var u: State;
      steps, u := Work(c, s0, before, s, n, c.slots, c.lease, flight, a, m);
      steps, t := WorkAll(c, s0, steps, u, n + 1, flight + each, a + each, m);
    }
  }

  // ---------------------------------------------------------------- batches

  /** A start with the given prompt batches. */
  function Initial(workers: nat, batches: seq<seq<nat>>): State {
    State(NextBatch, seq(workers, _ => Worker(Exited, [], true, 0, 0, false)), false,
          Ledger([], 0, 0, [], 0, 0, multiset{}, multiset{}, true), multiset{}, multiset{}, multiset{}, batches, false)
  }

  ghost predicate AllExited(s: State) {
    forall i :: 0 <= i < |s.workers| ==> s.workers[i].pc == Exited && s.workers[i].futures == [] && !s.workers[i].dead
  }

  /** Before a batch, with `flight` references published as in a scene. */
  ghost predicate Between(s: State, flight: nat, latch: bool) {
    && s.main == NextBatch && !s.stop && s.paused == latch && s.pending == multiset{} && AllExited(s)
    && |s.ledger.published| == |s.ledger.sizes| == flight && s.ledger.consumed == s.ledger.accounted == 0 && s.ledger.resident == 0
  }

  lemma StartsBetween(workers: nat, batches: seq<seq<nat>>)
    ensures Start(Initial(workers, batches)) && Between(Initial(workers, batches), 0, false)
  {}

  /** The next batch, of the prompts `0` to `m`, is taken in. */
  lemma OpenBatch(c: Config, s0: State, before: seq<Step>, s: State, flight: nat, m: nat, latch: bool)
    returns (steps: seq<Step>, t: State)
    requires Leads(c, s0, before, s) && Between(s, flight, latch) && s.workers != []
    requires s.batches != [] && s.batches[0] == Range(0, m)
    ensures Leads(c, s0, steps, t) && Scene(t, flight, 0, m, latch) && t.batches == s.batches[1..]
    ensures |t.workers| == |s.workers| && forall i :: 0 <= i < |s.workers| ==> t.workers[i] == Worker(Top, [], true, 0, 0, false)
  {
    hide Leads, Range;
    assert !s.workers[0].dead;
    LeadsMore(c, s0, before, s, StartBatch);
    steps, t := before + [StartBatch], Apply(c, s, StartBatch);
  }

  /** With the pool drained the workers from `n` on look once more and exit. */
  lemma {:induction false} ExitAll(c: Config, s0: State, before: seq<Step>, s: State, n: nat, flight: nat, m: nat, latch: bool)
    returns (steps: seq<Step>, t: State, after: bool)
    requires c.Valid() && Leads(c, s0, before, s) && Scene(s, flight, m, m, latch) && n <= |s.workers|
    requires forall i :: 0 <= i < |s.workers| ==>
      s.workers[i].pc == (if i < n then Exited else Top) && s.workers[i].futures == [] && !s.workers[i].dead
    ensures Leads(c, s0, steps, t) && Scene(t, flight, m, m, after) && t.batches == s.batches && |t.workers| == |s.workers|
    ensures AllExited(t) && (flight < c.limits.highRefs && !latch ==> !after)
    decreases |s.workers| - n
  {
    hide Leads, Scene, Config.Valid, Limits.Latch;
    if n == |s.workers| {
      steps, t, after := before, s, latch;
    } else {
      if flight < c.limits.highRefs { BelowHigh(c, flight); }
      var u: State;
      steps, u := Look(c, s0, before, s, n, flight, m, m, latch);
      var go := c.limits.Latch(latch, flight, 0);
      ExitOne(c, s0, steps, u, n, flight, m, go);
      var v := Apply(c, u, Settle(n));
      steps, t, after := ExitAll(c, s0, steps + [Settle(n)], v, n + 1, flight, m, go);
    }
  }

  lemma ExitOne(c: Config, s0: State, before: seq<Step>, s: State, w: nat, flight: nat, m: nat, latch: bool)
    requires Leads(c, s0, before, s) && Scene(s, flight, m, m, latch) && w < |s.workers|
    requires forall i :: 0 <= i < |s.workers| ==> s.workers[i].futures == []
    requires s.workers[w].pc == Settling || s.workers[w].pc == Submitting
    ensures Enabled(c, s, Settle(w))
    ensures var t := Apply(c, s, Settle(w));
      && Leads(c, s0, before + [Settle(w)], t) && Scene(t, flight, m, m, latch)
      && Becomes(s, t, w, s.workers[w].(pc := Exited))
  {
    hide Leads;
    assert Range(m, m) == [];
    assert Drained(s);
    LeadsMore(c, s0, before, s, Settle(w));
  }

  /** All workers have exited: the driver joins them. */
  lemma JoinBatch(c: Config, s0: State, before: seq<Step>, s: State, flight: nat, m: nat, latch: bool)
    returns (steps: seq<Step>, t: State)
    requires Leads(c, s0, before, s) && Scene(s, flight, m, m, latch) && AllExited(s)
    ensures Leads(c, s0, steps, t) && Between(t, flight, latch) && t.batches == s.batches && t.workers == s.workers
  {
    hide Leads;
    assert Range(m, m) == [];
    LeadsMore(c, s0, before, s, Join);
    steps, t := before + [Join], Apply(c, s, Join);
  }

  /** A batch from which the first worker brings one reference. */
  lemma FillOne(c: Config, s0: State, before: seq<Step>, s: State, flight: nat) returns (steps: seq<Step>, t: State, latch: bool)
    requires c.Valid() && c.maxRounds >= 1 && Leads(c, s0, before, s) && Between(s, flight, false) && s.workers != []
    requires flight < c.limits.highRefs && s.batches != [] && s.batches[0] == Range(0, c.lease)
    ensures Leads(c, s0, steps, t) && Between(t, flight + 1, latch) && t.batches == s.batches[1..]
    ensures |t.workers| == |s.workers| && (flight + 1 < c.limits.highRefs ==> !latch)
  {
    hide Leads, Scene, Between, Limits.Latch, AllExited;
    BelowHigh(c, flight);
    TimesLaws(1, c.lease, 0);
    TimesLaws(1, 1, 0);
    var u: State, v: State;
    steps, u := OpenBatch(c, s0, before, s, flight, c.lease, false);
    steps, v := Look(c, s0, steps, u, 0, flight, 0, c.lease, false);
    steps, u := Work(c, s0, steps, v, 0, 1, 1, flight, 0, c.lease);
    steps, v := TurnTo(c, s0, steps, u, 0, Top, flight + 1, c.lease, c.lease);
    steps, u, latch := ExitAll(c, s0, steps, v, 0, flight + 1, c.lease, false);
    steps, t := JoinBatch(c, s0, steps, u, flight + 1, c.lease, latch);
  }

  /** `left` batches of one lease each, then one of `m` prompts. */
  function Plan(lease: nat, left: nat, m: nat): (r: seq<seq<nat>>)
    ensures r != []
  {
    if left == 0 then [Range(0, m)] else [Range(0, lease)] + Plan(lease, left - 1, m)
  }

  /** Batch by batch the channel fills up to the high watermark. */
  lemma {:induction false} FillUp(c: Config, s0: State, before: seq<Step>, s: State, flight: nat, m: nat, latch: bool)
    returns (steps: seq<Step>, t: State, after: bool)
    requires c.Valid() && c.maxRounds >= 1 && Leads(c, s0, before, s) && Between(s, flight, latch) && s.workers != []
    requires flight <= c.limits.highRefs && (flight < c.limits.highRefs ==> !latch)
    requires s.batches == Plan(c.lease, c.limits.highRefs - flight, m)
    ensures Leads(c, s0, steps, t) && Between(t, c.limits.highRefs, after) && t.batches == [Range(0, m)]
    ensures |t.workers| == |s.workers|
    decreases c.limits.highRefs - flight
  {
    hide Leads, Between, Config.Valid, Range;
    if flight == c.limits.highRefs {
      steps, t, after := before, s, latch;
    } else {
      var u: State, now: bool;
      steps, u, now := FillOne(c, s0, before, s, flight);
      steps, t, after := FillUp(c, s0, steps, u, flight + 1, m, now);
    }
  }

  /** With equal watermarks some run exceeds the high watermark itself by a full capture per slot of every worker. */
  lemma EqualMarksOvershoot(c: Config, workers: nat) returns (s: State, steps: seq<Step>, t: State)
    requires c.Valid() && c.limits.LowRefs() == c.limits.highRefs && workers >= 1 && c.maxRounds >= c.slots
    ensures Start(s) && |s.workers| == workers && Leads(c, s, steps, t)
    ensures t.ledger.InFlight() == c.limits.highRefs + c.lease * (workers * c.slots)
  {
    hide Leads, Times, Between, Range, Start, Scene;
    var h, m := c.limits.highRefs, Times(workers, Times(c.slots, c.lease));
    s := Initial(workers, Plan(c.lease, h, m));
    StartsBetween(workers, Plan(c.lease, h, m));
    assert Leads(c, s, [], s) by { NoSteps(c, s); }
    var u: State, v: State, latch: bool;
    steps, u, latch := FillUp(c, s, [], s, 0, m, false);
    steps, v := OpenBatch(c, s, steps, u, h, m, latch);
    assert m > 0 by { SomeWork(workers, c.slots, c.lease); }
    steps, u := OpenAll(c, s, steps, v, 0, 0, m, latch);
    steps, t := WorkAll(c, s, steps, u, 0, h, 0, m);
    SlotsTimesLease(workers, c.slots, c.lease);
  }

  lemma NoSteps(c: Config, s: State)
    ensures Leads(c, s, [], s)
  {}

  lemma SomeWork(workers: nat, slots: nat, lease: nat)
    requires workers >= 1 && slots >= 1 && lease >= 1
    ensures Times(workers, Times(slots, lease)) > 0
  {
    TimesMonotone(1, slots, lease);
    TimesMonotone(1, workers, Times(slots, lease));
  }

  lemma SlotsTimesLease(workers: nat, slots: nat, lease: nat)
    ensures Times(workers, Times(slots, lease)) == lease * (workers * slots)
  {
    TimesAssociative(workers, slots, lease);
    TimesLaws(Times(workers, slots), lease, 0);
  }

  /** In every run captures come on top of fewer references than the high watermark. */
  ghost predicate BoundBelowHigh(c: Config, workers: nat) {
    forall s, steps, t :: Start(s) && |s.workers| == workers && Leads(c, s, steps, t) ==>
      t.ledger.InFlight() <= c.limits.highRefs - 1 + c.lease * (workers * c.slots)
  }

  /** That is so exactly when the low watermark lies below the high one or a batch has too few rounds to fill the slots. */
  lemma BoundBelowHighIff(c: Config, workers: nat)
    requires c.Valid() && workers >= 1
    ensures BoundBelowHigh(c, workers) <==> c.limits.LowRefs() < c.limits.highRefs || c.maxRounds < c.slots
  {
    hide Leads, Start;
    if c.limits.LowRefs() < c.limits.highRefs || c.maxRounds < c.slots {
      forall s, steps, t | Start(s) && |s.workers| == workers && Leads(c, s, steps, t)
        ensures t.ledger.InFlight() <= c.limits.highRefs - 1 + c.lease * (workers * c.slots)
      {
        InFlightIsBounded(c, s, steps, t);
        FewerRounds(c, workers);
      }
    } else {
      MarksOrdered(c);
      var s, steps, t := EqualMarksOvershoot(c, workers);
    }
  }

  lemma MarksOrdered(c: Config)
    requires c.Valid()
    ensures c.limits.LowRefs() <= c.limits.highRefs
  {}

  /** A slot that no round can fill makes up for the watermark itself. */
  lemma FewerRounds(c: Config, workers: nat)
    requires c.Valid() && workers >= 1
    ensures c.lease * (workers * c.Room()) <= c.lease * (workers * c.slots)
    ensures c.maxRounds < c.slots ==> c.lease * (workers * c.Room()) + 1 <= c.lease * (workers * c.slots)
  {
    BelowHigh(c, 0);
    hide Config.Valid;
    assert workers * c.Room() <= workers * c.slots by { Scale(workers, c.Room(), c.slots); }
    Scale(c.lease, workers * c.Room(), workers * c.slots);
    if c.maxRounds < c.slots {
      Scale(workers, c.Room() + 1, c.slots);
      Scale(workers, c.Room(), c.Room());
      assert workers * c.Room() + 1 <= workers * c.slots;
      Scale(c.lease, workers * c.Room() + 1, workers * c.slots);
      Scale(c.lease, workers * c.Room(), workers * c.Room());
    }
  }

  // ---------------------------------------------------------------- losing a batch

  /** A worker at its loop top of the empty channel ends up with one capture to publish. */
  lemma CaptureBatch(c: Config, s0: State, before: seq<Step>, s: State, w: nat, a: nat, m: nat)
    returns (steps: seq<Step>, t: State, refs: seq<Ref>)
    requires c.Valid() && c.maxRounds >= 1 && Leads(c, s0, before, s) && Scene(s, 0, a, m, false) && a + c.lease <= m
    requires w < |s.workers| && s.workers[w] == Worker(Top, [], true, 0, 0, false)
    ensures Leads(c, s0, steps, t) && Scene(t, 0, a + c.lease, m, false)
    ensures |refs| == c.lease >= 1 && (forall i :: 0 <= i < |refs| ==> refs[i].estimate == None)
    ensures Becomes(s, t, w, Worker(Collecting, [Returned(refs)], true, 1, 0, false))
  {
    hide Leads, Scene, Limits.Latch;
    BelowHigh(c, 0);
    var u: State, v: State;
    steps, u := Look(c, s0, before, s, w, 0, a, m, false);
    steps, v := SubmitMany(c, s0, steps, u, w, 1, 0, a, m);
    assert [] + Queue(1) == [Queued];
    steps, u := TurnTo(c, s0, steps, v, w, Collecting, 0, a, m);
    steps, t, refs := Capture(c, s0, steps, u, w, c.lease, 0, a, m);
    assert [Queued][0 := Returned(refs)] == [Returned(refs)];
  }

  /** One publication breaks off after its last reference, the consumer acknowledges it, the next batch is lost. */
  lemma BreakAcknowledgeLose(c: Config, s0: State, before: seq<Step>, s: State, r0: seq<Ref>, r1: seq<Ref>, a: nat, m: nat)
    returns (steps: seq<Step>, t: State)
    requires c.Valid() && Leads(c, s0, before, s) && Scene(s, 0, a, m, false) && |s.workers| >= 2 && r0 != [] && r1 != []
    requires c.cap.Some? ==> Sum(Sizes(r0)) <= c.cap.value
    requires s.workers[0].pc == Collecting && s.workers[0].futures == [Returned(r0)]
    requires s.workers[1].pc == Collecting && s.workers[1].futures == [Returned(r1)]
    ensures Leads(c, s0, steps, t) && t.ledger.lost == s.ledger.lost + Tasks(r1)
  {
    hide Leads, Scene, Enabled, Apply, Tasks, Sum, Sizes, Ledger.InFlight;
    var first, ack, last := Collect(0, 0, Breaks(|r0|)), Consume(|r0|), Collect(1, 0, Accepts);
    BreakOff(c, s, r0, a, m);
    var u := Apply(c, s, first);
    LeadsMore(c, s0, before, s, first);
    Acknowledge(c, u, |r0|);
    var v := Apply(c, u, ack);
    LeadsMore(c, s0, before + [first], u, ack);
    Lose(c, v, r1);
    t := Apply(c, v, last);
    LeadsMore(c, s0, before + [first] + [ack], v, last);
    steps := before + [first] + [ack] + [last];
  }

  lemma BreakOff(c: Config, s: State, refs: seq<Ref>, a: nat, m: nat)
    requires c.Valid() && Scene(s, 0, a, m, false) && |s.workers| >= 2 && refs != []
    requires c.cap.Some? ==> Sum(Sizes(refs)) <= c.cap.value
    requires s.workers[0].pc == Collecting && s.workers[0].futures == [Returned(refs)]
    ensures var first := Collect(0, 0, Breaks(|refs|));
      && Enabled(c, s, first)
      && var u := Apply(c, s, first);
      && |u.workers| == |s.workers| && u.workers[1] == s.workers[1] && u.ledger.lost == s.ledger.lost
      && |u.ledger.published| == |refs| && u.ledger.sizes == [] && u.ledger.accounted == u.ledger.consumed == 0
  {
    hide Tasks, Sum, Sizes, Range, Drained;
    NothingAcknowledged(s.ledger);
  }

  lemma Acknowledge(c: Config, s: State, n: nat)
    requires s.ledger.consumed <= n <= |s.ledger.published|
    ensures Enabled(c, s, Consume(n)) && Apply(c, s, Consume(n)) == s.(ledger := s.ledger.(consumed := n))
  {}

  lemma Lose(c: Config, s: State, refs: seq<Ref>)
    requires |s.workers| >= 2 && refs != [] && !s.ledger.CanReconcile()
    requires s.workers[1].pc == Collecting && s.workers[1].futures == [Returned(refs)]
    ensures var last := Collect(1, 0, Accepts);
      Enabled(c, s, last) && Apply(c, s, last).ledger.lost == s.ledger.lost + Tasks(refs)
  {
    hide Publish, Tasks;
    BatchIsLost(s.ledger, refs, c.cap, Accepts);
  }

  /** With two workers or more some run loses a batch. */
  lemma TwoWorkersLoseABatch(c: Config, workers: nat) returns (s: State, steps: seq<Step>, t: State)
    requires c.Valid() && workers >= 2 && c.maxRounds >= 1
    ensures Start(s) && |s.workers| == workers && Leads(c, s, steps, t) && t.ledger.lost != multiset{}
  {
    hide Leads, Scene, Tasks, Sum, Sizes;
    var m := c.lease + c.lease;
    s := Initial(workers, [Range(0, m)]);
    var u: State, v: State, r0: seq<Ref>, r1: seq<Ref>;
    StartsBetween(workers, [Range(0, m)]);
    assert Leads(c, s, [], s) by { NoSteps(c, s); }
    steps, u := OpenBatch(c, s, [], s, 0, m, false);
    steps, v, r0 := CaptureBatch(c, s, steps, u, 0, 0, m);
    steps, u, r1 := CaptureBatch(c, s, steps, v, 1, c.lease, m);
    NoBytes(r0);
    steps, t := BreakAcknowledgeLose(c, s, steps, u, r0, r1, m, m);
    assert Tasks(r1) != multiset{} by { SomeTask(r1); }
  }

  lemma SomeTask(refs: seq<Ref>)
    requires refs != []
    ensures Tasks(refs) != multiset{}
  {
    assert refs[|refs| - 1].task in Tasks(refs);
  }

  ghost predicate LosesNothing(c: Config, workers: nat) {
    forall s, steps, t :: Start(s) && |s.workers| == workers && Leads(c, s, steps, t) ==> t.ledger.lost == multiset{}
  }

  /** No run loses a reference exactly when there are not two workers, or no rounds to submit in. */
  lemma LosesNothingIff(c: Config, workers: nat)
    requires c.Valid()
    ensures LosesNothing(c, workers) <==> workers <= 1 || c.maxRounds < 1
  {
    hide Leads, Start;
    if workers <= 1 || c.maxRounds < 1 {
      forall s, steps, t | Start(s) && |s.workers| == workers && Leads(c, s, steps, t) ensures t.ledger.lost == multiset{} {
        if workers <= 1 {
          SingleWorkerLosesNothing(c, s, steps, t);
        } else {
          NoRoundsLoseNothing(c, s, steps, t);
        }
      }
    } else {
      var s, steps, t := TwoWorkersLoseABatch(c, workers);
    }
  }
}
