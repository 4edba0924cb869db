/**
 * The broadcast of the NCCL engine: the sender fills one buffer while the other is broadcast, and every rank
 * yields one bucket while the next one is received. Publishing, joining, the transfers and the loops interleave
 * arbitrarily.
 */
module NcclBroadcast {
  import opened BucketPacking
  import opened BucketReceiver
  import opened BucketSender
  import opened Sequences
  import opened WeightChunks

  /** A broadcast operation at a receiving rank: it waits for the metadata, joins the collective, gets the bytes. */
  datatype Op = NoOp | Waiting | Joined(msg: Message) | Arrived(msg: Message)

  datatype Pc = FirstWait | Yielding | WaitNext | Done

  datatype Receiver = Receiver(pc: Pc, w: Window, op: Op) {

    ghost predicate Start(job: Job) {
      pc == FirstWait && w.Empty(job) && op == Waiting
    }

    /** Buckets observed by the loop. */
    function Seen(): nat { if pc == FirstWait then 0 else w.k + 1 }

    function MetaRead(): nat { Seen() + (if op.Joined? || op.Arrived? then 1 else 0) }

    function Reads(): nat { Seen() + (if op.Arrived? then 1 else 0) }

    ghost predicate Receiving(job: Job, m: nat) {
      match op
      case NoOp => false
      case Waiting => m < job.Count()
      case Joined(msg) => m < job.Count() && msg.metas == Metas(job.All()[m]) && msg.isLast == (m == job.Count() - 1)
      case Arrived(msg) =>
        && m < job.Count() && msg.metas == Metas(job.All()[m]) && msg.isLast == (m == job.Count() - 1)
        && w.Incoming(job, m)
    }

    ghost predicate Inv(job: Job) {
      match pc
      case FirstWait => w.Empty(job) && Receiving(job, 0)
      case Yielding => w.HasBucket(job) && (if w.isLast then op == NoOp else Receiving(job, w.k + 1))
      case WaitNext => w.HasBucket(job) && w.j == |w.metas| && !w.isLast && Receiving(job, w.k + 1)
      case Done => w.HasBucket(job) && w.j == |w.metas| && w.isLast && op == NoOp
    }
  }

  /** `Observe` sees the completion, swaps the buffers and posts the next receive unless that was the last bucket. */
  datatype Move = Join | Transfer | Tear(junk: seq<byte>) | Observe | Yield | EndYield

  predicate CanMove(q: Receiver, queue: seq<Message>, m: Move, source: seq<seq<byte>>) {
    match m
    case Join => q.op == Waiting && queue != []
    case Transfer => q.op.Joined? && q.op.msg.buf < |source| && q.w.CanReceive(source[q.op.msg.buf])
    case Tear(junk) => q.op.Joined? && q.w.CanReceive(junk)
    case Observe => (q.pc == FirstWait || q.pc == WaitNext) && q.op.Arrived? && q.w.send <= 1
    case Yield => q.pc == Yielding && q.w.CanYield()
    case EndYield => q.pc == Yielding && q.w.j >= |q.w.metas|
  }

  function Moved(q: Receiver, queue: seq<Message>, m: Move, source: seq<seq<byte>>): Receiver
    requires CanMove(q, queue, m, source)
  {
    match m
    case Join => q.(op := Joined(queue[0]))
    case Transfer => q.(op := Arrived(q.op.msg), w := q.w.Receive(source[q.op.msg.buf]))
    case Tear(junk) => q.(w := q.w.Receive(junk))
    case Observe =>
      var msg := q.op.msg;
      Receiver(Yielding, if q.pc == FirstWait then q.w.First(msg.metas, msg.isLast) else q.w.Next(msg.metas, msg.isLast),
               if msg.isLast then NoOp else Waiting)
    case Yield => q.(w := q.w.Yield())
    case EndYield => q.(pc := if q.w.isLast then Done else WaitNext)
  }

  function Queue(queue: seq<Message>, m: Move): seq<Message>
    requires m == Join ==> queue != []
  {
    if m == Join then queue[1..] else queue
  }

  // ---------------------------------------------------------------- one rank and the sender

  /** At most one bucket is outstanding, and while it is, its bytes are intact at the sender. */
  ghost predicate LinkInv(job: Job, s: Sender, q: Receiver, queue: seq<Message>) {
    && s.Acked() <= q.Reads() <= q.MetaRead() <= s.posted <= s.Acked() + 1
    && s.posted <= job.Count() && s.Flight() < |s.bufs|
    && queue == (if q.MetaRead() < s.posted then [job.Announce(s.posted - 1, s.Flight())] else [])
    && (s.posted > s.Acked() && s.posted > 0 ==>
         Holds(s.bufs[s.Flight()], job.All()[s.posted - 1]) && |s.bufs[s.Flight()]| == job.bucketSize)
    && (q.op.Joined? ==> q.MetaRead() > 0 && q.op.msg == job.Announce(q.MetaRead() - 1, s.Flight()))
  }

  lemma MoveKeepsSelf(job: Job, s: Sender, q: Receiver, queue: seq<Message>, m: Move)
    requires q.Inv(job) && LinkInv(job, s, q, queue) && CanMove(q, queue, m, s.bufs)
    ensures Moved(q, queue, m, s.bufs).Inv(job)
  {
    hide Holds, Buckets, Flatten, View, Metas, Sender.Inv;
    match m
    case Transfer => ReceiveKeeps(job, q.w, s.bufs[s.Flight()]);
    case Tear(junk) => ReceiveKeeps(job, q.w, junk);
    case Yield => YieldKeeps(job, q.w);
    case Observe => if q.pc == FirstWait { FirstKeeps(job, q.w); } else { NextKeeps(job, q.w); }
    case _ =>
  }

  lemma MoveKeepsLink(job: Job, s: Sender, q: Receiver, queue: seq<Message>, m: Move)
    requires q.Inv(job) && LinkInv(job, s, q, queue) && CanMove(q, queue, m, s.bufs)
    ensures LinkInv(job, s, Moved(q, queue, m, s.bufs), Queue(queue, m))
  {
    hide Holds, Buckets, Flatten, View, Metas, Sender.Acked, Sender.Flight;
  }

  lemma LinkPost(job: Job, s: Sender, q: Receiver, queue: seq<Message>)
    requires job.Valid() && s.Inv(job) && s.CanPost(job) && LinkInv(job, s, q, queue)
    ensures LinkInv(job, s.Post(job), q, queue + [s.Posting(job)])
  {
    hide Holds, Buckets, Metas, Sender.Post, Sender.Posting, Pack, Fits, Size;
    PostInv(s, job);
  }

  lemma LinkFill(job: Job, s: Sender, q: Receiver, queue: seq<Message>)
    requires job.Valid() && s.Inv(job) && s.CanFill(job) && LinkInv(job, s, q, queue)
    ensures LinkInv(job, s.Fill(job), q, queue)
  {
    hide Holds, Buckets, Metas, Receiver.MetaRead, Receiver.Reads, Pack, Fits, Size, Write;
    FillInv(s, job);
  }

  lemma LinkAwait(job: Job, s: Sender, q: Receiver, queue: seq<Message>)
    requires s.Inv(job) && s.CanAwait(job) && LinkInv(job, s, q, queue) && q.Reads() == s.posted
    ensures LinkInv(job, s.Await(), q, queue)
  {
    hide Holds, Buckets, Metas, Receiver.MetaRead, Receiver.Reads, Pack, Fits, Size;
    AwaitInv(s, job);
  }

  // ---------------------------------------------------------------- the whole group

  /** `queues[r]` holds the messages published to rank `r + 1` and not yet received. */
  datatype State = State(sender: Sender, ranks: seq<Receiver>, queues: seq<seq<Message>>) {
    predicate WellFormed() { |ranks| == |queues| }

    /** The operation of the sender completes when every rank has its bytes. */
    predicate AllRead() { forall r :: 0 <= r < |ranks| ==> ranks[r].Reads() == sender.posted }
  }

  datatype Action = Fill | Await | Publish | Rank(r: nat, move: Move)

  predicate Enabled(job: Job, s: State, a: Action)
    requires s.WellFormed()
  {
    match a
    case Fill => s.sender.CanFill(job)
    case Await => s.sender.CanAwait(job) && s.AllRead()
    case Publish => s.sender.CanPost(job)
    case Rank(r, m) => r < |s.ranks| && CanMove(s.ranks[r], s.queues[r], m, s.sender.bufs)
  }

  function Apply(job: Job, s: State, a: Action): (t: State)
    requires s.WellFormed() && Enabled(job, s, a)
    ensures t.WellFormed() && |t.ranks| == |s.ranks|
  {
    match a
    case Fill => s.(sender := s.sender.Fill(job))
    case Await => s.(sender := s.sender.Await())
    case Publish =>
      s.(sender := s.sender.Post(job),
         queues := seq(|s.queues|, r requires 0 <= r < |s.queues| => s.queues[r] + [s.sender.Posting(job)]))
    case Rank(r, m) =>
      s.(ranks := s.ranks[r := Moved(s.ranks[r], s.queues[r], m, s.sender.bufs)],
         queues := s.queues[r := Queue(s.queues[r], m)])
  }

  ghost predicate Start(job: Job, s: State) {
    && s.WellFormed() && s.sender.Start(job)
    && forall r :: 0 <= r < |s.ranks| ==> s.ranks[r].Start(job) && s.queues[r] == []
  }

  ghost predicate RankOk(job: Job, s: State, r: nat)
    requires r < |s.ranks| == |s.queues|
  {
    s.ranks[r].Inv(job) && LinkInv(job, s.sender, s.ranks[r], s.queues[r])
  }

  ghost predicate Inv(job: Job, s: State) {
    s.WellFormed() && s.sender.Inv(job) && forall r: nat :: r < |s.ranks| ==> RankOk(job, s, r)
  }

  lemma StartKeeps(job: Job, s: State)
    requires Start(job, s)
    ensures Inv(job, s)
  {
    StartInv(s.sender, job);
    hide Buckets, Sender.Inv;
    forall r: nat | r < |s.ranks| ensures RankOk(job, s, r) {
      assert s.ranks[r].Start(job);
      assert TwoBuffers(s.sender.bufs, job.bucketSize);
    }
  }

  lemma StepKeeps(job: Job, s: State, a: Action)
    requires job.Valid() && Inv(job, s) && Enabled(job, s, a)
    ensures Inv(job, Apply(job, s, a))
  {
    hide LinkInv, Receiver.Inv, Sender.Inv, CanMove, Moved, Queue, Sender.Fill, Sender.Post, Sender.Posting, Sender.CanFill,
      Sender.CanPost, Sender.CanAwait, WellSplit;
    var t := Apply(job, s, a);
    match a {
      case Fill => FillInv(s.sender, job);
      case Await => AwaitInv(s.sender, job);
      case Publish => PostInv(s.sender, job);
      case Rank(r, m) =>
    }
    forall r: nat | r < |t.ranks| ensures RankOk(job, t, r) {
      assert RankOk(job, s, r);
      match a
      case Fill => LinkFill(job, s.sender, s.ranks[r], s.queues[r]);
      case Await => LinkAwait(job, s.sender, s.ranks[r], s.queues[r]);
      case Publish => LinkPost(job, s.sender, s.ranks[r], s.queues[r]);
      case Rank(i, m) =>
        if i == r {
          MoveKeepsSelf(job, s.sender, s.ranks[r], s.queues[r], m);
          MoveKeepsLink(job, s.sender, s.ranks[r], s.queues[r], m);
        }
    }
  }

  // ---------------------------------------------------------------- runs

  ghost predicate StepsTo(job: Job, s: State, a: Action, t: State) {
    s.WellFormed() && Enabled(job, s, a) && t == Apply(job, s, a)
  }

  ghost predicate IsRun(job: Job, states: seq<State>, actions: seq<Action>) {
    && |states| == |actions| + 1 && Start(job, states[0])
    && forall i :: 0 <= i < |actions| ==> StepsTo(job, states[i], actions[i], states[i + 1])
  }

  lemma {:induction false} RunKeepsInv(job: Job, states: seq<State>, actions: seq<Action>, i: nat)
    requires job.Valid() && IsRun(job, states, actions) && i < |states|
    ensures Inv(job, states[i]) && |states[i].ranks| == |states[0].ranks|
  {
    hide Inv, Enabled, Apply;
    if i == 0 {
      StartKeeps(job, states[0]);
    } else {
      RunKeepsInv(job, states, actions, i - 1);
      assert StepsTo(job, states[i - 1], actions[i - 1], states[i]);
      StepKeeps(job, states[i - 1], actions[i - 1]);
    }
  }

  /** In every run, every rank has yielded a prefix of the chunks of the sender's buckets, all of them when done. */
  lemma RankYieldsPrefix(job: Job, states: seq<State>, actions: seq<Action>, i: nat, r: nat)
    requires job.Valid() && IsRun(job, states, actions) && i < |states| && r < |states[i].ranks|
    ensures states[i].ranks[r].w.yielded <= Flatten(job.All())
    ensures states[i].ranks[r].pc == Done ==> states[i].ranks[r].w.yielded == Flatten(job.All())
  {
    hide IsRun, Buckets, Flatten, Holds, Sender.Inv;
    RunKeepsInv(job, states, actions, i);
    assert RankOk(job, states[i], r);
    if states[i].ranks[r].pc != FirstWait { YieldedPrefix(job, states[i].ranks[r].w); }
  }

  /** Every rank that finishes rebuilds exactly the sender's non-empty weights, in order. */
  lemma RankRebuildsWeights(weights: seq<Weight>, bucketSize: nat, states: seq<State>, actions: seq<Action>, i: nat, r: nat,
                            garbage: Garbage)
    requires bucketSize > 0
    requires forall a, b :: 0 <= a < b < |weights| ==> weights[a].name != weights[b].name
    requires IsRun(Job(Split(weights, bucketSize), bucketSize), states, actions)
    requires i < |states| && r < |states[i].ranks| && states[i].ranks[r].pc == Done
    ensures Merge(Idle, states[i].ranks[r].w.yielded, bucketSize, garbage) == MergedWeights(NonEmpty(weights))
  {
    hide IsRun, Buckets, Flatten, Merge, Split, NonEmpty;
    SplitWellSplit(weights, bucketSize);
    RankYieldsPrefix(Job(Split(weights, bucketSize), bucketSize), states, actions, i, r);
    BucketsRebuildWeights(weights, bucketSize, garbage);
  }

  // ---------------------------------------------------------------- buffers

  /** While a broadcast is outstanding for some rank, its buffer is not the one being filled and no step changes it. */
  lemma BroadcastBufferIsUntouched(job: Job, s: State, a: Action, r: nat)
    requires job.Valid() && Inv(job, s) && Enabled(job, s, a) && r < |s.ranks| && s.ranks[r].Reads() < s.sender.posted
    ensures var q, t := s.sender, Apply(job, s, a).sender;
      && q.pending && q.Flight() < |q.bufs| && Holds(q.bufs[q.Flight()], job.All()[q.posted - 1])
      && (q.pc == Filling ==> q.send != q.Flight())
      && t.Flight() == q.Flight() < |t.bufs| && t.bufs[q.Flight()] == q.bufs[q.Flight()]
  {
    hide Holds, Buckets, Metas, Pack, Fits, Size, Receiver.Inv;
    assert RankOk(job, s, r);
  }

  /** While a rank yields a bucket no step changes its buffer, so every view still to come is the sender's chunk. */
  lemma YieldedViewIsStable(job: Job, s: State, a: Action, r: nat)
    requires job.Valid() && Inv(job, s) && Enabled(job, s, a) && r < |s.ranks| && s.ranks[r].pc == Yielding
    ensures var w, w' := s.ranks[r].w, Apply(job, s, a).ranks[r].w;
      && w.k < job.Count() && |w.metas| == |job.All()[w.k]| && w.send < |w.bufs|
      && w'.send == w.send < |w'.bufs| && w'.bufs[w.send] == w.bufs[w.send]
      && forall c: nat :: c < |w.metas| ==>
           && w.metas[c].offset + w.metas[c].chunkSize <= |w.bufs[w.send]|
           && Chunk(w.metas[c], View(w.bufs[w.send], w.metas[c])) == job.All()[w.k][c]
  {
    hide Buckets, Sender.Inv, LinkInv, Flatten, View, Holds;
    assert RankOk(job, s, r);
    var w := s.ranks[r].w;
    forall c: nat | c < |w.metas|
      ensures w.metas[c].offset + w.metas[c].chunkSize <= |w.bufs[w.send]|
      ensures Chunk(w.metas[c], View(w.bufs[w.send], w.metas[c])) == job.All()[w.k][c]
    {
      ViewIsChunk(job, w, c);
    }
  }

  // ---------------------------------------------------------------- progress

  ghost predicate Final(s: State) {
    s.sender.pc == Finished && forall r :: 0 <= r < |s.ranks| ==> s.ranks[r].pc == Done
  }

  /** The collective transfers nothing before every rank has joined it; scrambling does not count as progress. */
  predicate Useful(s: State, a: Action) {
    match a
    case Rank(_, Tear(_)) => false
    case Rank(_, Transfer) => forall i :: 0 <= i < |s.ranks| ==> s.ranks[i].MetaRead() == s.sender.posted
    case _ => true
  }

  ghost predicate CanStep(job: Job, s: State)
    requires s.WellFormed()
  {
    exists a: Action :: Enabled(job, s, a) && Useful(s, a)
  }

  /** A rank that has not joined the outstanding broadcast can get on. */
  lemma LateRankSteps(job: Job, s: State, r: nat)
    requires Inv(job, s) && r < |s.ranks| && s.ranks[r].MetaRead() < s.sender.posted
    ensures CanStep(job, s)
  {
    hide Holds, Buckets, Sender.Inv, Flatten, View, Metas;
    assert RankOk(job, s, r);
    var q := s.ranks[r];
    if q.op == Waiting {
      assert Enabled(job, s, Rank(r, Join)) && Useful(s, Rank(r, Join));
    } else {
      RankAloneSteps(job, s, r);
    }
  }

  /** A rank that neither waits for metadata nor for bytes can step by itself. */
  lemma RankAloneSteps(job: Job, s: State, r: nat)
    requires Inv(job, s) && r < |s.ranks| && s.ranks[r].pc != Done
    requires s.ranks[r].pc == Yielding || s.ranks[r].op.Arrived?
    ensures CanStep(job, s)
  {
    hide Holds, Buckets, Sender.Inv, Flatten, View, Metas;
    assert RankOk(job, s, r);
    var q := s.ranks[r];
    if q.pc == Yielding {
      if q.w.j < |q.w.metas| {
        YieldKeeps(job, q.w);
        assert Enabled(job, s, Rank(r, Yield)) && Useful(s, Rank(r, Yield));
      } else {
        assert Enabled(job, s, Rank(r, EndYield)) && Useful(s, Rank(r, EndYield));
      }
    } else {
      assert Enabled(job, s, Rank(r, Observe)) && Useful(s, Rank(r, Observe));
    }
  }

  /** While a broadcast is outstanding someone can step. */
  lemma PendingMakesProgress(job: Job, s: State)
    requires job.Valid() && Inv(job, s) && s.sender.pending && (s.sender.AtPost(job) || s.sender.pc == Draining)
    ensures CanStep(job, s)
  {
    hide Holds, Buckets, Sender.Inv, Flatten, View, Metas, Receiver.Inv;
    if r: nat :| r < |s.ranks| && s.ranks[r].MetaRead() != s.sender.posted {
      assert RankOk(job, s, r);
      LateRankSteps(job, s, r);
    } else if r: nat :| r < |s.ranks| && s.ranks[r].Reads() != s.sender.posted {
      assert RankOk(job, s, r);
      TransferSteps(job, s, r);
    } else {
      assert Enabled(job, s, Await) && Useful(s, Await);
    }
  }

  lemma TransferSteps(job: Job, s: State, r: nat)
    requires Inv(job, s) && r < |s.ranks| && s.ranks[r].Reads() < s.sender.posted
    requires forall i :: 0 <= i < |s.ranks| ==> s.ranks[i].MetaRead() == s.sender.posted
    ensures CanStep(job, s)
  {
    hide Holds, Buckets, Sender.Inv, Flatten, View, Metas;
    assert RankOk(job, s, r);
    assert Enabled(job, s, Rank(r, Transfer)) && Useful(s, Rank(r, Transfer));
  }

  /** No deadlock: unless everything is transferred, some step is enabled. */
  lemma NoDeadlock(job: Job, s: State)
    requires job.Valid() && Inv(job, s) && !Final(s)
    ensures CanStep(job, s)
  {
    hide Holds, Buckets, Flatten, View, Metas, CanStep, Pack, Size, Fits, Window.HasBucket, Sender.CanFill;
    var q := s.sender;
    if q.pc != Finished {
      if q.pending && (q.AtPost(job) || q.pc == Draining) {
        PendingMakesProgress(job, s);
      } else if q.CanPost(job) {
        assert CanStep(job, s) by { PublishSteps(job, s); }
      } else {
        FillAssertions(q, job);
        assert CanStep(job, s) by { FillSteps(job, s); }
      }
    } else {
      var r: nat :| r < |s.ranks| && s.ranks[r].pc != Done;
      assert RankOk(job, s, r);
      if s.ranks[r].pc == Yielding || s.ranks[r].op.Arrived? {
        RankAloneSteps(job, s, r);
      } else {
        LastBucketArrived(job, s, r);
      }
    }
  }

  lemma PublishSteps(job: Job, s: State)
    requires s.WellFormed() && s.sender.CanPost(job)
    ensures CanStep(job, s)
  {
    assert Enabled(job, s, Publish) && Useful(s, Publish);
  }

  lemma FillSteps(job: Job, s: State)
    requires s.WellFormed() && s.sender.CanFill(job)
    ensures CanStep(job, s)
  {
    hide Sender.CanFill;
    assert Enabled(job, s, Fill) && Useful(s, Fill);
  }

  /** After the sender has finished no rank waits for anything. */
  lemma LastBucketArrived(job: Job, s: State, r: nat)
    requires Inv(job, s) && r < |s.ranks| && s.sender.pc == Finished
    ensures s.ranks[r].pc == Yielding || s.ranks[r].pc == Done || s.ranks[r].op.Arrived?
  {
    hide Holds, Buckets, Flatten, View, Metas, Pack, Size, Fits;
    assert RankOk(job, s, r);
  }

  /** A run that cannot go on has delivered the weights to every rank. */
  lemma StuckRunHasDelivered(weights: seq<Weight>, bucketSize: nat, states: seq<State>, actions: seq<Action>, garbage: Garbage)
    requires bucketSize > 0
    requires forall a, b :: 0 <= a < b < |weights| ==> weights[a].name != weights[b].name
    requires var job := Job(Split(weights, bucketSize), bucketSize);
      IsRun(job, states, actions) && states[|actions|].WellFormed() && !CanStep(job, states[|actions|])
    ensures var s := states[|actions|];
      && s.sender.pc == Finished
      && forall r :: 0 <= r < |s.ranks| ==>
           Merge(Idle, s.ranks[r].w.yielded, bucketSize, garbage) == MergedWeights(NonEmpty(weights))
  {
    hide Merge, Split, NonEmpty, CanStep, StepsTo, Sender.Inv, RankOk;
    var job := Job(Split(weights, bucketSize), bucketSize);
    var s := states[|actions|];
    SplitWellSplit(weights, bucketSize);
    RunKeepsInv(job, states, actions, |actions|);
    if !Final(s) { NoDeadlock(job, s); }
    forall r | 0 <= r < |s.ranks|
      ensures Merge(Idle, s.ranks[r].w.yielded, bucketSize, garbage) == MergedWeights(NonEmpty(weights))
    {
      RankRebuildsWeights(weights, bucketSize, states, actions, |actions|, r, garbage);
    }
  }

  // ---------------------------------------------------------------- every run ends

  /** The steps a rank has taken, scrambling apart. */
  function Work(q: Receiver): nat {
    var ends := if q.pc == WaitNext || q.pc == Done then q.w.k + 1 else q.w.k;
    q.MetaRead() + q.Reads() + q.Seen() + |q.w.yielded| + ends
  }

  function RanksWork(ranks: seq<Receiver>): nat {
    if ranks == [] then 0 else Work(ranks[0]) + RanksWork(ranks[1..])
  }

  function TotalWork(s: State): int {
    s.sender.next + s.sender.posted + s.sender.Acked() + RanksWork(s.ranks)
  }

  predicate Scrambles(a: Action) {
    a.Rank? && a.move.Tear?
  }

  function Steps(actions: seq<Action>): nat {
    if actions == [] then 0 else Steps(actions[..|actions| - 1]) + (if Scrambles(actions[|actions| - 1]) then 0 else 1)
  }

  lemma {:induction false} RanksWorkAfter(ranks: seq<Receiver>, r: nat, q: Receiver)
    requires r < |ranks|
    ensures RanksWork(ranks[r := q]) + Work(ranks[r]) == RanksWork(ranks) + Work(q)
  {
    hide Work;
    if r > 0 {
      RanksWorkAfter(ranks[1..], r - 1, q);
      assert ranks[r := q][1..] == ranks[1..][r - 1 := q];
    } else {
      assert ranks[r := q][1..] == ranks[1..];
    }
  }

  lemma MoveWorks(job: Job, q: Receiver, queue: seq<Message>, m: Move, source: seq<seq<byte>>)
    requires q.Inv(job) && CanMove(q, queue, m, source)
    ensures Work(Moved(q, queue, m, source)) >= Work(q) + (if m.Tear? then 0 else 1)
  {
    hide Receiver.Receiving, Window.HasBucket, View, TwoBuffers;
  }

  lemma ActionWorks(job: Job, s: State, a: Action)
    requires Inv(job, s) && Enabled(job, s, a)
    ensures TotalWork(Apply(job, s, a)) >= TotalWork(s) + (if Scrambles(a) then 0 else 1)
  {
    hide Work, CanMove, Moved, Sender.Inv, Receiver.Inv, LinkInv, RanksWork;
    if a.Rank? {
      assert RankOk(job, s, a.r);
      MoveWorks(job, s.ranks[a.r], s.queues[a.r], a.move, s.sender.bufs);
      RanksWorkAfter(s.ranks, a.r, Moved(s.ranks[a.r], s.queues[a.r], a.move, s.sender.bufs));
    }
  }

  function WorkBound(job: Job, n: nat): nat {
    |job.chunks| + 2 * job.Count() + n * (4 * job.Count() + |Flatten(job.All())|)
  }

  lemma RankWorkBound(job: Job, s: State, r: nat)
    requires Inv(job, s) && r < |s.ranks|
    ensures Work(s.ranks[r]) <= 4 * job.Count() + |Flatten(job.All())|
  {
    hide Holds, Buckets, Sender.Inv, Flatten, View, Receiver.Receiving;
    assert RankOk(job, s, r);
    if s.ranks[r].pc != FirstWait { YieldedPrefix(job, s.ranks[r].w); }
  }

  lemma {:induction false} RanksWorkBound(job: Job, ranks: seq<Receiver>)
    requires forall q :: q in ranks ==> Work(q) <= 4 * job.Count() + |Flatten(job.All())|
    ensures RanksWork(ranks) <= |ranks| * (4 * job.Count() + |Flatten(job.All())|)
  {
    hide Work, Flatten, Buckets;
    if ranks != [] {
      assert ranks[0] in ranks;
      RanksWorkBound(job, ranks[1..]);
      var each := 4 * job.Count() + |Flatten(job.All())|;
      assert |ranks| * each == each + (|ranks| - 1) * each;
    }
  }

  lemma SenderWorkBound(job: Job, s: Sender)
    requires s.Inv(job)
    ensures s.next + s.posted + s.Acked() <= |job.chunks| + 2 * job.Count()
  {
    hide Holds, Buckets, Pack, Fits, Size;
  }

  lemma TotalWorkBound(job: Job, s: State)
    requires Inv(job, s)
    ensures TotalWork(s) <= WorkBound(job, |s.ranks|)
  {
    hide Buckets, Work, RanksWork, Flatten, Receiver.Inv, Holds, LinkInv;
    SenderWorkBound(job, s.sender);
    forall q | q in s.ranks ensures Work(q) <= 4 * job.Count() + |Flatten(job.All())| {
      var r: nat :| r < |s.ranks| && s.ranks[r] == q;
      RankWorkBound(job, s, r);
    }
    RanksWorkBound(job, s.ranks);
  }

  lemma {:induction false} RunWorks(job: Job, states: seq<State>, actions: seq<Action>, i: nat)
    requires job.Valid() && IsRun(job, states, actions) && i <= |actions|
    ensures TotalWork(states[i]) >= Steps(actions[..i]) + TotalWork(states[0])
  {
    hide TotalWork, Inv, Enabled, Apply;
    if i > 0 {
      RunWorks(job, states, actions, i - 1);
      RunKeepsInv(job, states, actions, i - 1);
      assert StepsTo(job, states[i - 1], actions[i - 1], states[i]);
      ActionWorks(job, states[i - 1], actions[i - 1]);
      assert actions[..i][..i - 1] == actions[..i - 1];
    }
  }

  /** Every run takes a bounded number of steps, scrambling apart. */
  lemma RunIsBounded(job: Job, states: seq<State>, actions: seq<Action>)
    requires job.Valid() && IsRun(job, states, actions)
    ensures Steps(actions) <= WorkBound(job, |states[0].ranks|)
  {
    hide WorkBound, RanksWork, Enabled, Apply, Steps;
    var last := |actions|;
    RunKeepsInv(job, states, actions, last);
    RunWorks(job, states, actions, last);
    assert actions[..last] == actions;
    TotalWorkBound(job, states[last]);
  }
}
