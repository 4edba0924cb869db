/**
 * The relay chain of the NIXL engine: a sender and ranks 1, 2, …, n, each with two buffers. A rank reads bucket
 * k + 1 from the rank before it while it yields bucket k and while the rank after it reads bucket k. The steps
 * of all ranks and of the transfers interleave arbitrarily.
 */
module NixlChain {
  import opened BucketPacking
  import opened BucketReceiver
  import opened BucketSender
  import opened Sequences
  import opened WeightChunks

  /** Where a receiving rank stands. The first two are the initial receive, the others the relay loop. */
  datatype Pc = FirstMeta | FirstRead | Posting | NextMeta | Yielding | WaitNext | WaitRead | Done

  /** The read operation of a rank: none, in flight for a message, or complete. */
  datatype Read = NoRead | Flying(msg: Message) | Arrived

  /** What connects a rank to the one before it: messages down the chain, read notifications up the chain. */
  datatype Link = Link(inbox: seq<Message>, notifs: seq<nat>)

  /** Rank state: its window on the buckets, and the metadata that came with the read in progress. */
  datatype Receiver = Receiver(pc: Pc, w: Window, nextMetas: seq<TensorMeta>, nextLast: bool, read: Read) {

    ghost predicate Start(job: Job) {
      pc == FirstMeta && w.Empty(job) && read == NoRead
    }

    // Counters of the steps taken; the invariant relates those of neighbouring ranks.

    function Posted(): nat { if pc == FirstMeta || pc == FirstRead || pc == Posting then w.k else w.k + 1 }

    function Acked(): nat { if pc == WaitRead || pc == Done then w.k + 1 else w.k }

    function MetaRead(): nat {
      match pc
      case FirstMeta => 0
      case FirstRead => 1
      case Posting | NextMeta | Done => w.k + 1
      case Yielding | WaitNext => if w.isLast then w.k + 1 else w.k + 2
      case WaitRead => w.k + 2
    }

    function Reads(): int { MetaRead() - (if read.Flying? then 1 else 0) }

    /** Bucket `m` is on its way or has arrived. */
    ghost predicate Reading(job: Job, m: nat) {
      && (read.Flying? || read.Arrived?) && m < job.Count()
      && nextMetas == Metas(job.All()[m]) && nextLast == (m == job.Count() - 1)
      && (read.Arrived? ==> w.Incoming(job, m))
    }

    ghost predicate Inv(job: Job, hasNext: bool) {
      match pc
      case FirstMeta => w.Empty(job) && read == NoRead
      case FirstRead => w.Empty(job) && Reading(job, 0)
      case Posting => w.HasBucket(job) && read == NoRead && w.j == 0
      case NextMeta => w.HasBucket(job) && read == NoRead && w.j == 0 && !w.isLast
      case Yielding => w.HasBucket(job) && (if w.isLast then read == NoRead else Reading(job, w.k + 1))
      case WaitNext =>
        && w.HasBucket(job) && w.j == |w.metas| && hasNext
        && (if w.isLast then read == NoRead else Reading(job, w.k + 1))
      case WaitRead => w.HasBucket(job) && w.j == |w.metas| && !w.isLast && Reading(job, w.k + 1)
      case Done => w.HasBucket(job) && w.j == |w.metas| && w.isLast && read == NoRead
    }
  }

  // ---------------------------------------------------------------- steps of one rank

  /** A rank with its two links; the second is a dummy for the last rank. */
  datatype Local = Local(q: Receiver, up: Link, down: Link)

  /**
   * `Transfer` completes the read in flight and notifies the source; before that, `Tear` leaves any bytes in
   * the destination. `Swap` and `AwaitRead` observe completion and swap the buffers.
   */
  datatype Move = ReadMetadata | Transfer | Tear(junk: seq<byte>) | Swap | Post | Yield | EndYield | AwaitNext | AwaitRead

  predicate CanMove(l: Local, m: Move, hasNext: bool, source: seq<seq<byte>>) {
    var q := l.q;
    match m
    case ReadMetadata => (q.pc == FirstMeta || q.pc == NextMeta) && l.up.inbox != []
    case Transfer => q.read.Flying? && q.read.msg.buf < |source| && q.w.CanReceive(source[q.read.msg.buf])
    case Tear(junk) => q.read.Flying? && q.w.CanReceive(junk)
    case Swap => q.pc == FirstRead && q.read == Arrived && q.w.send <= 1
    case Post => q.pc == Posting
    case Yield => q.pc == Yielding && q.w.CanYield()
    case EndYield => q.pc == Yielding && q.w.j >= |q.w.metas|
    case AwaitNext => q.pc == WaitNext && l.down.notifs != [] && l.down.notifs[0] == q.w.k
    case AwaitRead => q.pc == WaitRead && q.read == Arrived && q.w.send <= 1
  }

  function Moved(l: Local, m: Move, hasNext: bool, source: seq<seq<byte>>): Local
    requires CanMove(l, m, hasNext, source)
  {
    var q := l.q;
    match m
    case ReadMetadata =>
      var msg := l.up.inbox[0];
      l.(up := l.up.(inbox := l.up.inbox[1..]),
         q := q.(pc := if q.pc == FirstMeta then FirstRead else Yielding,
                 nextMetas := msg.metas, nextLast := msg.isLast, read := Flying(msg)))
    case Transfer =>
      l.(up := l.up.(notifs := l.up.notifs + [q.read.msg.key]),
         q := q.(read := Arrived, w := q.w.Receive(source[q.read.msg.buf])))
    case Tear(junk) => l.(q := q.(w := q.w.Receive(junk)))
    case Swap => l.(q := q.(pc := Posting, w := q.w.First(q.nextMetas, q.nextLast), read := NoRead))
    case Post =>
      l.(down := if hasNext then l.down.(inbox := l.down.inbox + [Message(q.w.k, q.w.send, q.w.metas, q.w.isLast)]) else l.down,
         q := q.(pc := if q.w.isLast then Yielding else NextMeta))
    case Yield => l.(q := q.(w := q.w.Yield()))
    case EndYield => l.(q := q.(pc := if hasNext then WaitNext else AfterWait(q)))
    case AwaitNext => l.(down := l.down.(notifs := l.down.notifs[1..]), q := q.(pc := AfterWait(q)))
    case AwaitRead => l.(q := q.(pc := Posting, w := q.w.Next(q.nextMetas, q.nextLast), read := NoRead))
  }

  function AfterWait(q: Receiver): Pc {
    if q.w.isLast then Done else WaitRead
  }

  // ---------------------------------------------------------------- one link

  /** The upstream end of a link: buckets posted and acknowledged, and the buffer the last one lies in. */
  datatype Port = Port(posted: nat, acked: int, buf: nat, bufs: seq<seq<byte>>)

  function PortOf(q: Receiver): Port {
    Port(q.Posted(), q.Acked(), q.w.send, q.w.bufs)
  }

  /** At most one bucket is outstanding; its message or its notification is under way, and its bytes are intact. */
  ghost predicate LinkInv(job: Job, p: Port, q: Receiver, l: Link) {
    && p.acked <= q.Reads() <= q.MetaRead() <= p.posted <= p.acked + 1
    && p.posted <= job.Count() && p.buf < |p.bufs|
    && l.inbox == (if q.MetaRead() < p.posted then [job.Announce(p.posted - 1, p.buf)] else [])
    && l.notifs == (if p.acked < q.Reads() then [q.Reads() - 1] else [])
    && (p.posted > p.acked && p.posted > 0 ==>
         Holds(p.bufs[p.buf], job.All()[p.posted - 1]) && |p.bufs[p.buf]| == job.bucketSize)
    && (q.read.Flying? ==> q.MetaRead() > 0 && q.read.msg == job.Announce(q.MetaRead() - 1, p.buf))
  }

  /** A step of a rank keeps its own invariant. */
  lemma MoveKeepsSelf(job: Job, l: Local, m: Move, hasNext: bool, p: Port)
    requires job.Valid() && l.q.Inv(job, hasNext) && LinkInv(job, p, l.q, l.up) && CanMove(l, m, hasNext, p.bufs)
    ensures Moved(l, m, hasNext, p.bufs).q.Inv(job, hasNext)
  {
    hide Holds, Buckets, WellSplit, Flatten, View, Metas;
    if m.Post? || m.EndYield? || m.AwaitNext? {
      QuietMoveKeeps(job, l, m, hasNext, p.bufs);
    } else if m.ReadMetadata? || m.Transfer? || m.Tear? {
      ReadMoveKeeps(job, l, m, hasNext, p);
    } else if m.Yield? {
      YieldKeeps(job, l.q.w);
    } else if m.Swap? {
      FirstKeeps(job, l.q.w);
    } else {
      NextKeeps(job, l.q.w);
    }
  }

  /** Moves that leave the buffers alone. */
  lemma QuietMoveKeeps(job: Job, l: Local, m: Move, hasNext: bool, source: seq<seq<byte>>)
    requires l.q.Inv(job, hasNext) && CanMove(l, m, hasNext, source) && (m.Post? || m.EndYield? || m.AwaitNext?)
    ensures Moved(l, m, hasNext, source).q.Inv(job, hasNext)
  {
    hide Holds, Buckets, Flatten, View, Metas;
  }

  /** Moves of the read in progress. */
  lemma ReadMoveKeeps(job: Job, l: Local, m: Move, hasNext: bool, p: Port)
    requires l.q.Inv(job, hasNext) && LinkInv(job, p, l.q, l.up) && CanMove(l, m, hasNext, p.bufs)
    requires m.ReadMetadata? || m.Transfer? || m.Tear?
    ensures Moved(l, m, hasNext, p.bufs).q.Inv(job, hasNext)
  {
    hide Holds, Buckets, Flatten, View, Metas;
    match m
    case Transfer => ReceiveKeeps(job, l.q.w, p.bufs[p.buf]);
    case Tear(junk) => ReceiveKeeps(job, l.q.w, junk);
    case _ =>
  }

  /** A step of a rank keeps the invariant of the link above it. */
  lemma MoveKeepsUp(job: Job, l: Local, m: Move, hasNext: bool, p: Port)
    requires job.Valid() && l.q.Inv(job, hasNext) && LinkInv(job, p, l.q, l.up) && CanMove(l, m, hasNext, p.bufs)
    ensures var t := Moved(l, m, hasNext, p.bufs); LinkInv(job, p, t.q, t.up)
  {
    hide Holds, Flatten, Buckets, WellSplit, View, Metas;
  }

  /** Announcing the next bucket, once the previous one is acknowledged. */
  lemma LinkPost(job: Job, p: Port, q: Receiver, l: Link)
    requires LinkInv(job, p, q, l) && p.posted == p.acked < job.Count()
    requires Holds(p.bufs[p.buf], job.All()[p.posted]) && |p.bufs[p.buf]| == job.bucketSize
    ensures LinkInv(job, p.(posted := p.posted + 1), q, l.(inbox := l.inbox + [job.Announce(p.posted, p.buf)]))
  {
    hide Holds, Buckets, Metas, Receiver.MetaRead;
  }

  /** Consuming the notification. */
  lemma LinkAck(job: Job, p: Port, q: Receiver, l: Link)
    requires LinkInv(job, p, q, l) && l.notifs != []
    ensures l.notifs[0] == p.posted - 1 == p.acked
    ensures LinkInv(job, p.(acked := p.acked + 1), q, l.(notifs := l.notifs[1..]))
  {
    hide Holds, Buckets, Metas, Receiver.MetaRead;
  }

  /** While nothing is outstanding the buffers are free; otherwise only the announced one matters. */
  lemma LinkFrame(job: Job, p: Port, q: Receiver, l: Link, p': Port)
    requires LinkInv(job, p, q, l) && p'.posted == p.posted && p'.acked == p.acked && p'.buf < |p'.bufs|
    requires p.posted == p.acked || (p'.buf == p.buf && p'.bufs[p'.buf] == p.bufs[p.buf])
    ensures LinkInv(job, p', q, l)
  {
    hide Holds, Buckets, Metas, Receiver.MetaRead;
  }

  /** A step of a rank keeps the invariant of the link below it. */
  lemma MoveKeepsDown(job: Job, l: Local, m: Move, source: seq<seq<byte>>, next: Receiver)
    requires job.Valid() && l.q.Inv(job, true) && LinkInv(job, PortOf(l.q), next, l.down) && CanMove(l, m, true, source)
    ensures var t := Moved(l, m, true, source); LinkInv(job, PortOf(t.q), next, t.down)
  {
    hide Holds, Flatten, Buckets, WellSplit, View, Metas, LinkInv, Receiver.Reading;
    var t := Moved(l, m, true, source);
    match m
    case Post => LinkPost(job, PortOf(l.q), next, l.down);
    case AwaitNext => LinkAck(job, PortOf(l.q), next, l.down);
    case _ => LinkFrame(job, PortOf(l.q), next, l.down, PortOf(t.q));
  }

  // ---------------------------------------------------------------- the whole chain

  /** `links[r]` leads to `ranks[r]`, which is rank `r + 1` of the chain. */
  datatype State = State(sender: Sender, ranks: seq<Receiver>, links: seq<Link>) {

    predicate HasNext(r: nat) { r + 1 < |ranks| }

    predicate WellFormed() { |ranks| == |links| > 0 }

    function At(r: nat): Local
      requires WellFormed() && r < |ranks|
    {
      Local(ranks[r], links[r], if HasNext(r) then links[r + 1] else Link([], []))
    }

    function With(r: nat, l: Local): State
      requires WellFormed() && r < |ranks|
    {
      State(sender, ranks[r := l.q], if HasNext(r) then links[r := l.up][r + 1 := l.down] else links[r := l.up])
    }

    /** What rank `r` reads from. */
    function Upstream(r: nat): Port
      requires r <= |ranks|
    {
      if r == 0 then Port(sender.posted, sender.Acked(), sender.Flight(), sender.bufs) else PortOf(ranks[r - 1])
    }
  }

  datatype Action = Fill | Await | Announce | Rank(r: nat, move: Move)

  predicate Enabled(job: Job, s: State, a: Action)
    requires s.WellFormed()
  {
    match a
    case Fill => s.sender.CanFill(job)
    case Await => s.sender.CanAwait(job) && s.links[0].notifs != [] && s.links[0].notifs[0] == s.sender.posted - 1
    case Announce => s.sender.CanPost(job)
    case Rank(r, m) => r < |s.ranks| && CanMove(s.At(r), m, s.HasNext(r), s.Upstream(r).bufs)
  }

  function Apply(job: Job, s: State, a: Action): (t: State)
    requires s.WellFormed() && Enabled(job, s, a)
    ensures t.WellFormed() && |t.ranks| == |s.ranks|
  {
    match a
    case Fill => s.(sender := s.sender.Fill(job))
    case Await => s.(sender := s.sender.Await(), links := s.links[0 := s.links[0].(notifs := s.links[0].notifs[1..])])
    case Announce =>
      s.(sender := s.sender.Post(job),
         links := s.links[0 := s.links[0].(inbox := s.links[0].inbox + [s.sender.Posting(job)])])
    case Rank(r, m) => s.With(r, Moved(s.At(r), m, s.HasNext(r), s.Upstream(r).bufs))
  }

  ghost predicate Start(job: Job, s: State) {
    && s.WellFormed() && s.sender.Start(job)
    && forall r :: 0 <= r < |s.ranks| ==> s.ranks[r].Start(job) && s.links[r] == Link([], [])
  }

  ghost predicate RankOk(job: Job, s: State, r: nat)
    requires r < |s.ranks|
  {
    s.ranks[r].Inv(job, s.HasNext(r))
  }

  ghost predicate LinkOk(job: Job, s: State, r: nat)
    requires r < |s.ranks| == |s.links|
  {
    LinkInv(job, s.Upstream(r), s.ranks[r], s.links[r])
  }

  ghost predicate Inv(job: Job, s: State) {
    && s.WellFormed() && s.sender.Inv(job)
    && (forall r: nat :: r < |s.ranks| ==> RankOk(job, s, r))
    && (forall r: nat :: r < |s.ranks| ==> LinkOk(job, s, r))
  }

  lemma StartKeeps(job: Job, s: State)
    requires Start(job, s)
    ensures Inv(job, s)
  {
    StartInv(s.sender, job);
    hide Buckets, Sender.Inv;
    forall r: nat | r < |s.ranks| ensures RankOk(job, s, r) && LinkOk(job, s, r) {
      assert s.ranks[r].Start(job);
    }
  }

  lemma RankKeeps(job: Job, s: State, r: nat, m: Move)
    requires job.Valid() && Inv(job, s) && Enabled(job, s, Rank(r, m))
    ensures Inv(job, Apply(job, s, Rank(r, m)))
  {
    hide CanMove, Moved, LinkInv, Receiver.Inv, Sender.Inv, WellSplit;
    var t, p, l := Apply(job, s, Rank(r, m)), s.Upstream(r), s.At(r);
    assert RankOk(job, s, r) && LinkOk(job, s, r);
    MoveKeepsSelf(job, l, m, s.HasNext(r), p);
    MoveKeepsUp(job, l, m, s.HasNext(r), p);
    if s.HasNext(r) {
      assert LinkOk(job, s, r + 1);
      MoveKeepsDown(job, l, m, p.bufs, s.ranks[r + 1]);
    }
    forall i: nat | i < |t.ranks| ensures RankOk(job, t, i) { assert RankOk(job, s, i); }
    forall i: nat | i < |t.ranks| ensures LinkOk(job, t, i) { assert LinkOk(job, s, i); }
  }

  lemma SenderKeeps(job: Job, s: State, a: Action)
    requires job.Valid() && Inv(job, s) && Enabled(job, s, a) && !a.Rank?
    ensures Inv(job, Apply(job, s, a))
  {
    hide Receiver.Inv, WellSplit, Holds, LinkInv, Buckets, Sender.Inv;
    assert LinkOk(job, s, 0);
    SenderLink(job, s.sender, s.ranks[0], s.links[0]);
    SenderFrame(job, s, a);
    var t := Apply(job, s, a);
    assert t.sender.Inv(job) && LinkOk(job, t, 0);
    hide Apply, Enabled;
    forall i: nat | i < |t.ranks| ensures RankOk(job, t, i) { assert RankOk(job, s, i); }
    forall i: nat | i < |t.ranks| ensures LinkOk(job, t, i) { assert LinkOk(job, s, i); }
  }

  /** The sender's steps touch the first link only. */
  lemma SenderFrame(job: Job, s: State, a: Action)
    requires s.WellFormed() && Enabled(job, s, a) && !a.Rank?
    ensures var t := Apply(job, s, a);
      && t.ranks == s.ranks && |t.links| == |s.links|
      && forall i :: 0 < i < |s.links| ==> t.links[i] == s.links[i]
  {
    hide Sender.CanFill, Sender.CanPost, Sender.CanAwait, Sender.Fill, Sender.Post, Sender.Posting;
  }

  function SenderPort(s: Sender): Port {
    Port(s.posted, s.Acked(), s.Flight(), s.bufs)
  }

  /** The sender's steps keep its invariant and that of the first link. */
  lemma SenderLink(job: Job, s: Sender, q: Receiver, l: Link)
    requires job.Valid() && s.Inv(job) && LinkInv(job, SenderPort(s), q, l)
    ensures s.CanFill(job) ==> s.Fill(job).Inv(job) && LinkInv(job, SenderPort(s.Fill(job)), q, l)
    ensures s.CanAwait(job) && l.notifs != [] ==>
      s.Await().Inv(job) && LinkInv(job, SenderPort(s.Await()), q, l.(notifs := l.notifs[1..]))
    ensures s.CanPost(job) ==>
      s.Post(job).Inv(job) && LinkInv(job, SenderPort(s.Post(job)), q, l.(inbox := l.inbox + [s.Posting(job)]))
  {
    hide Holds, Buckets, Sender.Fill, Fits, Size, Pack, LinkInv;
    if s.CanFill(job) {
      FillInv(s, job);
      LinkFrame(job, SenderPort(s), q, l, SenderPort(s.Fill(job)));
    }
    if s.CanAwait(job) && l.notifs != [] {
      AwaitInv(s, job);
      LinkAck(job, SenderPort(s), q, l);
    }
    if s.CanPost(job) {
      PostInv(s, job);
      var p := SenderPort(s).(buf := s.send);
      LinkFrame(job, SenderPort(s), q, l, p);
      LinkPost(job, p, q, l);
    }
  }

  // ---------------------------------------------------------------- runs

  ghost predicate IsRun(job: Job, states: seq<State>, actions: seq<Action>) {
    && |states| == |actions| + 1 && Start(job, states[0])
    && forall i :: 0 <= i < |actions| ==> StepsTo(job, states[i], actions[i], states[i + 1])
  }

  ghost predicate StepsTo(job: Job, s: State, a: Action, t: State) {
    s.WellFormed() && Enabled(job, s, a) && t == Apply(job, s, a)
  }

  lemma {:induction false} RunKeepsInv(job: Job, states: seq<State>, actions: seq<Action>, i: nat)
    requires job.Valid() && IsRun(job, states, actions) && i < |states|
    ensures Inv(job, states[i]) && |states[i].ranks| == |states[0].ranks|
  {
    hide Inv, Enabled, Apply;
    if i == 0 {
      StartKeeps(job, states[0]);
    } else {
      RunKeepsInv(job, states, actions, i - 1);
      assert StepsTo(job, states[i - 1], actions[i - 1], states[i]);
      if actions[i - 1].Rank? {
        RankKeeps(job, states[i - 1], actions[i - 1].r, actions[i - 1].move);
      } else {
        SenderKeeps(job, states[i - 1], actions[i - 1]);
      }
    }
  }

  /** In every run, every rank has yielded a prefix of the chunks of the sender's buckets, all of them when done. */
  lemma RankYieldsPrefix(job: Job, states: seq<State>, actions: seq<Action>, i: nat, r: nat)
    requires job.Valid() && IsRun(job, states, actions) && i < |states| && r < |states[i].ranks|
    ensures states[i].ranks[r].w.yielded <= Flatten(job.All())
    ensures states[i].ranks[r].pc == Done ==> states[i].ranks[r].w.yielded == Flatten(job.All())
  {
    hide IsRun, Buckets, Flatten, Holds, Sender.Inv;
    RunKeepsInv(job, states, actions, i);
    var q := states[i].ranks[r];
    assert RankOk(job, states[i], r);
    if q.pc != FirstMeta && q.pc != FirstRead { YieldedPrefix(job, q.w); }
  }

  /** Every rank that finishes rebuilds exactly the sender's non-empty weights, in order. */
  lemma RankRebuildsWeights(weights: seq<Weight>, bucketSize: nat, states: seq<State>, actions: seq<Action>, i: nat, r: nat,
                            garbage: Garbage)
    requires bucketSize > 0
    requires forall a, b :: 0 <= a < b < |weights| ==> weights[a].name != weights[b].name
    requires IsRun(Job(Split(weights, bucketSize), bucketSize), states, actions)
    requires i < |states| && r < |states[i].ranks| && states[i].ranks[r].pc == Done
    ensures Merge(Idle, states[i].ranks[r].w.yielded, bucketSize, garbage) == MergedWeights(NonEmpty(weights))
  {
    hide IsRun, Buckets, Flatten, Merge, Split, NonEmpty;
    SplitWellSplit(weights, bucketSize);
    RankYieldsPrefix(Job(Split(weights, bucketSize), bucketSize), states, actions, i, r);
    BucketsRebuildWeights(weights, bucketSize, garbage);
  }

  // ---------------------------------------------------------------- buffers

  /** A bucket announced to a rank but not yet read lies intact in the buffer the announcement names. */
  lemma UnreadBucketIsIntact(job: Job, s: State, r: nat)
    requires Inv(job, s) && r < |s.ranks| && s.ranks[r].Reads() < s.Upstream(r).posted
    ensures var p := s.Upstream(r);
      && 0 < p.posted <= job.Count() && p.buf < |p.bufs| && Holds(p.bufs[p.buf], job.All()[p.posted - 1])
      && s.links[r].notifs == [] && p.acked < p.posted
      && if s.ranks[r].read.Flying?
         then s.links[r].inbox == [] && s.ranks[r].read.msg == job.Announce(p.posted - 1, p.buf)
         else s.links[r].inbox == [job.Announce(p.posted - 1, p.buf)]
  {
    hide Holds, Buckets, Receiver.Inv, Sender.Inv, Metas;
    assert LinkOk(job, s, r);
  }

  lemma PortUntouched(job: Job, l: Local, m: Move, source: seq<seq<byte>>)
    requires l.q.Inv(job, true) && CanMove(l, m, true, source) && l.q.Posted() > l.q.Acked() && l.down.notifs == []
    ensures var p, p' := PortOf(l.q), PortOf(Moved(l, m, true, source).q);
      p'.buf == p.buf < |p.bufs| == |p'.bufs| && p'.bufs[p.buf] == p.bufs[p.buf]
  {
    hide Receiver.Reading, Holds, Buckets, Metas, View, Flatten;
  }

  lemma SenderUntouched(job: Job, s: Sender)
    requires s.Inv(job) && s.Acked() < s.posted
    ensures !s.CanPost(job)
    ensures s.CanFill(job) ==>
      && s.Fill(job).Flight() == s.Flight() < |s.bufs| == |s.Fill(job).bufs|
      && s.Fill(job).bufs[s.Flight()] == s.bufs[s.Flight()]
  {
    hide Holds, Fits, Size, Buckets, Pack;
  }

  /** No step touches a bucket that is announced but not yet read. */
  lemma UnreadBucketIsUntouched(job: Job, s: State, a: Action, r: nat)
    requires job.Valid() && Inv(job, s) && Enabled(job, s, a) && r < |s.ranks|
    requires s.ranks[r].Reads() < s.Upstream(r).posted
    ensures var p, p' := s.Upstream(r), Apply(job, s, a).Upstream(r);
      p'.buf == p.buf < |p'.bufs| && p.buf < |p.bufs| && p'.bufs[p.buf] == p.bufs[p.buf]
  {
    hide Holds, Buckets, Sender.Inv, Receiver.Inv, CanMove, Moved, Sender.Fill, Receiver.Reads, Receiver.MetaRead;
    UnreadBucketIsIntact(job, s, r);
    if r == 0 {
      SenderUntouched(job, s.sender);
    } else {
      assert RankOk(job, s, r - 1);
      if a.Rank? && a.r == r - 1 { PortUntouched(job, s.At(r - 1), a.move, s.Upstream(r - 1).bufs); }
    }
  }

  /** While a rank yields bucket `k` no step changes its buffer, so every view still to come is the sender's chunk. */
  lemma YieldedViewIsStable(job: Job, s: State, a: Action, r: nat)
    requires job.Valid() && Inv(job, s) && Enabled(job, s, a) && r < |s.ranks| && s.ranks[r].pc == Yielding
    ensures var w, w' := s.ranks[r].w, Apply(job, s, a).ranks[r].w;
      && w.k < job.Count() && |w.metas| == |job.All()[w.k]| && w.send < |w.bufs|
      && w'.send == w.send < |w'.bufs| && w'.bufs[w.send] == w.bufs[w.send]
      && forall c: nat :: c < |w.metas| ==>
           && w.metas[c].offset + w.metas[c].chunkSize <= |w.bufs[w.send]|
           && Chunk(w.metas[c], View(w.bufs[w.send], w.metas[c])) == job.All()[w.k][c]
  {
    hide Buckets, Sender.Inv, LinkInv, Flatten, View, Holds;
    assert RankOk(job, s, r);
    var w := s.ranks[r].w;
    forall c: nat | c < |w.metas|
      ensures w.metas[c].offset + w.metas[c].chunkSize <= |w.bufs[w.send]|
      ensures Chunk(w.metas[c], View(w.bufs[w.send], w.metas[c])) == job.All()[w.k][c]
    {
      ViewIsChunk(job, w, c);
    }
  }

  // ---------------------------------------------------------------- progress

  ghost predicate Final(s: State) {
    s.sender.pc == Finished && forall r :: 0 <= r < |s.ranks| ==> s.ranks[r].pc == Done
  }

  predicate Useful(a: Action) {
    !(a.Rank? && a.move.Tear?)
  }

  /** Some step other than scrambling a destination is possible. */
  ghost predicate CanStep(job: Job, s: State)
    requires s.WellFormed()
  {
    exists a: Action :: Enabled(job, s, a) && Useful(a)
  }

  /** What a rank can do by itself: anything but wait for a message or for a notification. */
  lemma RankAloneSteps(job: Job, s: State, r: nat)
    requires Inv(job, s) && r < |s.ranks| && s.ranks[r].pc != Done
    ensures CanStep(job, s)
      || ((s.ranks[r].pc == FirstMeta || s.ranks[r].pc == NextMeta) && s.links[r].inbox == [])
      || (s.ranks[r].pc == WaitNext && s.HasNext(r) && s.links[r + 1].notifs == [])
  {
    hide Holds, Buckets, Sender.Inv, Flatten, View;
    assert RankOk(job, s, r) && LinkOk(job, s, r);
    var q := s.ranks[r];
    if q.read.Flying? {
      FlyingSteps(job, s, r);
    } else {
      hide LinkInv;
      match q.pc
      case FirstMeta | NextMeta => if s.links[r].inbox != [] { assert Enabled(job, s, Rank(r, ReadMetadata)); }
      case FirstRead => assert Enabled(job, s, Rank(r, Swap));
      case Posting => assert Enabled(job, s, Rank(r, Post));
      case Yielding =>
        if q.w.j < |q.w.metas| {
          YieldKeeps(job, q.w);
          assert Enabled(job, s, Rank(r, Yield));
        } else {
          assert Enabled(job, s, Rank(r, EndYield));
        }
      case WaitNext => WaitNextSteps(job, s, r);
      case WaitRead => assert Enabled(job, s, Rank(r, AwaitRead));
    }
  }

  lemma FlyingSteps(job: Job, s: State, r: nat)
    requires Inv(job, s) && r < |s.ranks| && s.ranks[r].read.Flying?
    ensures CanStep(job, s)
  {
    hide Holds, Buckets, Sender.Inv, Flatten, View;
    assert RankOk(job, s, r) && LinkOk(job, s, r);
    assert Enabled(job, s, Rank(r, Transfer));
  }

  /** A notification that arrives carries the awaited key. */
  lemma WaitNextSteps(job: Job, s: State, r: nat)
    requires Inv(job, s) && r < |s.ranks| && s.ranks[r].pc == WaitNext
    ensures s.HasNext(r)
    ensures s.links[r + 1].notifs != [] ==> s.links[r + 1].notifs[0] == s.ranks[r].w.k && CanStep(job, s)
  {
    hide Holds, Buckets, Sender.Inv, Flatten, View, Metas;
    assert RankOk(job, s, r);
    if s.HasNext(r) && s.links[r + 1].notifs != [] {
      assert LinkOk(job, s, r + 1);
      assert Enabled(job, s, Rank(r, AwaitNext));
    }
  }

  /** When the upstream end waits for a read of rank `r` that is not notified, someone from `r` on can step. */
  lemma {:induction false} UnreadMakesProgress(job: Job, s: State, r: nat)
    requires Inv(job, s) && r < |s.ranks|
    requires s.Upstream(r).posted > s.Upstream(r).acked && s.links[r].notifs == []
    ensures CanStep(job, s)
    decreases |s.ranks| - r
  {
    hide Holds, Buckets, Sender.Inv, Flatten, View, Metas, CanStep;
    assert RankOk(job, s, r) && LinkOk(job, s, r);
    RankAloneSteps(job, s, r);
    if !CanStep(job, s) {
      WaitNextSteps(job, s, r);
      UnreadMakesProgress(job, s, r + 1);
    }
  }

  /** When rank `r` waits for a message that is not there, someone before it or after it can step. */
  lemma {:induction false} HungryMakesProgress(job: Job, s: State, r: nat)
    requires job.Valid() && Inv(job, s) && r < |s.ranks|
    requires (s.ranks[r].pc == FirstMeta || s.ranks[r].pc == NextMeta) && s.links[r].inbox == []
    ensures CanStep(job, s)
  {
    hide Holds, Buckets, Sender.Inv, Flatten, View, Metas, CanStep;
    assert RankOk(job, s, r) && LinkOk(job, s, r);
    if r == 0 {
      SenderAloneSteps(job, s);
    } else {
      assert RankOk(job, s, r - 1);
      RankAloneSteps(job, s, r - 1);
      if !CanStep(job, s) && s.ranks[r - 1].pc != WaitNext { HungryMakesProgress(job, s, r - 1); }
    }
  }

  /** What the sender can do by itself: anything but wait for a notification. */
  lemma SenderAloneSteps(job: Job, s: State)
    requires job.Valid() && Inv(job, s)
    ensures CanStep(job, s)
      || (s.sender.pc == Finished && s.sender.posted == job.Count() && !s.sender.pending)
      || (s.sender.pending && s.links[0].notifs == [])
  {
    hide Holds, Buckets, Flatten, View, Metas, Pack, Size, Fits, Receiver.Inv;
    var q := s.sender;
    assert LinkOk(job, s, 0);
    if q.pending && s.links[0].notifs != [] && (q.AtPost(job) || q.pc == Draining) {
      assert Enabled(job, s, Await);
    } else if q.CanPost(job) {
      assert Enabled(job, s, Announce);
    } else if q.pc == Filling && !q.AtPost(job) {
      FillAssertions(q, job);
      assert Enabled(job, s, Fill);
    }
  }

  /** No deadlock: unless everything is transferred, some step is enabled. */
  lemma NoDeadlock(job: Job, s: State)
    requires job.Valid() && Inv(job, s) && !Final(s)
    ensures CanStep(job, s)
  {
    hide Holds, Buckets, Sender.Inv, Flatten, View, Metas, CanStep, LinkInv, Receiver.Inv;
    if s.sender.pc != Finished {
      SenderAloneSteps(job, s);
      if !CanStep(job, s) { UnreadMakesProgress(job, s, 0); }
    } else {
      var r: nat :| r < |s.ranks| && s.ranks[r].pc != Done;
      RankAloneSteps(job, s, r);
      if !CanStep(job, s) {
        if s.ranks[r].pc == WaitNext {
          UnreadMakesProgress(job, s, r + 1);
        } else {
          HungryMakesProgress(job, s, r);
        }
      }
    }
  }

  /** The steps a rank has taken, scrambling apart. */
  function Work(q: Receiver): int {
    var swaps := if q.pc == FirstMeta || q.pc == FirstRead then 0 else q.w.k + 1;
    var ends := if q.pc == WaitNext || q.pc == WaitRead || q.pc == Done then q.w.k + 1 else q.w.k;
    q.MetaRead() + q.Reads() + swaps + q.Posted() + |q.w.yielded| + ends + q.Acked()
  }

  function RanksWork(ranks: seq<Receiver>): int {
    if ranks == [] then 0 else Work(ranks[0]) + RanksWork(ranks[1..])
  }

  function TotalWork(s: State): int {
    s.sender.next + s.sender.posted + s.sender.Acked() + RanksWork(s.ranks)
  }

  lemma {:induction false} RanksWorkAfter(ranks: seq<Receiver>, r: nat, q: Receiver)
    requires r < |ranks|
    ensures RanksWork(ranks[r := q]) == RanksWork(ranks) - Work(ranks[r]) + Work(q)
  {
    hide Work;
    if r > 0 {
      RanksWorkAfter(ranks[1..], r - 1, q);
      assert ranks[r := q][1..] == ranks[1..][r - 1 := q];
    } else {
      assert ranks[r := q][1..] == ranks[1..];
    }
  }

  function UsefulSteps(actions: seq<Action>): nat {
    if actions == [] then 0 else UsefulSteps(actions[..|actions| - 1]) + (if Useful(actions[|actions| - 1]) then 1 else 0)
  }

  lemma MoveWorks(job: Job, l: Local, m: Move, hasNext: bool, source: seq<seq<byte>>)
    requires l.q.Inv(job, hasNext) && CanMove(l, m, hasNext, source)
    ensures Work(Moved(l, m, hasNext, source).q) >= Work(l.q) + (if m.Tear? then 0 else 1)
  {
    hide Receiver.Reading, Window.HasBucket, View, TwoBuffers;
  }

  lemma ActionWorks(job: Job, s: State, a: Action)
    requires Inv(job, s) && Enabled(job, s, a)
    ensures TotalWork(Apply(job, s, a)) >= TotalWork(s) + (if Useful(a) then 1 else 0)
  {
    hide Work, CanMove, Moved, Sender.Inv, Receiver.Inv, LinkInv, RanksWork;
    if a.Rank? {
      assert RankOk(job, s, a.r);
      MoveWorks(job, s.At(a.r), a.move, s.HasNext(a.r), s.Upstream(a.r).bufs);
      RanksWorkAfter(s.ranks, a.r, Moved(s.At(a.r), a.move, s.HasNext(a.r), s.Upstream(a.r).bufs).q);
    }
  }

  function WorkBound(job: Job, n: nat): nat {
    |job.chunks| + 2 * job.Count() + n * (6 * job.Count() + |Flatten(job.All())|)
  }

  lemma {:induction false} RanksWorkBound(job: Job, ranks: seq<Receiver>)
    requires forall q :: q in ranks ==> Work(q) <= 6 * job.Count() + |Flatten(job.All())|
    ensures RanksWork(ranks) <= |ranks| * (6 * job.Count() + |Flatten(job.All())|)
  {
    hide Work, Flatten, Buckets;
    if ranks != [] {
      assert ranks[0] in ranks;
      RanksWorkBound(job, ranks[1..]);
      var each := 6 * job.Count() + |Flatten(job.All())|;
      assert |ranks| * each == each + (|ranks| - 1) * each;
    }
  }

  lemma RankWorkBound(job: Job, s: State, r: nat)
    requires Inv(job, s) && r < |s.ranks|
    ensures Work(s.ranks[r]) <= 6 * job.Count() + |Flatten(job.All())|
  {
    hide Holds, Buckets, Sender.Inv, Flatten, View, Receiver.Reading;
    assert RankOk(job, s, r) && LinkOk(job, s, r) && LinkOk(job, s, 0);
    var q := s.ranks[r];
    if q.pc != FirstMeta && q.pc != FirstRead { YieldedPrefix(job, q.w); }
    UpstreamBounded(job, s, r);
  }

  lemma UpstreamBounded(job: Job, s: State, r: nat)
    requires Inv(job, s) && r < |s.ranks|
    ensures s.ranks[r].MetaRead() <= job.Count()
  {
    hide Holds, Buckets, Sender.Inv, Receiver.Inv;
    assert LinkOk(job, s, r);
  }

  lemma TotalWorkBound(job: Job, s: State)
    requires Inv(job, s)
    ensures TotalWork(s) <= WorkBound(job, |s.ranks|)
  {
    hide Buckets, Work, RanksWork, Flatten, Receiver.Inv, Holds;
    assert LinkOk(job, s, 0);
    forall q | q in s.ranks ensures Work(q) <= 6 * job.Count() + |Flatten(job.All())| {
      var r: nat :| r < |s.ranks| && s.ranks[r] == q;
      RankWorkBound(job, s, r);
    }
    RanksWorkBound(job, s.ranks);
  }

  lemma {:induction false} RunWorks(job: Job, states: seq<State>, actions: seq<Action>, i: nat)
    requires job.Valid() && IsRun(job, states, actions) && i <= |actions|
    ensures TotalWork(states[i]) >= UsefulSteps(actions[..i]) + TotalWork(states[0])
  {
    hide TotalWork, Inv, Enabled, Apply;
    if i > 0 {
      RunWorks(job, states, actions, i - 1);
      RunKeepsInv(job, states, actions, i - 1);
      assert StepsTo(job, states[i - 1], actions[i - 1], states[i]);
      ActionWorks(job, states[i - 1], actions[i - 1]);
      assert actions[..i][..i - 1] == actions[..i - 1];
    }
  }

  lemma {:induction false} StartWork(ranks: seq<Receiver>)
    requires forall q :: q in ranks ==> q.pc == FirstMeta && q.w.k == 0 && q.read == NoRead && q.w.yielded == []
    ensures RanksWork(ranks) >= 0
  {
    if ranks != [] {
      assert ranks[0] in ranks;
      StartWork(ranks[1..]);
    }
  }

  /** Every run takes a bounded number of steps, scrambling apart. */
  lemma RunIsBounded(job: Job, states: seq<State>, actions: seq<Action>)
    requires job.Valid() && IsRun(job, states, actions)
    ensures UsefulSteps(actions) <= WorkBound(job, |states[0].ranks|)
  {
    hide WorkBound, RanksWork, Enabled, Apply, UsefulSteps;
    var last := |actions|;
    RunKeepsInv(job, states, actions, last);
    RunWorks(job, states, actions, last);
    assert actions[..last] == actions;
    TotalWorkBound(job, states[last]);
    StartWork(states[0].ranks);
  }

  /** A run that cannot go on has delivered the weights to every rank. */
  lemma StuckRunHasDelivered(weights: seq<Weight>, bucketSize: nat, states: seq<State>, actions: seq<Action>, garbage: Garbage)
    requires bucketSize > 0
    requires forall a, b :: 0 <= a < b < |weights| ==> weights[a].name != weights[b].name
    requires var job := Job(Split(weights, bucketSize), bucketSize);
      IsRun(job, states, actions) && states[|actions|].WellFormed() && !CanStep(job, states[|actions|])
    ensures var s := states[|actions|];
      && s.sender.pc == Finished
      && forall r :: 0 <= r < |s.ranks| ==>
           Merge(Idle, s.ranks[r].w.yielded, bucketSize, garbage) == MergedWeights(NonEmpty(weights))
  {
    hide Merge, Split, NonEmpty, CanStep, StepsTo, Sender.Inv, RankOk, LinkOk;
    var job := Job(Split(weights, bucketSize), bucketSize);
    var s := states[|actions|];
    SplitWellSplit(weights, bucketSize);
    RunKeepsInv(job, states, actions, |actions|);
    if !Final(s) { NoDeadlock(job, s); }
    forall r | 0 <= r < |s.ranks|
      ensures Merge(Idle, s.ranks[r].w.yielded, bucketSize, garbage) == MergedWeights(NonEmpty(weights))
    {
      RankRebuildsWeights(weights, bucketSize, states, actions, |actions|, r, garbage);
    }
  }
}
