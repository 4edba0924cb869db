/** What the producer knows about published references: their sizes, the bytes they hold, and what is acknowledged. */
module ProducerLedger {
  import opened Options
  import opened ProducerFlowControl

  /** A captured reference: the prompt it stems from and its byte estimate, which may be missing or negative. */
  datatype Ref = Ref(task: nat, estimate: Option<int>)

  function Size(r: Ref): nat {
    if r.estimate.None? then 0 else Clamp(r.estimate.value)
  }

  function Sizes(refs: seq<Ref>): (r: seq<nat>)
    ensures |r| == |refs|
  {
    seq(|refs|, i requires 0 <= i < |refs| => Size(refs[i]))
  }

  function Sum(sizes: seq<nat>): nat {
    if sizes == [] then 0 else sizes[0] + Sum(sizes[1..])
  }

  lemma {:induction false} SumAppend(a: seq<nat>, b: seq<nat>)
    ensures Sum(a + b) == Sum(a) + Sum(b)
  {
    if a == [] {
      assert a + b == b;
    } else {
      SumAppend(a[1..], b);
      assert (a + b)[1..] == a[1..] + b;
    }
  }

  lemma SumSplit(s: seq<nat>, i: nat)
    requires i <= |s|
    ensures Sum(s) == Sum(s[..i]) + Sum(s[i..])
  {
    assert s[..i] + s[i..] == s;
    SumAppend(s[..i], s[i..]);
  }

  /**
   * The channel's log and counters together with the driver's accounting. `aborted` and `lost` are the prompts
   * whose references were freed, or dropped without a trace; `clean` says that no publication stopped half-way.
   */
  datatype Ledger = Ledger(published: seq<Ref>, consumed: nat, accounted: nat, sizes: seq<nat>, resident: int, produced: nat,
                           aborted: multiset<nat>, lost: multiset<nat>, clean: bool) {

    function InFlight(): int { |published| - consumed }

    function Delta(): int { consumed - accounted }

    /** Otherwise reconciling raises. */
    predicate CanReconcile() { 0 <= Delta() <= |sizes| }

    function Reconcile(): Ledger
      requires CanReconcile()
    {
      this.(accounted := consumed, sizes := sizes[Delta()..], resident := resident - Sum(sizes[..Delta()]))
    }

    /** Bytes of published references the consumer has not acknowledged. */
    function Unacknowledged(): nat
      requires consumed <= |published|
    {
      Sum(Sizes(published[consumed..]))
    }

    /** The books agree with the channel. */
    ghost predicate Exact(cap: Option<int>) {
      && accounted <= consumed <= |published| && produced == |published|
      && sizes == Sizes(published[accounted..]) && resident == Sum(sizes)
      && (cap.Some? ==> resident <= cap.value)
    }
  }

  function Tasks(refs: seq<Ref>): multiset<nat> {
    if refs == [] then multiset{} else Tasks(refs[..|refs| - 1]) + multiset{refs[|refs| - 1].task}
  }

  /** They are the prompts of the references, each as often as it has one. */
  lemma {:induction false} TasksOf(refs: seq<Ref>)
    ensures Tasks(refs) == multiset(seq(|refs|, i requires 0 <= i < |refs| => refs[i].task))
  {
    if refs != [] {
      var n := |refs| - 1;
      TasksOf(refs[..n]);
      var front := seq(n, i requires 0 <= i < n => refs[i].task);
      assert seq(n, i requires 0 <= i < n => refs[..n][i].task) == front;
      assert seq(|refs|, i requires 0 <= i < |refs| => refs[i].task) == front + [refs[n].task];
    }
  }

  /** The bytes of a batch: a missing estimate counts nothing, nor does a negative one. */
  lemma BytesOf(refs: seq<Ref>, r: Ref)
    ensures Sum(Sizes([])) == 0
    ensures Sum(Sizes(refs + [r]))
         == Sum(Sizes(refs)) + if r.estimate.Some? && r.estimate.value > 0 then r.estimate.value else 0
  {
    assert Sizes(refs + [r]) == Sizes(refs) + Sizes([r]);
    SumAppend(Sizes(refs), Sizes([r]));
    assert Sizes([r])[1..] == [];
    assert Sum(Sizes([r])) == Sizes([r])[0];
  }

  lemma {:induction false} TasksAppend(a: seq<Ref>, b: seq<Ref>)
    ensures Tasks(a + b) == Tasks(a) + Tasks(b)
    decreases |b|
  {
    if b == [] {
      assert a + b == a;
    } else {
      var front := b[..|b| - 1];
      TasksAppend(a, front);
      assert (a + b)[..|a + b| - 1] == a + front;
      var x, y, z := Tasks(a), Tasks(front), multiset{b[|b| - 1].task};
      assert Tasks(a + b) == Tasks(a + front) + z && Tasks(b) == y + z;
      hide Tasks;
      Regroup(x, y, z);
    }
  }

  lemma Regroup(x: multiset<nat>, y: multiset<nat>, z: multiset<nat>)
    ensures (x + y) + z == x + (y + z)
  {}

  lemma TasksSplit(refs: seq<Ref>, i: nat)
    requires i <= |refs|
    ensures Tasks(refs) == Tasks(refs[..i]) + Tasks(refs[i..])
  {
    assert refs[..i] + refs[i..] == refs;
    TasksAppend(refs[..i], refs[i..]);
  }

  // ---------------------------------------------------------------- publishing

  /** What the environment does to a publication: everything goes through, or it raises after `count` references. */
  datatype Channel = Accepts | Breaks(count: nat)

  datatype Publication = Publication(ledger: Ledger, raised: bool)

  /** `publish_refs` */
  function Publish(l: Ledger, refs: seq<Ref>, cap: Option<int>, channel: Channel): Publication
    requires channel.Breaks? ==> channel.count <= |refs|
  {
    if refs == [] then Publication(l, false)
    else if !l.CanReconcile() then Publication(l.(lost := l.lost + Tasks(refs)), true)
    else
      var r := l.Reconcile();
      var projected := r.resident + Sum(Sizes(refs));
      if cap.Some? && projected > cap.value then Publication(r.(aborted := r.aborted + Tasks(refs)), true)
      else
        match channel
        case Breaks(count) =>
          Publication(r.(published := r.published + refs[..count],
                         aborted := r.aborted + Tasks(refs[count..]),
                         clean := r.clean && count == 0), true)
        case Accepts =>
          Publication(r.(published := r.published + refs, sizes := r.sizes + Sizes(refs), resident := projected,
                         produced := r.produced + |refs|), false)
  }

  lemma ReconcileKeeps(l: Ledger, cap: Option<int>)
    requires l.Exact(cap)
    ensures l.CanReconcile() && l.Reconcile().Exact(cap)
    ensures l.Reconcile().resident == l.Unacknowledged()
  {
    SumSplit(l.sizes, l.Delta());
    assert l.published[l.accounted..][l.Delta()..] == l.published[l.consumed..];
    assert l.sizes[l.Delta()..] == Sizes(l.published[l.consumed..]);
  }

  /** The consumer acknowledges more of the published prefix. */
  lemma ConsumeKeeps(l: Ledger, cap: Option<int>, consumed: nat)
    requires l.Exact(cap) && l.consumed <= consumed <= |l.published|
    ensures l.(consumed := consumed).Exact(cap)
  {}

  /** A publication keeps exact books unless it stops half-way. */
  lemma PublishKeeps(l: Ledger, refs: seq<Ref>, cap: Option<int>, channel: Channel)
    requires l.Exact(cap) && l.clean && (channel.Breaks? ==> channel.count <= |refs|)
    ensures Publish(l, refs, cap, channel).ledger.clean ==> Publish(l, refs, cap, channel).ledger.Exact(cap)
    ensures Publish(l, refs, cap, channel).ledger.lost == l.lost
  {
    ReconcileKeeps(l, cap);
    var r := l.Reconcile();
    SumAppend(r.sizes, Sizes(refs));
    var all := r.published + refs;
    assert r.sizes + Sizes(refs) == Sizes(all[r.accounted..]);
    if channel.Breaks? && channel.count == 0 { assert r.published + refs[..0] == r.published; }
  }

  /** A publication moves every reference to exactly one place. */
  lemma PublishConserves(l: Ledger, refs: seq<Ref>, cap: Option<int>, channel: Channel)
    requires channel.Breaks? ==> channel.count <= |refs|
    ensures var p := Publish(l, refs, cap, channel).ledger;
      Tasks(p.published) + p.aborted + p.lost == Tasks(l.published) + l.aborted + l.lost + Tasks(refs)
  {
    hide Tasks, Sum, Sizes, Ledger.Reconcile;
    ReconcileFrames(l);
    NoTasks();
    var pub, ab, lost := Tasks(l.published), l.aborted, l.lost;
    Move(pub, ab, lost, Tasks(refs), multiset{});
    TasksAppend(l.published, refs);
    if channel.Breaks? {
      var head, tail := refs[..channel.count], refs[channel.count..];
      TasksSplit(refs, channel.count);
      TasksAppend(l.published, head);
      Move(pub, ab, lost, Tasks(head), Tasks(tail));
    }
  }

  /**
   * With exact books a batch is refused exactly when it would take the unacknowledged bytes past the hard cap; of any
   * other batch the channel holds what it accepted, and only a batch accepted as a whole does not raise.
   */
  lemma PublishOutcome(l: Ledger, refs: seq<Ref>, cap: Option<int>, channel: Channel)
    requires l.Exact(cap) && refs != [] && (channel.Breaks? ==> channel.count <= |refs|)
    ensures var p, fits := Publish(l, refs, cap, channel), cap.None? || l.Unacknowledged() + Sum(Sizes(refs)) <= cap.value;
      && p.ledger.lost == l.lost && p.ledger.consumed == l.consumed
      && (p.raised <==> !fits || channel.Breaks?)
      && p.ledger.published == l.published + if !fits then [] else if channel.Breaks? then refs[..channel.count] else refs
  {
    hide Sum, Sizes, Tasks;
    ReconcileKeeps(l, cap);
    assert l.published + [] == l.published;
  }

  lemma NoTasks()
    ensures Tasks([]) == multiset{}
  {}

  lemma Move(a: multiset<nat>, b: multiset<nat>, c: multiset<nat>, x: multiset<nat>, y: multiset<nat>)
    ensures (a + x) + (b + y) + c == a + b + c + (x + y)
    ensures a + b + (c + x) == a + b + c + x && a + (b + x) + c == a + b + c + x && (a + x) + b + c == a + b + c + x
  {}

  lemma ReconcileFrames(l: Ledger)
    ensures l.CanReconcile() ==>
      var r := l.Reconcile(); r.published == l.published && r.aborted == l.aborted && r.lost == l.lost
  {}

  /**
   * A publication that breaks off after transferring references leaves the books short by their sizes, and the
   * books agree with the channel again exactly when it transferred none.
   */
  lemma BrokenPublicationIsUntracked(l: Ledger, refs: seq<Ref>, cap: Option<int>, count: nat)
    requires l.Exact(cap) && refs != [] && count <= |refs|
    requires cap.None? || l.Unacknowledged() + Sum(Sizes(refs)) <= cap.value
    ensures var p := Publish(l, refs, cap, Breaks(count)).ledger;
      && p.CanReconcile() && p.consumed <= |p.published|
      && p.Unacknowledged() == p.Reconcile().resident + Sum(Sizes(refs[..count]))
      && (p.Exact(cap) <==> count == 0)
  {
    ReconcileKeeps(l, cap);
    var r := l.Reconcile();
    var p := Publish(l, refs, cap, Breaks(count)).ledger;
    var tail := r.published[r.consumed..];
    assert p.published[p.consumed..] == tail + refs[..count];
    assert Sizes(tail + refs[..count]) == Sizes(tail) + Sizes(refs[..count]);
    SumAppend(Sizes(tail), Sizes(refs[..count]));
    assert p.sizes[..0] == [];
    if count == 0 { assert r.published + refs[..0] == r.published; }
  }

  /**
   * After that the books keep matching exactly as long as the consumer has not acknowledged the last `count`
   * published references; beyond that point every further batch is lost.
   */
  lemma BrokenBooksMatchUpTo(l: Ledger, refs: seq<Ref>, cap: Option<int>, count: nat, consumed: nat, more: seq<Ref>, channel: Channel)
    requires l.Exact(cap) && refs != [] && count <= |refs| && more != [] && (channel.Breaks? ==> channel.count <= |more|)
    requires cap.None? || l.Unacknowledged() + Sum(Sizes(refs)) <= cap.value
    requires l.consumed <= consumed <= |l.published| + count
    ensures var p := Publish(l, refs, cap, Breaks(count)).ledger;
      var q := p.(consumed := consumed);
      && (q.CanReconcile() <==> consumed <= |p.published| - count)
      && (consumed <= |p.published| - count ==> Publish(q, more, cap, channel).ledger.lost == q.lost)
      && (consumed > |p.published| - count ==>
           Publish(q, more, cap, channel) == Publication(q.(lost := q.lost + Tasks(more)), true))
  {
    BrokenShape(l, refs, cap, count);
    var p := Publish(l, refs, cap, Breaks(count)).ledger;
    hide Publish, Sum, Tasks, Sizes, Ledger.Unacknowledged, Ledger.Exact;
    BatchIsLost(p.(consumed := consumed), more, cap, channel);
  }

  lemma BrokenShape(l: Ledger, refs: seq<Ref>, cap: Option<int>, count: nat)
    requires l.Exact(cap) && refs != [] && count <= |refs|
    requires cap.None? || l.Unacknowledged() + Sum(Sizes(refs)) <= cap.value
    ensures var p := Publish(l, refs, cap, Breaks(count)).ledger;
      |p.published| == |l.published| + count && p.accounted == l.consumed && |p.sizes| == |l.published| - l.consumed
  {
    hide Sum, Tasks, Ledger.Unacknowledged;
    ReconcileKeeps(l, cap);
  }

  /** A batch is lost exactly when the books do not match the channel. */
  lemma BatchIsLost(l: Ledger, refs: seq<Ref>, cap: Option<int>, channel: Channel)
    requires refs != [] && (channel.Breaks? ==> channel.count <= |refs|)
    ensures var p := Publish(l, refs, cap, channel);
      if l.CanReconcile() then p.ledger.lost == l.lost else p == Publication(l.(lost := l.lost + Tasks(refs)), true)
  {
    hide Sum, Tasks, Sizes, Ledger.Reconcile;
    ReconcileFrames(l);
  }

  // ---------------------------------------------------------------- the driver's variables

  /** The shared variables of the driver, updated in place under the publish lock. */
  class Driver {
    var publishedSizes: seq<nat>
    var residentBytes: int
    var accountedConsumed: nat
    var produced: nat

    constructor ()
      ensures publishedSizes == [] && residentBytes == 0 && accountedConsumed == 0 && produced == 0
    {
      publishedSizes, residentBytes, accountedConsumed, produced := [], 0, 0, 0;
    }

    ghost predicate Holds(l: Ledger)
      reads this
    {
      publishedSizes == l.sizes && residentBytes == l.resident && accountedConsumed == l.accounted && produced == l.produced
    }

    /** `reconcile_consumed_locked` */
    method Reconcile(ghost l: Ledger, consumedRemote: nat) returns (ok: bool)
      requires Holds(l) && consumedRemote == l.consumed
      modifies this
      ensures ok == l.CanReconcile()
      ensures Holds(if ok then l.Reconcile() else l)
    {
      var delta := consumedRemote - accountedConsumed;
      if delta < 0 || delta > |publishedSizes| { return false; }
      for i := 0 to delta
        invariant i <= |l.sizes| && publishedSizes == l.sizes[i..] && residentBytes == l.resident - Sum(l.sizes[..i])
        invariant accountedConsumed == l.accounted && produced == l.produced
      {
        SumSplit(l.sizes[..i + 1], i);
        assert l.sizes[..i + 1][i..] == [l.sizes[i]] && l.sizes[..i + 1][..i] == l.sizes[..i];
        residentBytes, publishedSizes := residentBytes - publishedSizes[0], publishedSizes[1..];
      }
      accountedConsumed := consumedRemote;
      return true;
    }

    /** `publish_refs`: the references handed to the channel and those aborted. */
    method PublishRefs(ghost l: Ledger, consumedRemote: nat, refs: seq<Ref>, cap: Option<int>, channel: Channel)
      returns (published: seq<Ref>, aborted: seq<Ref>, raised: bool)
      requires Holds(l) && consumedRemote == l.consumed && (channel.Breaks? ==> channel.count <= |refs|)
      modifies this
      ensures var p := Publish(l, refs, cap, channel);
        && Holds(p.ledger) && raised == p.raised && p.ledger.published == l.published + published
        && p.ledger.aborted == l.aborted + Tasks(aborted)
    {
      hide Sum, Sizes, Ledger.Reconcile;
      ReconcileFrames(l);
      published, aborted, raised := [], [], false;
      if refs == [] { return; }
      var ok := Reconcile(l, consumedRemote);
      if !ok { raised := true; return; }
      var projected := residentBytes + Sum(Sizes(refs));
      if cap.Some? && projected > cap.value {
        aborted, raised := refs, true;
        return;
      }
      published, aborted, raised := Transact(refs, channel);
      if raised { return; }
      publishedSizes := publishedSizes + Sizes(refs);
      residentBytes := projected;
      produced := produced + |refs|;
    }
  }

  /** `_publish_refs_with_cleanup` on top of the transaction: publish one by one, abort the untouched suffix. */
  method Transact(refs: seq<Ref>, channel: Channel) returns (published: seq<Ref>, aborted: seq<Ref>, raised: bool)
    requires channel.Breaks? ==> channel.count <= |refs|
    ensures raised == channel.Breaks?
    ensures published == if raised then refs[..channel.count] else refs
    ensures aborted == if raised then refs[channel.count..] else []
  {
    published, aborted, raised := [], [], false;
    for i := 0 to |refs|
      invariant published == refs[..i] && aborted == [] && !raised
      invariant channel.Breaks? ==> i <= channel.count
    {
      if channel == Breaks(i) {
        raised := true;
        break;
      }
      published := published + [refs[i]];
    }
    if channel.Breaks? && !raised { raised := true; }
    if raised { aborted := refs[|published|..]; }
  }
}
