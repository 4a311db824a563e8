/** The pool of message headers is a ring of its own, of 1024 slots, that nothing ties to the ring
    of calls. A pending call keeps its header, whatever messages follow, exactly when the ring of
    calls has at most 1024 entries; above that a later header takes the slot of a call still
    pending, which is then sent as another message. */
module SendmsgHeaders {
  import opened Basics
  import opened Cursors
  import opened Calls
  import opened RingProtocol
  import opened Regions
  import opened SendmsgGather
  import opened SideData
  import opened SendmsgServer
  import RingRuns

  /** Every pending call's header is as its wrapper left it. */
  predicate HeadersKept(x: Server) {
    forall k: nat :: |x.ring.executed| <= k < |x.mem.sent| ==>
      && x.mem.sent[k].slot < |x.mem.pools.msgs|
      && x.mem.pools.msgs[x.mem.sent[k].slot] == x.mem.sent[k].header
  }

  // ---------- at most 1024 entries ----------

  lemma {:induction false} PutKeepsHeaders(m: Memory, frags: seq<seq<byte>>)
    requires ValidMemory(m) && FragmentsFit(frags, |m.bytes|)
    ensures PutFragments(m, frags).msgs == m.msgs && PutFragments(m, frags).msgOffset == m.msgOffset
    decreases |frags|
  {
    if |frags| > 0 {
      PutKeepsHeaders(m, frags[..|frags| - 1]);
    }
  }

  /** A message of any size writes one header and no other. */
  lemma {:induction false} GatherWritesOneHeader(m: Memory, frags: seq<seq<byte>>, flags: int)
    requires ValidMemory(m) && FragmentsFit(frags, |m.bytes|)
    ensures Gather(m, frags, flags).msgs == m.msgs[Mask(m.msgOffset) := Receipt(m, frags, flags).header]
    ensures Gather(m, frags, flags).msgOffset == Mask(m.msgOffset) + 1
  {
    PutKeepsHeaders(Masked(m), frags);
  }

  ghost predicate HeaderInv(p: Setup, x: Server) {
    Inv(p.ring, x.ring) && WellSized(p, x) && Addressed(x) && HeadersKept(x)
  }

  lemma {:induction false} SendKeepsHeaders(p: Setup, x: Server, a: Action)
    requires HeaderInv(p, x) && Can(p, x, a) && a.Send? && Size(p.ring) <= POOL_SLOTS
    ensures HeadersKept(Do(p, x, a))
  {
    var m, y := x.mem.pools, Do(p, x, a);
    GatherWritesOneHeader(m, a.frags, a.flags);
    SlotIsFree(p, x);
    forall k: nat | |y.ring.executed| <= k < |y.mem.sent|
      ensures y.mem.sent[k].slot < |y.mem.pools.msgs| && y.mem.pools.msgs[y.mem.sent[k].slot] == y.mem.sent[k].header
    {
      if k < |x.mem.sent| {
        assert PendingSent(x)[k - |x.ring.executed|] == x.mem.sent[k];
      }
    }
  }

  lemma {:induction false} ActionKeepsHeaders(p: Setup, x: Server, a: Action)
    requires HeaderInv(p, x) && Can(p, x, a) && Size(p.ring) <= POOL_SLOTS
    ensures HeaderInv(p, Do(p, x, a))
  {
    match a
    case Send(fd, _, _, callFlags) =>
      BeginKeepsInv(p.ring, x.ring, SendCall(p, fd, Mask(x.mem.pools.msgOffset), callFlags));
      SendKeepsAddressed(p, x, a);
      SendKeepsHeaders(p, x, a);
    case Ring(step) =>
      StepKeepsInv(p.ring, x.ring, step);
      RingKeepsAddressed(p, x, step);
      PendingAfter(p, x, step);
      OnlyExecuteExecutes(p.ring, x.ring, step);
  }

  lemma {:induction false} RunKeepsHeaders(p: Setup, x: Server, actions: seq<Action>)
    requires HeaderInv(p, x) && SendmsgServer.Runs(p, x, actions) && Size(p.ring) <= POOL_SLOTS
    ensures HeaderInv(p, SendmsgServer.After(p, x, actions))
    decreases |actions|
  {
    if |actions| > 0 {
      ActionKeepsHeaders(p, x, actions[0]);
      RunKeepsHeaders(p, Do(p, x, actions[0]), actions[1..]);
    }
  }

  // ---------- more than 1024 entries ----------

  lemma {:induction false} Join(p: Setup, x: Server, a: seq<Action>, b: seq<Action>)
    requires SendmsgServer.Runs(p, x, a) && SendmsgServer.Runs(p, SendmsgServer.After(p, x, a), b)
    ensures SendmsgServer.Runs(p, x, a + b)
    ensures SendmsgServer.After(p, x, a + b) == SendmsgServer.After(p, SendmsgServer.After(p, x, a), b)
    ensures AllAffordable(p, x, a) && AllAffordable(p, SendmsgServer.After(p, x, a), b) ==> AllAffordable(p, x, a + b)
    decreases |a|
  {
    if |a| == 0 {
      assert a + b == b;
    } else {
      Join(p, Do(p, x, a[0]), a[1..], b);
      FirstOfConcat(a, b);
    }
  }

  lemma {:induction false} Single(p: Setup, x: Server, a: Action)
    requires Can(p, x, a) && (a.Send? ==> Affordable(p, x, a.frags))
    ensures SendmsgServer.Runs(p, x, [a]) && AllAffordable(p, x, [a]) && SendmsgServer.After(p, x, [a]) == Do(p, x, a)
  {
    assert [a][1..] == [] && SendmsgServer.Runs(p, Do(p, x, a), []);
  }

  function Lifted(steps: seq<Step>): (actions: seq<Action>)
    ensures |actions| == |steps|
    ensures forall k :: 0 <= k < |steps| ==> actions[k] == Ring(steps[k])
  {
    seq(|steps|, k requires 0 <= k < |steps| => Ring(steps[k]))
  }

  /** A run of the ring in which nothing is executed leaves the rest of the server alone. */
  lemma {:induction false} Lift(p: Setup, x: Server, steps: seq<Step>)
    requires WellSized(p, x) && RingRuns.Quiet(steps) && Execute !in steps
    requires RingProtocol.Runs(p.ring, x.ring, steps) && Fits(p.ring, x.ring, steps)
    ensures SendmsgServer.Runs(p, x, Lifted(steps)) && AllAffordable(p, x, Lifted(steps))
    ensures SendmsgServer.After(p, x, Lifted(steps)) == x.(ring := RingProtocol.After(p.ring, x.ring, steps))
    decreases |steps|
  {
    if |steps| > 0 {
      var actions := Lifted(steps);
      OnlyExecuteExecutes(p.ring, x.ring, steps[0]);
      Lift(p, Do(p, x, actions[0]), steps[1..]);
      assert actions[1..] == Lifted(steps[1..]);
    }
  }

  predicate Asks(w: Option<Delivery>, frags: seq<seq<byte>>) {
    w.Some? && w.value.data == Concat(frags)
  }

  /** Nothing has been executed; `n` messages are pending, all empty but the first. */
  predicate Row(p: Setup, x: Server, n: nat, first: seq<seq<byte>>) {
    && RingRuns.CaughtUp(p.ring, x.ring, n) && x.ring.producer.Outside? && x.ring.executed == [] && x.seen == []
    && WellSized(p, x) && |x.mem.sent| == |x.wanted| == n > 0 && Mask(x.mem.pools.msgOffset) == Mask(n)
    && x.mem.pools.iovOffset == 1 && Sum(Flat(x.mem.sent)) == Total(first) && Sum(IovRuns(x.mem.sent)) == 1
    && x.mem.sent[0].header.iovlen == 1 && x.mem.sent[0].slot == 0 && Asks(x.wanted[0], first)
    && |x.ring.submitted[0].args| == 3 && x.ring.submitted[0].args[1] == 0
  }

  lemma {:induction false} OneFragment(m: Memory, frag: seq<byte>)
    requires ValidMemory(m) && |frag| <= |m.bytes|
    ensures Total([frag]) == |frag| && NewRegions(m, [frag]) == [FragmentRegion(m, frag)]
    ensures Sum(NewRegions(m, [frag])) == |frag|
    ensures PutFragments(m, [frag]) == PutFragment(m, frag)
  {
    OneMoreTurn(m, [], frag);
    assert [] + [frag] == [frag];
    SumOfAppend([], FragmentRegion(m, frag));
    assert [] + [FragmentRegion(m, frag)] == [FragmentRegion(m, frag)];
  }

  lemma {:induction false} FirstGather(m: Memory, frag: seq<byte>)
    requires ValidMemory(m) && |frag| <= |m.bytes| && m.iovOffset == m.msgOffset == 0
    ensures var e := Receipt(m, [frag], 0);
      && e.slot == 0 && e.header.iovlen == 1 && e.run.len == 1 && Total(e.frags) == Sum(e.regions) == |frag|
    ensures Gather(m, [frag], 0).iovOffset == 1 && Gather(m, [frag], 0).msgOffset == 1
  {
    assert Masked(m) == m;
    OneFragment(m, frag);
  }

  lemma {:induction false} SumsOfOne(e: Sent)
    ensures Flat([e]) == e.regions && Sum(IovRuns([e])) == e.run.len
  {
    FlatOfAppend([], e);
    SumOfAppend([], e.run);
    assert [] + [e] == [e] && [] + e.regions == e.regions && IovRuns([e]) == [] + [e.run];
  }

  /** An affordable message, sent and submitted. */
  lemma {:induction false} SendOne(p: Setup, x: Server, frags: seq<seq<byte>>, n: nat) returns (actions: seq<Action>)
    requires WellSized(p, x) && Affordable(p, x, frags) && x.ring.producer.Outside?
    requires RingRuns.CaughtUp(p.ring, x.ring, n) && n + 1 < Size(p.ring)
    ensures SendmsgServer.Runs(p, x, actions) && AllAffordable(p, x, actions)
    ensures var y := SendmsgServer.After(p, x, actions);
      && RingRuns.CaughtUp(p.ring, y.ring, n + 1) && y.ring.producer.Outside?
      && y.ring.submitted == x.ring.submitted + [SendCall(p, 0, Mask(x.mem.pools.msgOffset), 0)]
      && y.mem == Pooled(Gather(x.mem.pools, frags, 0), x.mem.sent + [Receipt(x.mem.pools, frags, 0)])
      && y.wanted == x.wanted + [Some(Delivery(p.sysnum, 0, 0, 0, Concat(frags)))] && y.seen == x.seen && y.ring.executed == x.ring.executed
  {
    var a := Send(0, frags, 0, 0);
    Single(p, x, a);
    var y := Do(p, x, a);
    BeginKeepsInv(p.ring, x.ring, SendCall(p, 0, Mask(x.mem.pools.msgOffset), 0));
    var steps := RingRuns.FinishSubmission(p.ring, y.ring, n);
    Lift(p, y, steps);
    Join(p, x, [a], Lifted(steps));
    actions := [a] + Lifted(steps);
  }

  /** The first message, of one fragment. */
  lemma {:induction false} FirstMessage(p: Setup, x: Server, frag: seq<byte>) returns (actions: seq<Action>)
    requires Initially(p, x) && |frag| <= 1 && |frag| <= p.maxFragment && Size(p.ring) > 1
    ensures SendmsgServer.Runs(p, x, actions) && AllAffordable(p, x, actions)
    ensures Row(p, SendmsgServer.After(p, x, actions), 1, [frag])
  {
    InitialInv(p.ring, x.ring);
    FirstIsAffordable(p, x, frag);
    actions := SendOne(p, x, [frag], 0);
    RowStarts(p, x.mem.pools, SendmsgServer.After(p, x, actions), frag);
  }

  lemma {:induction false} FirstIsAffordable(p: Setup, x: Server, frag: seq<byte>)
    requires Initially(p, x) && |frag| <= 1 && |frag| <= p.maxFragment
    ensures Affordable(p, x, [frag])
  {
    OneFragment(x.mem.pools, frag);
    assert PendingSent(x) == [] && IovRuns([]) == [];
  }

  lemma {:induction false} RowStarts(p: Setup, m: Memory, y: Server, frag: seq<byte>)
    requires ValidMemory(m) && m.iovOffset == m.msgOffset == 0 && |frag| <= p.maxFragment <= p.cap == |m.bytes|
    requires RingRuns.CaughtUp(p.ring, y.ring, 1) && y.ring.producer.Outside?
    requires y.mem == Pooled(Gather(m, [frag], 0), [Receipt(m, [frag], 0)])
    requires y.ring.submitted == [SendCall(p, 0, 0, 0)] && y.ring.executed == []
    requires |y.wanted| == 1 && Asks(y.wanted[0], [frag]) && y.seen == []
    ensures Row(p, y, 1, [frag])
  {
    FirstGather(m, frag);
    SumsOfOne(Receipt(m, [frag], 0));
  }

  lemma {:induction false} EmptyGather(m: Memory)
    requires ValidMemory(m) && m.iovOffset == 1
    ensures Receipt(m, [], 0).regions == [] && Receipt(m, [], 0).run.len == 0 && Total([]) == 0
    ensures Gather(m, [], 0).iovOffset == 1 && Gather(m, [], 0).msgOffset == Mask(m.msgOffset) + 1
    ensures Gather(m, [], 0).msgs == m.msgs[Mask(m.msgOffset) := Header(1, 0, 0)]
  {
  }

  lemma {:induction false} SumsWithEmpty(sent: seq<Sent>, e: Sent)
    requires e.regions == [] && e.run.len == 0
    ensures Flat(sent + [e]) == Flat(sent) && Sum(IovRuns(sent + [e])) == Sum(IovRuns(sent))
  {
    FlatOfAppend(sent, e);
    SumOfAppend(IovRuns(sent), e.run);
    assert IovRuns(sent + [e]) == IovRuns(sent) + [e.run];
  }

  lemma {:induction false} EmptyIsAffordable(p: Setup, x: Server, n: nat, first: seq<seq<byte>>)
    requires Row(p, x, n, first) && Total(first) <= 1
    ensures Affordable(p, x, [])
  {
    assert PendingSent(x) == x.mem.sent;
  }

  /** Empty messages behind it, as many as the ring takes. */
  lemma {:induction false} EmptyMessages(p: Setup, x: Server, n: nat, first: seq<seq<byte>>)
    returns (actions: seq<Action>)
    requires Row(p, x, 1, first) && Total(first) <= 1 && 1 <= n < Size(p.ring)
    ensures SendmsgServer.Runs(p, x, actions) && AllAffordable(p, x, actions)
    ensures Row(p, SendmsgServer.After(p, x, actions), n, first)
    decreases n
  {
    if n == 1 {
      actions := [];
    } else {
      var before := EmptyMessages(p, x, n - 1, first);
      var y := SendmsgServer.After(p, x, before);
      var last := EmptyMessage(p, y, n - 1, first);
      Join(p, x, before, last);
      actions := before + last;
    }
  }

  lemma {:induction false} EmptyMessage(p: Setup, x: Server, n: nat, first: seq<seq<byte>>)
    returns (actions: seq<Action>)
    requires Row(p, x, n, first) && Total(first) <= 1 && n + 1 < Size(p.ring)
    ensures SendmsgServer.Runs(p, x, actions) && AllAffordable(p, x, actions)
    ensures Row(p, SendmsgServer.After(p, x, actions), n + 1, first)
  {
    EmptyIsAffordable(p, x, n, first);
    actions := SendOne(p, x, [], n);
    RowGrows(p, x, SendmsgServer.After(p, x, actions), n, first);
  }

  lemma {:induction false} RowGrows(p: Setup, x: Server, y: Server, n: nat, first: seq<seq<byte>>)
    requires Row(p, x, n, first) && RingRuns.CaughtUp(p.ring, y.ring, n + 1) && y.ring.producer.Outside?
    requires y.mem == Pooled(Gather(x.mem.pools, [], 0), x.mem.sent + [Receipt(x.mem.pools, [], 0)])
    requires x.ring.submitted <= y.ring.submitted && y.ring.executed == [] && y.seen == []
    requires x.wanted <= y.wanted && |y.wanted| == |x.wanted| + 1
    ensures Row(p, y, n + 1, first)
  {
    EmptyGather(x.mem.pools);
    SumsWithEmpty(x.mem.sent, Receipt(x.mem.pools, [], 0));
    MaskNext(x.mem.pools.msgOffset, n);
    assert y.mem.sent[0] == x.mem.sent[0] && y.ring.submitted[0] == x.ring.submitted[0] && y.wanted[0] == x.wanted[0];
  }

  /** With 1024 messages pending, the next one takes the first one's header. */
  lemma {:induction false} TakeHeader(p: Setup, x: Server, first: seq<seq<byte>>) returns (a: Action)
    requires Row(p, x, POOL_SLOTS, first) && Total(first) <= 1
    ensures a.Send? && Can(p, x, a) && Affordable(p, x, a.frags)
    ensures var y := Do(p, x, a);
      && y.mem.pools.msgs[0] == Header(1, 0, 0) && !HeadersKept(y)
      && y.ring == x.ring.(producer := y.ring.producer) && !y.ring.producer.Marking?
      && y.wanted[0] == x.wanted[0] && y.seen == [] && Inv(p.ring, y.ring)
  {
    a := Send(0, [], 0, 0);
    EmptyIsAffordable(p, x, POOL_SLOTS, first);
    EmptyGather(x.mem.pools);
    BeginKeepsInv(p.ring, x.ring, SendCall(p, 0, 0, 0));
    var y := Do(p, x, a);
    assert y.mem.sent[0] == x.mem.sent[0];
  }

  /** The worker then finds an empty message behind the first call. */
  lemma {:induction false} FindsAnother(p: Setup, x: Server, n: nat) returns (actions: seq<Action>)
    requires WellSized(p, x) && RingRuns.CaughtUp(p.ring, x.ring, n) && n > 0 && !x.ring.producer.Marking?
    requires x.ring.executed == [] && |x.ring.submitted[0].args| == 3 && x.ring.submitted[0].args[1] == 0
    requires x.mem.pools.msgs[0] == Header(1, 0, 0) && x.seen == [] && |x.wanted| > 0
    requires x.wanted[0].Some? && x.wanted[0].value.data != []
    ensures SendmsgServer.Runs(p, x, actions) && AllAffordable(p, x, actions)
    ensures !(SendmsgServer.After(p, x, actions).seen <= SendmsgServer.After(p, x, actions).wanted)
  {
    var s, find := x.ring, [Poll, Snapshot];
    RingRuns.FindPending(p.ring, s, n);
    var t := RingRuns.FindHead(p.ring, s);
    RingProtocol.RunKeepsInv(p.ring, s, find);
    Lift(p, x, find);
    var y := SendmsgServer.After(p, x, Lifted(find));
    ExecutesNext(p.ring, t);
    Single(p, y, Ring(Execute));
    Join(p, x, Lifted(find), [Ring(Execute)]);
    actions := Lifted(find) + [Ring(Execute)];
    assert SendmsgServer.After(p, x, actions).seen[0].value.data == [];
  }

  /** A row of 1024 messages and the one that takes the first one's header. */
  lemma {:induction false} OverwriteHeader(p: Setup, x: Server, frag: seq<byte>) returns (actions: seq<Action>)
    requires Initially(p, x) && |frag| <= 1 && |frag| <= p.maxFragment && Size(p.ring) > POOL_SLOTS
    ensures SendmsgServer.Runs(p, x, actions) && AllAffordable(p, x, actions)
    ensures var y := SendmsgServer.After(p, x, actions);
      && !HeadersKept(y) && WellSized(p, y) && RingRuns.CaughtUp(p.ring, y.ring, POOL_SLOTS)
      && !y.ring.producer.Marking? && y.ring.executed == []
      && |y.ring.submitted[0].args| == 3 && y.ring.submitted[0].args[1] == 0
      && y.mem.pools.msgs[0] == Header(1, 0, 0) && y.seen == []
      && |y.wanted| > 0 && Asks(y.wanted[0], [frag])
  {
    OneFragment(x.mem.pools, frag);
    var one := FirstMessage(p, x, frag);
    var x1 := SendmsgServer.After(p, x, one);
    var row := EmptyMessages(p, x1, POOL_SLOTS, [frag]);
    var x2 := SendmsgServer.After(p, x1, row);
    var a := TakeHeader(p, x2, [frag]);
    Single(p, x2, a);
    Join(p, x1, row, [a]);
    Join(p, x, one, row + [a]);
    actions := one + (row + [a]);
  }

  // ---------- the exact condition ----------

  predicate KeepsHeaders(p: Setup, x: Server, actions: seq<Action>) {
    SendmsgServer.Runs(p, x, actions) ==> HeadersKept(SendmsgServer.After(p, x, actions))
  }

  /** No sequence of messages, of whatever size, makes a pending call lose its header, if and only
      if the ring has at most 1024 entries. */
  lemma {:induction false} HeadersAreKeptIff(p: Setup, x: Server)
    requires Initially(p, x)
    ensures Size(p.ring) <= POOL_SLOTS <==> forall actions :: KeepsHeaders(p, x, actions)
  {
    if Size(p.ring) <= POOL_SLOTS {
      InitialInv(p.ring, x.ring);
      forall actions ensures KeepsHeaders(p, x, actions) {
        if SendmsgServer.Runs(p, x, actions) {
          RunKeepsHeaders(p, x, actions);
        }
      }
    } else {
      var actions := OverwriteHeader(p, x, []);
      assert !KeepsHeaders(p, x, actions);
    }
  }

  predicate SendsWhole(p: Setup, x: Server, actions: seq<Action>) {
    SendmsgServer.Runs(p, x, actions) && AllAffordable(p, x, actions) ==>
      SendmsgServer.After(p, x, actions).seen <= SendmsgServer.After(p, x, actions).wanted
  }

  /** Messages that there is room for are sent whole on every run if and only if the ring has at
      most 1024 entries. */
  lemma {:induction false} MessagesAreSafeIff(p: Setup, x: Server)
    requires Initially(p, x) && 1 <= p.maxFragment
    ensures Size(p.ring) <= POOL_SLOTS <==> forall actions :: SendsWhole(p, x, actions)
  {
    if Size(p.ring) <= POOL_SLOTS {
      forall actions ensures SendsWhole(p, x, actions) {
        if SendmsgServer.Runs(p, x, actions) && AllAffordable(p, x, actions) {
          MessagesAreSentWhole(p, x, actions);
        }
      }
    } else {
      var before := OverwriteHeader(p, x, [0]);
      var y := SendmsgServer.After(p, x, before);
      assert Concat([[0]]) == [0] by {
        assert [[0 as byte]][..0] == [];
      }
      var after := FindsAnother(p, y, POOL_SLOTS);
      Join(p, x, before, after);
      assert !SendsWhole(p, x, before + after);
    }
  }
}
