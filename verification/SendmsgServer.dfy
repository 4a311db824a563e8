/** `sendmsg` over the three pools and one ring: every executed call follows its header to the
    very message its caller passed. */
module SendmsgServer {
  import opened Basics
  import opened Cursors
  import opened Calls
  import opened RingProtocol
  import opened Regions
  import opened BytePool
  import opened SendmsgGather
  import opened SideData

  /** The ring, the system-call number, and a bound on a single fragment. */
  datatype Setup = Setup(ring: Config, cap: nat, sysnum: nat, maxFragment: nat)

  /** What one call put where. */
  datatype Sent = Sent(slot: nat, header: Header, run: Region, regions: seq<Region>, frags: seq<seq<byte>>)

  datatype Pooled = Pooled(pools: Memory, sent: seq<Sent>)

  /** What the kernel is asked to do: which call, on which descriptor, with which call flags, and the
      flags and bytes of the message behind it. */
  datatype Delivery = Delivery(sysnum: nat, fd: int, callFlags: int, msgFlags: int, data: seq<byte>)

  type Server = Side<Pooled, Option<Delivery>>

  datatype Action = Send(fd: int, frags: seq<seq<byte>>, flags: int, callFlags: int) | Ring(step: Step)

  /** The first register is the descriptor and the third the flags; the second addresses the header,
      counted in headers from the start of its pool. */
  function Fetch(m: Pooled, e: Event): Option<Delivery> {
    if |e.regs| == MAX_ARGS && Follow(m.pools, e.regs[1]).Some?
    then Some(Delivery(e.sysnum, e.regs[0], e.regs[2], m.pools.msgs[e.regs[1]].flags,
                       Follow(m.pools, e.regs[1]).value))
    else None
  }

  function SendCall(p: Setup, fd: int, slot: nat, callFlags: int): Call {
    Call(p.sysnum, [fd, slot, callFlags])
  }

  function PendingSent(x: Server): seq<Sent>
    requires |x.ring.executed| <= |x.mem.sent|
  {
    x.mem.sent[|x.ring.executed|..]
  }

  function Flat(sent: seq<Sent>): seq<Region> {
    if |sent| == 0 then [] else Flat(sent[..|sent| - 1]) + sent[|sent| - 1].regions
  }

  function FlatFrags(sent: seq<Sent>): seq<seq<byte>> {
    if |sent| == 0 then [] else FlatFrags(sent[..|sent| - 1]) + sent[|sent| - 1].frags
  }

  function IovRuns(sent: seq<Sent>): (rs: seq<Region>)
    ensures |rs| == |sent|
    ensures forall k :: 0 <= k < |sent| ==> rs[k] == sent[k].run
  {
    seq(|sent|, k requires 0 <= k < |sent| => sent[k].run)
  }

  /** A message there is room for: its iovecs before the end of their pool, and all pending
      messages plus this one in the byte and iovec pools. */
  predicate Affordable(p: Setup, x: Server, frags: seq<seq<byte>>)
    requires |x.ring.executed| <= |x.mem.sent|
  {
    && FragmentsFit(frags, p.maxFragment)
    && Mask(x.mem.pools.iovOffset) + |frags| <= POOL_SLOTS
    && Sum(Flat(PendingSent(x))) + Total(frags) + p.maxFragment <= p.cap + 1
    && Sum(IovRuns(PendingSent(x))) + |frags| <= POOL_SLOTS
  }

  predicate WellSized(p: Setup, x: Server) {
    && ValidMemory(x.mem.pools) && |x.mem.pools.bytes| == p.cap >= p.maxFragment
    && |x.ring.executed| <= |x.mem.sent|
  }

  predicate Can(p: Setup, x: Server, a: Action) {
    && WellSized(p, x)
    && match a
       case Send(fd, frags, _, callFlags) =>
         Enabled(p.ring, x.ring, Begin(SendCall(p, fd, 0, callFlags))) && FragmentsFit(frags, p.cap)
       case Ring(step) => Legal(p.ring, x.ring, step) && !step.Begin?
  }

  function Receipt(m: Memory, frags: seq<seq<byte>>, flags: int): Sent
    requires ValidMemory(m) && FragmentsFit(frags, |m.bytes|)
  {
    Sent(Mask(m.msgOffset), Header(Mask(m.iovOffset), |frags|, flags), Region(Mask(m.iovOffset), |frags|),
         NewRegions(Masked(m), frags), frags)
  }

  function Do(p: Setup, x: Server, a: Action): Server
    requires Can(p, x, a)
  {
    match a
    case Send(fd, frags, flags, callFlags) =>
      var receipt := Receipt(x.mem.pools, frags, flags);
      Side(Apply(p.ring, x.ring, Begin(SendCall(p, fd, receipt.slot, callFlags))),
           Pooled(Gather(x.mem.pools, frags, flags), x.mem.sent + [receipt]),
           x.wanted + [Some(Delivery(p.sysnum, fd, callFlags, flags, Concat(frags)))], x.seen)
    case Ring(step) => Move(p.ring, Fetch, x, step)
  }

  predicate Runs(p: Setup, x: Server, actions: seq<Action>)
    decreases |actions|
  {
    |actions| > 0 ==> Can(p, x, actions[0]) && Runs(p, Do(p, x, actions[0]), actions[1..])
  }

  function After(p: Setup, x: Server, actions: seq<Action>): Server
    requires Runs(p, x, actions)
    decreases |actions|
  {
    if |actions| == 0 then x else After(p, Do(p, x, actions[0]), actions[1..])
  }

  /** Every message of the run is sent with room for it. */
  predicate AllAffordable(p: Setup, x: Server, actions: seq<Action>)
    requires Runs(p, x, actions)
    decreases |actions|
  {
    |actions| > 0 ==>
      && (actions[0].Send? ==> Affordable(p, x, actions[0].frags))
      && AllAffordable(p, Do(p, x, actions[0]), actions[1..])
  }

  ghost predicate Initially(p: Setup, x: Server) {
    && Initial(p.ring, x.ring) && WellSized(p, x)
    && x.mem.pools.offset == x.mem.pools.iovOffset == x.mem.pools.msgOffset == 0
    && x.mem.sent == [] && x.wanted == [] && x.seen == []
  }

  // ---------- invariant ----------

  predicate SentIntact(m: Memory, e: Sent) {
    Intact(m, e.slot, e.run, e.regions, e.frags) && m.msgs[e.slot].flags == e.header.flags
  }

  predicate AllIntact(m: Memory, pending: seq<Sent>) {
    forall k :: 0 <= k < |pending| ==> SentIntact(m, pending[k])
  }

  predicate BytesLaid(slack: nat, m: Memory, pending: seq<Sent>) {
    Room(m, slack, Flat(pending)) && Holding(m.bytes, Flat(pending), FlatFrags(pending))
  }

  predicate RunsLaid(iovOffset: nat, pending: seq<Sent>) {
    Laid(POOL_SLOTS, 1, IovRuns(pending)) && (|pending| > 0 ==> iovOffset == End(pending[|pending| - 1].run))
  }

  /** Everything the pending calls need is in place, and the next allocation comes after it. */
  predicate PendingInv(p: Setup, m: Memory, pending: seq<Sent>) {
    AllIntact(m, pending) && BytesLaid(p.maxFragment, m, pending) && RunsLaid(m.iovOffset, pending)
  }

  /** The `k`-th call names the `k`-th header slot. */
  ghost predicate Addressed(x: Server) {
    && |x.mem.sent| == |x.wanted| == Issued(x.ring)
    && Mask(x.mem.pools.msgOffset) == Mask(|x.mem.sent|)
    && forall k: nat :: k < |x.mem.sent| ==> AddressedAt(x, k)
  }

  ghost predicate ServerInv(p: Setup, x: Server) {
    && WellSized(p, x) && Addressed(x) && PendingInv(p, x.mem.pools, PendingSent(x))
  }

  lemma {:induction false} FlatOfAppend(sent: seq<Sent>, e: Sent)
    ensures Flat(sent + [e]) == Flat(sent) + e.regions
    ensures FlatFrags(sent + [e]) == FlatFrags(sent) + e.frags
  {
    assert (sent + [e])[..|sent|] == sent;
  }

  lemma {:induction false} FlatOfRest(sent: seq<Sent>)
    requires |sent| > 0
    ensures Flat(sent) == sent[0].regions + Flat(sent[1..])
    ensures FlatFrags(sent) == sent[0].frags + FlatFrags(sent[1..])
    decreases |sent|
  {
    if |sent| > 1 {
      var n := |sent| - 1;
      FlatOfRest(sent[..n]);
      assert sent[..n][1..] == sent[1..][..n - 1] && sent[1..][n - 1] == sent[n];
    } else {
      assert Flat(sent[..0]) == [] && FlatFrags(sent[..0]) == [];
    }
  }

  /** Each message's own regions hold its fragments. */
  lemma {:induction false} HoldingEach(bytes: seq<byte>, sent: seq<Sent>, k: nat)
    requires k < |sent| && Holding(bytes, Flat(sent), FlatFrags(sent))
    requires forall i :: 0 <= i < |sent| ==> |sent[i].regions| == |sent[i].frags|
    ensures Holding(bytes, sent[k].regions, sent[k].frags)
    decreases |sent|
  {
    var n := |sent| - 1;
    FlatLengths(sent[..n]);
    HoldingSuffix(bytes, Flat(sent[..n]), FlatFrags(sent[..n]), sent[n].regions, sent[n].frags);
    if k < n {
      HoldingEach(bytes, sent[..n], k);
    }
  }

  lemma {:induction false} FlatLengths(sent: seq<Sent>)
    requires forall i :: 0 <= i < |sent| ==> |sent[i].regions| == |sent[i].frags|
    ensures |Flat(sent)| == |FlatFrags(sent)|
    decreases |sent|
  {
    if |sent| > 0 {
      FlatLengths(sent[..|sent| - 1]);
    }
  }

  lemma {:induction false} LaidSuffix(cap: nat, slack: nat, a: seq<Region>, b: seq<Region>)
    requires Laid(cap, slack, a + b)
    ensures Laid(cap, slack, b)
  {
    forall k | 0 <= k < |b| ensures End(b[k]) <= cap && (k > 0 ==> Follows(cap, slack, b[k - 1], b[k])) {
      assert (a + b)[|a| + k] == b[k];
      if k > 0 {
        assert (a + b)[|a| + k - 1] == b[k - 1];
        assert Follows(cap, slack, (a + b)[|a| + k - 1], (a + b)[|a| + k]);
      }
    }
  }

  lemma {:induction false} PopKeepsBytes(slack: nat, m: Memory, pending: seq<Sent>)
    requires BytesLaid(slack, m, pending) && |pending| > 0 && |pending[0].regions| == |pending[0].frags|
    ensures BytesLaid(slack, m, pending[1..])
  {
    var first, rest := pending[0], pending[1..];
    FlatOfRest(pending);
    LaidSuffix(|m.bytes|, slack, first.regions, Flat(rest));
    HoldingSuffix(m.bytes, first.regions, first.frags, Flat(rest), FlatFrags(rest));
  }

  lemma {:induction false} PopKeepsRuns(iovOffset: nat, pending: seq<Sent>)
    requires RunsLaid(iovOffset, pending) && |pending| > 0
    ensures RunsLaid(iovOffset, pending[1..])
  {
    assert IovRuns(pending) == [pending[0].run] + IovRuns(pending[1..]);
    LaidSuffix(POOL_SLOTS, 1, [pending[0].run], IovRuns(pending[1..]));
  }

  /** Once the oldest pending call has executed, the rest is still in place. */
  lemma {:induction false} PopKeepsPending(p: Setup, m: Memory, pending: seq<Sent>)
    requires PendingInv(p, m, pending) && |pending| > 0
    ensures PendingInv(p, m, pending[1..])
  {
    assert SentIntact(m, pending[0]);
    PopKeepsBytes(p.maxFragment, m, pending);
    PopKeepsRuns(m.iovOffset, pending);
  }

  /** A new message leaves the run, the header and the bytes of every pending one alone. */
  lemma {:induction false} GatherSpares(p: Setup, m: Memory, pending: seq<Sent>, frags: seq<seq<byte>>, flags: int, k: nat)
    requires ValidMemory(m) && p.maxFragment <= |m.bytes| == p.cap && AllIntact(m, pending) && k < |pending|
    requires FragmentsFit(frags, p.maxFragment) && Mask(m.iovOffset) + |frags| <= POOL_SLOTS
    requires Holding(Gather(m, frags, flags).bytes, Flat(pending), FlatFrags(pending))
    requires Apart(pending[k].run, Region(Mask(m.iovOffset), |frags|)) && pending[k].slot != Mask(m.msgOffset)
    ensures SentIntact(Gather(m, frags, flags), pending[k])
  {
    var after, e := Gather(m, frags, flags), pending[k];
    assert SentIntact(m, e);
    HoldingEach(after.bytes, pending, k);
    PutIovecs(Masked(m), frags);
    SpliceOutside(m.iovs, NewRegions(Masked(m), frags), Mask(m.iovOffset), e.run);
  }

  lemma {:induction false} SpliceOutside<T>(s: seq<T>, b: seq<T>, o: nat, r: Region)
    requires o + |b| <= |s| && End(r) <= |s| && Apart(r, Region(o, |b|))
    ensures (s[..o] + b + s[o + |b|..])[r.start..End(r)] == s[r.start..End(r)]
  {
  }

  lemma {:induction false} SendKeepsRuns(m: Memory, pending: seq<Sent>, e: Sent)
    requires ValidMemory(m) && RunsLaid(m.iovOffset, pending)
    requires e.run.start == Mask(m.iovOffset) && End(e.run) <= POOL_SLOTS
    requires Sum(IovRuns(pending)) + e.run.len <= POOL_SLOTS
    ensures RunsLaid(End(e.run), pending + [e])
    ensures forall k :: 0 <= k < |pending| ==> Apart(pending[k].run, e.run)
  {
    var runs := IovRuns(pending);
    Extend(POOL_SLOTS, 1, runs, e.run);
    NewestApart(POOL_SLOTS, 1, runs, e.run);
    assert IovRuns(pending + [e]) == runs + [e.run];
    forall k | 0 <= k < |pending| ensures Apart(pending[k].run, e.run) {
      assert runs[k] in runs;
    }
  }

  /** Gathering one more affordable message keeps all pending ones, and adds it. */
  lemma {:induction false} SendKeepsPending(p: Setup, m: Memory, pending: seq<Sent>, frags: seq<seq<byte>>, flags: int)
    requires ValidMemory(m) && p.maxFragment <= |m.bytes| == p.cap && PendingInv(p, m, pending)
    requires FragmentsFit(frags, p.maxFragment) && Mask(m.iovOffset) + |frags| <= POOL_SLOTS
    requires Sum(Flat(pending)) + Total(frags) + p.maxFragment <= p.cap + 1
    requires Sum(IovRuns(pending)) + |frags| <= POOL_SLOTS
    requires forall k :: 0 <= k < |pending| ==> pending[k].slot != Mask(m.msgOffset)
    ensures PendingInv(p, Gather(m, frags, flags), pending + [Receipt(m, frags, flags)])
  {
    var e, after := Receipt(m, frags, flags), Gather(m, frags, flags);
    GatherIsIntact(m, p.maxFragment, Flat(pending), FlatFrags(pending), frags, flags);
    FlatOfAppend(pending, e);
    SendKeepsRuns(m, pending, e);
    HoldingSuffix(after.bytes, Flat(pending), FlatFrags(pending), e.regions, frags);
    forall k | 0 <= k < |pending| ensures SentIntact(after, pending[k]) {
      GatherSpares(p, m, pending, frags, flags, k);
    }
    PutIovecs(Masked(m), frags);
  }

  /** Header slots are reused after 1024 calls: calls less than a ring apart never share one exactly
      when the ring has at most 1024 entries. */
  lemma {:induction false} HeaderSlotsDistinct(size: nat)
    requires size > 0
    ensures size <= POOL_SLOTS <==> forall j: nat, k: nat :: j < k < j + size ==> Mask(j) != Mask(k)
  {
    if size > POOL_SLOTS {
      assert Mask(0) == Mask(POOL_SLOTS);
    }
  }

  // ---------- every action keeps the invariant ----------

  lemma {:induction false} IntactIsStillThere(p: Setup, x: Server, m: Pooled)
    requires Inv(p.ring, x.ring) && WellSized(p, x) && Addressed(x)
    requires AllIntact(m.pools, PendingSent(x))
    ensures StillThere(Fetch, x.ring, m, x.wanted)
  {
    forall k: nat | |x.ring.executed| <= k < |x.wanted|
      ensures ValidCall(CallAt(x.ring, k)) && Fetch(m, Image(CallAt(x.ring, k))) == x.wanted[k]
    {
      var e := x.mem.sent[k];
      assert PendingSent(x)[k - |x.ring.executed|] == e && AddressedAt(x, k);
      assert SentIntact(m.pools, e);
      IntactReadsMessage(m.pools, e.slot, e.run, e.regions, e.frags);
    }
  }

  lemma {:induction false} SlotIsFree(p: Setup, x: Server)
    requires Inv(p.ring, x.ring) && WellSized(p, x) && Addressed(x) && x.ring.producer.Outside?
    requires Size(p.ring) <= POOL_SLOTS
    ensures forall k :: 0 <= k < |PendingSent(x)| ==> PendingSent(x)[k].slot != Mask(x.mem.pools.msgOffset)
  {
    HeaderSlotsDistinct(Size(p.ring));
    forall k | 0 <= k < |PendingSent(x)| ensures PendingSent(x)[k].slot != Mask(x.mem.pools.msgOffset) {
      var i := |x.ring.executed| + k;
      assert PendingSent(x)[k] == x.mem.sent[i] && AddressedAt(x, i);
      PendingWindow(p.ring, x.ring, i);
    }
  }

  lemma {:induction false} SendKeepsPool(p: Setup, x: Server, a: Action)
    requires Size(p.ring) <= POOL_SLOTS && Inv(p.ring, x.ring) && ServerInv(p, x)
    requires Can(p, x, a) && a.Send? && Affordable(p, x, a.frags)
    ensures PendingInv(p, Gather(x.mem.pools, a.frags, a.flags),
                       PendingSent(x) + [Receipt(x.mem.pools, a.frags, a.flags)])
  {
    SlotIsFree(p, x);
    SendKeepsPending(p, x.mem.pools, PendingSent(x), a.frags, a.flags);
  }

  lemma {:induction false} IntactPrefix(m: Memory, pending: seq<Sent>, e: Sent)
    requires AllIntact(m, pending + [e])
    ensures AllIntact(m, pending) && SentIntact(m, e)
  {
    var all := pending + [e];
    assert SentIntact(m, all[|pending|]);
    forall k | 0 <= k < |pending| ensures SentIntact(m, pending[k]) {
      assert all[k] == pending[k];
    }
  }

  lemma {:induction false} SendKeepsCoherent(p: Setup, x: Server, a: Action)
    requires Size(p.ring) <= POOL_SLOTS && Coherent(p.ring, Fetch, x) && ServerInv(p, x)
    requires Can(p, x, a) && a.Send? && Affordable(p, x, a.frags)
    ensures Coherent(p.ring, Fetch, Do(p, x, a))
  {
    var e := Receipt(x.mem.pools, a.frags, a.flags);
    var m := Pooled(Gather(x.mem.pools, a.frags, a.flags), x.mem.sent + [e]);
    SendKeepsPool(p, x, a);
    IntactPrefix(m.pools, PendingSent(x), e);
    IntactIsStillThere(p, x, m);
    IntactReadsMessage(m.pools, e.slot, e.run, e.regions, e.frags);
    IssueKeepsCoherent(p.ring, Fetch, x, SendCall(p, a.fd, e.slot, a.callFlags), m,
      Some(Delivery(p.sysnum, a.fd, a.callFlags, a.flags, Concat(a.frags))));
  }

  predicate AddressedAt(x: Server, k: nat)
    requires |x.mem.sent| == |x.wanted| == Issued(x.ring) && k < |x.mem.sent|
  {
    var call, e := CallAt(x.ring, k), x.mem.sent[k];
    && e.slot == Mask(k) && |call.args| == 3 && call.args[1] == Mask(k)
    && x.wanted[k] == Some(Delivery(call.sysnum, call.args[0], call.args[2], e.header.flags, Concat(e.frags)))
  }

  lemma {:induction false} MaskNext(a: nat, b: nat)
    requires Mask(a) == Mask(b)
    ensures Mask(Mask(a) + 1) == Mask(b + 1)
  {
  }

  lemma {:induction false} SendKeepsAddressed(p: Setup, x: Server, a: Action)
    requires Addressed(x) && Can(p, x, a) && a.Send?
    ensures Addressed(Do(p, x, a))
  {
    BeginKeepsCalls(p.ring, x.ring, SendCall(p, a.fd, Mask(x.mem.pools.msgOffset), a.callFlags));
    MaskNext(x.mem.pools.msgOffset, |x.mem.sent|);
    var y := Do(p, x, a);
    forall k: nat | k < |y.mem.sent| ensures AddressedAt(y, k) {
      if k < |x.mem.sent| {
        assert AddressedAt(x, k);
      }
    }
  }

  lemma {:induction false} SendKeepsServerInv(p: Setup, x: Server, a: Action)
    requires Size(p.ring) <= POOL_SLOTS && Inv(p.ring, x.ring) && ServerInv(p, x)
    requires Can(p, x, a) && a.Send? && Affordable(p, x, a.frags)
    ensures ServerInv(p, Do(p, x, a))
  {
    SendKeepsPool(p, x, a);
    SendKeepsAddressed(p, x, a);
    SuffixOfAppend(x.mem.sent, Receipt(x.mem.pools, a.frags, a.flags), |x.ring.executed|);
  }

  lemma {:induction false} SuffixOfAppend<T>(s: seq<T>, e: T, n: nat)
    requires n <= |s|
    ensures (s + [e])[n..] == s[n..] + [e]
  {
  }

  lemma {:induction false} RingKeepsAddressed(p: Setup, x: Server, step: Step)
    requires Inv(p.ring, x.ring) && Addressed(x) && Can(p, x, Ring(step))
    ensures Addressed(Do(p, x, Ring(step)))
  {
    MoveKeepsCalls(p.ring, x.ring, step);
    var y := Do(p, x, Ring(step));
    forall k: nat | k < |y.mem.sent| ensures AddressedAt(y, k) {
      assert AddressedAt(x, k);
    }
  }

  /** Executing takes the oldest message off the pending ones; no other ring step changes them. */
  lemma {:induction false} PendingAfter(p: Setup, x: Server, step: Step)
    requires Inv(p.ring, x.ring) && |x.mem.sent| == Issued(x.ring) && Can(p, x, Ring(step))
    ensures WellSized(p, Do(p, x, Ring(step)))
    ensures step.Execute? ==> |PendingSent(x)| > 0
    ensures PendingSent(Do(p, x, Ring(step))) == if step.Execute? then PendingSent(x)[1..] else PendingSent(x)
  {
    OnlyExecuteExecutes(p.ring, x.ring, step);
    if step.Execute? {
      ExecutesNext(p.ring, x.ring);
    }
  }

  lemma {:induction false} RingKeepsServerInv(p: Setup, x: Server, step: Step)
    requires Inv(p.ring, x.ring) && ServerInv(p, x) && Can(p, x, Ring(step))
    ensures ServerInv(p, Do(p, x, Ring(step)))
  {
    RingKeepsAddressed(p, x, step);
    PendingAfter(p, x, step);
    if step.Execute? {
      PopKeepsPending(p, x.mem.pools, PendingSent(x));
    }
  }

  lemma {:induction false} RunKeepsInv(p: Setup, x: Server, actions: seq<Action>)
    requires Size(p.ring) <= POOL_SLOTS && Coherent(p.ring, Fetch, x) && ServerInv(p, x)
    requires Runs(p, x, actions) && AllAffordable(p, x, actions)
    ensures Coherent(p.ring, Fetch, After(p, x, actions))
    decreases |actions|
  {
    if |actions| > 0 {
      match actions[0] {
        case Send(_, _, _, _) =>
          SendKeepsCoherent(p, x, actions[0]);
          SendKeepsServerInv(p, x, actions[0]);
        case Ring(step) =>
          MoveKeepsCoherent(p.ring, Fetch, x, step);
          RingKeepsServerInv(p, x, step);
      }
      RunKeepsInv(p, Do(p, x, actions[0]), actions[1..]);
    }
  }

  /** On every interleaving of affordable `sendmsg` calls with a ring of at most 1024 entries,
      each executed call followed its header to exactly the concatenation of its caller's
      fragments, in order, over any number of wraps of the three pools. */
  lemma {:induction false} MessagesAreSentWhole(p: Setup, x: Server, actions: seq<Action>)
    requires Size(p.ring) <= POOL_SLOTS && Initially(p, x) && Runs(p, x, actions) && AllAffordable(p, x, actions)
    ensures After(p, x, actions).seen <= After(p, x, actions).wanted
    ensures |After(p, x, actions).seen| == |After(p, x, actions).ring.executed|
  {
    InitialInv(p.ring, x.ring);
    RunKeepsInv(p, x, actions);
  }

  // ---------- a bound that makes every message affordable ----------

  lemma {:induction false} SumIsTotal(bytes: seq<byte>, rs: seq<Region>, frags: seq<seq<byte>>)
    requires Holding(bytes, rs, frags)
    ensures Sum(rs) == Total(frags)
    decreases |rs|
  {
    if |rs| > 0 {
      var n := |rs| - 1;
      assert |Load(bytes, rs[n])| == rs[n].len;
      SumIsTotal(bytes, rs[..n], frags[..n]);
    }
  }

  lemma {:induction false} SumOfConcat(a: seq<Region>, b: seq<Region>)
    ensures Sum(a + b) == Sum(a) + Sum(b)
    decreases |b|
  {
    if |b| == 0 {
      assert a + b == a;
    } else {
      var n := |b| - 1;
      SumOfConcat(a, b[..n]);
      assert (a + b)[..|a| + n] == a + b[..n];
    }
  }

  lemma {:induction false} PendingBytes(m: Memory, pending: seq<Sent>, most: nat)
    requires AllIntact(m, pending) && forall k :: 0 <= k < |pending| ==> Total(pending[k].frags) <= most
    ensures Sum(Flat(pending)) <= |pending| * most
    decreases |pending|
  {
    if |pending| > 0 {
      var n := |pending| - 1;
      PendingBytes(m, pending[..n], most);
      SumOfConcat(Flat(pending[..n]), pending[n].regions);
      assert SentIntact(m, pending[n]);
      SumIsTotal(m.bytes, pending[n].regions, pending[n].frags);
      OneMore(n, n, most);
    }
  }

  /** Fewer than `n` pending messages leave room for one more within `n` times the bounds. */
  lemma {:induction false} PendingFits(m: Memory, pending: seq<Sent>, n: nat, most: nat, parts: nat)
    requires AllIntact(m, pending) && |pending| < n && Within(pending, most, parts)
    ensures Sum(Flat(pending)) + most <= n * most && Sum(IovRuns(pending)) + parts <= n * parts
  {
    PendingBytes(m, pending, most);
    OneMore(|pending|, n - 1, most);
    SumAtMost(IovRuns(pending), parts);
    OneMore(|pending|, n - 1, parts);
  }

  /** The `k`-th message sent so far is within the bounds. */
  predicate Within(sent: seq<Sent>, most: nat, parts: nat) {
    forall k :: 0 <= k < |sent| ==> Total(sent[k].frags) <= most && sent[k].run.len <= parts
  }

  /** With messages of at most `most` bytes in at most `parts` fragments, a pool of size * most
      bytes plus one fragment, and at most 1024 iovecs over a full ring, every message whose
      iovecs do not cross the end of their pool is affordable. */
  lemma {:induction false} AffordableByBounds(p: Setup, x: Server, frags: seq<seq<byte>>, most: nat, parts: nat)
    requires Coherent(p.ring, Fetch, x) && ServerInv(p, x) && x.ring.producer.Outside?
    requires Within(x.mem.sent, most, parts) && LargeEnough(p, most, parts)
    requires FragmentsFit(frags, p.maxFragment) && Total(frags) <= most && |frags| <= parts
    requires Mask(x.mem.pools.iovOffset) + |frags| <= POOL_SLOTS
    ensures Affordable(p, x, frags)
  {
    PendingFits(x.mem.pools, PendingSent(x), Size(p.ring), most, parts);
  }

  /** Pools that hold a whole ring of messages of at most `most` bytes in at most `parts` fragments. */
  predicate LargeEnough(p: Setup, most: nat, parts: nat) {
    && Size(p.ring) * most + p.maxFragment <= p.cap + 1 && Size(p.ring) * parts <= POOL_SLOTS
    && Size(p.ring) <= POOL_SLOTS
  }

  /** What the producer can see for itself before each call: the message is within the bounds, and
      its iovecs do not cross the end of their pool. */
  predicate Checked(p: Setup, x: Server, actions: seq<Action>, most: nat, parts: nat)
    requires Runs(p, x, actions)
    decreases |actions|
  {
    |actions| > 0 ==>
      && (actions[0].Send? ==>
            && FragmentsFit(actions[0].frags, p.maxFragment) && Total(actions[0].frags) <= most
            && |actions[0].frags| <= parts && Mask(x.mem.pools.iovOffset) + |actions[0].frags| <= POOL_SLOTS)
      && Checked(p, Do(p, x, actions[0]), actions[1..], most, parts)
  }

  lemma {:induction false} WithinOneMore(p: Setup, x: Server, a: Action, most: nat, parts: nat)
    requires Can(p, x, a) && a.Send? && Within(x.mem.sent, most, parts)
    requires Total(a.frags) <= most && |a.frags| <= parts
    ensures Within(Do(p, x, a).mem.sent, most, parts)
  {
  }

  /** Every message that passes the producer's check finds room. */
  lemma {:induction false} CheckedIsAffordable(p: Setup, x: Server, actions: seq<Action>, most: nat, parts: nat)
    requires Coherent(p.ring, Fetch, x) && ServerInv(p, x)
    requires Within(x.mem.sent, most, parts) && LargeEnough(p, most, parts)
    requires Runs(p, x, actions) && Checked(p, x, actions, most, parts)
    ensures AllAffordable(p, x, actions)
    decreases |actions|
  {
    if |actions| > 0 {
      match actions[0] {
        case Send(_, frags, _, _) =>
          AffordableByBounds(p, x, frags, most, parts);
          SendKeepsCoherent(p, x, actions[0]);
          SendKeepsServerInv(p, x, actions[0]);
          WithinOneMore(p, x, actions[0], most, parts);
        case Ring(step) =>
          MoveKeepsCoherent(p.ring, Fetch, x, step);
          RingKeepsServerInv(p, x, step);
      }
      CheckedIsAffordable(p, Do(p, x, actions[0]), actions[1..], most, parts);
    }
  }

  /** With the sizes fixed beforehand and the one check a producer can make, every executed call of
      every run found its caller's message. */
  lemma {:induction false} CheckedMessagesAreSentWhole(
    p: Setup, x: Server, actions: seq<Action>, most: nat, parts: nat)
    requires Initially(p, x) && LargeEnough(p, most, parts)
    requires Runs(p, x, actions) && Checked(p, x, actions, most, parts)
    ensures After(p, x, actions).seen <= After(p, x, actions).wanted
    ensures |After(p, x, actions).seen| == |After(p, x, actions).ring.executed|
  {
    InitialInv(p.ring, x.ring);
    CheckedIsAffordable(p, x, actions, most, parts);
    MessagesAreSentWhole(p, x, actions);
  }
}
