/** `write` over the byte pool and one ring: the buffer is copied into the pool before the call
    is put into the ring, and the kernel reads the pool only when the worker runs the call. */
module TlsWrite {
  import opened Basics
  import opened Cursors
  import opened Calls
  import opened RingProtocol
  import opened Regions
  import opened BytePool
  import opened SideData

  /** The ring, the pool's size and address, and a bound on the size of a single write. */
  datatype Setup = Setup(ring: Config, cap: nat, base: int, sysnum: nat, maxWrite: nat)

  /** The pool with the history of regions handed out, one per call. */
  datatype Memory = Memory(bytes: seq<byte>, offset: nat, regions: seq<Region>)

  /** What the kernel is asked to do: which call, on which descriptor, with which bytes. */
  datatype Written = Written(sysnum: nat, fd: int, bytes: seq<byte>)

  type Server = Side<Memory, Option<Written>>

  datatype Action = Write(fd: int, buf: seq<byte>) | Ring(step: Step)

  function WriteCall(p: Setup, fd: int, r: Region): Call {
    Call(p.sysnum, [fd, p.base + r.start, r.len])
  }

  /** What the kernel's `write` is given: the descriptor in the first register, and the bytes at the
      address in the second, as many as the third says. */
  function Fetch(p: Setup): (Memory, Event) -> Option<Written> {
    (m: Memory, e: Event) =>
      if |e.regs| == MAX_ARGS && 0 <= e.regs[1] - p.base && 0 <= e.regs[2]
         && e.regs[1] - p.base + e.regs[2] <= |m.bytes|
      then Some(Written(e.sysnum, e.regs[0], Load(m.bytes, Region(e.regs[1] - p.base, e.regs[2]))))
      else None
  }

  predicate Can(p: Setup, x: Server, a: Action) {
    match a
    case Write(fd, buf) => Enabled(p.ring, x.ring, Begin(Call(p.sysnum, [fd, 0, 0]))) && |buf| <= p.maxWrite
    case Ring(step) => Legal(p.ring, x.ring, step) && !step.Begin?
  }

  function NewRegion(p: Setup, m: Memory, len: nat): Region {
    Region(Start(p.cap, m.offset, len), len)
  }

  function Do(p: Setup, x: Server, a: Action): Server
    requires p.maxWrite <= p.cap == |x.mem.bytes| && Can(p, x, a)
  {
    match a
    case Write(fd, buf) =>
      var r := NewRegion(p, x.mem, |buf|);
      Side(Apply(p.ring, x.ring, Begin(WriteCall(p, fd, r))),
           Memory(Store(x.mem.bytes, r.start, buf), End(r), x.mem.regions + [r]),
           x.wanted + [Some(Written(p.sysnum, fd, buf))], x.seen)
    case Ring(step) => Move(p.ring, Fetch(p), x, step)
  }

  predicate Runs(p: Setup, x: Server, actions: seq<Action>)
    decreases |actions|
  {
    && p.maxWrite <= p.cap == |x.mem.bytes|
    && (|actions| > 0 ==> Can(p, x, actions[0]) && Runs(p, Do(p, x, actions[0]), actions[1..]))
  }

  function After(p: Setup, x: Server, actions: seq<Action>): Server
    requires Runs(p, x, actions)
    decreases |actions|
  {
    if |actions| == 0 then x else After(p, Do(p, x, actions[0]), actions[1..])
  }

  ghost predicate Initially(p: Setup, x: Server) {
    && Initial(p.ring, x.ring) && |x.mem.bytes| == p.cap
    && x.mem.offset == 0 && x.mem.regions == [] && x.wanted == [] && x.seen == []
  }

  /** Call `k` carries the address and length of region `k`. */
  predicate PointsAt(p: Setup, call: Call, r: Region) {
    |call.args| == 3 && call.args[1] == p.base + r.start && call.args[2] == r.len
  }

  ghost predicate PoolInv(p: Setup, x: Server) {
    && |x.mem.bytes| == p.cap
    && Laid(p.cap, p.maxWrite, x.mem.regions) && Small(p.maxWrite, x.mem.regions)
    && |x.mem.regions| == |x.wanted| == Issued(x.ring)
    && x.mem.offset == (if |x.mem.regions| == 0 then 0 else End(x.mem.regions[|x.mem.regions| - 1]))
    && forall k: nat :: k < |x.mem.regions| ==> PointsAt(p, CallAt(x.ring, k), x.mem.regions[k])
  }

  /** With at most size-1 calls pending, the pool holds them all plus the next one. */
  predicate PoolIsLargeEnough(p: Setup) {
    p.maxWrite <= p.cap && (Size(p.ring) + 1) * p.maxWrite <= p.cap + 1
  }

  lemma {:induction false} FetchRegion(p: Setup, m: Memory, call: Call, r: Region)
    requires PointsAt(p, call, r) && Inside(m.bytes, r)
    ensures Fetch(p)(m, Image(call)) == Some(Written(call.sysnum, call.args[0], Load(m.bytes, r)))
  {
  }

  /** The copy of a new buffer disturbs no pending one. */
  lemma {:induction false} CopySparesPending(p: Setup, x: Server, buf: seq<byte>)
    requires PoolIsLargeEnough(p) && Coherent(p.ring, Fetch(p), x) && PoolInv(p, x)
    requires x.ring.producer.Outside? && |buf| <= p.maxWrite
    ensures var r := NewRegion(p, x.mem, |buf|);
      && Laid(p.cap, p.maxWrite, x.mem.regions + [r])
      && StillThere(Fetch(p), x.ring,
           Memory(Store(x.mem.bytes, r.start, buf), End(r), x.mem.regions + [r]), x.wanted)
  {
    var r := NewRegion(p, x.mem, |buf|);
    var rs := x.mem.regions + [r];
    var m := Memory(Store(x.mem.bytes, r.start, buf), End(r), rs);
    Extend(p.cap, p.maxWrite, x.mem.regions, r);
    forall k: nat | |x.ring.executed| <= k < |x.wanted|
      ensures Fetch(p)(m, Image(CallAt(x.ring, k))) == x.wanted[k]
    {
      PendingWindow(p.ring, x.ring, k);
      BoundedWindowApart(p.cap, p.maxWrite, rs, k, |x.wanted|, Size(p.ring));
      LoadAfterStore(x.mem.bytes, r, buf, rs[k]);
      assert PointsAt(p, CallAt(x.ring, k), x.mem.regions[k]);
      FetchRegion(p, x.mem, CallAt(x.ring, k), rs[k]);
      FetchRegion(p, m, CallAt(x.ring, k), rs[k]);
    }
  }

  lemma {:induction false} WriteKeepsCoherent(p: Setup, x: Server, fd: int, buf: seq<byte>)
    requires PoolIsLargeEnough(p) && Coherent(p.ring, Fetch(p), x) && PoolInv(p, x)
    requires Can(p, x, Write(fd, buf))
    ensures Coherent(p.ring, Fetch(p), Do(p, x, Write(fd, buf)))
  {
    var r := NewRegion(p, x.mem, |buf|);
    var m := Memory(Store(x.mem.bytes, r.start, buf), End(r), x.mem.regions + [r]);
    CopySparesPending(p, x, buf);
    LoadAfterStore(x.mem.bytes, r, buf, r);
    FetchRegion(p, m, WriteCall(p, fd, r), r);
    IssueKeepsCoherent(p.ring, Fetch(p), x, WriteCall(p, fd, r), m, Some(Written(p.sysnum, fd, buf)));
  }

  lemma {:induction false} WriteKeepsPool(p: Setup, x: Server, fd: int, buf: seq<byte>)
    requires PoolIsLargeEnough(p) && Coherent(p.ring, Fetch(p), x) && PoolInv(p, x)
    requires Can(p, x, Write(fd, buf))
    ensures PoolInv(p, Do(p, x, Write(fd, buf)))
  {
    CopySparesPending(p, x, buf);
    var y := Do(p, x, Write(fd, buf));
    forall k: nat | k < |y.mem.regions| ensures PointsAt(p, CallAt(y.ring, k), y.mem.regions[k]) {
      if k < |x.mem.regions| {
        assert PointsAt(p, CallAt(x.ring, k), x.mem.regions[k]);
      }
    }
  }

  lemma {:induction false} SameCallsKeepPool(p: Setup, x: Server, y: Server)
    requires PoolInv(p, x) && y.mem == x.mem && y.wanted == x.wanted && Issued(y.ring) == Issued(x.ring)
    requires forall k: nat :: k < Issued(x.ring) ==> CallAt(y.ring, k) == CallAt(x.ring, k)
    ensures PoolInv(p, y)
  {
  }

  lemma {:induction false} RingKeepsPool(p: Setup, x: Server, step: Step)
    requires Inv(p.ring, x.ring) && PoolInv(p, x) && p.maxWrite <= p.cap && Can(p, x, Ring(step))
    ensures PoolInv(p, Do(p, x, Ring(step)))
  {
    MoveKeepsCalls(p.ring, x.ring, step);
    SameCallsKeepPool(p, x, Do(p, x, Ring(step)));
  }

  lemma {:induction false} RunKeepsInv(p: Setup, x: Server, actions: seq<Action>)
    requires PoolIsLargeEnough(p) && Coherent(p.ring, Fetch(p), x) && PoolInv(p, x)
    requires Runs(p, x, actions)
    ensures Coherent(p.ring, Fetch(p), After(p, x, actions)) && PoolInv(p, After(p, x, actions))
    decreases |actions|
  {
    if |actions| > 0 {
      match actions[0] {
        case Write(fd, buf) => WriteKeepsCoherent(p, x, fd, buf); WriteKeepsPool(p, x, fd, buf);
        case Ring(step) => MoveKeepsCoherent(p.ring, Fetch(p), x, step); RingKeepsPool(p, x, step);
      }
      RunKeepsInv(p, Do(p, x, actions[0]), actions[1..]);
    }
  }

  /** Pool integrity. On every interleaving, over any number of pool wraps, what the kernel was asked
      to do is, in order, what the callers asked for: a write, on the caller's descriptor, of exactly
      the buffer the caller passed. */
  lemma {:induction false} WritesSeeTheirBuffers(p: Setup, x: Server, actions: seq<Action>)
    requires PoolIsLargeEnough(p) && Initially(p, x) && Runs(p, x, actions)
    ensures After(p, x, actions).seen <= After(p, x, actions).wanted
    ensures |After(p, x, actions).seen| == |After(p, x, actions).ring.executed|
  {
    InitialInv(p.ring, x.ring);
    RunKeepsInv(p, x, actions);
  }
}
