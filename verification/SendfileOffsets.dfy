/** `sendfile64` with a private file offset per ring slot, and `shutdown`, over one ring. The
    wrapper copies the caller's offset into `off_arr` at the slot it is about to submit and moves
    the caller's variable on; the kernel reads, and writes back, the private copy when it runs. */
module SendfileOffsets {
  import opened Cursors
  import opened Calls
  import opened RingProtocol
  import opened SideData

  /** The part of the file one call sends. */
  datatype Range = Range(start: int, count: nat)

  /** One issued call: which offset variable it used, and the range it was given. */
  datatype Issue = Issue(variable: nat, range: Range)

  /** One row of `off_arr`, the callers' offset variables, and the sendfile calls issued. */
  datatype Memory = Memory(offs: seq<int>, vars: map<nat, int>, issues: seq<Issue>)

  datatype Setup = Setup(ring: Config, sendfile: nat, shutdown: nat)

  /** What the kernel is asked to do. */
  datatype Request =
    | Sending(outFd: int, inFd: int, range: Range)
    | ShuttingDown(fd: int, how: int)
    | Unknown

  type Server = Side<Memory, Request>

  datatype Action =
    | Sendfile(outFd: int, inFd: int, variable: nat, count: nat)
    | Shutdown(fd: int, how: int)
    | Ring(step: Step, writeBack: int)

  /** The kernel's `sendfile` takes the output and the input descriptor, the offset behind the third
      register, and the count in the fourth; its `shutdown` takes a descriptor and a direction. */
  function Fetch(p: Setup): (Memory, Event) -> Request {
    (m: Memory, e: Event) =>
      if |e.regs| != MAX_ARGS then Unknown
      else if e.sysnum == p.sendfile && 0 <= e.regs[2] < |m.offs| && e.regs[3] >= 0
      then Sending(e.regs[0], e.regs[1], Range(m.offs[e.regs[2]], e.regs[3]))
      else if e.sysnum == p.shutdown then ShuttingDown(e.regs[0], e.regs[1])
      else Unknown
  }

  function SendfileCall(p: Setup, outFd: int, inFd: int, at: nat, count: nat): Call {
    Call(p.sendfile, [outFd, inFd, at, count])
  }

  predicate Can(p: Setup, x: Server, a: Action) {
    && Shape(p.ring, x.ring) && Index(p.ring, x.ring.tail) < |x.mem.offs| && p.sendfile != p.shutdown
    && match a
       case Sendfile(_, _, v, _) => x.ring.producer.Outside? && v in x.mem.vars
       case Shutdown(_, _) => x.ring.producer.Outside?
       case Ring(step, _) => Legal(p.ring, x.ring, step) && !step.Begin?
  }

  /** Running a sendfile leaves the advanced offset, whatever it is, in the private copy. */
  function WriteBack(p: Setup, m: Memory, e: Event, value: int): Memory {
    if Fetch(p)(m, e).Sending? then m.(offs := m.offs[e.regs[2] := value]) else m
  }

  function Do(p: Setup, x: Server, a: Action): Server
    requires Can(p, x, a)
  {
    match a
    case Sendfile(outFd, inFd, v, count) =>
      var at, offset := Index(p.ring, x.ring.tail), x.mem.vars[v];
      Side(Apply(p.ring, x.ring, Begin(SendfileCall(p, outFd, inFd, at, count))),
           Memory(x.mem.offs[at := offset], x.mem.vars[v := offset + count],
                  x.mem.issues + [Issue(v, Range(offset, count))]),
           x.wanted + [Sending(outFd, inFd, Range(offset, count))], x.seen)
    case Shutdown(fd, how) =>
      Side(Apply(p.ring, x.ring, Begin(Call(p.shutdown, [fd, how]))), x.mem,
           x.wanted + [ShuttingDown(fd, how)], x.seen)
    case Ring(step, value) =>
      var y := Move(p.ring, Fetch(p), x, step);
      if step.Execute?
      then y.(mem := WriteBack(p, x.mem, Dispatch(x.ring.slots[Index(p.ring, x.ring.worker.at)]), value))
      else y
  }

  predicate Runs(p: Setup, x: Server, actions: seq<Action>)
    decreases |actions|
  {
    |actions| > 0 ==> Can(p, x, actions[0]) && Runs(p, Do(p, x, actions[0]), actions[1..])
  }

  function After(p: Setup, x: Server, actions: seq<Action>): Server
    requires Runs(p, x, actions)
    decreases |actions|
  {
    if |actions| == 0 then x else After(p, Do(p, x, actions[0]), actions[1..])
  }

  ghost predicate Initially(p: Setup, x: Server) {
    && Initial(p.ring, x.ring) && |x.mem.offs| >= Size(p.ring)
    && x.mem.issues == [] && x.wanted == [] && x.seen == []
  }

  // ---------- private offsets ----------

  /** A sendfile call addresses the private copy at its own slot. */
  predicate OwnSlot(p: Setup, call: Call, k: nat)
    requires ValidConfig(p.ring)
  {
    call.sysnum == p.sendfile ==> |call.args| == 4 && call.args[2] == Place(p.ring, k) && call.args[3] >= 0
  }

  ghost predicate SlotInv(p: Setup, x: Server) {
    && ValidConfig(p.ring) && |x.mem.offs| >= Size(p.ring) && Issued(x.ring) == |x.wanted|
    && forall k: nat :: k < Issued(x.ring) ==> OwnSlot(p, CallAt(x.ring, k), k)
  }

  /** Changing the private copy of entry `j` affects no other entry within a lap. */
  lemma {:induction false} OtherSlot(p: Setup, m: Memory, j: nat, value: int, call: Call, k: nat)
    requires ValidConfig(p.ring) && |m.offs| >= Size(p.ring) && ValidCall(call) && OwnSlot(p, call, k)
    requires j != k && j < k + Size(p.ring) && k < j + Size(p.ring)
    ensures Fetch(p)(m.(offs := m.offs[Place(p.ring, j) := value]), Image(call)) == Fetch(p)(m, Image(call))
  {
    if j < k {
      PlaceDistinct(p.ring, j, k);
    } else {
      PlaceDistinct(p.ring, k, j);
    }
  }

  lemma {:induction false} SendfileKeepsInv(p: Setup, x: Server, a: Action)
    requires Coherent(p.ring, Fetch(p), x) && SlotInv(p, x) && Can(p, x, a) && a.Sendfile?
    ensures Coherent(p.ring, Fetch(p), Do(p, x, a))
  {
    var t := |x.ring.submitted|;
    var at, offset := Index(p.ring, x.ring.tail), x.mem.vars[a.variable];
    var m := Memory(x.mem.offs[at := offset], x.mem.vars[a.variable := offset + a.count],
                    x.mem.issues + [Issue(a.variable, Range(offset, a.count))]);
    assert at == Place(p.ring, t);
    forall k: nat | |x.ring.executed| <= k < |x.wanted|
      ensures Fetch(p)(m, Image(CallAt(x.ring, k))) == x.wanted[k]
    {
      PendingWindow(p.ring, x.ring, k);
      assert OwnSlot(p, CallAt(x.ring, k), k);
      OtherSlot(p, x.mem, t, offset, CallAt(x.ring, k), k);
    }
    IssueKeepsCoherent(p.ring, Fetch(p), x, SendfileCall(p, a.outFd, a.inFd, at, a.count), m,
      Sending(a.outFd, a.inFd, Range(offset, a.count)));
  }

  lemma {:induction false} ShutdownKeepsInv(p: Setup, x: Server, a: Action)
    requires Coherent(p.ring, Fetch(p), x) && Can(p, x, a) && a.Shutdown?
    ensures Coherent(p.ring, Fetch(p), Do(p, x, a))
  {
    IssueKeepsCoherent(p.ring, Fetch(p), x, Call(p.shutdown, [a.fd, a.how]), x.mem,
      ShuttingDown(a.fd, a.how));
  }

  /** The write-back hits the executed entry's copy, which no pending entry shares. */
  lemma {:induction false} WriteBackSpares(p: Setup, x: Server, value: int)
    requires Coherent(p.ring, Fetch(p), x) && SlotInv(p, x) && Enabled(p.ring, x.ring, Execute)
    ensures var y := Move(p.ring, Fetch(p), x, Execute);
      StillThere(Fetch(p), y.ring,
        WriteBack(p, x.mem, Dispatch(x.ring.slots[Index(p.ring, x.ring.worker.at)]), value), x.wanted)
  {
    var y, n := Move(p.ring, Fetch(p), x, Execute), |x.ring.executed|;
    ExecutesNext(p.ring, x.ring);
    MoveKeepsCoherent(p.ring, Fetch(p), x, Execute);
    var e := Image(x.ring.submitted[n]);
    assert OwnSlot(p, CallAt(x.ring, n), n);
    forall k: nat | n < k < |x.wanted|
      ensures Fetch(p)(WriteBack(p, x.mem, e, value), Image(CallAt(y.ring, k))) == x.wanted[k]
    {
      assert CallAt(y.ring, k) == CallAt(x.ring, k) && OwnSlot(p, CallAt(x.ring, k), k);
      if Fetch(p)(x.mem, e).Sending? {
        OtherSlot(p, x.mem, n, value, CallAt(x.ring, k), k);
      }
    }
  }

  lemma {:induction false} RingKeepsInv(p: Setup, x: Server, a: Action)
    requires Coherent(p.ring, Fetch(p), x) && SlotInv(p, x) && Can(p, x, a) && a.Ring?
    ensures Coherent(p.ring, Fetch(p), Do(p, x, a))
  {
    MoveKeepsCoherent(p.ring, Fetch(p), x, a.step);
    if a.step.Execute? {
      WriteBackSpares(p, x, a.writeBack);
    }
  }

  lemma {:induction false} ActionKeepsSlots(p: Setup, x: Server, a: Action)
    requires Coherent(p.ring, Fetch(p), x) && SlotInv(p, x) && Can(p, x, a)
    ensures SlotInv(p, Do(p, x, a))
  {
    var y := Do(p, x, a);
    match a {
      case Ring(step, _) => MoveKeepsCalls(p.ring, x.ring, step);
      case Sendfile(_, _, _, _) => assert Index(p.ring, x.ring.tail) == Place(p.ring, |x.ring.submitted|);
      case Shutdown(_, _) =>
    }
    forall k: nat | k < Issued(y.ring) ensures OwnSlot(p, CallAt(y.ring, k), k) {
      if k < Issued(x.ring) {
        assert OwnSlot(p, CallAt(x.ring, k), k);
      }
    }
  }

  lemma {:induction false} RunKeepsInv(p: Setup, x: Server, actions: seq<Action>)
    requires Coherent(p.ring, Fetch(p), x) && SlotInv(p, x) && Runs(p, x, actions)
    ensures Coherent(p.ring, Fetch(p), After(p, x, actions))
    decreases |actions|
  {
    if |actions| > 0 {
      match actions[0] {
        case Sendfile(_, _, _, _) => SendfileKeepsInv(p, x, actions[0]);
        case Shutdown(_, _) => ShutdownKeepsInv(p, x, actions[0]);
        case Ring(_, _) => RingKeepsInv(p, x, actions[0]);
      }
      ActionKeepsSlots(p, x, actions[0]);
      RunKeepsInv(p, Do(p, x, actions[0]), actions[1..]);
    }
  }

  /** What the kernel was asked to do is, in order, what the callers asked for: every executed
      sendfile had its caller's two descriptors and count and the offset its caller's variable had
      when it was issued, although variables move on and slots are reused, and every executed
      shutdown its caller's descriptor and direction. */
  lemma {:induction false} OffsetsArePrivate(p: Setup, x: Server, actions: seq<Action>)
    requires Initially(p, x) && Runs(p, x, actions)
    ensures After(p, x, actions).seen <= After(p, x, actions).wanted
    ensures |After(p, x, actions).seen| == |After(p, x, actions).ring.executed|
  {
    InitialInv(p.ring, x.ring);
    RunKeepsInv(p, x, actions);
  }

  // ---------- calls sharing one offset variable ----------

  /** The ranges issued through one variable, in order. */
  function Through(issues: seq<Issue>, v: nat): seq<Range> {
    if |issues| == 0 then [] else
      var last := issues[|issues| - 1];
      Through(issues[..|issues| - 1], v) + (if last.variable == v then [last.range] else [])
  }

  /** `ranges` cover the interval from `from` to `to` piece by piece, no gap and no overlap. */
  predicate Tile(from: int, ranges: seq<Range>, to: int) {
    if |ranges| == 0 then from == to else
      var last := ranges[|ranges| - 1];
      Tile(from, ranges[..|ranges| - 1], last.start) && last.start + last.count == to
  }

  lemma {:induction false} TileOneMore(from: int, ranges: seq<Range>, to: int, count: nat)
    requires Tile(from, ranges, to)
    ensures Tile(from, ranges + [Range(to, count)], to + count)
  {
    assert (ranges + [Range(to, count)])[..|ranges|] == ranges;
  }

  lemma {:induction false} ActionKeepsTiling(p: Setup, x: Server, a: Action, v: nat, from: int)
    requires Can(p, x, a) && v in x.mem.vars && Tile(from, Through(x.mem.issues, v), x.mem.vars[v])
    ensures v in Do(p, x, a).mem.vars
    ensures Tile(from, Through(Do(p, x, a).mem.issues, v), Do(p, x, a).mem.vars[v])
  {
    if a.Sendfile? {
      var y := Do(p, x, a);
      assert y.mem.issues[..|x.mem.issues|] == x.mem.issues;
      if a.variable == v {
        TileOneMore(from, Through(x.mem.issues, v), x.mem.vars[v], a.count);
      } else {
        assert Through(x.mem.issues, v) + [] == Through(x.mem.issues, v);
      }
    }
  }

  /** On every run, the calls that share an offset variable submit ranges that tile the interval
      from the variable's first value to its last. */
  lemma {:induction false} SharedOffsetTiles(p: Setup, x: Server, actions: seq<Action>, v: nat, from: int)
    requires Runs(p, x, actions) && v in x.mem.vars && Tile(from, Through(x.mem.issues, v), x.mem.vars[v])
    ensures var e := After(p, x, actions).mem;
      v in e.vars && Tile(from, Through(e.issues, v), e.vars[v])
    decreases |actions|
  {
    if |actions| > 0 {
      ActionKeepsTiling(p, x, actions[0], v, from);
      SharedOffsetTiles(p, Do(p, x, actions[0]), actions[1..], v, from);
    }
  }

  /** Tiling ranges do not overlap: an earlier one ends where, or before, a later one starts. */
  lemma {:induction false} TilesDoNotOverlap(from: int, ranges: seq<Range>, to: int, i: nat, j: nat)
    requires Tile(from, ranges, to) && i < j < |ranges|
    ensures ranges[i].start + ranges[i].count <= ranges[j].start
    ensures j == i + 1 ==> ranges[i].start + ranges[i].count == ranges[j].start
    decreases |ranges|
  {
    var n := |ranges| - 1;
    if j < n {
      TilesDoNotOverlap(from, ranges[..n], ranges[n].start, i, j);
    } else if i < n - 1 {
      TilesDoNotOverlap(from, ranges[..n], ranges[n].start, i, n - 1);
    }
  }
}
