/** The io_uring echo server: its completion handlers, and the kernel side that issues and
    completes its requests, as one machine. Submission-queue entries are issued in order, and a
    provide takes effect when it is issued. A receive takes its buffer from the pool either when
    it is issued or later, when data is there. */
module EchoServer {
  import opened Basics
  import opened Counting

  const ENOBUFS: int := 105
  const MAX_MESSAGE_LEN: nat := 91280

  datatype Kind = ACCEPT | READ | WRITE | PROV_BUF

  /** The user data that travels from a submission to its completion. */
  datatype ConnInfo = ConnInfo(fd: int, kind: Kind, bid: nat)

  datatype Op = DoAccept(fd: int) | DoRecv(fd: int) | DoSend(fd: int, bid: nat, len: nat) | DoProvide(bid: nat)

  datatype Sqe = Sqe(op: Op, info: ConnInfo)

  /** A request the kernel is working on; `held` is the buffer a receive has selected. */
  datatype Flying = Flying(sqe: Sqe, held: Option<nat>)

  datatype Cqe = Cqe(info: ConnInfo, res: int, bufferId: nat)

  /** What happened on the connections, for the record. */
  datatype Note = Opened(fd: int) | Received(fd: int, data: seq<byte>) | Sent(fd: int, data: seq<byte>)

  /** The number of buffers, the listening descriptor, and how many connections may be live. */
  datatype Setup = Setup(buffers: nat, listen: int, limit: nat)

  datatype State = State(
    pool: set<nat>,
    sq: seq<Sqe>,
    flight: seq<Flying>,
    cq: seq<Cqe>,
    live: set<int>,
    bufs: seq<seq<byte>>,
    log: seq<Note>,
    exited: bool)

  // ---------- the server's own code ----------

  function AcceptSqe(p: Setup): Sqe {
    Sqe(DoAccept(p.listen), ConnInfo(p.listen, ACCEPT, 0))
  }

  function RecvSqe(fd: int): Sqe {
    Sqe(DoRecv(fd), ConnInfo(fd, READ, 0))
  }

  function SendSqe(fd: int, bid: nat, len: nat): Sqe {
    Sqe(DoSend(fd, bid, len), ConnInfo(fd, WRITE, bid))
  }

  function ProvideSqe(bid: nat): Sqe {
    Sqe(DoProvide(bid), ConnInfo(0, PROV_BUF, 0))
  }

  /** What the handler of one completion appends to the submission queue. */
  function Appended(p: Setup, e: Cqe): seq<Sqe> {
    if e.res == -ENOBUFS then []
    else match e.info.kind
      case PROV_BUF => []
      case ACCEPT => (if e.res >= 0 then [RecvSqe(e.res)] else []) + [AcceptSqe(p)]
      case READ => if e.res <= 0 then [ProvideSqe(e.bufferId)] else [SendSqe(e.info.fd, e.bufferId, e.res)]
      case WRITE => [ProvideSqe(e.info.bid), RecvSqe(e.info.fd)]
  }

  predicate Closes(e: Cqe) {
    e.info.kind.READ? && e.res <= 0 && e.res != -ENOBUFS
  }

  predicate Exits(e: Cqe) {
    e.res == -ENOBUFS || (e.info.kind.PROV_BUF? && e.res < 0)
  }

  // ---------- server and kernel together ----------

  datatype Step =
    | Issue                            // accept, send or provide
    | IssueSelect(bid: nat)            // receive that takes a buffer at once
    | IssueDefer                       // receive that waits without one
    | IssueNoBufs                      // receive that finds the pool empty
    | Accept(k: nat, res: int)
    | Select(k: nat, bid: nat)         // a waiting receive takes its buffer
    | SelectNoBufs(k: nat)             // a waiting receive finds the pool empty
    | Receive(k: nat, data: seq<byte>)
    | FailReceive(k: nat, res: int)
    | Send(k: nat)
    | FailSend(k: nat, res: int)
    | Handle

  predicate Waiting(f: Flying) {
    f.sqe.op.DoRecv? && f.held.None?
  }

  predicate Holds(f: Flying) {
    f.sqe.op.DoRecv? && f.held.Some?
  }

  /** What may happen next. Only buffer selection fails with ENOBUFS, a completed receive carries
      the buffer it selected, sends are not short, and at most `limit` connections are live. */
  predicate Enabled(p: Setup, s: State, step: Step) {
    && !s.exited
    && match step
       case Issue => |s.sq| > 0 && !s.sq[0].op.DoRecv?
       case IssueSelect(bid) => |s.sq| > 0 && s.sq[0].op.DoRecv? && bid in s.pool
       case IssueDefer => |s.sq| > 0 && s.sq[0].op.DoRecv?
       case IssueNoBufs => |s.sq| > 0 && s.sq[0].op.DoRecv? && s.pool == {}
       case Accept(k, res) =>
         && k < |s.flight| && s.flight[k].sqe.op.DoAccept? && res != -ENOBUFS
         && (res >= 0 ==> res !in s.live && |s.live| < p.limit)
       case Select(k, bid) => k < |s.flight| && Waiting(s.flight[k]) && bid in s.pool
       case SelectNoBufs(k) => k < |s.flight| && Waiting(s.flight[k]) && s.pool == {}
       case Receive(k, data) =>
         && k < |s.flight| && Holds(s.flight[k]) && 0 < |data| <= MAX_MESSAGE_LEN
         && s.flight[k].held.value < |s.bufs| && |data| <= |s.bufs[s.flight[k].held.value]|
       case FailReceive(k, res) => k < |s.flight| && Holds(s.flight[k]) && res <= 0 && res != -ENOBUFS
       case Send(k) =>
         && k < |s.flight| && s.flight[k].sqe.op.DoSend? && s.flight[k].sqe.op.bid < |s.bufs|
         && s.flight[k].sqe.op.len <= |s.bufs[s.flight[k].sqe.op.bid]|
       case FailSend(k, res) => k < |s.flight| && s.flight[k].sqe.op.DoSend? && res < 0 && res != -ENOBUFS
       case Handle => |s.cq| > 0
  }

  /** A completion for flight `k`, which leaves the flight. */
  function Complete(s: State, k: nat, res: int, bufferId: nat): State
    requires k < |s.flight|
  {
    s.(flight := Drop(s.flight, k), cq := s.cq + [Cqe(s.flight[k].sqe.info, res, bufferId)])
  }

  function Apply(p: Setup, s: State, step: Step): State
    requires Enabled(p, s, step)
  {
    match step
    case Issue =>
      var e, t := s.sq[0], s.(sq := s.sq[1..]);
      if e.op.DoProvide? then t.(pool := s.pool + {e.op.bid}, cq := s.cq + [Cqe(e.info, 0, 0)])
      else t.(flight := s.flight + [Flying(e, None)])
    case IssueSelect(bid) =>
      s.(sq := s.sq[1..], pool := s.pool - {bid}, flight := s.flight + [Flying(s.sq[0], Some(bid))])
    case IssueDefer => s.(sq := s.sq[1..], flight := s.flight + [Flying(s.sq[0], None)])
    case IssueNoBufs => s.(sq := s.sq[1..], cq := s.cq + [Cqe(s.sq[0].info, -ENOBUFS, 0)])
    case Accept(k, res) =>
      var t := Complete(s, k, res, 0);
      if res >= 0 then t.(live := s.live + {res}, log := s.log + [Opened(res)]) else t
    case Select(k, bid) =>
      s.(pool := s.pool - {bid}, flight := s.flight[k := s.flight[k].(held := Some(bid))])
    case SelectNoBufs(k) => Complete(s, k, -ENOBUFS, 0)
    case Receive(k, data) =>
      var b := s.flight[k].held.value;
      Complete(s, k, |data|, b).(bufs := s.bufs[b := data + s.bufs[b][|data|..]],
                                 log := s.log + [Received(s.flight[k].sqe.op.fd, data)])
    case FailReceive(k, res) => Complete(s, k, res, s.flight[k].held.value)
    case Send(k) =>
      var op := s.flight[k].sqe.op;
      Complete(s, k, op.len, 0).(log := s.log + [Sent(op.fd, s.bufs[op.bid][..op.len])])
    case FailSend(k, res) => Complete(s, k, res, 0)
    case Handle =>
      var e := s.cq[0];
      s.(cq := s.cq[1..], sq := s.sq + Appended(p, e),
         live := if Closes(e) then s.live - {e.info.fd} else s.live, exited := Exits(e))
  }

  predicate Runs(p: Setup, s: State, steps: seq<Step>)
    decreases |steps|
  {
    |steps| == 0 || (Enabled(p, s, steps[0]) && Runs(p, Apply(p, s, steps[0]), steps[1..]))
  }

  function After(p: Setup, s: State, steps: seq<Step>): State
    requires Runs(p, s, steps)
    decreases |steps|
  {
    if |steps| == 0 then s else After(p, Apply(p, s, steps[0]), steps[1..])
  }

  function AllBuffers(n: nat): (r: set<nat>)
    ensures |r| == n
    ensures forall b: nat :: b in r <==> b < n
  {
    if n == 0 then {} else AllBuffers(n - 1) + {n - 1}
  }

  /** After the buffers have been provided and the first accept added. */
  predicate Initial(p: Setup, s: State) {
    && s.pool == AllBuffers(p.buffers) && s.sq == [AcceptSqe(p)] && s.flight == [] && s.cq == [] && s.live == {}
    && |s.bufs| == p.buffers && (forall b :: 0 <= b < |s.bufs| ==> |s.bufs[b]| == MAX_MESSAGE_LEN)
    && s.log == [] && !s.exited
  }

  // ---------- the event loop in place ----------

  function Handles(n: nat): (steps: seq<Step>)
    ensures |steps| == n && forall k :: 0 <= k < n ==> steps[k] == Handle
  {
    seq(n, _ => Handle)
  }

  lemma {:induction false} Concatenate(p: Setup, s: State, a: seq<Step>, b: seq<Step>)
    requires Runs(p, s, a) && Runs(p, After(p, s, a), b)
    ensures Runs(p, s, a + b) && After(p, s, a + b) == After(p, After(p, s, a), b)
    decreases |a|
  {
    if |a| == 0 {
      assert a + b == b;
    } else {
      Concatenate(p, Apply(p, s, a[0]), a[1..], b);
      FirstOfConcat(a, b);
    }
  }

  lemma {:induction false} HandleOneMore(p: Setup, s: State, n: nat)
    requires Runs(p, s, Handles(n)) && Enabled(p, After(p, s, Handles(n)), Handle)
    ensures Runs(p, s, Handles(n + 1))
    ensures After(p, s, Handles(n + 1)) == Apply(p, After(p, s, Handles(n)), Handle)
  {
    var t := After(p, s, Handles(n));
    assert [Handle][1..] == [] && Runs(p, Apply(p, t, Handle), []);
    Concatenate(p, s, Handles(n), [Handle]);
    assert Handles(n) + [Handle] == Handles(n + 1);
  }

  /** The server: the queues it shares with the kernel, and whether it has exited. What else the
      kernel holds is there for the record. */
  class EventLoop {
    const p: Setup
    var sq: seq<Sqe>
    var cq: seq<Cqe>
    var exited: bool
    ghost var live: set<int>
    ghost var pool: set<nat>
    ghost var flight: seq<Flying>
    ghost var bufs: seq<seq<byte>>
    ghost var log: seq<Note>

    ghost function St(): State
      reads this
    {
      State(pool, sq, flight, cq, live, bufs, log, exited)
    }

    /** After the buffers have been provided. */
    constructor (p: Setup, ghost bufs: seq<seq<byte>>)
      requires |bufs| == p.buffers && forall b :: 0 <= b < |bufs| ==> |bufs[b]| == MAX_MESSAGE_LEN
      ensures this.p == p && Initial(p, St())
    {
      this.p := p;
      sq, cq, exited := [], [], false;
      live, pool, flight, log := {}, AllBuffers(p.buffers), [], [];
      this.bufs := bufs;
      new;
      AddAccept();
    }

    method AddAccept()
      modifies this`sq
      ensures sq == old(sq) + [AcceptSqe(p)]
    {
      sq := sq + [Sqe(DoAccept(p.listen), ConnInfo(p.listen, ACCEPT, 0))];
    }

    method AddSocketRead(fd: int)
      modifies this`sq
      ensures sq == old(sq) + [RecvSqe(fd)]
    {
      sq := sq + [Sqe(DoRecv(fd), ConnInfo(fd, READ, 0))];
    }

    method AddSocketWrite(fd: int, bid: nat, len: nat)
      modifies this`sq
      ensures sq == old(sq) + [SendSqe(fd, bid, len)]
    {
      sq := sq + [Sqe(DoSend(fd, bid, len), ConnInfo(fd, WRITE, bid))];
    }

    method AddProvideBuf(bid: nat)
      modifies this`sq
      ensures sq == old(sq) + [ProvideSqe(bid)]
    {
      sq := sq + [Sqe(DoProvide(bid), ConnInfo(0, PROV_BUF, 0))];
    }

    /** The handler of the oldest completion takes the machine's step. It exits on an empty pool and
        on a failed provide; a new connection's receive goes before the next accept, and a buffer
        is given back before the next receive. */
    method HandleOne()
      requires Enabled(p, St(), Handle)
      modifies this`sq, this`cq, this`exited, this`live
      ensures St() == Apply(p, old(St()), Handle)
      ensures var e := old(cq[0]); exited <==> e.res == -ENOBUFS || (e.info.kind.PROV_BUF? && e.res < 0)
      ensures var e := old(cq[0]); e.info.kind.ACCEPT? && e.res >= 0 ==> sq == old(sq) + [RecvSqe(e.res), AcceptSqe(p)]
      ensures var e := old(cq[0]); e.info.kind.WRITE? && e.res != -ENOBUFS ==>
                sq == old(sq) + [ProvideSqe(e.info.bid), RecvSqe(e.info.fd)]
    {
      var e := cq[0];
      var kind := e.info.kind;
      if e.res == -ENOBUFS {
        exited := true;
      } else if kind == PROV_BUF {
        if e.res < 0 {
          exited := true;
        }
      } else if kind == ACCEPT {
        if e.res >= 0 {
          AddSocketRead(e.res);
        }
        AddAccept();
      } else if kind == READ {
        if e.res <= 0 {
          AddProvideBuf(e.bufferId);
          live := live - {e.info.fd};
        } else {
          AddSocketWrite(e.info.fd, e.bufferId, e.res);
        }
      } else {
        AddProvideBuf(e.info.bid);
        AddSocketRead(e.info.fd);
      }
      cq := cq[1..];
    }

    /** One turn of the event loop: every completion in the queue, in order, by steps of the
        machine, and none after one that exits. */
    method HandleAll() returns (count: nat)
      requires !exited
      modifies this`sq, this`cq, this`exited, this`live
      ensures Runs(p, old(St()), Handles(count)) && St() == After(p, old(St()), Handles(count))
      ensures count <= |old(cq)| && cq == old(cq)[count..]
      ensures !exited ==> cq == [] && forall k :: 0 <= k < count ==> !Exits(old(cq)[k])
      ensures exited ==> count > 0 && Exits(old(cq)[count - 1]) && forall k :: 0 <= k < count - 1 ==> !Exits(old(cq)[k])
    {
      count := 0;
      while |cq| > 0 && !exited
        invariant count <= |old(cq)| && cq == old(cq)[count..]
        invariant Runs(p, old(St()), Handles(count)) && St() == After(p, old(St()), Handles(count))
        invariant exited <==> count > 0 && Exits(old(cq)[count - 1])
        invariant forall k :: 0 <= k < count - 1 ==> !Exits(old(cq)[k])
      {
        HandleOneMore(p, old(St()), count);
        HandleOne();
        count := count + 1;
      }
    }
  }
}
