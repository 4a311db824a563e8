/** Who owns what in the echo server: every buffer is in exactly one place, every live descriptor
    has exactly one request or completion of its own, and there is exactly one accept. */
module EchoOwnership {
  import opened Basics
  import opened Counting
  import opened EchoServer

  // ---------- who owns a buffer, a descriptor, the accept ----------

  predicate SqeBuffer(e: Sqe, b: nat) {
    match e.op
    case DoSend(_, bid, _) => bid == b
    case DoProvide(bid) => bid == b
    case _ => false
  }

  predicate FlyingBuffer(f: Flying, b: nat) {
    if f.held.Some? then f.held.value == b else SqeBuffer(f.sqe, b)
  }

  predicate CqeBuffer(e: Cqe, b: nat) {
    && e.res != -ENOBUFS
    && match e.info.kind
       case READ => e.bufferId == b
       case WRITE => e.info.bid == b
       case _ => false
  }

  predicate SqeConn(e: Sqe, fd: int) {
    match e.op
    case DoRecv(f) => f == fd
    case DoSend(f, _, _) => f == fd
    case _ => false
  }

  /** An accepted connection belongs to its accept completion until that is handled. */
  predicate CqeConn(e: Cqe, fd: int) {
    match e.info.kind
    case READ => e.info.fd == fd
    case WRITE => e.info.fd == fd
    case ACCEPT => e.res >= 0 && e.res == fd
    case PROV_BUF => false
  }

  /** What a request or completion is asked about: a buffer, a descriptor, or accepting on one. */
  datatype Item = Buffer(bid: nat) | Conn(fd: int) | Accepts(fd: int)

  function InSq(item: Item): Sqe -> bool {
    (e: Sqe) => match item
      case Buffer(b) => SqeBuffer(e, b)
      case Conn(fd) => SqeConn(e, fd)
      case Accepts(fd) => e.op.DoAccept? && e.op.fd == fd
  }

  function InFlight(item: Item): Flying -> bool {
    (f: Flying) => match item
      case Buffer(b) => FlyingBuffer(f, b)
      case Conn(fd) => SqeConn(f.sqe, fd)
      case Accepts(fd) => f.sqe.op.DoAccept? && f.sqe.op.fd == fd
  }

  function InCq(item: Item): Cqe -> bool {
    (e: Cqe) => match item
      case Buffer(b) => CqeBuffer(e, b)
      case Conn(fd) => CqeConn(e, fd)
      case Accepts(fd) => e.info.kind.ACCEPT? && e.info.fd == fd
  }

  /** In how many requests and completions the item is. */
  function Owners(s: State, item: Item): nat {
    Count(s.sq, InSq(item)) + Count(s.flight, InFlight(item)) + Count(s.cq, InCq(item))
  }

  /** In how many it should be: a buffer where it is not in the pool, a descriptor where it is
      live, the accept on the listening descriptor and on no other. */
  function Due(p: Setup, s: State, item: Item): nat {
    match item
    case Buffer(b) => Bit(b < p.buffers && b !in s.pool)
    case Conn(fd) => Bit(fd in s.live)
    case Accepts(fd) => Bit(fd == p.listen)
  }

  // ---------- the invariant ----------

  /** User data says what the request is. */
  predicate Labelled(e: Sqe) {
    match e.op
    case DoAccept(fd) => e.info.kind.ACCEPT? && e.info.fd == fd
    case DoRecv(fd) => e.info.kind.READ? && e.info.fd == fd
    case DoSend(fd, bid, _) => e.info.kind.WRITE? && e.info.fd == fd && e.info.bid == bid
    case DoProvide(_) => e.info.kind.PROV_BUF?
  }

  predicate LabelledFlight(f: Flying) {
    Labelled(f.sqe) && !f.sqe.op.DoProvide? && (f.held.Some? ==> f.sqe.op.DoRecv?)
  }

  predicate Labels(s: State) {
    && (forall k :: 0 <= k < |s.sq| ==> Labelled(s.sq[k]))
    && (forall k :: 0 <= k < |s.flight| ==> LabelledFlight(s.flight[k]))
  }

  /** Every item has exactly the owners it is due: in particular no buffer is in two places, none
      is lost, and the pool holds no unknown buffer. A completion that reports an empty pool owns
      its descriptor and no buffer. */
  ghost predicate Ownership(p: Setup, s: State) {
    && Labels(s)
    && (forall b :: b in s.pool ==> b < p.buffers)
    && (forall item :: Owners(s, item) == Due(p, s, item))
  }

  // ---------- conservation, step by step ----------

  /** A provide that is issued completes at once. */
  lemma {:induction false} ProvideConserves(p: Setup, s: State, item: Item)
    requires Ownership(p, s) && Enabled(p, s, Issue) && s.sq[0].op.DoProvide?
    ensures Owners(Apply(p, s, Issue), item) == Due(p, Apply(p, s, Issue), item)
  {
    assert Labelled(s.sq[0]) && Owners(s, item) == Due(p, s, item);
    CountHead(s.sq, InSq(item));
    CountOne(s.cq, Cqe(s.sq[0].info, 0, 0), InCq(item));
  }

  /** Any other request goes in flight. */
  lemma {:induction false} FlyOwners(s: State, t: State, held: Option<nat>, item: Item)
    requires |s.sq| > 0 && t.sq == s.sq[1..] && t.cq == s.cq && t.flight == s.flight + [Flying(s.sq[0], held)]
    ensures Owners(t, item) + Bit(InSq(item)(s.sq[0])) == Owners(s, item) + Bit(InFlight(item)(Flying(s.sq[0], held)))
  {
    CountHead(s.sq, InSq(item));
    CountOne(s.flight, Flying(s.sq[0], held), InFlight(item));
  }

  lemma {:induction false} IssueConserves(p: Setup, s: State, step: Step, item: Item)
    requires Ownership(p, s) && Enabled(p, s, step)
    requires step.Issue? || step.IssueDefer?
    ensures Owners(Apply(p, s, step), item) == Due(p, Apply(p, s, step), item)
  {
    if s.sq[0].op.DoProvide? {
      ProvideConserves(p, s, item);
    } else {
      assert Owners(s, item) == Due(p, s, item);
      FlyOwners(s, Apply(p, s, step), None, item);
    }
  }

  lemma {:induction false} IssueSelectConserves(p: Setup, s: State, bid: nat, item: Item)
    requires Ownership(p, s) && Enabled(p, s, IssueSelect(bid))
    ensures Owners(Apply(p, s, IssueSelect(bid)), item) == Due(p, Apply(p, s, IssueSelect(bid)), item)
  {
    assert Owners(s, item) == Due(p, s, item);
    FlyOwners(s, Apply(p, s, IssueSelect(bid)), Some(bid), item);
  }

  /** A receive that finds the pool empty when it is issued completes at once. */
  lemma {:induction false} IssueNoBufsConserves(p: Setup, s: State, item: Item)
    requires Ownership(p, s) && Enabled(p, s, IssueNoBufs)
    ensures Owners(Apply(p, s, IssueNoBufs), item) == Due(p, Apply(p, s, IssueNoBufs), item)
  {
    assert Labelled(s.sq[0]) && Owners(s, item) == Due(p, s, item);
    CountHead(s.sq, InSq(item));
    CountOne(s.cq, Cqe(s.sq[0].info, -ENOBUFS, 0), InCq(item));
  }

  lemma {:induction false} SelectConserves(p: Setup, s: State, k: nat, bid: nat, item: Item)
    requires Ownership(p, s) && Enabled(p, s, Select(k, bid))
    ensures Owners(Apply(p, s, Select(k, bid)), item) == Due(p, Apply(p, s, Select(k, bid)), item)
  {
    assert LabelledFlight(s.flight[k]) && Owners(s, item) == Due(p, s, item);
    CountUpdate(s.flight, k, s.flight[k].(held := Some(bid)), InFlight(item));
  }

  lemma {:induction false} CompleteOwners(s: State, k: nat, res: int, bufferId: nat, item: Item)
    requires k < |s.flight|
    ensures Owners(Complete(s, k, res, bufferId), item) + Bit(InFlight(item)(s.flight[k]))
            == Owners(s, item) + Bit(InCq(item)(Cqe(s.flight[k].sqe.info, res, bufferId)))
  {
    CountDrop(s.flight, k, InFlight(item));
    CountOne(s.cq, Cqe(s.flight[k].sqe.info, res, bufferId), InCq(item));
  }

  lemma {:induction false} AcceptConserves(p: Setup, s: State, k: nat, res: int, item: Item)
    requires Ownership(p, s) && Enabled(p, s, Accept(k, res))
    ensures Owners(Apply(p, s, Accept(k, res)), item) == Due(p, Apply(p, s, Accept(k, res)), item)
  {
    assert LabelledFlight(s.flight[k]) && Owners(s, item) == Due(p, s, item);
    CompleteOwners(s, k, res, 0, item);
  }

  /** A send or a receive with its buffer, however it ends, or a receive that found none. */
  predicate Completes(f: Flying, res: int, bufferId: nat) {
    if res == -ENOBUFS then Waiting(f)
    else f.sqe.op.DoSend? || (f.sqe.op.DoRecv? && f.held == Some(bufferId))
  }

  lemma {:induction false} CompletionOwns(f: Flying, res: int, bufferId: nat, item: Item)
    requires LabelledFlight(f) && Completes(f, res, bufferId)
    ensures InCq(item)(Cqe(f.sqe.info, res, bufferId)) == InFlight(item)(f)
  {
  }

  /** A completion takes over what its request owned. */
  lemma {:induction false} CompleteConserves(p: Setup, s: State, t: State, k: nat, res: int, bufferId: nat, item: Item)
    requires Ownership(p, s) && k < |s.flight| && Completes(s.flight[k], res, bufferId)
    requires t == Complete(s, k, res, bufferId).(bufs := t.bufs, log := t.log)
    ensures Owners(t, item) == Due(p, t, item)
  {
    assert LabelledFlight(s.flight[k]) && Owners(s, item) == Due(p, s, item);
    CompleteOwners(s, k, res, bufferId, item);
    assert Owners(t, item) == Owners(Complete(s, k, res, bufferId), item);
    CompletionOwns(s.flight[k], res, bufferId, item);
  }

  /** What a handler submits owns what the completion owned; a closed descriptor is nobody's, and
      an accept, on whatever descriptor, is followed by one on the listening descriptor. */
  lemma {:induction false} AppendedOwns(p: Setup, sq: seq<Sqe>, e: Cqe, item: Item)
    requires !Exits(e)
    ensures Count(sq + Appended(p, e), InSq(item)) + Bit(Closes(e) && item == Conn(e.info.fd))
              + Bit(e.info.kind.ACCEPT? && item == Accepts(e.info.fd))
            == Count(sq, InSq(item)) + Bit(InCq(item)(e)) + Bit(e.info.kind.ACCEPT? && item == Accepts(p.listen))
  {
    match e.info.kind
    case PROV_BUF => assert sq + [] == sq;
    case ACCEPT =>
      if e.res >= 0 {
        CountTwo(sq, RecvSqe(e.res), AcceptSqe(p), InSq(item));
        assert Appended(p, e) == [RecvSqe(e.res), AcceptSqe(p)];
      } else {
        CountOne(sq, AcceptSqe(p), InSq(item));
        assert Appended(p, e) == [AcceptSqe(p)];
      }
    case READ => CountOne(sq, Appended(p, e)[0], InSq(item));
    case WRITE => CountTwo(sq, ProvideSqe(e.info.bid), RecvSqe(e.info.fd), InSq(item));
  }

  lemma {:induction false} AcceptIsOnListener(p: Setup, s: State)
    requires Ownership(p, s) && |s.cq| > 0 && s.cq[0].info.kind.ACCEPT?
    ensures s.cq[0].info.fd == p.listen
  {
    var a := Accepts(s.cq[0].info.fd);
    CountHas(s.cq, 0, InCq(a));
    assert Owners(s, a) == Due(p, s, a);
  }

  lemma {:induction false} HandleConserves(p: Setup, s: State, item: Item)
    requires Ownership(p, s) && Enabled(p, s, Handle) && !Exits(s.cq[0])
    ensures Owners(Apply(p, s, Handle), item) == Due(p, Apply(p, s, Handle), item)
  {
    var e := s.cq[0];
    if e.info.kind.ACCEPT? {
      AcceptIsOnListener(p, s);
    }
    assert Owners(s, item) == Due(p, s, item);
    CountHead(s.cq, InCq(item));
    AppendedOwns(p, s.sq, e, item);
  }

  /** Every step, except one on which the server exits. */
  lemma {:induction false} StepConserves(p: Setup, s: State, step: Step, item: Item)
    requires Ownership(p, s) && Enabled(p, s, step) && !Apply(p, s, step).exited
    ensures Owners(Apply(p, s, step), item) == Due(p, Apply(p, s, step), item)
  {
    match step
    case Handle => HandleConserves(p, s, item);
    case Select(k, bid) => SelectConserves(p, s, k, bid, item);
    case Issue => IssueConserves(p, s, step, item);
    case IssueSelect(bid) => IssueSelectConserves(p, s, bid, item);
    case IssueDefer => IssueConserves(p, s, step, item);
    case IssueNoBufs => IssueNoBufsConserves(p, s, item);
    case SelectNoBufs(k) => CompleteConserves(p, s, Apply(p, s, step), k, -ENOBUFS, 0, item);
    case Accept(k, res) => AcceptConserves(p, s, k, res, item);
    case Receive(k, data) =>
      CompleteConserves(p, s, Apply(p, s, step), k, |data|, s.flight[k].held.value, item);
    case FailReceive(k, res) =>
      CompleteConserves(p, s, Apply(p, s, step), k, res, s.flight[k].held.value, item);
    case Send(k) => CompleteConserves(p, s, Apply(p, s, step), k, s.flight[k].sqe.op.len, 0, item);
    case FailSend(k, res) => CompleteConserves(p, s, Apply(p, s, step), k, res, 0, item);
  }

  lemma {:induction false} AppendedLabelled(p: Setup, e: Cqe)
    ensures forall k :: 0 <= k < |Appended(p, e)| ==> Labelled(Appended(p, e)[k])
  {
  }

  lemma {:induction false} StepKeepsLabels(p: Setup, s: State, step: Step)
    requires Labels(s) && Enabled(p, s, step)
    ensures Labels(Apply(p, s, step))
  {
    if step.Handle? {
      AppendedLabelled(p, s.cq[0]);
    } else if step.Issue? || step.IssueSelect? || step.IssueDefer? {
      assert Labelled(s.sq[0]);
    } else if step.Select? {
      assert LabelledFlight(s.flight[step.k]);
    }
  }

  /** Only known buffers are ever returned to the pool. */
  lemma {:induction false} StepKeepsPool(p: Setup, s: State, step: Step)
    requires Ownership(p, s) && Enabled(p, s, step)
    ensures forall b :: b in Apply(p, s, step).pool ==> b < p.buffers
  {
    if step.Issue? && s.sq[0].op.DoProvide? {
      var b := s.sq[0].op.bid;
      assert InSq(Buffer(b))(s.sq[0]);
      CountHas(s.sq, 0, InSq(Buffer(b)));
      assert Owners(s, Buffer(b)) == Due(p, s, Buffer(b));
    }
  }

  lemma {:induction false} StepKeepsOwnership(p: Setup, s: State, step: Step)
    requires Ownership(p, s) && Enabled(p, s, step)
    ensures Apply(p, s, step).exited || Ownership(p, Apply(p, s, step))
  {
    var t := Apply(p, s, step);
    if !t.exited {
      StepKeepsLabels(p, s, step);
      StepKeepsPool(p, s, step);
      forall item ensures Owners(t, item) == Due(p, t, item) {
        StepConserves(p, s, step, item);
      }
    }
  }

  lemma {:induction false} InitialOwnership(p: Setup, s: State)
    requires Initial(p, s)
    ensures Ownership(p, s)
  {
    forall item ensures Owners(s, item) == Due(p, s, item) {
      CountOne([], AcceptSqe(p), InSq(item));
      assert [] + [AcceptSqe(p)] == s.sq;
    }
  }

  lemma {:induction false} RunKeepsOwnership(p: Setup, s: State, steps: seq<Step>)
    requires Ownership(p, s) && Runs(p, s, steps)
    ensures After(p, s, steps).exited || Ownership(p, After(p, s, steps))
    decreases |steps|
  {
    if |steps| > 0 && !Apply(p, s, steps[0]).exited {
      StepKeepsOwnership(p, s, steps[0]);
      RunKeepsOwnership(p, Apply(p, s, steps[0]), steps[1..]);
    }
  }

  /** On every run, however many connections there are for the buffers, until the server exits:
      no buffer is in two places or lost, every live descriptor has exactly one request or
      completion, and there is exactly one accept. */
  lemma {:induction false} EveryRunKeepsOwnership(p: Setup, s: State, steps: seq<Step>)
    requires Initial(p, s) && Runs(p, s, steps)
    ensures After(p, s, steps).exited || Ownership(p, After(p, s, steps))
  {
    InitialOwnership(p, s);
    RunKeepsOwnership(p, s, steps);
  }
}
