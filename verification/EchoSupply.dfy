/** With as many buffers as connections the echo server never finds its buffer pool empty: the
    ENOBUFS branch is unreachable. */
module EchoSupply {
  import opened Basics
  import opened Counting
  import opened EchoServer
  import opened EchoOwnership

  /** Steps that do not run out of buffers. */
  predicate Supplied(step: Step) {
    !step.IssueNoBufs? && !step.SelectNoBufs?
  }

  /** No completion in the queue reports an empty pool or a failed provide. */
  predicate NoFailure(s: State) {
    forall k :: 0 <= k < |s.cq| ==> !Exits(s.cq[k])
  }

  function IsProvide(): Sqe -> bool { (e: Sqe) => e.op.DoProvide? }

  function IsRecv(): Sqe -> bool { (e: Sqe) => e.op.DoRecv? }

  function IsWaiting(): Flying -> bool { (f: Flying) => Waiting(f) }

  /** A completed accept whose connection has no request yet. */
  function IsFresh(): Cqe -> bool { (e: Cqe) => e.info.kind.ACCEPT? && e.res >= 0 }

  function Fresh(s: State): nat {
    Count(s.cq, IsFresh())
  }

  /** The potential of the queue from entry `k` on: handled connections, plus provides still to be
      issued, less receives still to be issued. */
  predicate WithinBuffers(p: Setup, live: nat, unhandled: nat, rest: seq<Sqe>) {
    live + Count(rest, IsProvide()) <= p.buffers + Count(rest, IsRecv()) + unhandled
  }

  predicate Potential(p: Setup, s: State) {
    forall k :: 0 <= k <= |s.sq| ==> WithinBuffers(p, |s.live|, Fresh(s), s.sq[k..])
  }

  /** The pool is what the connections and the queued provides leave of it. */
  predicate PoolSize(p: Setup, s: State) {
    |s.pool| + |s.live| + Count(s.sq, IsProvide())
    == p.buffers + Count(s.sq, IsRecv()) + Count(s.flight, IsWaiting()) + Fresh(s)
  }

  ghost predicate Supply(p: Setup, s: State) {
    && Ownership(p, s) && !s.exited && NoFailure(s) && |s.live| <= p.limit <= p.buffers
    && PoolSize(p, s) && Potential(p, s)
  }

  /** A receive that wants a buffer finds one, whether it is at the head of the queue or waiting. */
  lemma {:induction false} PoolIsNotEmpty(p: Setup, s: State, step: Step)
    requires Supply(p, s) && Enabled(p, s, step)
    ensures Supplied(step)
  {
    if step.IssueNoBufs? {
      assert WithinBuffers(p, |s.live|, Fresh(s), s.sq[1..]);
      CountHead(s.sq, IsProvide());
      CountHead(s.sq, IsRecv());
    } else if step.SelectNoBufs? {
      assert WithinBuffers(p, |s.live|, Fresh(s), s.sq[0..]);
      assert s.sq[0..] == s.sq;
      CountHas(s.flight, step.k, IsWaiting());
    }
  }

  // ---------- every step keeps the pool size ----------

  lemma {:induction false} PopCounts(s: State)
    requires |s.sq| > 0
    ensures Count(s.sq, IsProvide()) == Bit(s.sq[0].op.DoProvide?) + Count(s.sq[1..], IsProvide())
    ensures Count(s.sq, IsRecv()) == Bit(s.sq[0].op.DoRecv?) + Count(s.sq[1..], IsRecv())
  {
    CountHead(s.sq, IsProvide());
    CountHead(s.sq, IsRecv());
  }

  lemma {:induction false} ProvideKeepsPoolSize(p: Setup, s: State)
    requires Ownership(p, s) && PoolSize(p, s) && Enabled(p, s, Issue) && s.sq[0].op.DoProvide?
    ensures PoolSize(p, Apply(p, s, Issue)) && Fresh(Apply(p, s, Issue)) == Fresh(s)
  {
    var e := s.sq[0];
    assert Labelled(e);
    PopCounts(s);
    CountOne(s.cq, Cqe(e.info, 0, 0), IsFresh());
    ProvidedIsNotInPool(p, s);
    assert |s.pool + {e.op.bid}| == |s.pool| + 1;
  }

  lemma {:induction false} TakeOffKeepsPoolSize(p: Setup, s: State, step: Step)
    requires PoolSize(p, s) && Enabled(p, s, step)
    requires (step.Issue? && !s.sq[0].op.DoProvide?) || step.IssueSelect? || step.IssueDefer?
    ensures PoolSize(p, Apply(p, s, step)) && Fresh(Apply(p, s, step)) == Fresh(s)
  {
    var f := Flying(s.sq[0], if step.IssueSelect? then Some(step.bid) else None);
    PopCounts(s);
    CountOne(s.flight, f, IsWaiting());
    assert Apply(p, s, step).flight == s.flight + [f];
    if step.IssueSelect? {
      assert |s.pool - {step.bid}| == |s.pool| - 1;
    }
  }

  lemma {:induction false} IssueKeepsPoolSize(p: Setup, s: State, step: Step)
    requires Ownership(p, s) && PoolSize(p, s) && Enabled(p, s, step)
    requires step.Issue? || step.IssueSelect? || step.IssueDefer?
    ensures PoolSize(p, Apply(p, s, step)) && Fresh(Apply(p, s, step)) == Fresh(s)
  {
    if step.Issue? && s.sq[0].op.DoProvide? {
      ProvideKeepsPoolSize(p, s);
    } else {
      TakeOffKeepsPoolSize(p, s, step);
    }
  }

  /** A buffer about to be provided is not in the pool already. */
  lemma {:induction false} ProvidedIsNotInPool(p: Setup, s: State)
    requires Ownership(p, s) && |s.sq| > 0 && s.sq[0].op.DoProvide?
    ensures s.sq[0].op.bid !in s.pool
  {
    var b := Buffer(s.sq[0].op.bid);
    CountHas(s.sq, 0, InSq(b));
    assert Owners(s, b) == Due(p, s, b);
  }

  lemma {:induction false} SelectKeepsPoolSize(p: Setup, s: State, k: nat, bid: nat)
    requires PoolSize(p, s) && Enabled(p, s, Select(k, bid))
    ensures PoolSize(p, Apply(p, s, Select(k, bid)))
  {
    CountUpdate(s.flight, k, s.flight[k].(held := Some(bid)), IsWaiting());
    assert |s.pool - {bid}| == |s.pool| - 1;
  }

  /** A completion takes a request that waits for nothing out of flight. */
  lemma {:induction false} CompletedCounts(s: State, k: nat, res: int, bufferId: nat)
    requires k < |s.flight| && !Waiting(s.flight[k])
    ensures var t := Complete(s, k, res, bufferId);
      && Count(t.flight, IsWaiting()) == Count(s.flight, IsWaiting())
      && Fresh(t) == Fresh(s) + Bit(IsFresh()(Cqe(s.flight[k].sqe.info, res, bufferId)))
  {
    CountDrop(s.flight, k, IsWaiting());
    CountOne(s.cq, Cqe(s.flight[k].sqe.info, res, bufferId), IsFresh());
  }

  lemma {:induction false} AcceptKeepsPoolSize(p: Setup, s: State, k: nat, res: int)
    requires Labels(s) && PoolSize(p, s) && Enabled(p, s, Accept(k, res))
    ensures var t := Apply(p, s, Accept(k, res)); PoolSize(p, t) && Fresh(t) == Fresh(s) + Bit(res >= 0)
  {
    assert LabelledFlight(s.flight[k]);
    CompletedCounts(s, k, res, 0);
  }

  lemma {:induction false} CompleteKeepsPoolSize(p: Setup, s: State, t: State, k: nat, res: int, bufferId: nat)
    requires Labels(s) && PoolSize(p, s) && k < |s.flight| && !Waiting(s.flight[k]) && !s.flight[k].sqe.op.DoAccept?
    requires t == Complete(s, k, res, bufferId).(bufs := t.bufs, log := t.log)
    ensures PoolSize(p, t) && Fresh(t) == Fresh(s)
  {
    assert LabelledFlight(s.flight[k]);
    CompletedCounts(s, k, res, bufferId);
  }

  lemma {:induction false} CompletionKeepsPoolSize(p: Setup, s: State, step: Step)
    requires Labels(s) && PoolSize(p, s) && Enabled(p, s, step)
    requires step.Accept? || step.Receive? || step.FailReceive? || step.Send? || step.FailSend?
    ensures var t := Apply(p, s, step);
      PoolSize(p, t) && Fresh(t) == Fresh(s) + Bit(step.Accept? && step.res >= 0)
  {
    var t := Apply(p, s, step);
    match step
    case Accept(k, res) => AcceptKeepsPoolSize(p, s, k, res);
    case Receive(k, data) => CompleteKeepsPoolSize(p, s, t, k, |data|, s.flight[k].held.value);
    case FailReceive(k, res) => CompleteKeepsPoolSize(p, s, t, k, res, s.flight[k].held.value);
    case Send(k) => CompleteKeepsPoolSize(p, s, t, k, s.flight[k].sqe.op.len, 0);
    case FailSend(k, res) => CompleteKeepsPoolSize(p, s, t, k, res, 0);
  }

  /** What a handler appends, counted. */
  lemma {:induction false} AppendedCounts(p: Setup, sq: seq<Sqe>, e: Cqe)
    requires !Exits(e)
    ensures var q := sq + Appended(p, e);
      && Count(q, IsProvide()) == Count(sq, IsProvide()) + Bit(e.info.kind.WRITE? || Closes(e))
      && Count(q, IsRecv()) == Count(sq, IsRecv()) + Bit(e.info.kind.WRITE? || IsFresh()(e))
  {
    match e.info.kind
    case PROV_BUF => assert sq + [] == sq;
    case ACCEPT =>
      if e.res >= 0 {
        CountTwo(sq, RecvSqe(e.res), AcceptSqe(p), IsProvide());
        CountTwo(sq, RecvSqe(e.res), AcceptSqe(p), IsRecv());
        assert Appended(p, e) == [RecvSqe(e.res), AcceptSqe(p)];
      } else {
        CountOne(sq, AcceptSqe(p), IsProvide());
        CountOne(sq, AcceptSqe(p), IsRecv());
        assert Appended(p, e) == [AcceptSqe(p)];
      }
    case READ =>
      CountOne(sq, Appended(p, e)[0], IsProvide());
      CountOne(sq, Appended(p, e)[0], IsRecv());
    case WRITE =>
      CountTwo(sq, ProvideSqe(e.info.bid), RecvSqe(e.info.fd), IsProvide());
      CountTwo(sq, ProvideSqe(e.info.bid), RecvSqe(e.info.fd), IsRecv());
  }

  /** A descriptor that is closed was live. */
  lemma {:induction false} ClosedWasLive(p: Setup, s: State)
    requires Ownership(p, s) && |s.cq| > 0 && Closes(s.cq[0])
    ensures s.cq[0].info.fd in s.live
  {
    var c := Conn(s.cq[0].info.fd);
    CountHas(s.cq, 0, InCq(c));
    assert Owners(s, c) == Due(p, s, c);
  }

  lemma {:induction false} HandleKeepsPoolSize(p: Setup, s: State)
    requires Ownership(p, s) && PoolSize(p, s) && Enabled(p, s, Handle) && !Exits(s.cq[0])
    ensures var t := Apply(p, s, Handle);
      && PoolSize(p, t) && Fresh(s) == Fresh(t) + Bit(IsFresh()(s.cq[0]))
      && |t.live| == |s.live| - Bit(Closes(s.cq[0]))
  {
    var e := s.cq[0];
    CountHead(s.cq, IsFresh());
    AppendedCounts(p, s.sq, e);
    if Closes(e) {
      ClosedWasLive(p, s);
    }
  }

  // ---------- every step keeps the potential ----------

  /** The queue after a handler is within the buffers from every entry on: from the old ones
      because the handler's own changes cancel, from the new ones because the connections do. */
  lemma {:induction false} HandleKeepsPotential(p: Setup, s: State)
    requires Supply(p, s) && Enabled(p, s, Handle)
    ensures Potential(p, Apply(p, s, Handle))
  {
    var e, t := s.cq[0], Apply(p, s, Handle);
    HandleKeepsPoolSize(p, s);
    var more := Appended(p, e);
    forall k | 0 <= k <= |t.sq| ensures WithinBuffers(p, |t.live|, Fresh(t), t.sq[k..]) {
      if k <= |s.sq| {
        assert t.sq[k..] == s.sq[k..] + more;
        AppendedCounts(p, s.sq[k..], e);
        assert WithinBuffers(p, |s.live|, Fresh(s), s.sq[k..]);
      } else {
        assert t.sq[k..] == more[k - |s.sq|..];
        LastAppendedIsNoProvide(p, e, k - |s.sq|);
      }
    }
  }

  lemma {:induction false} LastAppendedIsNoProvide(p: Setup, e: Cqe, k: nat)
    requires 1 <= k <= |Appended(p, e)|
    ensures Count(Appended(p, e)[k..], IsProvide()) == 0
  {
    var rest := Appended(p, e)[k..];
    if |rest| > 0 {
      assert rest == [Appended(p, e)[k]] && rest[..0] == [];
    }
  }

  lemma {:induction false} StepKeepsPotential(p: Setup, s: State, step: Step)
    requires Supply(p, s) && Enabled(p, s, step) && Supplied(step)
    ensures Potential(p, Apply(p, s, step)) && PoolSize(p, Apply(p, s, step))
  {
    var t := Apply(p, s, step);
    if step.Handle? {
      HandleKeepsPoolSize(p, s);
      HandleKeepsPotential(p, s);
    } else if step.Issue? || step.IssueSelect? || step.IssueDefer? {
      IssueKeepsPoolSize(p, s, step);
      forall k | 0 <= k <= |t.sq| ensures WithinBuffers(p, |t.live|, Fresh(t), t.sq[k..]) {
        assert t.sq[k..] == s.sq[k + 1..];
        assert WithinBuffers(p, |s.live|, Fresh(s), s.sq[k + 1..]);
      }
    } else {
      if step.Select? {
        SelectKeepsPoolSize(p, s, step.k, step.bid);
      } else {
        CompletionKeepsPoolSize(p, s, step);
      }
      forall k | 0 <= k <= |t.sq| ensures WithinBuffers(p, |t.live|, Fresh(t), t.sq[k..]) {
        assert WithinBuffers(p, |s.live|, Fresh(s), s.sq[k..]);
      }
    }
  }

  lemma {:induction false} StepKeepsNoFailure(p: Setup, s: State, step: Step)
    requires Labels(s) && NoFailure(s) && Enabled(p, s, step) && Supplied(step)
    ensures NoFailure(Apply(p, s, step)) && !Apply(p, s, step).exited
  {
    if step.Issue? {
      assert Labelled(s.sq[0]);
    } else if !step.Handle? && !step.IssueSelect? && !step.IssueDefer? {
      assert LabelledFlight(s.flight[step.k]);
    }
  }

  lemma {:induction false} StepKeepsSupply(p: Setup, s: State, step: Step)
    requires Supply(p, s) && Enabled(p, s, step)
    ensures Supply(p, Apply(p, s, step))
  {
    PoolIsNotEmpty(p, s, step);
    StepKeepsNoFailure(p, s, step);
    StepKeepsOwnership(p, s, step);
    StepKeepsPotential(p, s, step);
    if step.Handle? {
      HandleKeepsPoolSize(p, s);
    }
  }

  lemma {:induction false} RunKeepsSupply(p: Setup, s: State, steps: seq<Step>)
    requires Supply(p, s) && Runs(p, s, steps)
    ensures Supply(p, After(p, s, steps))
    decreases |steps|
  {
    if |steps| > 0 {
      StepKeepsSupply(p, s, steps[0]);
      RunKeepsSupply(p, Apply(p, s, steps[0]), steps[1..]);
    }
  }

  lemma {:induction false} InitialSupply(p: Setup, s: State)
    requires Initial(p, s) && p.limit <= p.buffers
    ensures Supply(p, s)
  {
    InitialOwnership(p, s);
    forall k | 0 <= k <= |s.sq| ensures WithinBuffers(p, |s.live|, Fresh(s), s.sq[k..]) {
    }
  }

  /** Whatever happens next, no receive finds the pool empty. */
  ghost predicate AlwaysSupplied(p: Setup, s: State) {
    forall step :: Enabled(p, s, step) ==> Supplied(step)
  }

  /** On every run with at most as many live connections as buffers no receive can find the pool
      empty, and the server is still running. */
  lemma {:induction false} EveryRunIsSupplied(p: Setup, s: State, steps: seq<Step>)
    requires Initial(p, s) && p.limit <= p.buffers && Runs(p, s, steps)
    ensures var t := After(p, s, steps); !t.exited && AlwaysSupplied(p, t)
  {
    InitialSupply(p, s);
    RunKeepsSupply(p, s, steps);
    forall step | Enabled(p, After(p, s, steps), step) ensures Supplied(step) {
      PoolIsNotEmpty(p, After(p, s, steps), step);
    }
  }
}
