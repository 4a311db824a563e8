/** What the echo server sends is what the same connection sent it last: no buffer changes between
    the receive that filled it and the send that empties it, across close and descriptor reuse. */
module EchoIsolation {
  import opened Basics
  import opened Counting
  import opened EchoServer
  import opened EchoOwnership

  function NoteFd(n: Note): int {
    n.fd
  }

  /** The latest note about a descriptor. */
  function Latest(log: seq<Note>, fd: int): Option<Note> {
    if |log| == 0 then None
    else if NoteFd(log[|log| - 1]) == fd then Some(log[|log| - 1])
    else Latest(log[..|log| - 1], fd)
  }

  /** Every send carries the data of the receive that immediately precedes it on its connection. */
  predicate Echoes(log: seq<Note>) {
    forall i :: 0 <= i < |log| && log[i].Sent? ==>
      Latest(log[..i], log[i].fd) == Some(Received(log[i].fd, log[i].data))
  }

  /** The first `len` bytes of buffer `bid` are what descriptor `fd` received last. */
  predicate Fits(log: seq<Note>, bufs: seq<seq<byte>>, fd: int, bid: nat, len: int) {
    && bid < |bufs| && 0 <= len <= |bufs[bid]|
    && Latest(log, fd) == Some(Received(fd, bufs[bid][..len]))
  }

  predicate SqeFits(log: seq<Note>, bufs: seq<seq<byte>>, e: Sqe) {
    e.op.DoSend? ==> Fits(log, bufs, e.op.fd, e.op.bid, e.op.len)
  }

  predicate CqeFits(log: seq<Note>, bufs: seq<seq<byte>>, e: Cqe) {
    e.info.kind.READ? && e.res > 0 ==> Fits(log, bufs, e.info.fd, e.bufferId, e.res)
  }

  /** Everything on its way to being sent still is what was received. */
  predicate OnItsWay(s: State) {
    && (forall k :: 0 <= k < |s.sq| ==> SqeFits(s.log, s.bufs, s.sq[k]))
    && (forall k :: 0 <= k < |s.flight| ==> SqeFits(s.log, s.bufs, s.flight[k].sqe))
    && (forall k :: 0 <= k < |s.cq| ==> CqeFits(s.log, s.bufs, s.cq[k]))
  }

  ghost predicate Isolated(p: Setup, s: State) {
    Echoes(s.log) && (s.exited || (Ownership(p, s) && OnItsWay(s)))
  }

  lemma {:induction false} LatestAfter(log: seq<Note>, n: Note, fd: int)
    ensures Latest(log + [n], fd) == if n.fd == fd then Some(n) else Latest(log, fd)
  {
    assert (log + [n])[..|log|] == log;
  }

  lemma {:induction false} EchoesAfter(log: seq<Note>, n: Note)
    requires Echoes(log) && (n.Sent? ==> Latest(log, n.fd) == Some(Received(n.fd, n.data)))
    ensures Echoes(log + [n])
  {
    var all := log + [n];
    forall i | 0 <= i < |all| && all[i].Sent?
      ensures Latest(all[..i], all[i].fd) == Some(Received(all[i].fd, all[i].data))
    {
      assert all[..i] == log[..i];
      assert i == |log| ==> log[..i] == log;
    }
  }

  /** A note about another descriptor and a change to another buffer leave it fitting. */
  lemma {:induction false} FitsAfter(
    log: seq<Note>, n: Note, bufs: seq<seq<byte>>, bufs': seq<seq<byte>>, fd: int, bid: nat, len: int)
    requires Fits(log, bufs, fd, bid, len) && n.fd != fd && bid < |bufs'| && bufs'[bid] == bufs[bid]
    ensures Fits(log + [n], bufs', fd, bid, len)
  {
    LatestAfter(log, n, fd);
  }

  // ---------- an item has one owner ----------

  /** Nothing owns the item, except possibly request `k` in flight. */
  predicate OnlyAt(s: State, k: nat, item: Item) {
    && (forall i :: 0 <= i < |s.sq| ==> !InSq(item)(s.sq[i]))
    && (forall i :: 0 <= i < |s.flight| && i != k ==> !InFlight(item)(s.flight[i]))
    && (forall i :: 0 <= i < |s.cq| ==> !InCq(item)(s.cq[i]))
  }

  /** What request `k` in flight owns, and what nobody is due to own, nobody else owns. */
  lemma {:induction false} OneOwner(p: Setup, s: State, k: nat, item: Item)
    requires Ownership(p, s) && k < |s.flight| && (InFlight(item)(s.flight[k]) || Due(p, s, item) == 0)
    ensures OnlyAt(s, k, item)
  {
    assert Owners(s, item) == Due(p, s, item) <= 1;
    CountDrop(s.flight, k, InFlight(item));
    forall i | 0 <= i < |s.sq| ensures !InSq(item)(s.sq[i]) {
      if InSq(item)(s.sq[i]) {
        CountHas(s.sq, i, InSq(item));
      }
    }
    forall i | 0 <= i < |s.flight| && i != k ensures !InFlight(item)(s.flight[i]) {
      if InFlight(item)(s.flight[i]) {
        var rest := Drop(s.flight, k);
        var j := if i < k then i else i - 1;
        assert rest[j] == s.flight[i];
        CountHas(rest, j, InFlight(item));
      }
    }
    forall i | 0 <= i < |s.cq| ensures !InCq(item)(s.cq[i]) {
      if InCq(item)(s.cq[i]) {
        CountHas(s.cq, i, InCq(item));
      }
    }
  }

  // ---------- every step keeps it ----------

  /** `bufs'` differs from the buffers at most where request `k` in flight owns the buffer. */
  predicate ChangesOwn(s: State, k: nat, bufs': seq<seq<byte>>) {
    |bufs'| == |s.bufs| && forall b :: 0 <= b < |s.bufs| && bufs'[b] != s.bufs[b] ==> OnlyAt(s, k, Buffer(b))
  }

  /** A note about a descriptor, and a change to a buffer, that only request `k` in flight owns
      leave everything else on its way as it was. */
  lemma {:induction false} OthersUndisturbed(s: State, k: nat, n: Note, bufs': seq<seq<byte>>)
    requires Labels(s) && OnItsWay(s)
    requires k < |s.flight| && OnlyAt(s, k, Conn(n.fd)) && ChangesOwn(s, k, bufs')
    ensures forall i :: 0 <= i < |s.sq| ==> SqeFits(s.log + [n], bufs', s.sq[i])
    ensures forall i :: 0 <= i < |s.flight| && i != k ==> SqeFits(s.log + [n], bufs', s.flight[i].sqe)
    ensures forall i :: 0 <= i < |s.cq| ==> CqeFits(s.log + [n], bufs', s.cq[i])
  {
    forall i | 0 <= i < |s.sq| && s.sq[i].op.DoSend? ensures SqeFits(s.log + [n], bufs', s.sq[i]) {
      var op := s.sq[i].op;
      assert SqeFits(s.log, s.bufs, s.sq[i]);
      assert !InSq(Conn(n.fd))(s.sq[i]) && InSq(Buffer(op.bid))(s.sq[i]);
      FitsAfter(s.log, n, s.bufs, bufs', op.fd, op.bid, op.len);
    }
    forall i | 0 <= i < |s.flight| && i != k && s.flight[i].sqe.op.DoSend?
      ensures SqeFits(s.log + [n], bufs', s.flight[i].sqe)
    {
      var op := s.flight[i].sqe.op;
      assert SqeFits(s.log, s.bufs, s.flight[i].sqe) && LabelledFlight(s.flight[i]);
      assert !InFlight(Conn(n.fd))(s.flight[i]) && InFlight(Buffer(op.bid))(s.flight[i]);
      FitsAfter(s.log, n, s.bufs, bufs', op.fd, op.bid, op.len);
    }
    forall i | 0 <= i < |s.cq| && s.cq[i].res > 0 && s.cq[i].info.kind.READ?
      ensures CqeFits(s.log + [n], bufs', s.cq[i])
    {
      var e := s.cq[i];
      assert CqeFits(s.log, s.bufs, e);
      assert !InCq(Conn(n.fd))(e) && InCq(Buffer(e.bufferId))(e);
      FitsAfter(s.log, n, s.bufs, bufs', e.info.fd, e.bufferId, e.res);
    }
  }

  /** Completing request `k` with a note: enough is that the new completion fits. */
  lemma {:induction false} CompleteOnItsWay(s: State, k: nat, n: Note, bufs': seq<seq<byte>>, e: Cqe, t: State)
    requires Labels(s) && OnItsWay(s) && k < |s.flight| && OnlyAt(s, k, Conn(n.fd)) && ChangesOwn(s, k, bufs')
    requires CqeFits(s.log + [n], bufs', e)
    requires t.log == s.log + [n] && t.bufs == bufs' && t.sq == s.sq
    requires t.flight == Drop(s.flight, k) && t.cq == s.cq + [e]
    ensures OnItsWay(t)
  {
    OthersUndisturbed(s, k, n, bufs');
    forall i | 0 <= i < |t.flight| ensures SqeFits(t.log, t.bufs, t.flight[i].sqe) {
      var j := if i < k then i else i + 1;
      assert t.flight[i] == s.flight[j];
    }
  }

  lemma {:induction false} AcceptKeepsIsolated(p: Setup, s: State, k: nat, res: int)
    requires Isolated(p, s) && Enabled(p, s, Accept(k, res)) && res >= 0
    ensures Echoes(Apply(p, s, Accept(k, res)).log) && OnItsWay(Apply(p, s, Accept(k, res)))
  {
    assert LabelledFlight(s.flight[k]);
    OneOwner(p, s, k, Conn(res));
    EchoesAfter(s.log, Opened(res));
    CompleteOnItsWay(s, k, Opened(res), s.bufs, Cqe(s.flight[k].sqe.info, res, 0), Apply(p, s, Accept(k, res)));
  }

  /** Received data goes into a buffer nothing else refers to. */
  lemma {:induction false} ReceiveKeepsIsolated(p: Setup, s: State, k: nat, data: seq<byte>)
    requires Isolated(p, s) && Enabled(p, s, Receive(k, data))
    ensures Echoes(Apply(p, s, Receive(k, data)).log) && OnItsWay(Apply(p, s, Receive(k, data)))
  {
    var f, t := s.flight[k], Apply(p, s, Receive(k, data));
    var fd, b := f.sqe.op.fd, f.held.value;
    assert LabelledFlight(f);
    OneOwner(p, s, k, Conn(fd));
    OneOwner(p, s, k, Buffer(b));
    EchoesAfter(s.log, Received(fd, data));
    LatestAfter(s.log, Received(fd, data), fd);
    assert t.bufs[b][..|data|] == data;
    CompleteOnItsWay(s, k, Received(fd, data), t.bufs, Cqe(f.sqe.info, |data|, b), t);
  }

  /** What is sent is what the connection received last. */
  lemma {:induction false} SendKeepsIsolated(p: Setup, s: State, k: nat)
    requires Isolated(p, s) && Enabled(p, s, Send(k))
    ensures Echoes(Apply(p, s, Send(k)).log) && OnItsWay(Apply(p, s, Send(k)))
  {
    var f, t := s.flight[k], Apply(p, s, Send(k));
    var op := f.sqe.op;
    var n := Sent(op.fd, s.bufs[op.bid][..op.len]);
    assert LabelledFlight(f) && SqeFits(s.log, s.bufs, f.sqe);
    OneOwner(p, s, k, Conn(op.fd));
    EchoesAfter(s.log, n);
    CompleteOnItsWay(s, k, n, s.bufs, Cqe(f.sqe.info, op.len, 0), t);
  }

  /** A handled receive hands its buffer, length and descriptor to the send unchanged. */
  lemma {:induction false} HandleKeepsOnItsWay(p: Setup, s: State)
    requires OnItsWay(s) && Enabled(p, s, Handle)
    ensures OnItsWay(Apply(p, s, Handle))
  {
    var e, t := s.cq[0], Apply(p, s, Handle);
    assert CqeFits(s.log, s.bufs, e);
    forall i | 0 <= i < |t.sq| ensures SqeFits(t.log, t.bufs, t.sq[i]) {
      if i < |s.sq| {
        assert t.sq[i] == s.sq[i];
      } else {
        assert t.sq[i] == Appended(p, e)[i - |s.sq|];
      }
    }
    forall i | 0 <= i < |t.cq| ensures CqeFits(t.log, t.bufs, t.cq[i]) {
      assert t.cq[i] == s.cq[i + 1];
    }
  }

  /** Steps that note nothing and touch no buffer move what is on its way along. */
  lemma {:induction false} QuietKeepsOnItsWay(p: Setup, s: State, step: Step)
    requires Labels(s) && OnItsWay(s) && Enabled(p, s, step)
    requires !step.Handle? && !step.Receive? && !step.Send? && !(step.Accept? && step.res >= 0)
    ensures OnItsWay(Apply(p, s, step)) && Apply(p, s, step).log == s.log
  {
    var t := Apply(p, s, step);
    if step.Issue? || step.IssueSelect? || step.IssueDefer? || step.IssueNoBufs? {
      assert SqeFits(s.log, s.bufs, s.sq[0]) && Labelled(s.sq[0]);
      assert forall i :: 0 <= i < |t.sq| ==> t.sq[i] == s.sq[i + 1];
    } else if !step.Select? {
      assert LabelledFlight(s.flight[step.k]);
      forall i | 0 <= i < |t.flight| ensures SqeFits(t.log, t.bufs, t.flight[i].sqe) {
        var j := if i < step.k then i else i + 1;
        assert t.flight[i] == s.flight[j];
      }
    }
  }

  lemma {:induction false} StepKeepsIsolated(p: Setup, s: State, step: Step)
    requires Isolated(p, s) && Enabled(p, s, step)
    ensures Isolated(p, Apply(p, s, step))
  {
    StepKeepsOwnership(p, s, step);
    if step.Handle? {
      HandleKeepsOnItsWay(p, s);
    } else if step.Receive? {
      ReceiveKeepsIsolated(p, s, step.k, step.data);
    } else if step.Send? {
      SendKeepsIsolated(p, s, step.k);
    } else if step.Accept? && step.res >= 0 {
      AcceptKeepsIsolated(p, s, step.k, step.res);
    } else {
      QuietKeepsOnItsWay(p, s, step);
    }
  }

  lemma {:induction false} RunKeepsIsolated(p: Setup, s: State, steps: seq<Step>)
    requires Isolated(p, s) && Runs(p, s, steps)
    ensures Isolated(p, After(p, s, steps))
    decreases |steps|
  {
    if |steps| > 0 {
      StepKeepsIsolated(p, s, steps[0]);
      RunKeepsIsolated(p, Apply(p, s, steps[0]), steps[1..]);
    }
  }

  /** Echo isolation. On every run, whether or not it ever runs out of buffers, the payload of
      each send is exactly the payload of the receive that immediately precedes it among the
      events of its connection. */
  lemma {:induction false} EverySendEchoes(p: Setup, s: State, steps: seq<Step>)
    requires Initial(p, s) && Runs(p, s, steps)
    ensures Echoes(After(p, s, steps).log)
  {
    InitialOwnership(p, s);
    RunKeepsIsolated(p, s, steps);
  }
}
