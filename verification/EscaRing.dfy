/** The shared ring as the source updates it in place: registration, the producer's wrapper body
    and `batch_start`, and the worker's waiting loop and pass. Each method is one thread running
    on its own. Its contract says which steps of the interleaved machine it takes, so that the
    results about runs apply to it, and what it achieves. */
module EscaRing {
  import opened Cursors
  import opened Calls
  import opened RingProtocol
  import opened RingLiveness
  import opened RingRuns

  class Ring {
    const c: Config
    const slots: array<Slot>
    var head: Cursor
    var tail: Cursor
    var need: bool
    var start: bool
    var queued: bool
    var runnable: bool
    ghost var producer: Producer
    ghost var worker: Worker
    ghost var submitted: seq<Call>
    ghost var executed: seq<Event>
    ghost var published: nat

    ghost function St(): State
      reads this, slots
    {
      State(slots[..], head, tail, need, start, queued, runnable, producer, worker, submitted, executed, published)
    }

    /** Registration over pinned table memory of any content. */
    constructor Register(c: Config, mem: array<Slot>)
      requires ValidConfig(c) && mem.Length == Size(c) && AllValid(mem[..])
      modifies mem
      ensures this.c == c && slots == mem && Initial(c, St())
      ensures head == tail == Cursor(0, 0) && need && !start
      ensures forall k :: 0 <= k < mem.Length ==> mem[k].status == Empty
    {
      this.c, slots := c, mem;
      new;
      SizePositive(c);
      for j := 0 to c.tables
        invariant AllValid(slots[..])
        invariant forall m :: 0 <= m < Index(c, Cursor(j, 0)) && m < slots.Length ==> slots[m].status == Empty
      {
        for k := 0 to c.entries
          invariant AllValid(slots[..])
          invariant forall m :: 0 <= m < Index(c, Cursor(j, k)) && m < slots.Length ==> slots[m].status == Empty
        {
          IndexBound(c, Cursor(j, k));
          var at := Index(c, Cursor(j, k));
          slots[at] := slots[at].(status := Empty);
        }
      }
      head, tail := Cursor(0, 0), Cursor(0, 0);
      need, start, queued, runnable := true, false, false, true;
      producer, worker := Outside, Polling;
      submitted, executed, published := [], [], 0;
    }

    /** One store of a wrapper into the slot at the tail. */
    method StoreField(call: Call, field: nat)
      requires Enabled(c, St(), Fill) && producer == Filling(call, field)
      requires Filled(slots[Index(c, tail)], call, field)
      modifies slots, this`producer
      ensures St() == Apply(c, old(St()), Fill) && Filled(slots[Index(c, tail)], call, field + 1)
      ensures forall k :: 0 <= k < slots.Length && k != Index(c, tail) ==> slots[k] == old(slots[k])
    {
      var at := Index(c, tail);
      FillOne(slots[at], call, field);
      slots[at] := WriteField(slots[at], call, field);
      producer := if field + 1 == 2 + |call.args| then Spinning(call) else Filling(call, field + 1);
    }

    /** The stores of a wrapper into the slot at the tail, one field after another. */
    method FillSlot(call: Call) returns (ghost steps: seq<Step>)
      requires Enabled(c, St(), Begin(call))
      modifies slots, this`producer
      ensures Runs(c, old(St()), steps) && St() == After(c, old(St()), steps)
      ensures FilledIn(c, old(St()), St(), call)
    {
      ghost var s0 := St();
      ghost var s := Apply(c, s0, Begin(call));
      FillStarts(c, s0, call);
      steps := [Begin(call)];
      producer := Filling(call, 0);
      var field := 0;
      while field < 2 + |call.args|
        invariant 0 <= field <= 2 + |call.args| && St() == s && InFill(c, s0, steps, s, call, field)
      {
        FillGoesOn(c, s0, steps, s, call, field);
        s := Apply(c, s, Fill);
        StoreField(call, field);
        field := field + 1;
        steps := steps + [Fill];
      }
    }

    /** One evaluation of the spin test of `update_index`, and the advance when it is false. */
    method UpdateIndex() returns (advanced: bool)
      requires Shape(c, St()) && producer.Spinning?
      modifies this`tail, this`producer, this`submitted
      ensures advanced == !old(Full(c, head, tail))
      ensures St() == Apply(c, old(St()), if advanced then Advance else Spin)
    {
      var full := if c.guard.AsWritten? then tail.entry + 1 == head.entry && tail.table == head.table
                  else Next(c, tail) == head;
      if full {
        return false;
      }
      submitted, producer := submitted + [producer.call], Marking(tail);
      if tail.entry == c.entries - 1 {
        tail := Cursor(if tail.table == c.tables - 1 then 0 else tail.table + 1, 0);
      } else {
        tail := Cursor(tail.table, tail.entry + 1);
      }
      advanced := true;
    }

    /** The BUSY store of a wrapper into the slot its saved indices name. */
    method MarkBusy(i: nat, j: nat)
      requires Enabled(c, St(), Mark) && producer == Marking(Cursor(i, j))
      modifies slots, this`producer
      ensures St() == Apply(c, old(St()), Mark)
    {
      var at := Index(c, Cursor(i, j));
      slots[at] := slots[at].(status := Busy);
      producer := Outside;
    }

    /** A whole wrapper call. When it passes the spin test the call is appended and its slot
        is BUSY; otherwise the call is in the slot, unsent. No other slot changes. */
    method Submit(call: Call) returns (advanced: bool, ghost steps: seq<Step>)
      requires Enabled(c, St(), Begin(call)) && InRange(c, tail) && slots.Length == Size(c)
      modifies slots, this`tail, this`producer, this`submitted
      ensures Runs(c, old(St()), steps) && St() == After(c, old(St()), steps)
      ensures advanced == !old(Full(c, head, tail))
      ensures if advanced then HandedOver(c, old(St()), St(), call) else FilledIn(c, old(St()), St(), call)
    {
      ghost var s0 := St();
      var i, j := tail.table, tail.entry;
      ghost var fill := FillSlot(call);
      ghost var s := St();
      steps := SubmitEnds(c, s0, fill, s, call);
      advanced := UpdateIndex();
      if advanced {
        MarkBusy(i, j);
      }
    }

    /** What `batch_start` does to one ring: afterwards the worker is not asleep and not about
        to sleep. */
    method Visit() returns (ghost steps: seq<Step>)
      requires Shape(c, St()) && Wakeable(St()) && producer.Outside?
      modifies this`start, this`queued, this`runnable
      ensures Runs(c, old(St()), steps) && St() == After(c, old(St()), steps)
      ensures St() == Visited(old(St())) && !Doomed(St())
    {
      VisitRun(c, St());
      steps := VisitSteps(St());
      if need {
        start := true;
        WakeUp();
        start := false;
      }
    }

    /** `sys_esca_wakeup`. */
    method WakeUp()
      modifies this`queued, this`runnable
      ensures queued == (old(queued) && !start)
      ensures runnable == (old(runnable) || (start && old(queued)))
    {
      if start {
        if queued {
          queued, runnable := false, true;
        }
      }
    }

    /** One turn of the waiting loop: poll the head slot; when it is EMPTY and the idle time is
        over, queue, raise NEED_WAKEUP and look again before sleeping. With nobody else running
        the worker goes to sleep only when no marked entry is pending. */
    method WaitTurn(expired: bool) returns (found: bool, ghost steps: seq<Step>)
      requires Inv(c, St()) && worker.Polling?
      modifies this`need, this`queued, this`runnable, this`worker
      ensures Runs(c, old(St()), steps) && St() == After(c, old(St()), steps) == Waited(c, old(St()), expired)
      ensures found <==> slots[Index(c, head)].status == Busy
      ensures published < Marked(St()) ==> found
    {
      ghost var s := St();
      WaitRun(c, s, expired);
      steps := WaitSteps(c, s, expired);
      if slots[Index(c, head)].status != Empty {
        worker := Snapshotting;
        return true, steps;
      }
      found := false;
      if expired {
        queued, runnable := true, false;
        need := true;
        if slots[Index(c, head)].status == Empty {
          worker := Sleeping;
        }
      }
    }

    /** One pass: snapshot the tail, run every entry up to it, publish the head once at the end.
        Exactly the entries submitted by the snapshot are executed, in order, each with its own
        registers, the head published is the tail that was snapshotted, and every slot of the pass
        is EMPTY again. */
    method Pass() returns (ghost steps: seq<Step>)
      requires Inv(c, St()) && worker.Snapshotting?
      modifies slots, this`head, this`worker, this`executed, this`published
      ensures Runs(c, old(St()), steps) && St() == After(c, old(St()), steps)
      ensures worker == Polling && head == tail
      ensures published == |executed| == |submitted| && InOrder(submitted, executed)
      ensures Cleared(c, slots[..], |old(executed)|, |submitted|)
    {
      ghost var s0 := St();
      var i, j := head.table, head.entry;
      PassStarts(c, s0);
      ghost var s := Apply(c, s0, Snapshot);
      steps := [Snapshot];
      var left := SnapshotTail();
      while left != 0
        invariant 0 <= left && St() == s && InPass(c, s0, steps, s, Cursor(i, j), left)
      {
        PassGoesOn(c, s0, steps, s, Cursor(i, j), left);
        s := Apply(c, Apply(c, s, Execute), ClearStatus);
        RunSlot(i, j, left);
        i, j := ClearSlot(i, j, left);
        left := left - 1;
        steps := steps + [Execute] + [ClearStatus];
      }
      PassEnds(c, s0, steps, s, Cursor(i, j));
      PublishHead(i, j);
      steps := steps + [Publish];
    }

    /** How many entries the pass will run, counted between the head and the tail read now. */
    method SnapshotTail() returns (left: int)
      requires Enabled(c, St(), Snapshot)
      modifies this`worker
      ensures St() == Apply(c, old(St()), Snapshot) && left == SnapshotCount(c, head, tail)
    {
      var headIndex, tailIndex := Index(c, head), Index(c, tail);
      left := if tailIndex >= headIndex then tailIndex - headIndex
              else Size(c) - headIndex + tailIndex;
      worker := Draining(head, left);
    }

    method PublishHead(i: nat, j: nat)
      requires Enabled(c, St(), Publish) && worker == Publishing(Cursor(i, j))
      modifies this`head, this`worker, this`published
      ensures St() == Apply(c, old(St()), Publish)
    {
      head := Cursor(i, j);
      published := |executed|;
      worker := Polling;
    }

    /** Run the slot at the local cursor. */
    method RunSlot(i: nat, j: nat, left: nat)
      requires Enabled(c, St(), Execute) && worker == Executing(Cursor(i, j), left)
      modifies this`worker, this`executed
      ensures St() == Apply(c, old(St()), Execute)
    {
      var at := Index(c, Cursor(i, j));
      var regs := IndirectCall(slots[at].nargs, slots[at].args);
      executed := executed + [Event(slots[at].sysnum, regs)];
      worker := Clearing(Cursor(i, j), left);
    }

    /** Clear the status of the slot just run and step the local cursor. */
    method ClearSlot(i: nat, j: nat, left: nat) returns (i': nat, j': nat)
      requires Enabled(c, St(), ClearStatus) && worker == Clearing(Cursor(i, j), left)
      modifies slots, this`worker
      ensures St() == Apply(c, old(St()), ClearStatus) && slots[Index(c, Cursor(i, j))].status == Empty
      ensures Cursor(i', j') == Next(c, Cursor(i, j))
    {
      var at := Index(c, Cursor(i, j));
      slots[at] := slots[at].(status := Empty);
      if j == c.entries - 1 {
        i', j' := if i == c.tables - 1 then 0 else i + 1, 0;
      } else {
        i', j' := i, j + 1;
      }
      worker := Draining(Cursor(i', j'), left - 1);
    }
  }

  /** `batch_start`: every ring of the calling worker, and no other, is visited. */
  method BatchStart(rings: seq<Ring>, first: nat, ratio: nat)
    requires first + ratio <= |rings|
    requires forall j, k :: 0 <= j < k < |rings| ==> rings[j] != rings[k]
    requires forall j :: first <= j < first + ratio ==>
               Shape(rings[j].c, rings[j].St()) && Wakeable(rings[j].St()) && rings[j].producer.Outside?
    modifies set j | first <= j < first + ratio :: rings[j]
    ensures forall j :: first <= j < first + ratio ==>
              rings[j].St() == Visited(old(rings[j].St())) && !Doomed(rings[j].St())
    ensures forall j :: 0 <= j < |rings| && !(first <= j < first + ratio) ==> rings[j].St() == old(rings[j].St())
  {
    for j := first to first + ratio
      invariant forall k :: first <= k < j ==>
                  rings[k].St() == Visited(old(rings[k].St())) && !Doomed(rings[k].St())
      invariant forall k :: 0 <= k < |rings| && !(first <= k < j) ==> rings[k].St() == old(rings[k].St())
    {
      ghost var steps := rings[j].Visit();
    }
  }

  function WaitSteps(c: Config, s: State, expired: bool): seq<Step>
    requires Shape(c, s)
  {
    if !HeadIsEmpty(c, s) then [Poll]
    else if expired then SLEEP_STEPS
    else [Poll, StayAwake]
  }

  /** Off to a pass with a BUSY head slot; asleep, on the wait queue and with NEED_WAKEUP raised,
      when the idle time is over; otherwise as before. */
  function Waited(c: Config, s: State, expired: bool): State
    requires Shape(c, s)
  {
    if !HeadIsEmpty(c, s) then s.(worker := Snapshotting)
    else if expired then s.(worker := Sleeping, need := true, queued := true, runnable := false)
    else s
  }

  lemma {:induction false} WaitRun(c: Config, s: State, expired: bool)
    requires Shape(c, s) && s.worker.Polling?
    ensures Runs(c, s, WaitSteps(c, s, expired)) && After(c, s, WaitSteps(c, s, expired)) == Waited(c, s, expired)
    ensures Inv(c, s) && s.published < Marked(s) ==> !HeadIsEmpty(c, s)
  {
    if Inv(c, s) && s.published < Marked(s) {
      HeadIsBusy(c, s, s.published);
    }
    var s1 := Apply(c, s, Poll);
    if !HeadIsEmpty(c, s) {
      Trace(c, [s, s1], [Poll]);
    } else if expired {
      SleepRun(c, s);
    } else {
      Trace(c, [s, s1, Apply(c, s1, StayAwake)], [Poll, StayAwake]);
    }
  }

  /** `steps` lead from a producer about to call to one that has stored `field` fields of it. */
  predicate FillRuns(c: Config, s0: State, steps: seq<Step>, s: State, call: Call, field: nat) {
    && Shape(c, s0) && Runs(c, s0, steps) && s == After(c, s0, steps) && Shape(c, s) && ValidCall(call)
    && field <= 2 + |call.args| && |s.slots| == |s0.slots|
    && var i := Index(c, s0.tail);
       && Filled(s.slots[i], call, field)
       && s == s0.(slots := s0.slots[i := s.slots[i]], producer := s.producer)
  }

  predicate InFill(c: Config, s0: State, steps: seq<Step>, s: State, call: Call, field: nat) {
    match s.producer
    case Filling(of, done) => of == call && done == field < 2 + |call.args| && FillRuns(c, s0, steps, s, call, field)
    case Spinning(of) => of == call && field == 2 + |call.args| && FillRuns(c, s0, steps, s, call, field)
    case _ => false
  }

  lemma {:induction false} FillStarts(c: Config, s0: State, call: Call)
    requires Enabled(c, s0, Begin(call))
    ensures InFill(c, s0, [Begin(call)], Apply(c, s0, Begin(call)), call, 0)
  {
    var i := Index(c, s0.tail);
    Trace(c, [s0, Apply(c, s0, Begin(call))], [Begin(call)]);
    assert s0.slots[i := s0.slots[i]] == s0.slots;
  }

  lemma {:induction false} FillGoesOn(c: Config, s0: State, steps: seq<Step>, s: State, call: Call, field: nat)
    requires InFill(c, s0, steps, s, call, field) && field < 2 + |call.args|
    ensures Enabled(c, s, Fill) && s.producer == Filling(call, field) && Filled(s.slots[Index(c, s.tail)], call, field)
    ensures InFill(c, s0, steps + [Fill], Apply(c, s, Fill), call, field + 1)
  {
    var i := Index(c, s0.tail);
    FillOne(s.slots[i], call, field);
    Append(c, s0, steps, Fill);
    assert s0.slots[i := s.slots[i]][i := Apply(c, s, Fill).slots[i]] == s0.slots[i := Apply(c, s, Fill).slots[i]];
  }

  /** The steps of a wrapper call after its stores, as far as the spin test lets them go. */
  lemma {:induction false} SubmitEnds(c: Config, s0: State, fill: seq<Step>, s: State, call: Call)
    returns (steps: seq<Step>)
    requires Shape(c, s0) && Runs(c, s0, fill) && s == After(c, s0, fill) && ValidCall(call) && FilledIn(c, s0, s, call)
    requires Shape(c, s) && InRange(c, s.tail) && |s.slots| == Size(c)
    ensures Runs(c, s0, steps)
    ensures Full(c, s.head, s.tail) ==> After(c, s0, steps) == s
    ensures !Full(c, s.head, s.tail) ==>
              && Enabled(c, s, Advance) && Enabled(c, Apply(c, s, Advance), Mark)
              && After(c, s0, steps) == Apply(c, Apply(c, s, Advance), Mark)
              && HandedOver(c, s0, After(c, s0, steps), call)
  {
    if Full(c, s.head, s.tail) {
      SpinStays(c, s);
      Concatenate(c, s0, fill, [Spin]);
      steps := fill + [Spin];
    } else {
      var t := AdvanceAndMark(c, s);
      Concatenate(c, s0, fill, [Advance, Mark]);
      steps := fill + [Advance, Mark];
      var i := Index(c, s0.tail);
      assert s0.slots[i := s.slots[i]][i := t.slots[i]] == s0.slots[i := t.slots[i]];
    }
  }

  /** The slots of entries `lo` up to `hi` are EMPTY. */
  predicate Cleared(c: Config, slots: seq<Slot>, lo: nat, hi: nat) {
    && ValidConfig(c) && |slots| == Size(c)
    && forall k: nat {:trigger Place(c, k)} :: lo <= k < hi ==> slots[Place(c, k)].status == Empty
  }

  /** `steps` lead from the start of a pass to `s`, with `left` entries still to run. */
  predicate PassRuns(c: Config, s0: State, steps: seq<Step>, s: State, left: nat) {
    && Runs(c, s0, steps) && Fits(c, s0, steps) && s == After(c, s0, steps)
    && |s.executed| + left == |s.submitted| && Cleared(c, s.slots, |s0.executed|, |s.executed|)
  }

  /** The same, with the worker about to run the entry at `at`, or to publish `at`. */
  predicate InPass(c: Config, s0: State, steps: seq<Step>, s: State, at: Cursor, left: nat) {
    match s.worker
    case Executing(p, n) => p == at && n == left && PassRuns(c, s0, steps, s, left)
    case Publishing(p) => p == at && left == 0 && PassRuns(c, s0, steps, s, left)
    case _ => false
  }

  lemma {:induction false} PassStarts(c: Config, s0: State)
    requires Inv(c, s0) && s0.worker.Snapshotting?
    ensures InPass(c, s0, [Snapshot], Apply(c, s0, Snapshot), s0.head, SnapshotCount(c, s0.head, s0.tail))
  {
    SnapshotIsOutstanding(c, s0.head, s0.published, s0.tail, |s0.submitted|);
    Trace(c, [s0, Apply(c, s0, Snapshot)], [Snapshot]);
  }

  /** What one turn of the drain loop changes. */
  lemma {:induction false} DrainOne(c: Config, s: State)
    requires Shape(c, s) && s.worker.Executing?
    ensures Enabled(c, s, Execute) && Enabled(c, Apply(c, s, Execute), ClearStatus)
    ensures var t, i := Apply(c, Apply(c, s, Execute), ClearStatus), Index(c, s.worker.at);
      && t.worker == Draining(Next(c, s.worker.at), s.worker.left - 1)
      && |t.executed| == |s.executed| + 1 && t.submitted == s.submitted
      && |t.slots| == |s.slots| && t.slots[i].status == Empty
      && forall k :: 0 <= k < |s.slots| && s.slots[k].status == Empty ==> t.slots[k].status == Empty
  {
  }

  lemma {:induction false} ClearOneMore(c: Config, s: State, t: State, lo: nat)
    requires Inv(c, s) && s.worker.Executing? && Cleared(c, s.slots, lo, |s.executed|) && |t.slots| == |s.slots|
    requires t.slots[Index(c, s.worker.at)].status == Empty
    requires forall k :: 0 <= k < |s.slots| && s.slots[k].status == Empty ==> t.slots[k].status == Empty
    ensures Cleared(c, t.slots, lo, |s.executed| + 1)
  {
    assert Index(c, s.worker.at) == Place(c, |s.executed|);
  }

  lemma {:induction false} PassGoesOn(c: Config, s0: State, steps: seq<Step>, s: State, at: Cursor, left: nat)
    requires Inv(c, s0) && InPass(c, s0, steps, s, at, left) && left > 0
    ensures Enabled(c, s, Execute) && Enabled(c, Apply(c, s, Execute), ClearStatus)
    ensures InPass(c, s0, steps + [Execute] + [ClearStatus],
                   Apply(c, Apply(c, s, Execute), ClearStatus), Next(c, at), left - 1)
  {
    RunKeepsInv(c, s0, steps);
    DrainOne(c, s);
    ClearOneMore(c, s, Apply(c, Apply(c, s, Execute), ClearStatus), |s0.executed|);
    Append(c, s0, steps, Execute);
    Append(c, s0, steps + [Execute], ClearStatus);
  }

  /** A pass that has run everything submitted publishes the tail. */
  lemma {:induction false} PassEnds(c: Config, s0: State, steps: seq<Step>, s: State, at: Cursor)
    requires Inv(c, s0) && InPass(c, s0, steps, s, at, 0)
    ensures at == s.tail && InOrder(s.submitted, s.executed) && Enabled(c, s, Publish)
    ensures Runs(c, s0, steps + [Publish]) && After(c, s0, steps + [Publish]) == Apply(c, s, Publish)
  {
    RunKeepsInv(c, s0, steps);
    AtSame(c, at, |s.executed|, s.tail, |s.submitted|);
    Append(c, s0, steps, Publish);
  }
}
