/** One shared ring, its producer and its kernel worker, as a machine whose steps interleave
    freely. Every shared read or write of the source is its own step; a cursor pair, and a
    read-modify-write of the flag word, is one step. A step label fixes the successor state,
    so a run is a sequence of labels. */
module RingProtocol {
  import opened Basics
  import opened Cursors
  import opened Calls

  /** Where the producing thread stands: in a wrapper call, or in `batch_start`. */
  datatype Producer =
    | Outside
    | Filling(call: Call, done: nat)
    | Spinning(call: Call)
    | Marking(at: Cursor)
    | SawNeed
    | Signalling
    | Unsignalling

  /** Where the kernel worker stands. Up to `Snapshotting` its local cursor is the head it read. */
  datatype Worker =
    | Polling
    | Idling
    | Queued
    | Flagged
    | Sleeping
    | Finishing
    | Unflagging
    | Snapshotting
    | Executing(at: Cursor, left: nat)
    | Clearing(at: Cursor, left: nat)
    | Publishing(at: Cursor)

  /** The ring, its two threads, and three history variables: the calls whose tail advance
      happened, the calls the worker ran, and how many of those the published head covers. */
  datatype State = State(
    slots: seq<Slot>,
    head: Cursor,
    tail: Cursor,
    need: bool,
    start: bool,
    queued: bool,
    runnable: bool,
    producer: Producer,
    worker: Worker,
    submitted: seq<Call>,
    executed: seq<Event>,
    published: nat)

  datatype Step =
    // wrapper call
    | Begin(call: Call) | Fill | Spin | Advance | Mark
    // batch_start
    | Visit | RaiseStart | Wake | DropStart
    // worker: waiting for work
    | Poll | StayAwake | PrepareToWait | RaiseNeed | Recheck | Schedule | FinishWait | DropNeed
    // worker: one pass
    | Snapshot | Execute | ClearStatus | Publish

  predicate WorkerStep(step: Step) {
    match step
    case Begin(_) => false
    case Fill => false
    case Spin => false
    case Advance => false
    case Mark => false
    case Visit => false
    case RaiseStart => false
    case Wake => false
    case DropStart => false
    case _ => true
  }

  predicate Slotted(c: Config, s: State, p: Cursor) {
    Index(c, p) < |s.slots|
  }

  predicate AllValid(slots: seq<Slot>) {
    forall k :: 0 <= k < |slots| ==> ValidSlot(slots[k])
  }

  /** Enough to index the table with every cursor in use. */
  predicate Shape(c: Config, s: State) {
    && ValidConfig(c)
    && AllValid(s.slots)
    && Slotted(c, s, s.head) && Slotted(c, s, s.tail)
    && (s.producer.Marking? ==> Slotted(c, s, s.producer.at))
    && (s.producer.Filling? ==> ValidCall(s.producer.call) && s.producer.done < 2 + |s.producer.call.args|)
    && (s.worker.Executing? || s.worker.Clearing? ==> Slotted(c, s, s.worker.at) && s.worker.left > 0)
  }

  predicate HeadIsEmpty(c: Config, s: State)
    requires Shape(c, s)
  {
    s.slots[Index(c, s.head)].status == Empty
  }

  /** The state `sys_esca_register` leaves: empty statuses, cursors at 0, NEED_WAKEUP set. */
  predicate Initial(c: Config, s: State) {
    && Shape(c, s)
    && |s.slots| == Size(c)
    && (forall k :: 0 <= k < |s.slots| ==> s.slots[k].status == Empty)
    && s.head == s.tail == Cursor(0, 0)
    && s.need && !s.start && !s.queued && s.runnable
    && s.producer == Outside && s.worker == Polling
    && s.submitted == [] && s.executed == [] && s.published == 0
  }

  predicate Enabled(c: Config, s: State, step: Step) {
    && Shape(c, s)
    && match step
       case Begin(call) => s.producer.Outside? && ValidCall(call)
       case Fill => s.producer.Filling?
       case Spin => s.producer.Spinning? && Full(c, s.head, s.tail)
       case Advance => s.producer.Spinning? && !Full(c, s.head, s.tail)
       case Mark => s.producer.Marking?
       case Visit => s.producer.Outside?
       case RaiseStart => s.producer.SawNeed?
       case Wake => s.producer.Signalling?
       case DropStart => s.producer.Unsignalling?
       case Poll => s.worker.Polling?
       case StayAwake => s.worker.Idling?
       case PrepareToWait => s.worker.Idling?
       case RaiseNeed => s.worker.Queued?
       case Recheck => s.worker.Flagged?
       case Schedule => s.worker.Sleeping? && s.runnable
       case FinishWait => s.worker.Finishing?
       case DropNeed => s.worker.Unflagging?
       case Snapshot => s.worker.Snapshotting?
       case Execute => s.worker.Executing?
       case ClearStatus => s.worker.Clearing?
       case Publish => s.worker.Publishing?
  }

  function WithStatus(s: State, k: nat, status: Status): seq<Slot>
    requires k < |s.slots|
  {
    s.slots[k := s.slots[k].(status := status)]
  }

  function Apply(c: Config, s: State, step: Step): State
    requires Enabled(c, s, step)
  {
    match step
    case Begin(call) => s.(producer := Filling(call, 0))
    case Fill =>
      var call, done, k := s.producer.call, s.producer.done, Index(c, s.tail);
      s.(slots := s.slots[k := WriteField(s.slots[k], call, done)],
         producer := if done + 1 == 2 + |call.args| then Spinning(call) else Filling(call, done + 1))
    case Spin => s
    case Advance =>
      s.(tail := Next(c, s.tail), producer := Marking(s.tail), submitted := s.submitted + [s.producer.call])
    case Mark => s.(slots := WithStatus(s, Index(c, s.producer.at), Busy), producer := Outside)
    case Visit => if s.need then s.(producer := SawNeed) else s
    case RaiseStart => s.(start := true, producer := Signalling)
    case Wake =>
      if s.start && s.queued then s.(queued := false, runnable := true, producer := Unsignalling)
      else s.(producer := Unsignalling)
    case DropStart => s.(start := false, producer := Outside)
    case Poll => s.(worker := if HeadIsEmpty(c, s) then Idling else Snapshotting)
    case StayAwake => s.(worker := Polling)
    case PrepareToWait => s.(queued := true, runnable := false, worker := Queued)
    case RaiseNeed => s.(need := true, worker := Flagged)
    case Recheck => s.(worker := if HeadIsEmpty(c, s) then Sleeping else Finishing)
    case Schedule => s.(worker := Finishing)
    case FinishWait => s.(queued := false, runnable := true, worker := Unflagging)
    case DropNeed => s.(need := false, worker := Polling)
    case Snapshot => s.(worker := Draining(s.head, SnapshotCount(c, s.head, s.tail)))
    case Execute =>
      s.(executed := s.executed + [Dispatch(s.slots[Index(c, s.worker.at)])],
         worker := Clearing(s.worker.at, s.worker.left))
    case ClearStatus =>
      s.(slots := WithStatus(s, Index(c, s.worker.at), Empty),
         worker := Draining(Next(c, s.worker.at), s.worker.left - 1))
    case Publish => s.(head := s.worker.at, published := |s.executed|, worker := Polling)
  }

  /** The head of the drain loop. */
  function Draining(at: Cursor, left: int): Worker {
    if left > 0 then Executing(at, left) else Publishing(at)
  }

  predicate Runs(c: Config, s: State, steps: seq<Step>)
    decreases |steps|
  {
    |steps| == 0 || (Enabled(c, s, steps[0]) && Runs(c, Apply(c, s, steps[0]), steps[1..]))
  }

  function After(c: Config, s: State, steps: seq<Step>): State
    requires Runs(c, s, steps)
    decreases |steps|
  {
    if |steps| == 0 then s else After(c, Apply(c, s, steps[0]), steps[1..])
  }

  /** The tail advance the spin test in the source lets through although the ring is full. */
  predicate Overflows(c: Config, s: State, step: Step) {
    step.Advance? && |s.submitted| - s.published == Size(c) - 1 && s.head.entry == 0
  }

  /** A step the safety results cover: enabled, and with the test as written not an overflow. */
  predicate Legal(c: Config, s: State, step: Step) {
    Enabled(c, s, step) && (c.guard.NextIsHead? || !Overflows(c, s, step))
  }

  /** No advance of the run is the one the source's spin test misses. */
  predicate Fits(c: Config, s: State, steps: seq<Step>)
    requires Runs(c, s, steps)
    decreases |steps|
  {
    |steps| == 0 || (!Overflows(c, s, steps[0]) && Fits(c, Apply(c, s, steps[0]), steps[1..]))
  }

  /** Putting one enabled step in front of a run. */
  lemma {:induction false} Prepend(c: Config, s: State, step: Step, rest: seq<Step>)
    requires Enabled(c, s, step) && Runs(c, Apply(c, s, step), rest)
    ensures Runs(c, s, [step] + rest)
    ensures After(c, s, [step] + rest) == After(c, Apply(c, s, step), rest)
    ensures !Overflows(c, s, step) && Fits(c, Apply(c, s, step), rest) ==> Fits(c, s, [step] + rest)
  {
    assert ([step] + rest)[1..] == rest;
  }

  predicate Leads(c: Config, s: State, step: Step, t: State) {
    Enabled(c, s, step) && t == Apply(c, s, step)
  }

  /** A run given by its states. */
  lemma {:induction false} Trace(c: Config, states: seq<State>, steps: seq<Step>)
    requires |states| == |steps| + 1
    requires forall k {:trigger steps[k]} :: 0 <= k < |steps| ==> Leads(c, states[k], steps[k], states[k + 1])
    ensures Runs(c, states[0], steps)
    ensures After(c, states[0], steps) == states[|steps|]
    ensures (forall k {:trigger steps[k]} :: 0 <= k < |steps| ==> !Overflows(c, states[k], steps[k]))
            ==> Fits(c, states[0], steps)
    decreases |steps|
  {
    if |steps| > 0 {
      var rest := steps[1..];
      assert forall k {:trigger rest[k]} :: 0 <= k < |rest| ==> rest[k] == steps[k + 1];
      Trace(c, states[1..], rest);
    }
  }

  lemma {:induction false} Concatenate(c: Config, s: State, a: seq<Step>, b: seq<Step>)
    requires Runs(c, s, a) && Runs(c, After(c, s, a), b)
    ensures Runs(c, s, a + b)
    ensures After(c, s, a + b) == After(c, After(c, s, a), b)
    ensures Fits(c, s, a) && Fits(c, After(c, s, a), b) ==> Fits(c, s, a + b)
    decreases |a|
  {
    if |a| == 0 {
      assert a + b == b;
    } else {
      Concatenate(c, Apply(c, s, a[0]), a[1..], b);
      FirstOfConcat(a, b);
    }
  }

  lemma {:induction false} Append(c: Config, s: State, steps: seq<Step>, step: Step)
    requires Runs(c, s, steps) && Enabled(c, After(c, s, steps), step)
    ensures Runs(c, s, steps + [step])
    ensures After(c, s, steps + [step]) == Apply(c, After(c, s, steps), step)
    ensures Fits(c, s, steps) && !Overflows(c, After(c, s, steps), step) ==> Fits(c, s, steps + [step])
  {
    var t := After(c, s, steps);
    Trace(c, [t, Apply(c, t, step)], [step]);
    Concatenate(c, s, steps, [step]);
  }

  // ---------- the invariant ----------

  /** How many entries the worker has finished with: an executed slot whose status is still
      to be cleared does not count. */
  function Passed(s: State): int {
    |s.executed| - (if s.worker.Clearing? then 1 else 0)
  }

  /** H <= L <= T <= H + size - 1, and each cursor is where its count says. */
  predicate Positions(c: Config, s: State) {
    && Shape(c, s) && |s.slots| == Size(c)
    && s.published <= Passed(s) <= |s.submitted| < s.published + Size(c)
    && At(c, s.head, s.published)
    && At(c, s.tail, |s.submitted|)
    && MarkAt(c, s.producer, |s.submitted|)
    && LocalAt(c, s.worker, s.published, Passed(s), |s.submitted|)
  }

  /** A producer about to store BUSY points at the entry it submitted last. */
  predicate MarkAt(c: Config, producer: Producer, t: nat)
    requires ValidConfig(c)
  {
    producer.Marking? ==> t > 0 && At(c, producer.at, t - 1)
  }

  /** The worker's local cursor stands at entry `l`, and its pass ends no later than entry `t`. */
  predicate LocalAt(c: Config, worker: Worker, h: nat, l: nat, t: nat)
    requires ValidConfig(c)
  {
    match worker
    case Executing(at, left) => At(c, at, l) && l + left <= t
    case Clearing(at, left) => At(c, at, l) && l + left <= t
    case Publishing(at) => At(c, at, l)
    case _ => h == l
  }

  predicate AllValidCalls(submitted: seq<Call>) {
    forall k :: 0 <= k < |submitted| ==> ValidCall(submitted[k])
  }

  /** Every slot from entry `lo` to the tail holds its call whole. */
  predicate WindowHolds(c: Config, slots: seq<Slot>, lo: nat, submitted: seq<Call>) {
    && ValidConfig(c) && |slots| == Size(c) && AllValidCalls(submitted)
    && forall k: nat {:trigger Place(c, k)} :: lo <= k < |submitted| ==>
         Holds(slots[Place(c, k)], submitted[k])
  }

  /** The slot at the tail holds what the producer has stored so far. */
  predicate TailHolds(c: Config, slots: seq<Slot>, t: nat, producer: Producer) {
    && ValidConfig(c) && |slots| == Size(c)
    && match producer
       case Filling(call, done) =>
         ValidCall(call) && done < 2 + |call.args| && Filled(slots[Place(c, t)], call, done)
       case Spinning(call) => ValidCall(call) && Holds(slots[Place(c, t)], call)
       case _ => true
  }

  /** Entries `lo` up to `hi` are BUSY. */
  predicate AllBusy(c: Config, slots: seq<Slot>, lo: nat, hi: int) {
    && ValidConfig(c) && |slots| == Size(c)
    && forall k: nat {:trigger Place(c, k)} :: lo <= k < hi ==> slots[Place(c, k)].status == Busy
  }

  /** How many submitted entries a wrapper call has gone on to mark BUSY. */
  function Marked(s: State): int {
    |s.submitted| - (if s.producer.Marking? then 1 else 0)
  }

  /** The executed calls are the submitted ones, in order, none skipped and none repeated. */
  predicate InOrder(submitted: seq<Call>, executed: seq<Event>) {
    && |executed| <= |submitted|
    && forall k :: 0 <= k < |executed| ==>
         ValidCall(submitted[k]) && executed[k] == Image(submitted[k])
  }

  /** A worker that can block is on the wait queue with NEED_WAKEUP raised. */
  predicate Wakeable(s: State) {
    && (s.worker.Flagged? || s.worker.Sleeping? ==> s.need)
    && (!s.runnable ==> s.queued && (s.worker.Queued? || s.worker.Flagged? || s.worker.Sleeping? || s.worker.Finishing?))
    && (s.producer.Signalling? ==> s.start)
  }

  predicate Inv(c: Config, s: State) {
    && Positions(c, s)
    && WindowHolds(c, s.slots, s.published, s.submitted)
    && TailHolds(c, s.slots, |s.submitted|, s.producer)
    && AllBusy(c, s.slots, |s.executed|, Marked(s))
    && InOrder(s.submitted, s.executed)
    && Wakeable(s)
  }

  lemma {:induction false} InitialInv(c: Config, s: State)
    requires Initial(c, s)
    ensures Inv(c, s)
  {
    SizePositive(c);
  }

  // ---------- every step keeps the invariant ----------

  /** A status store disturbs no call. */
  lemma {:induction false} StatusKeepsCalls(c: Config, s: State, k: nat, status: Status)
    requires WindowHolds(c, s.slots, s.published, s.submitted)
    requires TailHolds(c, s.slots, |s.submitted|, s.producer)
    requires k < |s.slots|
    ensures WindowHolds(c, WithStatus(s, k, status), s.published, s.submitted)
    ensures TailHolds(c, WithStatus(s, k, status), |s.submitted|, s.producer)
  {
  }

  /** Storing into the slot at the tail disturbs no slot between head and tail. */
  lemma {:induction false} FillKeepsInv(c: Config, s: State)
    requires Inv(c, s) && Enabled(c, s, Fill)
    ensures Inv(c, Apply(c, s, Fill))
  {
    WindowDistinct(c, s.published, |s.submitted|);
    FillOne(s.slots[Index(c, s.tail)], s.producer.call, s.producer.done);
  }

  /** A tail advance that does not overflow keeps at most size-1 entries outstanding. */
  lemma {:induction false} AdvanceKeepsPositions(c: Config, s: State)
    requires Inv(c, s) && Enabled(c, s, Advance)
    requires c.guard.NextIsHead? || !Overflows(c, s, Advance)
    ensures Positions(c, Apply(c, s, Advance))
  {
    AtNext(c, s.tail, |s.submitted|);
    GuardAsWritten(c, s.head, s.tail);
    AtSame(c, s.head, s.published, Next(c, s.tail), |s.submitted| + 1);
  }

  lemma {:induction false} AdvanceKeepsInv(c: Config, s: State)
    requires Inv(c, s) && Enabled(c, s, Advance)
    requires c.guard.NextIsHead? || !Overflows(c, s, Advance)
    ensures Inv(c, Apply(c, s, Advance))
  {
    AdvanceKeepsPositions(c, s);
  }

  lemma {:induction false} MarkKeepsPositions(c: Config, s: State)
    requires Inv(c, s) && Enabled(c, s, Mark)
    ensures Positions(c, Apply(c, s, Mark))
  {
  }

  lemma {:induction false} MarkKeepsInv(c: Config, s: State)
    requires Inv(c, s) && Enabled(c, s, Mark)
    ensures Inv(c, Apply(c, s, Mark))
  {
    MarkKeepsPositions(c, s);
    StatusKeepsCalls(c, s, Index(c, s.producer.at), Busy);
  }

  lemma {:induction false} SnapshotKeepsInv(c: Config, s: State)
    requires Inv(c, s) && Enabled(c, s, Snapshot)
    ensures Inv(c, Apply(c, s, Snapshot))
  {
    SnapshotIsOutstanding(c, s.head, s.published, s.tail, |s.submitted|);
  }

  lemma {:induction false} ExecuteKeepsPositions(c: Config, s: State)
    requires Inv(c, s) && Enabled(c, s, Execute)
    ensures Positions(c, Apply(c, s, Execute))
  {
  }

  /** The call the worker runs is the next submitted one, whole. */
  lemma {:induction false} ExecuteKeepsInv(c: Config, s: State)
    requires Inv(c, s) && Enabled(c, s, Execute)
    ensures Inv(c, Apply(c, s, Execute))
  {
    ExecuteKeepsPositions(c, s);
    var k := |s.executed|;
    assert Index(c, s.worker.at) == Place(c, k);
    HeldCallDispatchesItsImage(s.slots[Place(c, k)], s.submitted[k]);
  }

  lemma {:induction false} ClearStatusKeepsPositions(c: Config, s: State)
    requires Inv(c, s) && Enabled(c, s, ClearStatus)
    ensures Positions(c, Apply(c, s, ClearStatus))
  {
    AtNext(c, s.worker.at, Passed(s));
  }

  /** The executed slot is EMPTY again, and every later pending slot is still BUSY. */
  lemma {:induction false} ClearStatusKeepsInv(c: Config, s: State)
    requires Inv(c, s) && Enabled(c, s, ClearStatus)
    ensures Inv(c, Apply(c, s, ClearStatus))
    ensures Apply(c, s, ClearStatus).slots[Place(c, Passed(s))].status == Empty
  {
    ClearStatusKeepsPositions(c, s);
    StatusKeepsCalls(c, s, Index(c, s.worker.at), Empty);
    var k := Passed(s);
    forall m: nat | k < m < |s.submitted| ensures Place(c, m) != Place(c, k) {
      PlaceDistinct(c, k, m);
    }
  }

  lemma {:induction false} PublishKeepsPositions(c: Config, s: State)
    requires Positions(c, s) && Enabled(c, s, Publish)
    ensures Positions(c, Apply(c, s, Publish))
  {
    IndexBound(c, s.worker.at);
  }

  lemma {:induction false} PublishKeepsInv(c: Config, s: State)
    requires Inv(c, s) && Enabled(c, s, Publish)
    ensures Inv(c, Apply(c, s, Publish))
  {
    PublishKeepsPositions(c, s);
  }

  lemma {:induction false} BeginKeepsInv(c: Config, s: State, call: Call)
    requires Inv(c, s) && Enabled(c, s, Begin(call))
    ensures Inv(c, Apply(c, s, Begin(call)))
  {
    assert ValidSlot(s.slots[Place(c, |s.submitted|)]);
  }

  /** `batch_start` changes the flag word and the wait queue only. */
  lemma {:induction false} BatchStepKeepsInv(c: Config, s: State, step: Step)
    requires Inv(c, s) && Enabled(c, s, step)
    requires step.Spin? || step.Visit? || step.RaiseStart? || step.Wake? || step.DropStart?
    ensures Inv(c, Apply(c, s, step))
  {
    var t := Apply(c, s, step);
    assert t.slots == s.slots && t.worker == s.worker && !t.producer.Marking?;
    assert Positions(c, t);
  }

  lemma {:induction false} WaitStepKeepsInv(c: Config, s: State, step: Step)
    requires Inv(c, s) && Enabled(c, s, step)
    requires step.Poll? || step.StayAwake? || step.PrepareToWait? || step.RaiseNeed?
          || step.Recheck? || step.Schedule? || step.FinishWait? || step.DropNeed?
    ensures Inv(c, Apply(c, s, step))
  {
  }

  lemma {:induction false} StepKeepsInv(c: Config, s: State, step: Step)
    requires Inv(c, s) && Enabled(c, s, step)
    requires c.guard.NextIsHead? || !Overflows(c, s, step)
    ensures Inv(c, Apply(c, s, step))
  {
    match step
    case Begin(call) => BeginKeepsInv(c, s, call);
    case Fill => FillKeepsInv(c, s);
    case Advance => AdvanceKeepsInv(c, s);
    case Mark => MarkKeepsInv(c, s);
    case Snapshot => SnapshotKeepsInv(c, s);
    case Execute => ExecuteKeepsInv(c, s);
    case ClearStatus => ClearStatusKeepsInv(c, s);
    case Publish => PublishKeepsInv(c, s);
    case _ => if WorkerStep(step) { WaitStepKeepsInv(c, s, step); } else { BatchStepKeepsInv(c, s, step); }
  }

  lemma {:induction false} RunKeepsInv(c: Config, s: State, steps: seq<Step>)
    requires Inv(c, s) && Runs(c, s, steps)
    requires c.guard.NextIsHead? || Fits(c, s, steps)
    ensures Inv(c, After(c, s, steps))
    decreases |steps|
  {
    if |steps| > 0 {
      StepKeepsInv(c, s, steps[0]);
      RunKeepsInv(c, Apply(c, s, steps[0]), steps[1..]);
    }
  }

  /** Main safety result. Under every interleaving, the executed calls are a prefix of the
      submitted ones, each with exactly the registers its wrapper stored. With the test the
      source means to make this holds outright; with the test as written it holds on every
      run that fits. */
  lemma {:induction false} ExecutedIsPrefixOfSubmitted(c: Config, s: State, steps: seq<Step>)
    requires Initial(c, s) && Runs(c, s, steps)
    requires c.guard.NextIsHead? || Fits(c, s, steps)
    ensures InOrder(After(c, s, steps).submitted, After(c, s, steps).executed)
  {
    InitialInv(c, s);
    RunKeepsInv(c, s, steps);
  }

  // ---------- consequences at single states ----------

  /** While an entry is between the published head and the tail, no step of the producer
      changes its call: the worker's field-by-field read of a slot sees one call. */
  lemma {:induction false} PendingCallsAreFrozen(c: Config, s: State, step: Step, k: nat)
    requires Inv(c, s) && Enabled(c, s, step) && !WorkerStep(step)
    requires s.published <= k < |s.submitted|
    ensures var before, after := s.slots[Place(c, k)], Apply(c, s, step).slots[Place(c, k)];
      after.sysnum == before.sysnum && after.nargs == before.nargs && after.args == before.args
  {
    WindowDistinct(c, s.published, |s.submitted|);
  }

  /** A pass with nothing in its snapshot changes nothing. */
  lemma {:induction false} EmptyPass(c: Config, s: State)
    requires Shape(c, s) && s.worker.Polling? && !HeadIsEmpty(c, s)
    requires SnapshotCount(c, s.head, s.tail) == 0 && s.published == |s.executed|
    ensures Runs(c, s, [Poll, Snapshot, Publish]) && After(c, s, [Poll, Snapshot, Publish]) == s
  {
    var s1 := Apply(c, s, Poll);
    var s2 := Apply(c, s1, Snapshot);
    Trace(c, [s, s1, s2, s], [Poll, Snapshot, Publish]);
  }

  /** A BUSY mark left on an executed slot runs nothing twice: with every submitted entry
      executed, a worker that reads BUSY goes round its loop and is back where it was. */
  lemma {:induction false} StaleMarkRunsNothing(c: Config, s: State)
    requires Inv(c, s) && s.worker.Polling? && |s.executed| == |s.submitted| && !HeadIsEmpty(c, s)
    ensures Runs(c, s, [Poll, Snapshot, Publish]) && After(c, s, [Poll, Snapshot, Publish]) == s
  {
    SnapshotIsOutstanding(c, s.head, s.published, s.tail, |s.submitted|);
    EmptyPass(c, s);
  }
}
