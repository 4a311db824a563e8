/** Runs of one ring from which larger ones are built: a wrapper filling in its call and handing
    it over, a visit of `batch_start`, and the worker running the one call there is. */
module RingRuns {
  import opened Cursors
  import opened Calls
  import opened RingProtocol
  import opened RingLiveness
  import opened SideData

  /** A call without arguments. */
  const PLAIN := Call(0, [])

  /** Ring steps other than the start of a call or of `batch_start`. */
  predicate Quiet(steps: seq<Step>) {
    forall k :: 0 <= k < |steps| ==> !steps[k].Begin? && !steps[k].Visit?
  }

  /** The worker is between passes and `n` entries behind. */
  predicate CaughtUp(c: Config, s: State, n: nat) {
    Inv(c, s) && s.worker.Polling? && |s.submitted| == s.published + n
  }

  // ---------- the producer ----------

  /** The slot at the tail holds what the wrapper has stored of its call. */
  predicate HandHolds(c: Config, s: State)
    requires Shape(c, s)
  {
    match s.producer
    case Filling(call, done) => Filled(s.slots[Index(c, s.tail)], call, done)
    case Spinning(call) => ValidCall(call) && Holds(s.slots[Index(c, s.tail)], call)
    case _ => false
  }

  /** `t` is `s` with the slot at the tail changed, and a wrapper past its stores. */
  predicate FilledIn(c: Config, s: State, t: State, call: Call)
    requires Shape(c, s) && ValidCall(call)
  {
    var i := Index(c, s.tail);
    && |t.slots| == |s.slots| && Holds(t.slots[i], call)
    && t == s.(slots := s.slots[i := t.slots[i]], producer := Spinning(call))
  }

  /** The stores of a wrapper from wherever it is in them. */
  lemma {:induction false} FillIn(c: Config, s: State) returns (steps: seq<Step>)
    requires Shape(c, s) && HandHolds(c, s)
    ensures Quiet(steps) && Execute !in steps && Runs(c, s, steps) && Fits(c, s, steps)
    ensures FilledIn(c, s, After(c, s, steps), s.producer.call) && Shape(c, After(c, s, steps))
    decreases if s.producer.Filling? then 2 + |s.producer.call.args| - s.producer.done else 0
  {
    if s.producer.Spinning? {
      steps := [];
      assert s.slots[Index(c, s.tail) := s.slots[Index(c, s.tail)]] == s.slots;
    } else {
      FillOne(s.slots[Index(c, s.tail)], s.producer.call, s.producer.done);
      var rest := FillIn(c, Apply(c, s, Fill));
      Prepend(c, s, Fill, rest);
      steps := [Fill] + rest;
    }
  }

  /** A wrapper call up to its spin test. */
  lemma {:induction false} FillCall(c: Config, s: State, call: Call) returns (steps: seq<Step>)
    requires Shape(c, s) && s.producer.Outside? && ValidCall(call)
    ensures Runs(c, s, steps) && Fits(c, s, steps) && FilledIn(c, s, After(c, s, steps), call)
  {
    var rest := FillIn(c, Apply(c, s, Begin(call)));
    Prepend(c, s, Begin(call), rest);
    steps := [Begin(call)] + rest;
  }

  /** The spin test is false, and the advance is not the one it misses. */
  predicate Room(c: Config, s: State)
    requires ValidConfig(c)
  {
    !Full(c, s.head, s.tail) && !(|s.submitted| - s.published == Size(c) - 1 && s.head.entry == 0)
  }

  /** `t` is `s` with one call more: its slot BUSY, the tail past it, no other slot changed. */
  predicate HandedOver(c: Config, s: State, t: State, call: Call)
    requires Shape(c, s) && ValidCall(call)
  {
    var i := Index(c, s.tail);
    && |t.slots| == |s.slots| && Holds(t.slots[i], call) && t.slots[i].status == Busy
    && t == s.(slots := s.slots[i := t.slots[i]], tail := Next(c, s.tail), producer := Outside,
               submitted := s.submitted + [call])
  }

  lemma {:induction false} LetIn(c: Config, s: State) returns (t: State)
    requires Shape(c, s) && s.producer.Spinning? && HandHolds(c, s) && !Full(c, s.head, s.tail)
    requires InRange(c, s.tail) && |s.slots| == Size(c)
    ensures Enabled(c, Apply(c, s, Advance), Mark) && t == Apply(c, Apply(c, s, Advance), Mark)
    ensures HandedOver(c, s, t, s.producer.call) && Shape(c, t)
  {
    NextIndex(c, s.tail);
    IndexBound(c, Next(c, s.tail));
    t := Apply(c, Apply(c, s, Advance), Mark);
  }

  /** A false spin test lets the call in. */
  lemma {:induction false} AdvanceAndMark(c: Config, s: State) returns (t: State)
    requires Shape(c, s) && s.producer.Spinning? && HandHolds(c, s) && !Full(c, s.head, s.tail)
    requires InRange(c, s.tail) && |s.slots| == Size(c)
    ensures Enabled(c, Apply(c, s, Advance), Mark) && t == Apply(c, Apply(c, s, Advance), Mark)
    ensures Runs(c, s, [Advance, Mark]) && (Room(c, s) ==> Fits(c, s, [Advance, Mark]))
    ensures t == After(c, s, [Advance, Mark]) && HandedOver(c, s, t, s.producer.call) && Shape(c, t)
  {
    t := LetIn(c, s);
    Trace(c, [s, Apply(c, s, Advance), t], [Advance, Mark]);
  }

  /** A test that is true leaves the call where it is. */
  lemma {:induction false} SpinStays(c: Config, s: State)
    requires Shape(c, s) && s.producer.Spinning? && Full(c, s.head, s.tail)
    ensures Runs(c, s, [Spin]) && After(c, s, [Spin]) == s
  {
    Trace(c, [s, s], [Spin]);
  }

  /** With room, a wrapper gets the call it has in hand into the ring. */
  lemma {:induction false} HandOver(c: Config, s: State) returns (steps: seq<Step>)
    requires Shape(c, s) && HandHolds(c, s) && Room(c, s) && InRange(c, s.tail) && |s.slots| == Size(c)
    ensures Quiet(steps) && Execute !in steps && Runs(c, s, steps) && Fits(c, s, steps)
    ensures HandedOver(c, s, After(c, s, steps), s.producer.call) && Shape(c, After(c, s, steps))
  {
    var fill := FillIn(c, s);
    var t := After(c, s, fill);
    var u := AdvanceAndMark(c, t);
    Concatenate(c, s, fill, [Advance, Mark]);
    steps := fill + [Advance, Mark];
  }

  /** A whole wrapper call on a ring with room. */
  lemma {:induction false} SubmitCall(c: Config, s: State, call: Call) returns (steps: seq<Step>)
    requires Shape(c, s) && s.producer.Outside? && ValidCall(call) && Room(c, s)
    requires InRange(c, s.tail) && |s.slots| == Size(c)
    ensures Runs(c, s, steps) && Fits(c, s, steps)
    ensures HandedOver(c, s, After(c, s, steps), call) && Shape(c, After(c, s, steps))
  {
    var b := Apply(c, s, Begin(call));
    var rest := HandOver(c, b);
    Prepend(c, s, Begin(call), rest);
    steps := [Begin(call)] + rest;
  }

  /** Below size-1 outstanding entries there is room. */
  lemma {:induction false} RoomToAdvance(c: Config, s: State)
    requires Inv(c, s) && |s.submitted| + 1 < s.published + Size(c)
    ensures Room(c, s)
  {
    AtNext(c, s.tail, |s.submitted|);
    AtSame(c, s.head, s.published, Next(c, s.tail), |s.submitted| + 1);
    GuardAsWritten(c, s.head, s.tail);
  }

  /** The producer can store the rest of its call, advance and mark it. */
  lemma {:induction false} FinishSubmission(c: Config, s: State, n: nat) returns (steps: seq<Step>)
    requires CaughtUp(c, s, n) && InHand(s) && n + 1 < Size(c)
    ensures Quiet(steps) && Execute !in steps && Runs(c, s, steps) && Fits(c, s, steps)
    ensures var t := After(c, s, steps);
      CaughtUp(c, t, n + 1) && t.producer.Outside? && t.submitted == s.submitted + [s.producer.call]
  {
    RoomToAdvance(c, s);
    steps := HandOver(c, s);
    RunKeepsInv(c, s, steps);
  }

  /** With the worker not moving, the producer gets `n` entries further ahead. */
  lemma {:induction false} GetAhead(c: Config, s: State, call: Call, n: nat) returns (steps: seq<Step>)
    requires Inv(c, s) && s.producer.Outside? && ValidCall(call) && |s.submitted| + n < s.published + Size(c)
    ensures Runs(c, s, steps) && Fits(c, s, steps)
    ensures var t := After(c, s, steps);
      && Inv(c, t) && |t.submitted| == |s.submitted| + n
      && t == s.(slots := t.slots, tail := t.tail, submitted := t.submitted)
  {
    if n == 0 {
      steps := [];
    } else {
      var before := GetAhead(c, s, call, n - 1);
      var t := After(c, s, before);
      RoomToAdvance(c, t);
      var last := SubmitCall(c, t, call);
      RunKeepsInv(c, t, last);
      Concatenate(c, s, before, last);
      steps := before + last;
    }
  }

  // ---------- batch_start ----------

  function VisitSteps(s: State): seq<Step> {
    if s.need then [Visit, RaiseStart, Wake, DropStart] else [Visit]
  }

  /** A raised NEED_WAKEUP gets the worker off the wait queue and runnable, and START_WAKEUP
      is lowered again. */
  function Visited(s: State): State {
    if s.need then s.(start := false, queued := false, runnable := s.runnable || s.queued) else s
  }

  /** The steps of a visit, taken together. */
  lemma {:induction false} VisitRun(c: Config, s: State)
    requires Shape(c, s) && Wakeable(s) && s.producer.Outside?
    ensures Runs(c, s, VisitSteps(s)) && Fits(c, s, VisitSteps(s)) && After(c, s, VisitSteps(s)) == Visited(s)
    ensures !Doomed(Visited(s))
  {
    var s1 := Apply(c, s, Visit);
    if s.need {
      var s2 := Apply(c, s1, RaiseStart);
      var s3 := Apply(c, s2, Wake);
      Trace(c, [s, s1, s2, s3, Apply(c, s3, DropStart)], VisitSteps(s));
    } else {
      Trace(c, [s, s1], [Visit]);
    }
  }

  // ---------- the worker ----------

  const SLEEP_STEPS: seq<Step> := [Poll, PrepareToWait] + [RaiseNeed, Recheck]

  /** With its head slot EMPTY and its idle time over, the worker goes to sleep. */
  lemma {:induction false} SleepRun(c: Config, s: State)
    requires Shape(c, s) && s.worker.Polling? && HeadIsEmpty(c, s)
    ensures Runs(c, s, SLEEP_STEPS) && Fits(c, s, SLEEP_STEPS)
    ensures After(c, s, SLEEP_STEPS) == s.(worker := Sleeping, need := true, queued := true, runnable := false)
  {
    QueueUp(c, s);
    LookAgain(c, s.(worker := Queued, queued := true, runnable := false));
    Concatenate(c, s, [Poll, PrepareToWait], [RaiseNeed, Recheck]);
  }

  lemma {:induction false} QueueUp(c: Config, s: State)
    requires Shape(c, s) && s.worker.Polling? && HeadIsEmpty(c, s)
    ensures Runs(c, s, [Poll, PrepareToWait]) && Fits(c, s, [Poll, PrepareToWait])
    ensures After(c, s, [Poll, PrepareToWait]) == s.(worker := Queued, queued := true, runnable := false)
  {
    var u := Apply(c, s, Poll);
    Trace(c, [s, u, Apply(c, u, PrepareToWait)], [Poll, PrepareToWait]);
  }

  lemma {:induction false} LookAgain(c: Config, s: State)
    requires Shape(c, s) && s.worker.Queued? && HeadIsEmpty(c, s)
    ensures Runs(c, s, [RaiseNeed, Recheck]) && Fits(c, s, [RaiseNeed, Recheck])
    ensures After(c, s, [RaiseNeed, Recheck]) == s.(worker := Sleeping, need := true)
  {
    var u := Apply(c, s, RaiseNeed);
    Trace(c, [s, u, Apply(c, u, Recheck)], [RaiseNeed, Recheck]);
  }

  /** A polling worker finds its head slot BUSY and something in the snapshot. */
  lemma {:induction false} FindHead(c: Config, s: State) returns (t: State)
    requires Shape(c, s) && s.worker.Polling? && !HeadIsEmpty(c, s) && SnapshotCount(c, s.head, s.tail) > 0
    ensures Runs(c, s, [Poll, Snapshot]) && Fits(c, s, [Poll, Snapshot])
    ensures t == After(c, s, [Poll, Snapshot]) == s.(worker := Executing(s.head, SnapshotCount(c, s.head, s.tail)))
  {
    var s1 := Apply(c, s, Poll);
    t := Apply(c, s1, Snapshot);
    Trace(c, [s, s1, t], [Poll, Snapshot]);
  }

  /** It then runs that entry. */
  lemma {:induction false} RunHead(c: Config, s: State) returns (t: State)
    requires Shape(c, s) && s.worker.Polling? && !HeadIsEmpty(c, s) && SnapshotCount(c, s.head, s.tail) == 1
    ensures Runs(c, s, [Poll, Snapshot, Execute]) && Fits(c, s, [Poll, Snapshot, Execute])
    ensures t == After(c, s, [Poll, Snapshot, Execute])
    ensures t == s.(worker := Clearing(s.head, 1), executed := s.executed + [Dispatch(s.slots[Index(c, s.head)])])
  {
    var u := FindHead(c, s);
    t := Apply(c, u, Execute);
    Append(c, s, [Poll, Snapshot], Execute);
    assert [Poll, Snapshot] + [Execute] == [Poll, Snapshot, Execute];
  }

  /** A worker that is behind finds the pending calls, all of them. */
  lemma {:induction false} FindPending(c: Config, s: State, n: nat)
    requires CaughtUp(c, s, n) && n > 0 && !s.producer.Marking?
    ensures !HeadIsEmpty(c, s) && SnapshotCount(c, s.head, s.tail) == n
  {
    HeadIsBusy(c, s, s.published);
    SnapshotIsOutstanding(c, s.head, s.published, s.tail, |s.submitted|);
  }

  /** The worker runs the only pending call. */
  lemma {:induction false} RunOnly(c: Config, s: State) returns (t: State)
    requires CaughtUp(c, s, 1) && s.producer.Outside?
    ensures Runs(c, s, [Poll, Snapshot, Execute]) && Fits(c, s, [Poll, Snapshot, Execute])
    ensures t == After(c, s, [Poll, Snapshot, Execute]) && Inv(c, t)
    ensures t == s.(worker := Clearing(s.head, 1), executed := t.executed) && |t.executed| == |s.executed| + 1
  {
    FindPending(c, s, 1);
    t := RunHead(c, s);
    RunKeepsInv(c, s, [Poll, Snapshot, Execute]);
  }

  lemma {:induction false} ClearAndPublish(c: Config, s: State) returns (t: State)
    requires Shape(c, s) && s.worker.Clearing? && s.worker.left == 1
    ensures Runs(c, s, [ClearStatus, Publish]) && Fits(c, s, [ClearStatus, Publish])
    ensures t == After(c, s, [ClearStatus, Publish])
    ensures t.worker == Polling && t.published == |s.executed| && t.executed == s.executed
    ensures t.submitted == s.submitted && t.producer == s.producer && |t.slots| == |s.slots|
    ensures forall k :: 0 <= k < |s.slots| && k != Index(c, s.worker.at) ==> t.slots[k] == s.slots[k]
  {
    var u := Apply(c, s, ClearStatus);
    t := Apply(c, u, Publish);
    Trace(c, [s, u, t], [ClearStatus, Publish]);
  }

  /** After the last entry of its snapshot the worker clears it and publishes. */
  lemma {:induction false} FinishPass(c: Config, s: State) returns (t: State)
    requires Inv(c, s) && s.worker.Clearing? && s.worker.left == 1
    ensures Runs(c, s, [ClearStatus, Publish]) && Fits(c, s, [ClearStatus, Publish])
    ensures t == After(c, s, [ClearStatus, Publish])
    ensures Inv(c, t) && t.worker == Polling && t.published == |s.executed|
    ensures t.submitted == s.submitted && t.producer == s.producer
    ensures |t.slots| == |s.slots|
    ensures forall k :: 0 <= k < |s.slots| && k != Index(c, s.worker.at) ==> t.slots[k] == s.slots[k]
  {
    t := ClearAndPublish(c, s);
    RunKeepsInv(c, s, [ClearStatus, Publish]);
  }

  const PASS_STEPS: seq<Step> := [Poll, Snapshot, Execute] + [ClearStatus, Publish]

  lemma {:induction false} PassIsQuiet()
    ensures Quiet(PASS_STEPS)
  {
  }

  /** A whole pass over one call. */
  lemma {:induction false} OnePass(c: Config, s: State) returns (t: State)
    requires CaughtUp(c, s, 1) && s.producer.Outside?
    ensures Runs(c, s, PASS_STEPS) && Fits(c, s, PASS_STEPS) && t == After(c, s, PASS_STEPS)
    ensures CaughtUp(c, t, 0) && t.producer.Outside? && t.submitted == s.submitted
    ensures |t.slots| == |s.slots|
    ensures forall k :: 0 <= k < |s.slots| && k != Index(c, s.head) ==> t.slots[k] == s.slots[k]
  {
    var u := RunOnly(c, s);
    t := FinishPass(c, u);
    Concatenate(c, s, [Poll, Snapshot, Execute], [ClearStatus, Publish]);
  }
}
