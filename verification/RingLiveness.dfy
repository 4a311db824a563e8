/** Progress of the worker: no entry is stranded once `batch_start` has visited the ring, and a
    producer spinning on a full ring is released exactly when the worker is not about to sleep. */
module RingLiveness {
  import opened Cursors
  import opened Calls
  import opened RingProtocol

  /** Past an EMPTY re-check and not woken: `schedule` will block, or has blocked. */
  predicate Doomed(s: State) {
    s.worker.Sleeping? && !s.runnable
  }

  /** Entry `p` is BUSY in the ring and not covered by the published head. */
  predicate Pending(s: State, p: nat) {
    s.published <= p < Marked(s)
  }

  /** In or before its waiting loop the worker's head slot is the first unexecuted entry, so
      once a pending entry has been marked the worker cannot read EMPTY. */
  lemma {:induction false} HeadIsBusy(c: Config, s: State, p: nat)
    requires Inv(c, s) && Pending(s, p) && |s.executed| == s.published
    ensures !HeadIsEmpty(c, s)
  {
    assert Index(c, s.head) == Place(c, s.published);
  }

  function PassCost(c: Config): nat
    requires Size(c) > 0
  {
    2 * (Size(c) - 1) + 1
  }

  /** A bound on the worker steps until the published head passes entry `p`. */
  function Remaining(c: Config, s: State, p: nat): nat
    requires Size(c) > 0
  {
    match s.worker
    case Idling => PassCost(c) + 7
    case Queued => PassCost(c) + 6
    case Flagged => PassCost(c) + 5
    case Sleeping => PassCost(c) + 5
    case Finishing => PassCost(c) + 4
    case Unflagging => PassCost(c) + 3
    case Polling => PassCost(c) + 2
    case Snapshotting => PassCost(c) + 1
    case Executing(_, left) => 2 * left + 1 + NextPass(c, Passed(s) + left, p)
    case Clearing(_, left) => 2 * left + NextPass(c, Passed(s) + left, p)
    case Publishing(_) => 1 + NextPass(c, Passed(s), p)
  }

  /** A pass that ends at or before entry `p` is followed by one that covers it. */
  function NextPass(c: Config, end: int, p: nat): nat
    requires Size(c) > 0
  {
    if end > p then 0 else PassCost(c) + 2
  }

  function WorkerSteps(steps: seq<Step>): nat {
    if |steps| == 0 then 0 else (if WorkerStep(steps[0]) then 1 else 0) + WorkerSteps(steps[1..])
  }

  /** The bound every run obeys. */
  function Bound(c: Config): nat {
    4 * Size(c) + 6
  }

  lemma {:induction false} RemainingIsBounded(c: Config, s: State, p: nat)
    requires Inv(c, s)
    ensures Remaining(c, s, p) <= Bound(c)
  {
  }

  /** The worker's next step is determined by its phase, up to the choice to sleep. */
  function WorkersNext(s: State): (step: Step)
    ensures WorkerStep(step)
  {
    match s.worker
    case Polling => Poll
    case Idling => StayAwake
    case Queued => RaiseNeed
    case Flagged => Recheck
    case Sleeping => Schedule
    case Finishing => FinishWait
    case Unflagging => DropNeed
    case Snapshotting => Snapshot
    case Executing(_, _) => Execute
    case Clearing(_, _) => ClearStatus
    case Publishing(_) => Publish
  }

  /** Only a doomed worker has no step to take. */
  lemma {:induction false} WorkerCanStep(c: Config, s: State)
    requires Shape(c, s)
    ensures Enabled(c, s, WorkersNext(s)) <==> !Doomed(s)
    ensures Doomed(s) ==> forall step :: WorkerStep(step) ==> !Enabled(c, s, step)
  {
  }

  /** The entry has been published, or the worker is nearer to it and will not sleep. */
  predicate Nearer(c: Config, s: State, t: State, p: nat)
    requires Size(c) > 0
  {
    t.published > p || (Pending(t, p) && !Doomed(t) && Remaining(c, t, p) < Remaining(c, s, p))
  }

  predicate PassStep(step: Step) {
    step.Snapshot? || step.Execute? || step.ClearStatus? || step.Publish?
  }

  lemma {:induction false} PassStepDecreases(c: Config, s: State, step: Step, p: nat)
    requires Inv(c, s) && Enabled(c, s, step) && PassStep(step) && Pending(s, p)
    ensures Nearer(c, s, Apply(c, s, step), p)
  {
    if step.Snapshot? {
      SnapshotIsOutstanding(c, s.head, s.published, s.tail, |s.submitted|);
    }
  }

  lemma {:induction false} WaitStepDecreases(c: Config, s: State, step: Step, p: nat)
    requires Inv(c, s) && Enabled(c, s, step) && WorkerStep(step) && !PassStep(step) && Pending(s, p)
    ensures Nearer(c, s, Apply(c, s, step), p)
  {
    if step.Poll? || step.Recheck? {
      HeadIsBusy(c, s, p);
    }
  }

  /** Each worker step comes nearer to publishing past a pending entry. */
  lemma {:induction false} WorkerStepDecreases(c: Config, s: State, step: Step, p: nat)
    requires Inv(c, s) && Enabled(c, s, step) && WorkerStep(step)
    requires Pending(s, p)
    ensures Nearer(c, s, Apply(c, s, step), p)
  {
    if PassStep(step) {
      PassStepDecreases(c, s, step, p);
    } else {
      WaitStepDecreases(c, s, step, p);
    }
  }

  lemma {:induction false} ProducerStepKeepsPending(c: Config, s: State, step: Step, p: nat)
    requires Inv(c, s) && Enabled(c, s, step) && !WorkerStep(step)
    requires Pending(s, p)
    ensures var t := Apply(c, s, step);
      Pending(t, p) && (!Doomed(s) ==> !Doomed(t)) && Remaining(c, t, p) == Remaining(c, s, p)
  {
  }

  lemma {:induction false} StepKeepsPublished(c: Config, s: State, step: Step)
    requires Inv(c, s) && Enabled(c, s, step)
    ensures Apply(c, s, step).published >= s.published
    ensures |Apply(c, s, step).submitted| >= |s.submitted|
  {
  }

  lemma {:induction false} RunKeepsPublished(c: Config, s: State, steps: seq<Step>)
    requires Inv(c, s) && Runs(c, s, steps)
    requires c.guard.NextIsHead? || Fits(c, s, steps)
    ensures After(c, s, steps).published >= s.published
    ensures |After(c, s, steps).submitted| >= |s.submitted|
    decreases |steps|
  {
    if |steps| > 0 {
      StepKeepsInv(c, s, steps[0]);
      StepKeepsPublished(c, s, steps[0]);
      RunKeepsPublished(c, Apply(c, s, steps[0]), steps[1..]);
    }
  }

  /** Bounded progress. While the worker is not doomed, a run with enough worker steps, however
      they interleave with the producer's, publishes past every entry pending at its start. */
  lemma {:induction false} PendingIsPublished(c: Config, s: State, steps: seq<Step>, p: nat)
    requires Inv(c, s) && Runs(c, s, steps)
    requires c.guard.NextIsHead? || Fits(c, s, steps)
    requires Pending(s, p) && !Doomed(s)
    requires WorkerSteps(steps) >= Remaining(c, s, p)
    ensures After(c, s, steps).published > p
    decreases |steps|
  {
    if |steps| > 0 {
      var t := Apply(c, s, steps[0]);
      StepKeepsInv(c, s, steps[0]);
      if WorkerStep(steps[0]) {
        WorkerStepDecreases(c, s, steps[0], p);
      } else {
        ProducerStepKeepsPending(c, s, steps[0], p);
      }
      if t.published > p {
        RunKeepsPublished(c, t, steps[1..]);
      } else {
        PendingIsPublished(c, t, steps[1..], p);
      }
    }
  }

  // ---------- batch_start ----------

  /** Entry `p` is published, or the worker will get to it: it is not doomed, or `batch_start`
      has seen NEED_WAKEUP and its wake-up is still to come. */
  predicate Rescued(s: State, p: nat) {
    s.published > p || (Pending(s, p) && (!Doomed(s) || s.producer.SawNeed? || s.producer.Signalling?))
  }

  /** Wherever the worker stands in its sleep sequence, reading the flag catches it. */
  lemma {:induction false} VisitRescues(c: Config, s: State, p: nat)
    requires Inv(c, s) && Enabled(c, s, Visit) && p < |s.submitted|
    ensures Rescued(Apply(c, s, Visit), p)
  {
  }

  lemma {:induction false} StepKeepsRescued(c: Config, s: State, step: Step, p: nat)
    requires Inv(c, s) && Enabled(c, s, step) && Rescued(s, p)
    ensures Rescued(Apply(c, s, step), p)
  {
    StepKeepsPublished(c, s, step);
    if s.published <= p {
      if WorkerStep(step) {
        WorkerStepDecreases(c, s, step, p);
      } else {
        ProducerStepKeepsPending(c, s, step, p);
      }
    }
  }

  lemma {:induction false} RunKeepsRescued(c: Config, s: State, steps: seq<Step>, p: nat)
    requires Inv(c, s) && Runs(c, s, steps) && Rescued(s, p)
    requires c.guard.NextIsHead? || Fits(c, s, steps)
    ensures Rescued(After(c, s, steps), p)
    decreases |steps|
  {
    if |steps| > 0 {
      StepKeepsInv(c, s, steps[0]);
      StepKeepsRescued(c, s, steps[0], p);
      RunKeepsRescued(c, Apply(c, s, steps[0]), steps[1..], p);
    }
  }

  /** No entry is stranded. From any reachable state in which the producer enters `batch_start`,
      take any run `visit` that gets it out again and any continuation `rest` with `Bound`
      worker steps: every call submitted before the visit has been executed, in its place. */
  lemma {:induction false} NotStranded(c: Config, s: State, visit: seq<Step>, rest: seq<Step>, p: nat)
    requires Inv(c, s) && Enabled(c, s, Visit) && p < |s.submitted|
    requires var v := Apply(c, s, Visit);
      && Runs(c, v, visit) && (c.guard.NextIsHead? || Fits(c, v, visit))
      && var w := After(c, v, visit);
         && !w.producer.SawNeed? && !w.producer.Signalling?
         && Runs(c, w, rest) && (c.guard.NextIsHead? || Fits(c, w, rest))
    requires WorkerSteps(rest) >= Bound(c)
    ensures var e := After(c, After(c, Apply(c, s, Visit), visit), rest);
      p < e.published <= |e.executed| && ValidCall(s.submitted[p]) && e.executed[p] == Image(s.submitted[p])
  {
    var v := Apply(c, s, Visit);
    BatchStepKeepsInv(c, s, Visit);
    VisitRescues(c, s, p);
    RunKeepsInv(c, v, visit);
    RunKeepsRescued(c, v, visit, p);
    var w := After(c, v, visit);
    RemainingIsBounded(c, w, p);
    RunKeepsInv(c, w, rest);
    if w.published > p {
      RunKeepsPublished(c, w, rest);
    } else {
      PendingIsPublished(c, w, rest, p);
    }
    RunKeepsSubmitted(c, v, visit);
    RunKeepsSubmitted(c, w, rest);
  }

  /** History only grows. */
  lemma {:induction false} RunKeepsSubmitted(c: Config, s: State, steps: seq<Step>)
    requires Runs(c, s, steps)
    ensures s.submitted <= After(c, s, steps).submitted
    ensures s.executed <= After(c, s, steps).executed
    decreases |steps|
  {
    if |steps| > 0 {
      RunKeepsSubmitted(c, Apply(c, s, steps[0]), steps[1..]);
    }
  }

  // ---------- the spin in update_index ----------

  /** While the worker is not doomed, `Bound` worker steps end the spin: the producer has
      advanced, or its test is now false. */
  lemma {:induction false} SpinIsReleased(c: Config, s: State, steps: seq<Step>)
    requires Inv(c, s) && s.producer.Spinning? && Full(c, s.head, s.tail) && Size(c) > 1
    requires Runs(c, s, steps) && (c.guard.NextIsHead? || Fits(c, s, steps))
    requires !Doomed(s) && WorkerSteps(steps) >= Bound(c)
    ensures var t := After(c, s, steps);
      t.published > s.published && (|t.submitted| > |s.submitted| || !Full(c, t.head, t.tail))
  {
    FullIsFull(c, s);
    RemainingIsBounded(c, s, s.published);
    PendingIsPublished(c, s, steps, s.published);
    RunKeepsPublished(c, s, steps);
    RunKeepsInv(c, s, steps);
    FullIsFull(c, After(c, s, steps));
  }

  /** Under the invariant a true spin test means size-1 entries outstanding. */
  lemma {:induction false} FullIsFull(c: Config, s: State)
    requires Inv(c, s)
    ensures Full(c, s.head, s.tail) ==> |s.submitted| == s.published + Size(c) - 1
    ensures c.guard.NextIsHead? ==> (Full(c, s.head, s.tail) <==> |s.submitted| == s.published + Size(c) - 1)
  {
    AtNext(c, s.tail, |s.submitted|);
    AtSame(c, s.head, s.published, Next(c, s.tail), |s.submitted| + 1);
    GuardAsWritten(c, s.head, s.tail);
  }

  /** A doomed worker and a spinning producer wait for each other for ever: no run moves. */
  lemma {:induction false} DoomedSpinNeverEnds(c: Config, s: State, steps: seq<Step>)
    requires Shape(c, s) && s.producer.Spinning? && Full(c, s.head, s.tail) && Doomed(s)
    requires Runs(c, s, steps)
    ensures After(c, s, steps) == s
    decreases |steps|
  {
    if |steps| > 0 {
      WorkerCanStep(c, s);
      assert steps[0] == Spin;
      DoomedSpinNeverEnds(c, s, steps[1..]);
    }
  }

  /** The spinning producer gets its entry in on some continuation exactly when the worker is
      not doomed at that moment. */
  lemma {:induction false} SpinEndsIffWorkerAwake(c: Config, s: State)
    requires Inv(c, s) && s.producer.Spinning? && Full(c, s.head, s.tail) && Size(c) > 1
    ensures !Doomed(s) <==>
            exists steps :: Runs(c, s, steps) && Fits(c, s, steps) && |After(c, s, steps).submitted| > |s.submitted|
  {
    if Doomed(s) {
      forall steps | Runs(c, s, steps) ensures After(c, s, steps) == s {
        DoomedSpinNeverEnds(c, s, steps);
      }
    } else {
      FullIsFull(c, s);
      var steps := ReleaseRun(c, s, Remaining(c, s, s.published), s.published);
    }
  }

  /** The releasing continuation: worker steps until a larger head is published, then the advance. */
  lemma {:induction false} ReleaseRun(c: Config, s: State, n: nat, h: nat) returns (steps: seq<Step>)
    requires Inv(c, s) && s.producer.Spinning? && h <= s.published
    requires |s.submitted| == h + Size(c) - 1 && Size(c) > 1
    requires s.published == h ==> !Doomed(s) && Remaining(c, s, h) <= n
    ensures Runs(c, s, steps) && Fits(c, s, steps) && |After(c, s, steps).submitted| > |s.submitted|
    decreases n
  {
    if s.published > h {
      FullIsFull(c, s);
      steps := [Advance];
      Trace(c, [s, Apply(c, s, Advance)], steps);
    } else {
      var step := WorkersNext(s);
      WorkerCanStep(c, s);
      var t := Apply(c, s, step);
      WorkerStepDecreases(c, s, step, h);
      StepKeepsInv(c, s, step);
      StepKeepsPublished(c, s, step);
      var rest := ReleaseRun(c, t, n - 1, h);
      Prepend(c, s, step, rest);
      steps := [step] + rest;
    }
  }
}
