/** When a worker with nothing left to run can go to sleep. It looks at the slot of the next entry;
    a mark that came too late one lap before keeps that slot BUSY, and the worker then goes round
    empty passes until the next call. Rings of three or more entries can get there. */
module RingIdle {
  import opened Cursors
  import opened Calls
  import opened RingProtocol
  import opened RingLiveness
  import opened RingStatus
  import opened RingRuns

  predicate WorkerOnly(steps: seq<Step>) {
    forall k :: 0 <= k < |steps| ==> WorkerStep(steps[k])
  }

  /** The worker, left to itself, ends up asleep by these steps. */
  predicate FallsAsleep(c: Config, s: State, steps: seq<Step>) {
    WorkerOnly(steps) && Runs(c, s, steps) && Doomed(After(c, s, steps))
  }

  // ---------- awake for ever ----------

  /** Everything is executed, and the head slot is BUSY all the same. */
  predicate Restless(c: Config, s: State) {
    && Shape(c, s) && ValidConfig(c) && s.head == s.tail && !HeadIsEmpty(c, s)
    && (s.worker.Polling? || s.worker.Snapshotting? || s.worker == Publishing(s.head))
  }

  lemma {:induction false} StepKeepsRestless(c: Config, s: State, step: Step)
    requires Restless(c, s) && Enabled(c, s, step) && WorkerStep(step)
    ensures Restless(c, Apply(c, s, step))
  {
    assert SnapshotCount(c, s.head, s.tail) == 0;
  }

  lemma {:induction false} StaysAwake(c: Config, s: State, steps: seq<Step>)
    requires Restless(c, s) && Runs(c, s, steps) && WorkerOnly(steps)
    ensures !Doomed(After(c, s, steps))
    decreases |steps|
  {
    if |steps| > 0 {
      StepKeepsRestless(c, s, steps[0]);
      StaysAwake(c, Apply(c, s, steps[0]), steps[1..]);
    }
  }

  lemma {:induction false} SleepsIffHeadIsEmpty(c: Config, s: State)
    requires Inv(c, s) && s.worker.Polling? && |s.executed| == |s.submitted|
    ensures (exists more :: FallsAsleep(c, s, more)) <==> HeadIsEmpty(c, s)
  {
    if HeadIsEmpty(c, s) {
      SleepRun(c, s);
      assert FallsAsleep(c, s, SLEEP_STEPS);
    } else {
      AtSame(c, s.head, s.published, s.tail, |s.submitted|);
      forall more ensures !FallsAsleep(c, s, more) {
        if Runs(c, s, more) && WorkerOnly(more) {
          StaysAwake(c, s, more);
        }
      }
    }
  }

  /** On every run: a worker between passes with everything executed can fall asleep on its own if
      and only if the entry one lap back was not marked after it had been executed and cleared. */
  lemma {:induction false} IdleWorkerSleepsIff(c: Config, s: State, steps: seq<Step>)
    requires Initial(c, s) && Runs(c, s, steps) && (c.guard.NextIsHead? || Fits(c, s, steps))
    requires After(c, s, steps).worker.Polling? && |After(c, s, steps).executed| == |After(c, s, steps).submitted|
    ensures (exists more :: FallsAsleep(c, After(c, s, steps), more)) <==>
            !LateALapAgo(c, After(c, s, steps), LateMarks(c, s, steps))
  {
    var t := After(c, s, steps);
    StatusesAreExact(c, s, steps);
    IdleHeadIsEmptyIff(c, t, LateMarks(c, s, steps));
    SleepsIffHeadIsEmpty(c, t);
  }

  // ---------- small rings mark in time ----------

  predicate InPass(worker: Worker) {
    worker.Snapshotting? || worker.Executing? || worker.Clearing? || worker.Publishing?
  }

  /** With at most one entry outstanding, a pass starts only for an entry that has been marked. */
  predicate InTime(s: State) {
    && (s.producer.Marking? ==> |s.submitted| == s.published + 1)
    && (InPass(s.worker) ==> |s.submitted| == s.published + 1 && !s.producer.Marking?)
  }

  lemma {:induction false} PollInTime(c: Config, s: State)
    requires StatusInv(c, s, {}) && Size(c) <= 2 && InTime(s) && Enabled(c, s, Poll)
    ensures InTime(Apply(c, s, Poll))
  {
    if s.published == |s.submitted| {
      IdleHeadIsEmptyIff(c, s, {});
    } else {
      assert Index(c, s.head) == Place(c, s.published);
    }
  }

  lemma {:induction false} StepInTime(c: Config, s: State, step: Step)
    requires StatusInv(c, s, {}) && Size(c) <= 2 && InTime(s) && Legal(c, s, step)
    ensures InTime(Apply(c, s, step)) && !Late(s, step) && StatusInv(c, Apply(c, s, step), {})
  {
    if WorkerStep(step) {
      WorkerStepKeepsStatuses(c, s, step, {});
    } else {
      ProducerStepKeepsStatuses(c, s, step, {});
    }
    if step.Poll? {
      PollInTime(c, s);
    }
  }

  lemma {:induction false} SmallRingsMarkInTime(c: Config, s: State, steps: seq<Step>)
    requires StatusInv(c, s, {}) && Size(c) <= 2 && InTime(s)
    requires Runs(c, s, steps) && (c.guard.NextIsHead? || Fits(c, s, steps))
    ensures LateMarks(c, s, steps) == {}
    decreases |steps|
  {
    if |steps| > 0 {
      StepInTime(c, s, steps[0]);
      SmallRingsMarkInTime(c, Apply(c, s, steps[0]), steps[1..]);
    }
  }

  // ---------- larger rings need not ----------

  /** The rest of a pass over everything submitted. */
  lemma {:induction false} Drain(c: Config, s: State) returns (steps: seq<Step>)
    requires Inv(c, s) && (s.worker.Executing? || s.worker.Publishing?)
    requires |s.submitted| == |s.executed| + (if s.worker.Executing? then s.worker.left else 0)
    ensures Runs(c, s, steps) && Fits(c, s, steps)
    ensures var t := After(c, s, steps); CaughtUp(c, t, 0) && t.producer == s.producer && t.submitted == s.submitted
    decreases if s.worker.Executing? then s.worker.left else 0
  {
    if s.worker.Publishing? {
      PublishKeepsInv(c, s);
      steps := [Publish];
      Trace(c, [s, Apply(c, s, Publish)], steps);
    } else {
      ExecuteKeepsInv(c, s);
      var e := Apply(c, s, Execute);
      ClearStatusKeepsInv(c, e);
      var rest := Drain(c, Apply(c, e, ClearStatus));
      Prepend(c, e, ClearStatus, rest);
      Prepend(c, s, Execute, [ClearStatus] + rest);
      steps := [Execute] + ([ClearStatus] + rest);
    }
  }

  /** A whole pass, when the oldest entry is marked. */
  lemma {:induction false} CatchUp(c: Config, s: State, n: nat) returns (steps: seq<Step>)
    requires CaughtUp(c, s, n) && n > 0 && s.published < Marked(s)
    ensures Runs(c, s, steps) && Fits(c, s, steps)
    ensures var t := After(c, s, steps); CaughtUp(c, t, 0) && t.producer == s.producer && t.submitted == s.submitted
  {
    HeadIsBusy(c, s, s.published);
    SnapshotIsOutstanding(c, s.head, s.published, s.tail, |s.submitted|);
    var t := FindHead(c, s);
    RunKeepsInv(c, s, [Poll, Snapshot]);
    var rest := Drain(c, t);
    Concatenate(c, s, [Poll, Snapshot], rest);
    steps := [Poll, Snapshot] + rest;
  }

  /** One more call, executed at once. */
  lemma {:induction false} RunOneMore(c: Config, s: State) returns (steps: seq<Step>)
    requires CaughtUp(c, s, 0) && s.producer.Outside? && Size(c) > 1
    ensures Runs(c, s, steps) && Fits(c, s, steps)
    ensures var t := After(c, s, steps);
      CaughtUp(c, t, 0) && t.producer.Outside? && |t.submitted| == |s.submitted| + 1
  {
    var submit := GetAhead(c, s, PLAIN, 1);
    var t := After(c, s, submit);
    var run := CatchUp(c, t, 1);
    Concatenate(c, s, submit, run);
    steps := submit + run;
  }

  lemma {:induction false} RunMore(c: Config, s: State, n: nat) returns (steps: seq<Step>)
    requires CaughtUp(c, s, 0) && s.producer.Outside? && Size(c) > 1
    ensures Runs(c, s, steps) && Fits(c, s, steps)
    ensures var t := After(c, s, steps);
      CaughtUp(c, t, 0) && t.producer.Outside? && |t.submitted| == |s.submitted| + n
  {
    if n == 0 {
      steps := [];
    } else {
      var before := RunMore(c, s, n - 1);
      var last := RunOneMore(c, After(c, s, before));
      Concatenate(c, s, before, last);
      steps := before + last;
    }
  }

  /** The second call is advanced and not yet marked when the pass for the first takes it too. */
  lemma {:induction false} RunUnmarked(c: Config, s: State) returns (steps: seq<Step>)
    requires Initial(c, s) && Size(c) >= 3
    ensures Runs(c, s, steps) && Fits(c, s, steps)
    ensures var t := After(c, s, steps); CaughtUp(c, t, 0) && t.producer.Marking? && |t.submitted| == 2
  {
    InitialInv(c, s);
    var first := GetAhead(c, s, PLAIN, 1);
    var s1 := After(c, s, first);
    var fill := FillCall(c, s1, PLAIN);
    RunKeepsInv(c, s1, fill);
    var s2 := After(c, s1, fill);
    RoomToAdvance(c, s2);
    AdvanceKeepsInv(c, s2);
    var s3 := Apply(c, s2, Advance);
    var pass := CatchUp(c, s3, 2);
    Prepend(c, s2, Advance, pass);
    Concatenate(c, s1, fill, [Advance] + pass);
    Concatenate(c, s, first, fill + ([Advance] + pass));
    steps := first + (fill + ([Advance] + pass));
  }

  /** Its mark is then late. */
  lemma {:induction false} MarkLate(c: Config, s: State) returns (steps: seq<Step>)
    requires Initial(c, s) && Size(c) >= 3
    ensures Runs(c, s, steps) && Fits(c, s, steps) && 1 in LateMarks(c, s, steps)
    ensures var t := After(c, s, steps); CaughtUp(c, t, 0) && t.producer.Outside? && |t.submitted| == 2
  {
    var before := RunUnmarked(c, s);
    var t := After(c, s, before);
    MarkKeepsInv(c, t);
    Trace(c, [t, Apply(c, t, Mark)], [Mark]);
    Concatenate(c, s, before, [Mark]);
    LateMarksOfBoth(c, s, before, [Mark]);
    assert Late(t, Mark) && 1 in LateMarks(c, t, [Mark]);
    steps := before + [Mark];
  }

  /** A run that leaves a worker with nothing to do and unable to sleep. */
  ghost predicate KeepsAwake(c: Config, s: State, steps: seq<Step>) {
    && Runs(c, s, steps) && (c.guard.NextIsHead? || Fits(c, s, steps))
    && After(c, s, steps).worker.Polling? && |After(c, s, steps).executed| == |After(c, s, steps).submitted|
    && forall more :: !FallsAsleep(c, After(c, s, steps), more)
  }

  lemma {:induction false} CanBeKeptAwake(c: Config, s: State) returns (steps: seq<Step>)
    requires Initial(c, s) && Size(c) >= 3
    ensures KeepsAwake(c, s, steps)
  {
    var late := MarkLate(c, s);
    var t := After(c, s, late);
    var lap := RunMore(c, t, Size(c) - 1);
    Concatenate(c, s, late, lap);
    LateMarksOfBoth(c, s, late, lap);
    steps := late + lap;
    IdleWorkerSleepsIff(c, s, steps);
  }

  /** A worker can be kept from its sleep with nothing to do if and only if its ring has three or
      more entries. */
  lemma {:induction false} KeptAwakeIff(c: Config, s: State)
    requires Initial(c, s)
    ensures Size(c) >= 3 <==> exists steps :: KeepsAwake(c, s, steps)
  {
    if Size(c) >= 3 {
      var steps := CanBeKeptAwake(c, s);
    } else {
      InitialStatuses(c, s);
      forall steps ensures !KeepsAwake(c, s, steps) {
        if KeepsAwake(c, s, steps) {
          SmallRingsMarkInTime(c, s, steps);
          IdleWorkerSleepsIff(c, s, steps);
          assert false;
        }
      }
    }
  }
}
