/** A reachable deadlock. Inside a batch nobody wakes the worker, so a worker that falls asleep
    while the producer goes on submitting leaves it spinning on a full ring for ever. */
module RingDeadlock {
  import opened Cursors
  import opened Calls
  import opened RingProtocol
  import opened RingOverflow
  import opened RingLiveness
  import opened RingRuns

  /** Spinning on a full ring with the worker asleep. */
  predicate Stuck(c: Config, s: State) {
    Shape(c, s) && s.producer.Spinning? && Full(c, s.head, s.tail) && Doomed(s)
  }

  /** Asleep with nothing left to run. */
  predicate Asleep(c: Config, s: State) {
    Inv(c, s) && s.producer.Outside? && Doomed(s) && |s.submitted| == s.published
  }

  lemma {:induction false} FallAsleep(c: Config, s: State)
    requires CaughtUp(c, s, 0) && s.producer.Outside? && HeadIsEmpty(c, s)
    ensures Runs(c, s, SLEEP_STEPS) && Asleep(c, After(c, s, SLEEP_STEPS)) && After(c, s, SLEEP_STEPS).head == s.head
  {
    SleepRun(c, s);
    RunKeepsInv(c, s, SLEEP_STEPS);
  }

  /** Submitting into the sleeping worker's ring until it is full ends in a spin. */
  lemma {:induction false} FillUp(c: Config, s: State) returns (steps: seq<Step>)
    requires Asleep(c, s) && (c.guard.NextIsHead? || s.head.entry != 0)
    ensures Runs(c, s, steps) && Stuck(c, After(c, s, steps))
  {
    var lap := GetAhead(c, s, PLAIN, Size(c) - 1);
    var t := After(c, s, lap);
    var fill := FillCall(c, t, PLAIN);
    RunKeepsInv(c, t, fill);
    var f := After(c, t, fill);
    Concatenate(c, s, lap, fill);
    steps := lap + fill;
    AtNext(c, f.tail, |f.submitted|);
    AtSame(c, f.head, f.published, Next(c, f.tail), |f.submitted| + 1);
    GuardAsWritten(c, f.head, f.tail);
  }

  /** A first call, submitted and executed, takes the head to the second slot, still EMPTY. */
  lemma {:induction false} RunFirst(c: Config, s: State) returns (steps: seq<Step>)
    requires Initial(c, s) && c.entries > 1
    ensures Runs(c, s, steps)
    ensures var t := After(c, s, steps);
      CaughtUp(c, t, 0) && t.producer.Outside? && HeadIsEmpty(c, t) && t.head.entry != 0
  {
    TimesMonotone(1, c.tables, c.entries);
    InitialInv(c, s);
    RoomToAdvance(c, s);
    var submit := SubmitCall(c, s, PLAIN);
    RunKeepsInv(c, s, submit);
    var t := After(c, s, submit);
    var u := OnePass(c, t);
    Concatenate(c, s, submit, PASS_STEPS);
    steps := submit + PASS_STEPS;
    HeadIsSecond(c, u);
  }

  lemma {:induction false} HeadIsSecond(c: Config, s: State)
    requires Inv(c, s) && s.published == 1 && c.entries > 1
    ensures s.head == Cursor(0, 1) && Index(c, s.head) == 1
  {
    TimesMonotone(1, c.tables, c.entries);
    assert Index(c, Cursor(0, 1)) == 1;
    IndexInjective(c, s.head, Cursor(0, 1));
  }

  /** A run to a state from which no run makes any progress at all. */
  lemma {:induction false} CanGetStuck(c: Config, s: State) returns (steps: seq<Step>)
    requires Initial(c, s) && (c.guard.NextIsHead? || c.entries > 1)
    ensures Runs(c, s, steps) && Stuck(c, After(c, s, steps))
    ensures forall more :: Runs(c, After(c, s, steps), more) ==> After(c, After(c, s, steps), more) == After(c, s, steps)
  {
    InitialInv(c, s);
    var first := [];
    if c.guard.AsWritten? {
      first := RunFirst(c, s);
    }
    var t := After(c, s, first);
    FallAsleep(c, t);
    var fill := FillUp(c, After(c, t, SLEEP_STEPS));
    Concatenate(c, t, SLEEP_STEPS, fill);
    Concatenate(c, s, first, SLEEP_STEPS + fill);
    steps := first + (SLEEP_STEPS + fill);
    var e := After(c, s, steps);
    forall more | Runs(c, e, more) ensures After(c, e, more) == e {
      DoomedSpinNeverEnds(c, e, more);
    }
  }

  // ---------- one entry per table, test as written ----------

  /** Every cursor in use is in range. */
  predicate Ranged(c: Config, s: State) {
    && ValidConfig(c) && InRange(c, s.head) && InRange(c, s.tail)
    && (s.worker.Executing? || s.worker.Clearing? || s.worker.Publishing? ==> InRange(c, s.worker.at))
  }

  lemma {:induction false} StepKeepsRanged(c: Config, s: State, step: Step)
    requires Ranged(c, s) && Enabled(c, s, step)
    ensures Ranged(c, Apply(c, s, step))
  {
  }

  lemma {:induction false} RunKeepsRanged(c: Config, s: State, steps: seq<Step>)
    requires Ranged(c, s) && Runs(c, s, steps)
    ensures Ranged(c, After(c, s, steps))
    decreases |steps|
  {
    if |steps| > 0 {
      StepKeepsRanged(c, s, steps[0]);
      RunKeepsRanged(c, Apply(c, s, steps[0]), steps[1..]);
    }
  }

  predicate EndsStuck(c: Config, s: State, steps: seq<Step>) {
    Runs(c, s, steps) && Stuck(c, After(c, s, steps))
  }

  /** The exact configurations: a ring can get stuck if and only if it makes the intended test,
      or has more than one entry per table. With one entry per table the test as written is
      never true, so the producer never waits. */
  lemma {:induction false} StuckIffItCanWait(c: Config, s: State)
    requires Initial(c, s)
    ensures (c.guard.NextIsHead? || c.entries > 1) <==> exists steps :: EndsStuck(c, s, steps)
  {
    if c.guard.NextIsHead? || c.entries > 1 {
      var steps := CanGetStuck(c, s);
      assert EndsStuck(c, s, steps);
    } else {
      forall steps ensures !EndsStuck(c, s, steps) {
        if Runs(c, s, steps) {
          RunKeepsRanged(c, s, steps);
        }
      }
    }
  }
}
