/** The two flags and the wait queue, exactly, on every run: no step leaves one of them up. */
module RingFlags {
  import opened Cursors
  import opened RingProtocol

  /** From raising NEED_WAKEUP to lowering it again. */
  predicate HasRaised(worker: Worker) {
    worker.Flagged? || worker.Sleeping? || worker.Finishing? || worker.Unflagging?
  }

  /** From joining the wait queue to leaving it. */
  predicate MayBeQueued(worker: Worker) {
    worker.Queued? || worker.Flagged? || worker.Sleeping? || worker.Finishing?
  }

  /** START_WAKEUP is up exactly while `batch_start` is at its wake-up call; a worker is off the
      wait queue exactly when it is runnable, and always outside its wait; NEED_WAKEUP is up
      exactly during the wait, and before the first wait has ended. */
  predicate FlagInv(s: State, first: bool) {
    && (s.start <==> s.producer.Signalling? || s.producer.Unsignalling?)
    && (s.queued <==> !s.runnable) && (s.queued ==> MayBeQueued(s.worker))
    && (s.need <==> first || HasRaised(s.worker))
  }

  lemma {:induction false} StepKeepsFlags(c: Config, s: State, step: Step, first: bool)
    requires FlagInv(s, first) && Enabled(c, s, step)
    ensures FlagInv(Apply(c, s, step), first && !step.DropNeed?)
  {
  }

  lemma {:induction false} RunKeepsFlags(c: Config, s: State, steps: seq<Step>, first: bool)
    requires FlagInv(s, first) && Runs(c, s, steps)
    ensures FlagInv(After(c, s, steps), first && DropNeed !in steps)
    decreases |steps|
  {
    if |steps| > 0 {
      StepKeepsFlags(c, s, steps[0], first);
      RunKeepsFlags(c, Apply(c, s, steps[0]), steps[1..], first && !steps[0].DropNeed?);
      assert DropNeed in steps <==> steps[0] == DropNeed || DropNeed in steps[1..];
    }
  }

  /** On every run from registration, under either spin test. */
  lemma {:induction false} FlagsAreExact(c: Config, s: State, steps: seq<Step>)
    requires Initial(c, s) && Runs(c, s, steps)
    ensures FlagInv(After(c, s, steps), DropNeed !in steps)
  {
    RunKeepsFlags(c, s, steps, true);
  }
}
