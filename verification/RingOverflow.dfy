/** What the spin test of `update_index` misses. The ring is safe exactly on the advances that
    fit. After the one that does not fit, wherever the worker stands, nothing holds the producer
    back until the next head is published, so it can lap onto the first entry not yet executed
    and have another call run in its place. Every ring of two or more entries can get there. */
module RingOverflow {
  import opened Cursors
  import opened Calls
  import opened RingProtocol
  import opened RingLiveness
  import opened RingRuns

  // ---------- the producer laps ----------

  /** A whole lap or more is outstanding and head_entry is 0: the test as written is false. */
  predicate Loose(c: Config, s: State) {
    && ValidConfig(c) && c.guard.AsWritten? && Shape(c, s) && |s.slots| == Size(c)
    && s.producer.Outside? && s.head.entry == 0
    && At(c, s.tail, |s.submitted|) && |s.submitted| >= s.published + Size(c)
  }

  lemma {:induction false} LapOne(c: Config, s: State, call: Call) returns (steps: seq<Step>)
    requires Loose(c, s) && ValidCall(call)
    ensures Runs(c, s, steps) && Fits(c, s, steps)
    ensures Loose(c, After(c, s, steps)) && HandedOver(c, s, After(c, s, steps), call)
  {
    steps := SubmitCall(c, s, call);
    AtNext(c, s.tail, |s.submitted|);
  }

  /** Only the producer has moved, by `n` calls. */
  predicate Lapped(s: State, t: State, n: nat) {
    && t == s.(slots := t.slots, tail := t.tail, submitted := t.submitted) && |t.slots| == |s.slots|
    && |t.submitted| == |s.submitted| + n && s.submitted <= t.submitted
  }

  lemma {:induction false} LapMany(c: Config, s: State, n: nat) returns (steps: seq<Step>)
    requires Loose(c, s)
    ensures Runs(c, s, steps) && Fits(c, s, steps)
    ensures Loose(c, After(c, s, steps)) && Lapped(s, After(c, s, steps), n)
  {
    if n == 0 {
      steps := [];
    } else {
      var before := LapMany(c, s, n - 1);
      var last := LapOne(c, After(c, s, before), PLAIN);
      Concatenate(c, s, before, last);
      steps := before + last;
    }
  }

  /** The advance that does not fit, and its mark, leave nothing in the producer's way. */
  lemma {:induction false} GetsLoose(c: Config, s: State) returns (t: State)
    requires Inv(c, s) && c.guard.AsWritten? && Enabled(c, s, Advance) && Overflows(c, s, Advance)
    ensures var o := Apply(c, s, Advance);
      && Runs(c, o, [Mark]) && Fits(c, o, [Mark]) && t == After(c, o, [Mark]) && Loose(c, t)
      && Lapped(s.(producer := Outside), t, 1) && t.submitted[|s.submitted|] == s.producer.call
  {
    AtNext(c, s.tail, |s.submitted|);
    t := AdvanceAndMark(c, s);
    Trace(c, [Apply(c, s, Advance), t], [Mark]);
  }

  // ---------- the worker goes on ----------

  /** The next entry the worker will run is `l`, its slot is BUSY with system call `sysnum`, and
      a snapshot from there counts one entry. */
  predicate Primed(c: Config, s: State, l: nat, sysnum: nat) {
    && Shape(c, s) && |s.slots| == Size(c) && Size(c) > 1 && |s.executed| == l
    && s.tail == CursorAt(c, l + 1)
    && s.slots[Place(c, l)].status == Busy && s.slots[Place(c, l)].sysnum == sysnum
    && Comes(c, s, l)
  }

  /** The worker's local cursor is at entry `l`, or will be. */
  predicate Comes(c: Config, s: State, l: nat)
    requires ValidConfig(c)
  {
    match s.worker
    case Executing(at, _) => at == CursorAt(c, l)
    case Clearing(at, _) => l > 0 && at == CursorAt(c, l - 1)
    case Publishing(at) => at == CursorAt(c, l)
    case _ => s.head == CursorAt(c, l)
  }

  /** How far the worker is from running the entry. */
  function Distance(worker: Worker): nat {
    match worker
    case Executing(_, _) => 0
    case Snapshotting => 1
    case Polling => 2
    case Publishing(_) => 3
    case Clearing(_, _) => 4
    case Unflagging => 5
    case Finishing => 6
    case Sleeping => 7
    case Flagged => 8
    case Queued => 9
    case Idling => 10
  }

  /** Waiting for work, the worker finds the slot BUSY whenever it looks. */
  lemma {:induction false} WaitingComes(c: Config, s: State, l: nat, sysnum: nat)
    requires Primed(c, s, l, sysnum) && !Doomed(s)
    requires s.worker.Idling? || s.worker.Queued? || s.worker.Flagged? || s.worker.Sleeping?
          || s.worker.Finishing? || s.worker.Unflagging? || s.worker.Polling?
    ensures Enabled(c, s, WorkersNext(s))
    ensures var t := Apply(c, s, WorkersNext(s));
      && Primed(c, t, l, sysnum) && !Doomed(t) && t.submitted == s.submitted
      && Distance(t.worker) < Distance(s.worker)
  {
    assert Index(c, s.head) == Place(c, l);
  }

  /** In a pass, it clears what it has run, */
  lemma {:induction false} ClearingComes(c: Config, s: State, l: nat, sysnum: nat)
    requires Primed(c, s, l, sysnum) && s.worker.Clearing?
    ensures var t := Apply(c, s, ClearStatus);
      && Primed(c, t, l, sysnum) && !Doomed(t) && t.submitted == s.submitted
      && Distance(t.worker) < Distance(s.worker)
  {
    IndexBound(c, CursorAt(c, l));
    PlaceDistinct(c, l - 1, l);
  }

  /** publishes, and snapshots the one entry. */
  lemma {:induction false} PassComes(c: Config, s: State, l: nat, sysnum: nat)
    requires Primed(c, s, l, sysnum) && (s.worker.Publishing? || s.worker.Snapshotting?)
    ensures var t := Apply(c, s, WorkersNext(s));
      && Primed(c, t, l, sysnum) && !Doomed(t) && t.submitted == s.submitted
      && Distance(t.worker) < Distance(s.worker)
  {
    IndexBound(c, CursorAt(c, l));
    if s.worker.Snapshotting? {
      SnapshotIsOutstanding(c, s.head, l, s.tail, l + 1);
    }
  }

  /** So it runs the entry as it now is. */
  lemma {:induction false} RunsWhatIsThere(c: Config, s: State, l: nat, sysnum: nat) returns (steps: seq<Step>)
    requires Primed(c, s, l, sysnum) && !Doomed(s)
    ensures Runs(c, s, steps) && Fits(c, s, steps)
    ensures var t := After(c, s, steps);
      t.submitted == s.submitted && |t.executed| > l && t.executed[l].sysnum == sysnum
    decreases Distance(s.worker)
  {
    if s.worker.Executing? {
      steps := [Execute];
      Trace(c, [s, Apply(c, s, Execute)], steps);
    } else {
      if s.worker.Clearing? {
        ClearingComes(c, s, l, sysnum);
      } else if s.worker.Publishing? || s.worker.Snapshotting? {
        PassComes(c, s, l, sysnum);
      } else {
        WaitingComes(c, s, l, sysnum);
      }
      var step := WorkersNext(s);
      var rest := RunsWhatIsThere(c, Apply(c, s, step), l, sysnum);
      Prepend(c, s, step, rest);
      steps := [step] + rest;
    }
  }

  // ---------- the two together ----------

  /** The loose producer laps until its next slot is that of the first unexecuted entry, and
      puts the intruder there. */
  lemma {:induction false} LapOntoOldest(c: Config, s: State, l: nat, intruder: Call) returns (steps: seq<Step>)
    requires Loose(c, s) && Wakeable(s) && ValidCall(intruder) && Size(c) > 1
    requires |s.submitted| <= l + Size(c) && |s.executed| == l && Comes(c, s, l)
    ensures Runs(c, s, steps) && Fits(c, s, steps)
    ensures var t := After(c, s, steps);
      && Primed(c, t, l, intruder.sysnum) && Wakeable(t) && t.producer.Outside?
      && s.submitted <= t.submitted
  {
    var many := LapMany(c, s, l + Size(c) - |s.submitted|);
    var u := After(c, s, many);
    var one := LapOne(c, u, intruder);
    Concatenate(c, s, many, one);
    steps := many + one;
    TakesTheSlot(c, u, After(c, u, one), l, intruder);
  }

  /** A lap on, the slot is the same. */
  lemma {:induction false} TakesTheSlot(c: Config, s: State, t: State, l: nat, intruder: Call)
    requires Loose(c, s) && ValidCall(intruder) && HandedOver(c, s, t, intruder) && Shape(c, t) && Size(c) > 1
    requires |s.submitted| == l + Size(c) && |s.executed| == l && Comes(c, s, l)
    ensures Primed(c, t, l, intruder.sysnum)
  {
    AtSame(c, CursorAt(c, l), l, s.tail, l + Size(c));
  }

  /** After the lap the worker, woken if it sleeps, runs the intruder. */
  lemma {:induction false} LosesEntry(c: Config, s: State, l: nat, intruder: Call) returns (steps: seq<Step>)
    requires Loose(c, s) && Wakeable(s) && ValidCall(intruder) && Size(c) > 1
    requires |s.submitted| <= l + Size(c) && |s.executed| == l && Comes(c, s, l)
    ensures Runs(c, s, steps) && Fits(c, s, steps)
    ensures var t := After(c, s, steps);
      s.submitted <= t.submitted && |t.executed| > l && t.executed[l].sysnum == intruder.sysnum
  {
    var lap := LapOntoOldest(c, s, l, intruder);
    var u := After(c, s, lap);
    VisitRun(c, u);
    Concatenate(c, s, lap, VisitSteps(u));
    var run := RunsWhatIsThere(c, Visited(u), l, intruder.sysnum);
    Concatenate(c, s, lap + VisitSteps(u), run);
    steps := lap + VisitSteps(u) + run;
  }

  /** The first entry not executed yet is within the lap, and the worker gets to it next. */
  lemma {:induction false} NextToRun(c: Config, s: State)
    requires Inv(c, s)
    ensures Comes(c, s, |s.executed|) && s.published <= |s.executed| <= |s.submitted|
  {
  }

  /** One advance that does not fit, wherever the worker stands, has a continuation in which the
      first call not yet executed is never run: another call is executed in its place. No later
      advance of it is taken with exactly size-1 entries outstanding, so it fits in the sense
      of `Fits`; the later ones, with a lap or more outstanding, are let through by the same
      missing case. */
  lemma {:induction false} OverflowLosesACall(c: Config, s: State) returns (rest: seq<Step>)
    requires Inv(c, s) && c.guard.AsWritten? && s.producer.Spinning?
    requires Overflows(c, s, Advance) && Size(c) > 1
    ensures Enabled(c, s, Advance)
    ensures var o := Apply(c, s, Advance);
      && Runs(c, o, rest) && Fits(c, o, rest)
      && !InOrder(After(c, o, rest).submitted, After(c, o, rest).executed)
  {
    NextToRun(c, s);
    var o, l := Apply(c, s, Advance), |s.executed|;
    var u := GetsLoose(c, s);
    var intruder := Call(u.submitted[l].sysnum + 1, []);
    var run := LosesEntry(c, u, l, intruder);
    Concatenate(c, o, [Mark], run);
    rest := [Mark] + run;
    assert After(c, o, rest).submitted[l] == u.submitted[l];
  }

  // ---------- a ring of one entry ----------

  /** With a single entry head and tail never part, and no snapshot counts anything. */
  predicate Inert(c: Config, s: State) {
    && c.entries == c.tables == 1 && s.head == s.tail == Cursor(0, 0)
    && !s.worker.Executing? && !s.worker.Clearing? && (s.worker.Publishing? ==> s.worker.at == Cursor(0, 0))
  }

  lemma {:induction false} StepKeepsInert(c: Config, s: State, step: Step)
    requires Inert(c, s) && Enabled(c, s, step)
    ensures Inert(c, Apply(c, s, step)) && Apply(c, s, step).executed == s.executed
  {
    OneCursor(c);
  }

  lemma {:induction false} OneCursor(c: Config)
    requires c.entries == c.tables == 1
    ensures Next(c, Cursor(0, 0)) == Cursor(0, 0) && SnapshotCount(c, Cursor(0, 0), Cursor(0, 0)) == 0
  {
  }

  lemma {:induction false} RunKeepsInert(c: Config, s: State, steps: seq<Step>)
    requires Inert(c, s) && Runs(c, s, steps)
    ensures After(c, s, steps).executed == s.executed
    decreases |steps|
  {
    if |steps| > 0 {
      StepKeepsInert(c, s, steps[0]);
      RunKeepsInert(c, Apply(c, s, steps[0]), steps[1..]);
    }
  }

  lemma {:induction false} OneEntryIsInert(c: Config, s: State)
    requires Inv(c, s) && Size(c) == 1
    ensures Inert(c, s)
  {
    TimesMonotone(1, c.tables, c.entries);
    TimesIsProduct(c.tables, c.entries);
    assert c.entries == 1 && c.tables == 1;
  }

  /** A continuation that fits keeps the executed calls a prefix of the submitted ones. */
  predicate StaysInOrder(c: Config, s: State, rest: seq<Step>) {
    Runs(c, s, rest) && Fits(c, s, rest) ==> InOrder(After(c, s, rest).submitted, After(c, s, rest).executed)
  }

  lemma {:induction false} SafeFrom(c: Config, s: State, rest: seq<Step>)
    requires Inv(c, s) && c.guard.AsWritten? && Enabled(c, s, Advance)
    requires !Overflows(c, s, Advance) || Size(c) == 1
    ensures StaysInOrder(c, Apply(c, s, Advance), rest)
  {
    var o := Apply(c, s, Advance);
    if Size(c) == 1 {
      OneEntryIsInert(c, s);
      InertAdvance(c, s);
      InertStaysInOrder(c, o, rest);
    } else {
      AdvanceKeepsInv(c, s);
      InvStaysInOrder(c, o, rest);
    }
  }

  lemma {:induction false} InvStaysInOrder(c: Config, s: State, rest: seq<Step>)
    requires Inv(c, s)
    ensures StaysInOrder(c, s, rest)
  {
    if Runs(c, s, rest) && Fits(c, s, rest) {
      RunKeepsInv(c, s, rest);
    }
  }

  lemma {:induction false} InertAdvance(c: Config, s: State)
    requires Inert(c, s) && InOrder(s.submitted, s.executed) && Enabled(c, s, Advance)
    ensures Inert(c, Apply(c, s, Advance))
    ensures InOrder(Apply(c, s, Advance).submitted, Apply(c, s, Advance).executed)
  {
    StepKeepsInert(c, s, Advance);
    LongerStaysInOrder(s.submitted, Apply(c, s, Advance).submitted, s.executed);
  }

  lemma {:induction false} InertStaysInOrder(c: Config, s: State, rest: seq<Step>)
    requires Inert(c, s) && InOrder(s.submitted, s.executed)
    ensures StaysInOrder(c, s, rest)
  {
    if Runs(c, s, rest) {
      RunKeepsInert(c, s, rest);
      RunKeepsSubmitted(c, s, rest);
      LongerStaysInOrder(s.submitted, After(c, s, rest).submitted, s.executed);
    }
  }

  lemma {:induction false} LongerStaysInOrder(submitted: seq<Call>, more: seq<Call>, executed: seq<Event>)
    requires InOrder(submitted, executed) && submitted <= more
    ensures InOrder(more, executed)
  {
  }

  /** The exact condition, in every state with the invariant, for a producer about to pass the
      spin test as written: every continuation that fits keeps the executed calls a prefix of
      the submitted ones if and only if this advance is not the one with size-1 entries
      outstanding and head_entry = 0, or the ring has a single entry and runs nothing at all. */
  lemma {:induction false} SafeIffFits(c: Config, s: State)
    requires Inv(c, s) && c.guard.AsWritten? && Enabled(c, s, Advance)
    ensures (!Overflows(c, s, Advance) || Size(c) == 1) <==>
            forall rest :: StaysInOrder(c, Apply(c, s, Advance), rest)
  {
    if !Overflows(c, s, Advance) || Size(c) == 1 {
      forall rest ensures StaysInOrder(c, Apply(c, s, Advance), rest) {
        SafeFrom(c, s, rest);
      }
    } else {
      var rest := OverflowLosesACall(c, s);
      assert !StaysInOrder(c, Apply(c, s, Advance), rest);
    }
  }

  /** Every ring loses a call on some run from its initial state under the test as written,
      unless it has a single entry: it is enough that the worker is late by one lap. */
  lemma {:induction false} EveryRingCanLoseACall(c: Config, s: State) returns (steps: seq<Step>)
    requires Initial(c, s) && c.guard.AsWritten? && Size(c) > 1
    ensures Runs(c, s, steps)
    ensures !InOrder(After(c, s, steps).submitted, After(c, s, steps).executed)
  {
    InitialInv(c, s);
    var lap := GetAhead(c, s, PLAIN, Size(c) - 1);
    var t := After(c, s, lap);
    var fill := FillCall(c, t, PLAIN);
    RunKeepsInv(c, t, fill);
    var f := After(c, t, fill);
    var rest := OverflowLosesACall(c, f);
    Prepend(c, f, Advance, rest);
    Concatenate(c, t, fill, [Advance] + rest);
    Concatenate(c, s, lap, fill + ([Advance] + rest));
    steps := lap + (fill + ([Advance] + rest));
  }
}
