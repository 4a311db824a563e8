/** The status of every slot, exactly. A slot is BUSY for an entry that has been marked and not
    yet cleared, and for one other reason: `update_index` moves the tail before the wrapper stores
    BUSY, so the worker can run and clear an entry first, and the late store then leaves an
    executed slot BUSY for a lap. */
module RingStatus {
  import opened Basics
  import opened Cursors
  import opened Calls
  import opened RingProtocol

  /** The BUSY store to an entry the worker has already run and cleared. */
  predicate Late(s: State, step: Step) {
    step.Mark? && 0 < |s.submitted| <= Passed(s)
  }

  /** The entries a run marks too late. */
  function LateMarks(c: Config, s: State, steps: seq<Step>): set<nat>
    requires Runs(c, s, steps)
    decreases |steps|
  {
    if |steps| == 0 then {} else
      (if Late(s, steps[0]) then {|s.submitted| - 1} else {}) + LateMarks(c, Apply(c, s, steps[0]), steps[1..])
  }

  lemma {:induction false} LateMarksOfBoth(c: Config, s: State, a: seq<Step>, b: seq<Step>)
    requires Runs(c, s, a) && Runs(c, After(c, s, a), b)
    ensures Runs(c, s, a + b)
    ensures LateMarks(c, s, a + b) == LateMarks(c, s, a) + LateMarks(c, After(c, s, a), b)
    decreases |a|
  {
    Concatenate(c, s, a, b);
    if |a| == 0 {
      assert a + b == b;
    } else {
      LateMarksOfBoth(c, Apply(c, s, a[0]), a[1..], b);
      FirstOfConcat(a, b);
    }
  }

  /** Whether the slot whose latest entry is `k` is BUSY: behind the worker for a late mark, ahead
      of it for a mark, or for a late mark one lap before that has not been cleared since. */
  predicate BusyFor(k: nat, passed: int, marked: int, size: nat, late: set<nat>) {
    if k < passed then k in late else k < marked || (k >= size && k - size in late)
  }

  predicate Statuses(c: Config, slots: seq<Slot>, passed: int, t: nat, marked: int, late: set<nat>) {
    && ValidConfig(c) && |slots| == Size(c)
    && (forall k: nat {:trigger Place(c, k)} :: k < t <= k + Size(c) ==>
          (slots[Place(c, k)].status == Busy <==> BusyFor(k, passed, marked, Size(c), late)))
    && (forall k: nat {:trigger Place(c, k)} :: t <= k < Size(c) ==> slots[Place(c, k)].status == Empty)
    && (forall k :: k in late ==> k < passed)
  }

  predicate StatusInv(c: Config, s: State, late: set<nat>) {
    Inv(c, s) && Statuses(c, s.slots, Passed(s), |s.submitted|, Marked(s), late)
  }

  // ---------- every step ----------

  /** Entries a lap apart share their slot. */
  lemma {:induction false} PlaceOneLapOn(c: Config, k: nat)
    requires ValidConfig(c)
    ensures Place(c, k + Size(c)) == Place(c, k)
  {
    AtSame(c, CursorAt(c, k), k, CursorAt(c, k + Size(c)), k + Size(c));
  }

  /** Moving the tail on: what the slot at the tail was BUSY for one lap before, it still is. */
  lemma {:induction false} AdvanceKeepsStatuses(c: Config, slots: seq<Slot>, passed: int, t: nat, late: set<nat>)
    requires Statuses(c, slots, passed, t, t, late) && passed <= t < passed + Size(c)
    ensures Statuses(c, slots, passed, t + 1, t, late)
  {
    if t >= Size(c) {
      PlaceOneLapOn(c, t - Size(c));
      assert slots[Place(c, t - Size(c))].status == Busy <==> t - Size(c) in late;
    }
  }

  lemma {:induction false} OthersApart(c: Config, t: nat, e: nat)
    requires ValidConfig(c) && e < t <= e + Size(c)
    ensures forall k: nat {:trigger Place(c, k)} :: k < t <= k + Size(c) && k != e ==> Place(c, k) != Place(c, e)
    ensures forall k: nat {:trigger Place(c, k)} :: t <= k < Size(c) ==> Place(c, k) != Place(c, e)
  {
    forall k: nat | k < t <= k + Size(c) && k != e ensures Place(c, k) != Place(c, e) {
      if k < e {
        PlaceDistinct(c, k, e);
      } else {
        PlaceDistinct(c, e, k);
      }
    }
    forall k: nat | t <= k < Size(c) ensures Place(c, k) != Place(c, e) {
      PlaceDistinct(c, e, k);
    }
  }

  lemma {:induction false} MarkKeepsStatuses(c: Config, slots: seq<Slot>, passed: int, t: nat, late: set<nat>)
    requires Statuses(c, slots, passed, t, t - 1, late) && t > 0 && Size(c) > 0
    ensures var i := Place(c, t - 1);
      Statuses(c, slots[i := slots[i].(status := Busy)], passed, t, t, if t <= passed then late + {t - 1} else late)
  {
    OthersApart(c, t, t - 1);
  }

  lemma {:induction false} ClearKeepsStatuses(c: Config, slots: seq<Slot>, e: nat, t: nat, marked: int, late: set<nat>)
    requires Statuses(c, slots, e, t, marked, late) && e < t <= e + Size(c)
    ensures var i := Place(c, e); Statuses(c, slots[i := slots[i].(status := Empty)], e + 1, t, marked, late)
  {
    OthersApart(c, t, e);
  }

  /** Storing a field of a call changes no status. */
  lemma {:induction false} FillKeepsStatuses(c: Config, s: State)
    requires Enabled(c, s, Fill)
    ensures var t := Apply(c, s, Fill);
      |t.slots| == |s.slots| && forall k :: 0 <= k < |s.slots| ==> t.slots[k].status == s.slots[k].status
  {
  }

  lemma {:induction false} SameStatuses(
    c: Config, slots: seq<Slot>, slots': seq<Slot>, passed: int, t: nat, marked: int, late: set<nat>)
    requires Statuses(c, slots, passed, t, marked, late) && |slots'| == |slots|
    requires forall k :: 0 <= k < |slots| ==> slots'[k].status == slots[k].status
    ensures Statuses(c, slots', passed, t, marked, late)
  {
  }

  function LateAfter(s: State, step: Step, late: set<nat>): set<nat> {
    if Late(s, step) then late + {|s.submitted| - 1} else late
  }

  lemma {:induction false} ClearStep(c: Config, s: State, late: set<nat>)
    requires Positions(c, s) && Enabled(c, s, ClearStatus)
    requires Statuses(c, s.slots, Passed(s), |s.submitted|, Marked(s), late)
    ensures var t := Apply(c, s, ClearStatus); Statuses(c, t.slots, Passed(t), |t.submitted|, Marked(t), late)
  {
    assert Index(c, s.worker.at) == Place(c, Passed(s));
    ClearKeepsStatuses(c, s.slots, Passed(s), |s.submitted|, Marked(s), late);
  }

  /** No other step of the worker touches a slot, or moves it past an entry. */
  lemma {:induction false} OtherWorkerSteps(c: Config, s: State, step: Step)
    requires Enabled(c, s, step) && WorkerStep(step) && !step.ClearStatus?
    ensures var t := Apply(c, s, step);
      t.slots == s.slots && Passed(t) == Passed(s) && t.submitted == s.submitted && t.producer == s.producer
  {
  }

  lemma {:induction false} WorkerStepKeepsStatuses(c: Config, s: State, step: Step, late: set<nat>)
    requires StatusInv(c, s, late) && Legal(c, s, step) && WorkerStep(step)
    ensures StatusInv(c, Apply(c, s, step), late)
  {
    StepKeepsInv(c, s, step);
    if step.ClearStatus? {
      ClearStep(c, s, late);
    } else {
      OtherWorkerSteps(c, s, step);
    }
  }

  lemma {:induction false} FillStep(c: Config, s: State, late: set<nat>)
    requires StatusInv(c, s, late) && Enabled(c, s, Fill)
    ensures StatusInv(c, Apply(c, s, Fill), late)
  {
    FillKeepsInv(c, s);
    FillKeepsStatuses(c, s);
    SameStatuses(c, s.slots, Apply(c, s, Fill).slots, Passed(s), |s.submitted|, Marked(s), late);
  }

  lemma {:induction false} AdvanceStep(c: Config, s: State, late: set<nat>)
    requires StatusInv(c, s, late) && Legal(c, s, Advance)
    ensures StatusInv(c, Apply(c, s, Advance), late)
  {
    AdvanceKeepsInv(c, s);
    AdvanceKeepsStatuses(c, s.slots, Passed(s), |s.submitted|, late);
  }

  lemma {:induction false} MarkStep(c: Config, s: State, late: set<nat>)
    requires StatusInv(c, s, late) && Enabled(c, s, Mark)
    ensures StatusInv(c, Apply(c, s, Mark), LateAfter(s, Mark, late))
  {
    MarkKeepsInv(c, s);
    MarkChangesStatuses(c, s, late);
  }

  lemma {:induction false} MarkChangesStatuses(c: Config, s: State, late: set<nat>)
    requires Positions(c, s) && Enabled(c, s, Mark)
    requires Statuses(c, s.slots, Passed(s), |s.submitted|, Marked(s), late)
    ensures var t := Apply(c, s, Mark);
      Statuses(c, t.slots, Passed(t), |t.submitted|, Marked(t), LateAfter(s, Mark, late))
  {
    MarkKeepsStatuses(c, s.slots, Passed(s), |s.submitted|, late);
    MarkStores(c, s);
  }

  lemma {:induction false} MarkStores(c: Config, s: State)
    requires Positions(c, s) && Enabled(c, s, Mark)
    ensures var i, t := Place(c, |s.submitted| - 1), Apply(c, s, Mark);
      && t.slots == s.slots[i := s.slots[i].(status := Busy)] && Passed(t) == Passed(s)
      && t.submitted == s.submitted && Marked(t) == |s.submitted|
  {
  }

  lemma {:induction false} ProducerStepKeepsStatuses(c: Config, s: State, step: Step, late: set<nat>)
    requires StatusInv(c, s, late) && Legal(c, s, step) && !WorkerStep(step)
    ensures StatusInv(c, Apply(c, s, step), LateAfter(s, step, late))
  {
    if step.Fill? {
      FillStep(c, s, late);
    } else if step.Advance? {
      AdvanceStep(c, s, late);
    } else if step.Mark? {
      MarkStep(c, s, late);
    } else {
      StepKeepsInv(c, s, step);
    }
  }

  lemma {:induction false} RunKeepsStatuses(c: Config, s: State, steps: seq<Step>, late: set<nat>)
    requires StatusInv(c, s, late) && Runs(c, s, steps) && (c.guard.NextIsHead? || Fits(c, s, steps))
    ensures StatusInv(c, After(c, s, steps), late + LateMarks(c, s, steps))
    decreases |steps|
  {
    if |steps| == 0 {
      assert late + {} == late;
    } else {
      var t, now := Apply(c, s, steps[0]), LateAfter(s, steps[0], late);
      if WorkerStep(steps[0]) {
        WorkerStepKeepsStatuses(c, s, steps[0], late);
      } else {
        ProducerStepKeepsStatuses(c, s, steps[0], late);
      }
      RunKeepsStatuses(c, t, steps[1..], now);
      assert now + LateMarks(c, t, steps[1..]) == late + LateMarks(c, s, steps);
    }
  }

  lemma {:induction false} InitialStatuses(c: Config, s: State)
    requires Initial(c, s)
    ensures StatusInv(c, s, {})
  {
    InitialInv(c, s);
  }

  /** On every run, every slot is BUSY exactly for a mark that is due, or for a late one. */
  lemma {:induction false} StatusesAreExact(c: Config, s: State, steps: seq<Step>)
    requires Initial(c, s) && Runs(c, s, steps) && (c.guard.NextIsHead? || Fits(c, s, steps))
    ensures StatusInv(c, After(c, s, steps), LateMarks(c, s, steps))
  {
    InitialStatuses(c, s);
    RunKeepsStatuses(c, s, steps, {});
    assert {} + LateMarks(c, s, steps) == LateMarks(c, s, steps);
  }

  /** The entry a lap before the next one was marked late. */
  predicate LateALapAgo(c: Config, s: State, late: set<nat>) {
    |s.submitted| >= Size(c) && |s.submitted| - Size(c) in late
  }

  /** With everything executed, the slot a waiting worker looks at is EMPTY unless the entry one
      lap back was marked too late. */
  lemma {:induction false} IdleHeadIsEmptyIff(c: Config, s: State, late: set<nat>)
    requires StatusInv(c, s, late) && s.published == |s.submitted|
    ensures HeadIsEmpty(c, s) <==> !LateALapAgo(c, s, late)
  {
    var t := |s.submitted|;
    assert Index(c, s.head) == Place(c, t);
    if t >= Size(c) {
      PlaceOneLapOn(c, t - Size(c));
      assert s.slots[Place(c, t - Size(c))].status == Busy <==> t - Size(c) in late;
    }
  }
}
