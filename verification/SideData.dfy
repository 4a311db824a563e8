/** Memory that submitted calls point into. A wrapper copies its caller's data somewhere, then
    submits a call holding the address; the worker looks at the data only when it executes the
    call. This module carries a ring together with such a memory and states what the memory has
    to keep for every executed call to see what its wrapper was given. `fetch` is what the kernel
    finds when it follows a call's registers into the memory. */
module SideData {
  import opened Cursors
  import opened Calls
  import opened RingProtocol

  /** A ring, the memory, the data of every call issued so far, and what each executed call saw. */
  datatype Side<M, P> = Side(ring: State, mem: M, wanted: seq<P>, seen: seq<P>)

  /** The call the producer has begun and not yet submitted. */
  predicate InHand(s: State) {
    s.producer.Filling? || s.producer.Spinning?
  }

  function Issued(s: State): nat {
    |s.submitted| + (if InHand(s) then 1 else 0)
  }

  /** The `k`-th call in program order. */
  function CallAt(s: State, k: nat): Call
    requires k < Issued(s)
  {
    if k < |s.submitted| then s.submitted[k] else s.producer.call
  }

  /** Every call not yet executed still finds its data. */
  ghost predicate StillThere<M, P>(fetch: (M, Event) -> P, s: State, mem: M, wanted: seq<P>)
    requires Issued(s) == |wanted|
  {
    forall k: nat :: |s.executed| <= k < |wanted| ==>
      ValidCall(CallAt(s, k)) && fetch(mem, Image(CallAt(s, k))) == wanted[k]
  }

  ghost predicate Coherent<M, P>(c: Config, fetch: (M, Event) -> P, x: Side<M, P>) {
    && Inv(c, x.ring)
    && Issued(x.ring) == |x.wanted|
    && |x.seen| == |x.ring.executed|
    && x.seen <= x.wanted
    && StillThere(fetch, x.ring, x.mem, x.wanted)
  }

  /** A step of the ring other than the beginning of a call; executing looks at the data. */
  function Move<M, P>(c: Config, fetch: (M, Event) -> P, x: Side<M, P>, step: Step): Side<M, P>
    requires Enabled(c, x.ring, step)
  {
    x.(ring := Apply(c, x.ring, step),
       seen := if step.Execute?
               then x.seen + [fetch(x.mem, Dispatch(x.ring.slots[Index(c, x.ring.worker.at)]))]
               else x.seen)
  }

  /** Submitting a call does not change which call is the `k`-th. */
  lemma {:induction false} MoveKeepsCalls(c: Config, s: State, step: Step)
    requires Inv(c, s) && Enabled(c, s, step) && !step.Begin?
    ensures Issued(Apply(c, s, step)) == Issued(s)
    ensures forall k: nat :: k < Issued(s) ==> CallAt(Apply(c, s, step), k) == CallAt(s, k)
  {
  }

  /** Beginning a call makes it the next one. */
  lemma {:induction false} BeginKeepsCalls(c: Config, s: State, call: Call)
    requires Enabled(c, s, Begin(call))
    ensures var t := Apply(c, s, Begin(call));
      && Issued(t) == Issued(s) + 1 && CallAt(t, Issued(s)) == call
      && forall k: nat :: k < Issued(s) ==> CallAt(t, k) == CallAt(s, k)
  {
  }

  lemma {:induction false} OnlyExecuteExecutes(c: Config, s: State, step: Step)
    requires Enabled(c, s, step)
    ensures |Apply(c, s, step).executed| == |s.executed| + if step.Execute? then 1 else 0
  {
  }

  /** The executed call is the next one in program order. */
  lemma {:induction false} ExecutesNext(c: Config, s: State)
    requires Inv(c, s) && Enabled(c, s, Execute)
    ensures |s.executed| < |s.submitted| && ValidCall(s.submitted[|s.executed|])
    ensures Dispatch(s.slots[Index(c, s.worker.at)]) == Image(s.submitted[|s.executed|])
  {
    var k := |s.executed|;
    assert Index(c, s.worker.at) == Place(c, k);
    HeldCallDispatchesItsImage(s.slots[Place(c, k)], s.submitted[k]);
  }

  lemma {:induction false} MoveKeepsCoherent<M, P>(c: Config, fetch: (M, Event) -> P, x: Side<M, P>, step: Step)
    requires Coherent(c, fetch, x) && Legal(c, x.ring, step) && !step.Begin?
    ensures Coherent(c, fetch, Move(c, fetch, x, step))
  {
    StepKeepsInv(c, x.ring, step);
    MoveKeepsCalls(c, x.ring, step);
    if step.Execute? {
      ExecutesNext(c, x.ring);
    }
  }

  /** Issuing a call keeps coherence when the new memory gives every pending call what the old
      one gave, and the new call its data. */
  lemma {:induction false} IssueKeepsCoherent<M, P>(
    c: Config, fetch: (M, Event) -> P, x: Side<M, P>, call: Call, mem: M, data: P)
    requires Coherent(c, fetch, x) && Legal(c, x.ring, Begin(call))
    requires fetch(mem, Image(call)) == data
    requires StillThere(fetch, x.ring, mem, x.wanted)
    ensures Coherent(c, fetch, Side(Apply(c, x.ring, Begin(call)), mem, x.wanted + [data], x.seen))
  {
    BeginKeepsInv(c, x.ring, call);
  }

  /** At most size-1 calls are pending when a wrapper begins its next one. */
  lemma {:induction false} PendingWindow(c: Config, s: State, k: nat)
    requires Inv(c, s) && |s.executed| <= k < |s.submitted|
    ensures |s.submitted| - k < Size(c)
  {
  }
}
