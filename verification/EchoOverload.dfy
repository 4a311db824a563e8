/** One connection more than buffers is enough to empty the pool: the bound under which the
    ENOBUFS branch is unreachable is exact. */
module EchoOverload {
  import opened Basics
  import opened Counting
  import opened EchoServer
  import opened EchoOwnership
  import opened EchoSupply

  /** Descriptors 0 to n-1. */
  function Fds(n: nat): (r: set<int>)
    ensures |r| == n
    ensures forall fd :: fd in r <==> 0 <= fd < n
  {
    if n == 0 then {} else Fds(n - 1) + {n - 1}
  }

  /** Receives for descriptors 0 to n-1, each holding the buffer of the same number. */
  function Held(n: nat): (r: seq<Flying>)
    ensures |r| == n
  {
    if n == 0 then [] else Held(n - 1) + [Flying(RecvSqe(n - 1), Some(n - 1))]
  }

  /** `n` idle connections, each with a receive that holds a buffer. */
  predicate Crowd(p: Setup, s: State, n: nat) {
    && s.sq == [AcceptSqe(p)] && s.flight == Held(n) && s.cq == [] && s.live == Fds(n) && !s.exited
    && s.pool == AllBuffers(p.buffers) - AllBuffers(n)
  }

  /** A run given by its states. */
  lemma {:induction false} Trace(p: Setup, states: seq<State>, steps: seq<Step>)
    requires |states| == |steps| + 1
    requires forall k {:trigger steps[k]} :: 0 <= k < |steps| ==>
               Enabled(p, states[k], steps[k]) && states[k + 1] == Apply(p, states[k], steps[k])
    ensures Runs(p, states[0], steps) && After(p, states[0], steps) == states[|steps|]
    decreases |steps|
  {
    if |steps| > 0 {
      Trace(p, states[1..], steps[1..]);
    }
  }

  /** One more connection arrives. */
  lemma {:induction false} AcceptOne(p: Setup, s: State, n: nat) returns (t: State)
    requires Crowd(p, s, n) && n < p.limit
    ensures Runs(p, s, [Issue, Accept(n, n)]) && After(p, s, [Issue, Accept(n, n)]) == t
    ensures t.sq == [] && t.flight == Held(n) && t.cq == [Cqe(AcceptSqe(p).info, n, 0)]
    ensures t.live == Fds(n + 1) && t.pool == s.pool && !t.exited
  {
    var u := IssueAccept(p, s, n);
    t := CompleteAccept(p, u, n);
    Trace(p, [u, t], [Accept(n, n)]);
    Concatenate(p, s, [Issue], [Accept(n, n)]);
    assert [Issue] + [Accept(n, n)] == [Issue, Accept(n, n)];
  }

  lemma {:induction false} IssueAccept(p: Setup, s: State, n: nat) returns (t: State)
    requires Crowd(p, s, n)
    ensures Runs(p, s, [Issue]) && After(p, s, [Issue]) == t
    ensures t.sq == [] && t.flight == Held(n) + [Flying(AcceptSqe(p), None)] && t.cq == [] && t.live == Fds(n)
    ensures t.pool == s.pool && !t.exited
  {
    t := Apply(p, s, Issue);
    Trace(p, [s, t], [Issue]);
  }

  lemma {:induction false} CompleteAccept(p: Setup, s: State, n: nat) returns (t: State)
    requires s.sq == [] && s.flight == Held(n) + [Flying(AcceptSqe(p), None)] && s.cq == [] && s.live == Fds(n)
    requires !s.exited && n < p.limit
    ensures Enabled(p, s, Accept(n, n)) && t == Apply(p, s, Accept(n, n))
    ensures t.sq == [] && t.flight == Held(n) && t.cq == [Cqe(AcceptSqe(p).info, n, 0)]
    ensures t.live == Fds(n + 1) && t.pool == s.pool && !t.exited
  {
    assert s.flight[n] == Flying(AcceptSqe(p), None);
    DropLast(Held(n), Flying(AcceptSqe(p), None));
    t := Apply(p, s, Accept(n, n));
  }

  lemma {:induction false} DropLast(fs: seq<Flying>, f: Flying)
    ensures Drop(fs + [f], |fs|) == fs
  {
  }

  /** Its receive is queued. */
  lemma {:induction false} Arrive(p: Setup, s: State, n: nat) returns (steps: seq<Step>, t: State)
    requires Crowd(p, s, n) && n < p.limit
    ensures Runs(p, s, steps) && After(p, s, steps) == t
    ensures t.sq == [RecvSqe(n), AcceptSqe(p)] && t.flight == Held(n) && t.cq == [] && t.live == Fds(n + 1)
    ensures t.pool == s.pool && !t.exited
  {
    var u := AcceptOne(p, s, n);
    t := Apply(p, u, Handle);
    assert Appended(p, u.cq[0]) == [RecvSqe(n), AcceptSqe(p)];
    Trace(p, [u, t], [Handle]);
    Concatenate(p, s, [Issue, Accept(n, n)], [Handle]);
    steps := [Issue, Accept(n, n)] + [Handle];
  }

  lemma {:induction false} Settle(p: Setup, s: State, n: nat) returns (steps: seq<Step>)
    requires Crowd(p, s, n) && n < p.limit && n < p.buffers
    ensures Runs(p, s, steps) && Crowd(p, After(p, s, steps), n + 1)
  {
    var arrive, t := Arrive(p, s, n);
    var u := Apply(p, t, IssueSelect(n));
    Trace(p, [t, u], [IssueSelect(n)]);
    Concatenate(p, s, arrive, [IssueSelect(n)]);
    steps := arrive + [IssueSelect(n)];
    assert AllBuffers(n + 1) == AllBuffers(n) + {n};
  }

  lemma {:induction false} Gather(p: Setup, s: State, n: nat) returns (steps: seq<Step>)
    requires Initial(p, s) && n <= p.buffers && n <= p.limit
    ensures Runs(p, s, steps) && Crowd(p, After(p, s, steps), n)
  {
    if n == 0 {
      steps := [];
    } else {
      var before := Gather(p, s, n - 1);
      var settle := Settle(p, After(p, s, before), n - 1);
      Concatenate(p, s, before, settle);
      steps := before + settle;
    }
  }

  /** With more connections allowed than there are buffers, a receive finds the pool empty. */
  lemma {:induction false} OverloadEmptiesPool(p: Setup, s: State) returns (steps: seq<Step>)
    requires Initial(p, s) && p.limit > p.buffers
    ensures Runs(p, s, steps) && Enabled(p, After(p, s, steps), IssueNoBufs)
  {
    var crowd := Gather(p, s, p.buffers);
    var arrive, t := Arrive(p, After(p, s, crowd), p.buffers);
    Concatenate(p, s, crowd, arrive);
    steps := crowd + arrive;
  }

  /** A run that ends with the pool not empty for whoever asks next. */
  ghost predicate EndsSupplied(p: Setup, s: State, steps: seq<Step>) {
    Runs(p, s, steps) ==> AlwaysSupplied(p, After(p, s, steps))
  }

  /** The ENOBUFS branch is unreachable if and only if no more connections can be live than
      there are buffers. */
  lemma {:induction false} NeverOutOfBuffersIff(p: Setup, s: State)
    requires Initial(p, s)
    ensures p.limit <= p.buffers <==> forall steps :: EndsSupplied(p, s, steps)
  {
    if p.limit <= p.buffers {
      forall steps ensures EndsSupplied(p, s, steps) {
        if Runs(p, s, steps) {
          EveryRunIsSupplied(p, s, steps);
        }
      }
    } else {
      var steps := OverloadEmptiesPool(p, s);
      assert !Supplied(IssueNoBufs);
      assert !EndsSupplied(p, s, steps);
    }
  }
}
