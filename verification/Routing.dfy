/** Spreading the calls of one user worker over its RATIO rings by descriptor. */
module Routing {
  import opened Cursors
  import opened Calls
  import opened RingProtocol
  import opened SideData

  // ---------- the index expression ----------

  /** `fd % RATIO` as C computes it, with the sign of the dividend: the ring's place in the set of
      the calling worker. */
  function Lane(fd: int, ratio: nat): (r: int)
    requires ratio > 0
    ensures r < ratio && 0 < r + ratio
  {
    if fd >= 0 then fd % ratio else -((-fd) % ratio)
  }

  function Ratio(kernelWorkers: nat, userWorkers: nat): nat
    requires userWorkers > 0
  {
    kernelWorkers / userWorkers
  }

  /** The ring a wrapper uses. */
  function RingIndex(worker: nat, ratio: nat, fd: int): int
    requires ratio > 0
  {
    Times(worker, ratio) + Lane(fd, ratio)
  }

  /** The rings of one user worker, as `init_worker` registers and `batch_start` visits them. */
  predicate Owns(worker: nat, ratio: nat, ring: int) {
    Times(worker, ratio) <= ring < Times(worker, ratio) + ratio
  }

  /** The descriptor selects a ring of the calling worker. */
  predicate Stays(fd: int, ratio: nat)
    requires ratio > 0
  {
    0 <= Lane(fd, ratio)
  }

  /** A wrapper stays inside its own worker's rings exactly for the descriptors that are not
      negative or are multiples of RATIO: a negative remainder reaches below the set. */
  lemma {:induction false} StaysInOwnRings(worker: nat, ratio: nat, fd: int)
    requires ratio > 0
    ensures Owns(worker, ratio, RingIndex(worker, ratio, fd)) <==> Stays(fd, ratio)
    ensures Stays(fd, ratio) <==> fd >= 0 || fd % ratio == 0
  {
    NegatedRemainder(fd, ratio);
  }

  lemma {:induction false} NegatedRemainder(a: int, n: nat)
    requires n > 0
    ensures a % n == if (-a) % n == 0 then 0 else n - (-a) % n
  {
    var q, r := (-a) / n, (-a) % n;
    assert a == n * (-q) - r;
    if r == 0 {
      Remainder(a, n, -q, 0);
    } else {
      assert n * (-q) == n * (-q - 1) + n;
      Remainder(a, n, -q - 1, n - r);
    }
  }

  /** Quotient and remainder are unique. */
  lemma {:induction false} Remainder(a: int, n: nat, q: int, r: int)
    requires n > 0 && a == n * q + r && 0 <= r < n
    ensures a % n == r
  {
    var d := a / n - q;
    assert n * d == n * (a / n) - n * q == r - a % n;
    Multiple(n, d);
  }

  lemma {:induction false} Multiple(n: nat, d: int)
    ensures d >= 1 ==> n * d >= n
    ensures d <= -1 ==> n * d + n <= 0
  {
    if d >= 1 {
      assert n * d == n * (d - 1) + n && n * (d - 1) >= 0;
    } else if d <= -1 {
      assert n * d == n * (d + 1) - n && n * (d + 1) <= 0;
    }
  }

  /** Which ring a descriptor selects: the worker's first one plus the remainder of the descriptor
      that has the descriptor's sign. */
  lemma {:induction false} RingIndexIs(worker: nat, ratio: nat, fd: int, q: int, r: int)
    requires ratio > 0 && fd == q * ratio + r && r < ratio && 0 < r + ratio
    requires (fd >= 0 ==> r >= 0) && (fd <= 0 ==> r <= 0)
    ensures RingIndex(worker, ratio, fd) == worker * ratio + r
  {
    TimesIsProduct(worker, ratio);
    if fd >= 0 {
      assert fd == ratio * q + r;
      Remainder(fd, ratio, q, r);
    } else {
      assert -fd == ratio * (-q) + (-r);
      Remainder(-fd, ratio, -q, -r);
    }
  }

  /** RATIO is the largest number of rings each user worker can have of its own. */
  lemma {:induction false} RatioIsFairShare(kernelWorkers: nat, userWorkers: nat)
    requires userWorkers > 0
    ensures var ratio := Ratio(kernelWorkers, userWorkers);
      userWorkers * ratio <= kernelWorkers < userWorkers * (ratio + 1)
  {
    var ratio := Ratio(kernelWorkers, userWorkers);
    assert userWorkers * (ratio + 1) == userWorkers * ratio + userWorkers;
  }

  /** The ring sets of different user workers are disjoint and below the number of kernel workers. */
  lemma {:induction false} RingSetsAreDisjoint(kernelWorkers: nat, userWorkers: nat, a: nat, b: nat, ring: int)
    requires a < b < userWorkers
    ensures var ratio := Ratio(kernelWorkers, userWorkers);
      && !(Owns(a, ratio, ring) && Owns(b, ratio, ring))
      && (Owns(a, ratio, ring) || Owns(b, ratio, ring) ==> 0 <= ring < kernelWorkers)
  {
    var ratio := Ratio(kernelWorkers, userWorkers);
    TimesMonotone(a + 1, b, ratio);
    TimesMonotone(b + 1, userWorkers, ratio);
    TimesIsProduct(userWorkers, ratio);
    assert userWorkers * ratio <= kernelWorkers;
  }

  /** Two calls share a ring exactly when their routing descriptors are congruent, and both or
      neither leave the worker's own rings. A `sendfile` routed by its input descriptor and the
      `close` of its output descriptor need not be. */
  lemma {:induction false} SameRingIff(worker: nat, ratio: nat, a: int, b: int)
    requires ratio > 0
    ensures RingIndex(worker, ratio, a) == RingIndex(worker, ratio, b) <==>
            a % ratio == b % ratio && Stays(a, ratio) == Stays(b, ratio)
  {
    NegatedRemainder(a, ratio);
    NegatedRemainder(b, ratio);
  }

  // ---------- RATIO rings under one producer ----------

  /** A call with the descriptor that routes it. */
  datatype Routed = Routed(fd: int, call: Call)

  /** The rings of one user worker; per ring, the calls issued to it; and the program's calls
      in program order. */
  datatype Machine = Machine(rings: seq<State>, lanes: seq<seq<Routed>>, issued: seq<Routed>)

  datatype Move = Issue(fd: int, call: Call) | On(ring: nat, step: Step)

  /** The producing thread is in no wrapper call and in no `batch_start`. */
  predicate ThreadIsFree(rings: seq<State>) {
    forall r :: 0 <= r < |rings| ==> rings[r].producer.Outside?
  }

  /** Calls are issued with descriptors that stay in the worker's own rings. */
  predicate Can(c: Config, m: Machine, move: Move) {
    && |m.rings| == |m.lanes| > 0
    && match move
       case Issue(fd, call) =>
         ThreadIsFree(m.rings) && Stays(fd, |m.rings|) && Enabled(c, m.rings[Lane(fd, |m.rings|)], Begin(call))
       case On(r, step) =>
         && r < |m.rings| && Legal(c, m.rings[r], step) && !step.Begin?
         && (step.Visit? ==> ThreadIsFree(m.rings))
  }

  function Do(c: Config, m: Machine, move: Move): Machine
    requires Can(c, m, move)
  {
    match move
    case Issue(fd, call) =>
      var r, tagged := Lane(fd, |m.rings|), Routed(fd, call);
      Machine(m.rings[r := Apply(c, m.rings[r], Begin(call))], m.lanes[r := m.lanes[r] + [tagged]],
              m.issued + [tagged])
    case On(r, step) => m.(rings := m.rings[r := Apply(c, m.rings[r], step)])
  }

  predicate Runs(c: Config, m: Machine, moves: seq<Move>)
    decreases |moves|
  {
    |moves| > 0 ==> Can(c, m, moves[0]) && Runs(c, Do(c, m, moves[0]), moves[1..])
  }

  function After(c: Config, m: Machine, moves: seq<Move>): Machine
    requires Runs(c, m, moves)
    decreases |moves|
  {
    if |moves| == 0 then m else After(c, Do(c, m, moves[0]), moves[1..])
  }

  predicate Initially(c: Config, m: Machine) {
    && |m.rings| == |m.lanes| > 0 && m.issued == []
    && (forall r :: 0 <= r < |m.rings| ==> Initial(c, m.rings[r]) && m.lanes[r] == [])
  }

  /** The program's calls that go to ring `r`. */
  function ToRing(issued: seq<Routed>, r: nat, ratio: nat): seq<Routed>
    requires ratio > 0
  {
    if |issued| == 0 then [] else
      var last := issued[|issued| - 1];
      ToRing(issued[..|issued| - 1], r, ratio) + (if Lane(last.fd, ratio) == r then [last] else [])
  }

  /** The ring's own calls are those of its lane, in order. */
  ghost predicate LaneInv(c: Config, s: State, lane: seq<Routed>) {
    && Inv(c, s) && |lane| == Issued(s)
    && forall k: nat :: k < |lane| ==> lane[k].call == CallAt(s, k)
  }

  ghost predicate MachineInv(c: Config, m: Machine) {
    && |m.rings| == |m.lanes| > 0
    && forall r: nat :: r < |m.rings| ==>
         LaneInv(c, m.rings[r], m.lanes[r]) && m.lanes[r] == ToRing(m.issued, r, |m.rings|)
  }

  lemma {:induction false} IssueKeepsLane(c: Config, s: State, lane: seq<Routed>, tagged: Routed)
    requires LaneInv(c, s, lane) && Enabled(c, s, Begin(tagged.call))
    ensures LaneInv(c, Apply(c, s, Begin(tagged.call)), lane + [tagged])
  {
    BeginKeepsInv(c, s, tagged.call);
  }

  lemma {:induction false} StepKeepsLane(c: Config, s: State, lane: seq<Routed>, step: Step)
    requires LaneInv(c, s, lane) && Legal(c, s, step) && !step.Begin?
    ensures LaneInv(c, Apply(c, s, step), lane)
  {
    StepKeepsInv(c, s, step);
    MoveKeepsCalls(c, s, step);
  }

  lemma {:induction false} MoveKeepsInv(c: Config, m: Machine, move: Move)
    requires MachineInv(c, m) && Can(c, m, move)
    ensures MachineInv(c, Do(c, m, move))
  {
    var n := Do(c, m, move);
    forall r: nat | r < |n.rings|
      ensures LaneInv(c, n.rings[r], n.lanes[r]) && n.lanes[r] == ToRing(n.issued, r, |n.rings|)
    {
      assert LaneInv(c, m.rings[r], m.lanes[r]) && m.lanes[r] == ToRing(m.issued, r, |m.rings|);
      match move {
        case Issue(fd, call) =>
          assert n.issued[..|m.issued|] == m.issued;
          if r == Lane(fd, |m.rings|) {
            IssueKeepsLane(c, m.rings[r], m.lanes[r], Routed(fd, call));
          }
        case On(on, step) =>
          if r == on {
            StepKeepsLane(c, m.rings[r], m.lanes[r], step);
          }
      }
    }
  }

  lemma {:induction false} RunKeepsInv(c: Config, m: Machine, moves: seq<Move>)
    requires MachineInv(c, m) && Runs(c, m, moves)
    ensures MachineInv(c, After(c, m, moves))
    ensures |After(c, m, moves).rings| == |m.rings|
    decreases |moves|
  {
    if |moves| > 0 {
      MoveKeepsInv(c, m, moves[0]);
      RunKeepsInv(c, Do(c, m, moves[0]), moves[1..]);
    }
  }

  lemma {:induction false} InitialMachineInv(c: Config, m: Machine)
    requires Initially(c, m)
    ensures MachineInv(c, m)
  {
    forall r: nat | r < |m.rings|
      ensures LaneInv(c, m.rings[r], m.lanes[r]) && m.lanes[r] == ToRing(m.issued, r, |m.rings|)
    {
      InitialInv(c, m.rings[r]);
    }
  }

  // ---------- order per descriptor ----------

  /** The images of the program's calls for one descriptor. */
  function Wanted(calls: seq<Routed>, fd: int): seq<Event>
    requires forall k :: 0 <= k < |calls| ==> ValidCall(calls[k].call)
  {
    if |calls| == 0 then [] else
      var last := calls[|calls| - 1];
      Wanted(calls[..|calls| - 1], fd) + (if last.fd == fd then [Image(last.call)] else [])
  }

  /** The executed events that belong to one descriptor, by the lane's record of who issued them. */
  function Ran(executed: seq<Event>, lane: seq<Routed>, fd: int): seq<Event>
    requires |executed| <= |lane|
  {
    if |executed| == 0 then [] else
      var k := |executed| - 1;
      Ran(executed[..k], lane, fd) + (if lane[k].fd == fd then [executed[k]] else [])
  }

  predicate AllValidRouted(calls: seq<Routed>) {
    forall k :: 0 <= k < |calls| ==> ValidCall(calls[k].call)
  }

  lemma {:induction false} RanIsWanted(executed: seq<Event>, lane: seq<Routed>, fd: int)
    requires |executed| <= |lane| && AllValidRouted(lane)
    requires forall k :: 0 <= k < |executed| ==> executed[k] == Image(lane[k].call)
    ensures Ran(executed, lane, fd) == Wanted(lane[..|executed|], fd)
    decreases |executed|
  {
    if |executed| > 0 {
      var k := |executed| - 1;
      RanIsWanted(executed[..k], lane, fd);
      assert lane[..k + 1][..k] == lane[..k];
    }
  }

  lemma {:induction false} WantedPrefix(calls: seq<Routed>, n: nat, fd: int)
    requires n <= |calls| && AllValidRouted(calls)
    ensures Wanted(calls[..n], fd) <= Wanted(calls, fd)
    decreases |calls|
  {
    if n == |calls| {
      assert calls[..n] == calls;
    } else {
      WantedPrefix(calls[..|calls| - 1], n, fd);
      assert calls[..|calls| - 1][..n] == calls[..n];
    }
  }

  /** All calls of a descriptor are in the lane of its ring. */
  lemma {:induction false} LaneHasAll(issued: seq<Routed>, r: nat, ratio: nat, fd: int)
    requires ratio > 0 && r == Lane(fd, ratio) && AllValidRouted(issued)
    ensures AllValidRouted(ToRing(issued, r, ratio))
    ensures Wanted(ToRing(issued, r, ratio), fd) == Wanted(issued, fd)
    decreases |issued|
  {
    if |issued| > 0 {
      var n := |issued| - 1;
      LaneHasAll(issued[..n], r, ratio, fd);
      var before, last := ToRing(issued[..n], r, ratio), issued[n];
      if Lane(last.fd, ratio) == r {
        assert (before + [last])[..|before|] == before;
      } else {
        assert before + [] == before;
      }
    }
  }

  lemma {:induction false} RunKeepsValid(c: Config, m: Machine, moves: seq<Move>)
    requires Runs(c, m, moves) && AllValidRouted(m.issued)
    ensures AllValidRouted(After(c, m, moves).issued)
    decreases |moves|
  {
    if |moves| > 0 {
      RunKeepsValid(c, Do(c, m, moves[0]), moves[1..]);
    }
  }

  /** Order per descriptor. Under every interleaving of the workers, the executed calls of each
      descriptor are a prefix of that descriptor's calls in program order. */
  lemma {:induction false} DescriptorOrder(c: Config, m: Machine, moves: seq<Move>, fd: int)
    requires Initially(c, m) && Runs(c, m, moves) && Stays(fd, |m.rings|)
    ensures var e := After(c, m, moves);
      && |e.rings| == |e.lanes| == |m.rings| && AllValidRouted(e.issued)
      && var r := Lane(fd, |e.rings|);
         |e.rings[r].executed| <= |e.lanes[r]| && Ran(e.rings[r].executed, e.lanes[r], fd) <= Wanted(e.issued, fd)
  {
    InitialMachineInv(c, m);
    RunKeepsInv(c, m, moves);
    RunKeepsValid(c, m, moves);
    var e := After(c, m, moves);
    var r := Lane(fd, |e.rings|);
    assert LaneInv(c, e.rings[r], e.lanes[r]) && e.lanes[r] == ToRing(e.issued, r, |e.rings|);
    LaneHasAll(e.issued, r, |e.rings|, fd);
    RanIsWanted(e.rings[r].executed, e.lanes[r], fd);
    WantedPrefix(e.lanes[r], |e.rings[r].executed|, fd);
  }
}
