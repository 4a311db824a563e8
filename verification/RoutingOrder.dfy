/** When two calls of one program keep their order. The nginx wrapper routes `sendfile64` by its
    input descriptor and `close` by the descriptor closed, so a connection's `close` need not
    follow its `sendfile64`: it does, on every run, exactly when both go to the same ring. */
module RoutingOrder {
  import opened Basics
  import opened Cursors
  import opened Calls
  import opened RingProtocol
  import opened SideData
  import opened RingRuns
  import Routing

  /** Where the program's `i`-th call stands among the calls of its ring. */
  function Position(m: Routing.Machine, i: nat): nat
    requires |m.rings| > 0 && i < |m.issued| && Routing.Stays(m.issued[i].fd, |m.rings|)
  {
    |Routing.ToRing(m.issued[..i], Routing.Lane(m.issued[i].fd, |m.rings|), |m.rings|)|
  }

  /** The program's `i`-th call has been executed, as itself, by the worker of its ring. */
  predicate Done(m: Routing.Machine, i: nat)
    requires |m.rings| > 0 && i < |m.issued| && Routing.Stays(m.issued[i].fd, |m.rings|)
  {
    var k, s := Position(m, i), m.rings[Routing.Lane(m.issued[i].fd, |m.rings|)];
    k < |s.executed| && ValidCall(m.issued[i].call) && s.executed[k] == Image(m.issued[i].call)
  }

  /** Whenever a call of descriptor `b` has been executed, so has every earlier one of `a`. */
  predicate InOrder(m: Routing.Machine, a: int, b: int)
    requires |m.rings| > 0 && Routing.Stays(a, |m.rings|) && Routing.Stays(b, |m.rings|)
  {
    forall i, j :: 0 <= i < j < |m.issued| && m.issued[i].fd == a && m.issued[j].fd == b && Done(m, j) ==> Done(m, i)
  }

  // ---------- one ring ----------

  /** A call is in the lane of its ring at its position. */
  lemma {:induction false} AtPosition(issued: seq<Routing.Routed>, i: nat, r: nat, ratio: nat)
    requires ratio > 0 && i < |issued| && Routing.Lane(issued[i].fd, ratio) == r
    ensures var k, lane := |Routing.ToRing(issued[..i], r, ratio)|, Routing.ToRing(issued, r, ratio);
      k < |lane| && lane[k] == issued[i]
    decreases |issued|
  {
    var n := |issued| - 1;
    if i < n {
      AtPosition(issued[..n], i, r, ratio);
      assert issued[..n][..i] == issued[..i];
    }
  }

  /** What a worker has executed at a call's position is that call. */
  lemma {:induction false} ReachedIsDone(c: Config, m: Routing.Machine, i: nat)
    requires Routing.MachineInv(c, m) && i < |m.issued| && Routing.Stays(m.issued[i].fd, |m.rings|)
    requires Position(m, i) < |m.rings[Routing.Lane(m.issued[i].fd, |m.rings|)].executed|
    ensures Done(m, i)
  {
    var r := Routing.Lane(m.issued[i].fd, |m.rings|);
    assert Routing.LaneInv(c, m.rings[r], m.lanes[r]) && m.lanes[r] == Routing.ToRing(m.issued, r, |m.rings|);
    AtPosition(m.issued, i, r, |m.rings|);
  }

  lemma {:induction false} SameRingKeepsOrder(c: Config, m: Routing.Machine, i: nat, j: nat)
    requires Routing.MachineInv(c, m) && i < j < |m.issued|
    requires Routing.Stays(m.issued[i].fd, |m.rings|) && Routing.Stays(m.issued[j].fd, |m.rings|)
    requires Routing.Lane(m.issued[i].fd, |m.rings|) == Routing.Lane(m.issued[j].fd, |m.rings|) && Done(m, j)
    ensures Done(m, i)
  {
    AtPosition(m.issued[..j], i, Routing.Lane(m.issued[i].fd, |m.rings|), |m.rings|);
    assert m.issued[..j][..i] == m.issued[..i];
    ReachedIsDone(c, m, i);
  }

  // ---------- lifting runs of one ring to the machine ----------

  function Lifted(r: nat, steps: seq<Step>): (moves: seq<Routing.Move>)
    ensures |moves| == |steps|
    ensures forall k :: 0 <= k < |steps| ==> moves[k] == Routing.On(r, steps[k])
  {
    seq(|steps|, k requires 0 <= k < |steps| => Routing.On(r, steps[k]))
  }

  /** A quiet run of ring `r` is a run of the machine that changes nothing else. */
  lemma {:induction false} Lift(c: Config, m: Routing.Machine, r: nat, steps: seq<Step>)
    requires |m.rings| == |m.lanes| && r < |m.rings| && Quiet(steps)
    requires Runs(c, m.rings[r], steps) && Fits(c, m.rings[r], steps)
    ensures Routing.Runs(c, m, Lifted(r, steps))
    ensures Routing.After(c, m, Lifted(r, steps))
            == m.(rings := m.rings[r := After(c, m.rings[r], steps)])
    decreases |steps|
  {
    if |steps| == 0 {
      assert m.rings[r := m.rings[r]] == m.rings;
    } else {
      var moves := Lifted(r, steps);
      var n := Routing.Do(c, m, moves[0]);
      Lift(c, n, r, steps[1..]);
      assert moves[1..] == Lifted(r, steps[1..]);
    }
  }

  lemma {:induction false} Join(c: Config, m: Routing.Machine, a: seq<Routing.Move>, b: seq<Routing.Move>)
    requires Routing.Runs(c, m, a) && Routing.Runs(c, Routing.After(c, m, a), b)
    ensures Routing.Runs(c, m, a + b)
    ensures Routing.After(c, m, a + b) == Routing.After(c, Routing.After(c, m, a), b)
    decreases |a|
  {
    if |a| == 0 {
      assert a + b == b;
    } else {
      Join(c, Routing.Do(c, m, a[0]), a[1..], b);
      FirstMove(c, m, a[0], a[1..] + b);
      FirstOfConcat(a, b);
    }
  }

  lemma {:induction false} FirstMove(c: Config, m: Routing.Machine, move: Routing.Move, rest: seq<Routing.Move>)
    requires Routing.Can(c, m, move) && Routing.Runs(c, Routing.Do(c, m, move), rest)
    ensures Routing.Runs(c, m, [move] + rest)
    ensures Routing.After(c, m, [move] + rest) == Routing.After(c, Routing.Do(c, m, move), rest)
  {
    assert ([move] + rest)[1..] == rest;
  }

  // ---------- two rings ----------

  /** Issue a call on a ring without calls and finish submitting it. */
  lemma {:induction false} IssueOne(c: Config, m: Routing.Machine, fd: int, call: Call)
    returns (moves: seq<Routing.Move>)
    requires |m.rings| == |m.lanes| > 0 && Routing.ThreadIsFree(m.rings) && ValidCall(call) && Size(c) > 1
    requires Routing.Stays(fd, |m.rings|) && CaughtUp(c, m.rings[Routing.Lane(fd, |m.rings|)], 0)
    requires m.rings[Routing.Lane(fd, |m.rings|)].submitted == []
    ensures Routing.Runs(c, m, moves)
    ensures var e, r := Routing.After(c, m, moves), Routing.Lane(fd, |m.rings|);
      && |e.rings| == |e.lanes| == |m.rings| && Routing.ThreadIsFree(e.rings)
      && e.issued == m.issued + [Routing.Routed(fd, call)]
      && CaughtUp(c, e.rings[r], 1) && |e.rings[r].submitted| == 1
      && (forall k :: 0 <= k < |m.rings| && k != r ==> e.rings[k] == m.rings[k])
  {
    var r, issue := Routing.Lane(fd, |m.rings|), Routing.Issue(fd, call);
    BeginKeepsInv(c, m.rings[r], call);
    var n := Routing.Do(c, m, issue);
    var steps := FinishSubmission(c, n.rings[r], 0);
    Lift(c, n, r, steps);
    assert [issue] + [] == [issue];
    FirstMove(c, m, issue, []);
    Join(c, m, [issue], Lifted(r, steps));
    moves := [issue] + Lifted(r, steps);
  }

  /** Calls on different rings can overtake: the second is executed, the first is not. */
  lemma {:induction false} CanOvertake(c: Config, m: Routing.Machine, a: int, x: Call, b: int, y: Call)
    returns (moves: seq<Routing.Move>)
    requires Routing.Initially(c, m) && ValidCall(x) && ValidCall(y) && Size(c) > 1
    requires Routing.Stays(a, |m.rings|) && Routing.Stays(b, |m.rings|)
    requires Routing.Lane(a, |m.rings|) != Routing.Lane(b, |m.rings|)
    ensures Routing.Runs(c, m, moves)
    ensures var e := Routing.After(c, m, moves);
      && |e.rings| == |m.rings| && e.issued == [Routing.Routed(a, x), Routing.Routed(b, y)]
      && Done(e, 1) && !Done(e, 0)
  {
    var ra, rb := Routing.Lane(a, |m.rings|), Routing.Lane(b, |m.rings|);
    InitialInv(c, m.rings[ra]);
    InitialInv(c, m.rings[rb]);
    var first := IssueOne(c, m, a, x);
    var m1 := Routing.After(c, m, first);
    var second := IssueOne(c, m1, b, y);
    var m2 := Routing.After(c, m1, second);
    var steps := [Poll, Snapshot, Execute];
    var t := RunOnly(c, m2.rings[rb]);
    Lift(c, m2, rb, steps);
    Join(c, m, first, second);
    Join(c, m, first + second, Lifted(rb, steps));
    moves := first + second + Lifted(rb, steps);
    Overtaken(c, m, moves, a, x, b, y);
  }

  lemma {:induction false} Overtaken(
    c: Config, m: Routing.Machine, moves: seq<Routing.Move>, a: int, x: Call, b: int, y: Call)
    requires Routing.Initially(c, m) && Routing.Runs(c, m, moves)
    requires Routing.Stays(a, |m.rings|) && Routing.Stays(b, |m.rings|)
    requires Routing.Lane(a, |m.rings|) != Routing.Lane(b, |m.rings|)
    requires var e := Routing.After(c, m, moves);
      && |e.rings| == |m.rings| && e.issued == [Routing.Routed(a, x), Routing.Routed(b, y)]
      && e.rings[Routing.Lane(a, |m.rings|)].executed == []
      && |e.rings[Routing.Lane(b, |m.rings|)].executed| > 0
    ensures Done(Routing.After(c, m, moves), 1) && !Done(Routing.After(c, m, moves), 0)
  {
    var e := Routing.After(c, m, moves);
    Routing.InitialMachineInv(c, m);
    Routing.RunKeepsInv(c, m, moves);
    FirstOfItsRing(e);
    ReachedIsDone(c, e, 1);
  }

  lemma {:induction false} FirstOfItsRing(m: Routing.Machine)
    requires |m.rings| > 0 && |m.issued| == 2 && Routing.Stays(m.issued[1].fd, |m.rings|)
    requires Routing.Lane(m.issued[0].fd, |m.rings|) != Routing.Lane(m.issued[1].fd, |m.rings|)
    ensures Position(m, 1) == 0
  {
    var one, r := m.issued[..1], Routing.Lane(m.issued[1].fd, |m.rings|);
    assert one[..0] == [] && one[0] == m.issued[0];
    assert Routing.ToRing(one, r, |m.rings|) == Routing.ToRing(one[..0], r, |m.rings|);
  }

  // ---------- a ring of one entry ----------

  lemma {:induction false} OneEntryStep(c: Config, s: State, step: Step)
    requires Inv(c, s) && Legal(c, s, step) && Size(c) == 1
    ensures Inv(c, Apply(c, s, step)) && Apply(c, s, step).submitted == s.submitted
  {
    StepKeepsInv(c, s, step);
  }

  /** With a single entry no advance is legal, so nothing is ever submitted. */
  lemma {:induction false} OneEntryRunsNothing(c: Config, m: Routing.Machine, moves: seq<Routing.Move>)
    requires Unused(c, m.rings) && Routing.Runs(c, m, moves) && Size(c) == 1
    ensures Unused(c, Routing.After(c, m, moves).rings)
    decreases |moves|
  {
    if |moves| > 0 {
      match moves[0] {
        case Issue(fd, call) => BeginKeepsInv(c, m.rings[Routing.Lane(fd, |m.rings|)], call);
        case On(r, step) => OneEntryStep(c, m.rings[r], step);
      }
      OneEntryRunsNothing(c, Routing.Do(c, m, moves[0]), moves[1..]);
    }
  }

  predicate Unused(c: Config, rings: seq<State>) {
    forall r :: 0 <= r < |rings| ==> Inv(c, rings[r]) && rings[r].submitted == []
  }


  /** For every program: on every run an executed call of descriptor `b` means that every earlier
      call of descriptor `a` has been executed, if and only if `a` and `b` select the same ring, or
      the rings have a single entry and run nothing at all. */
  lemma {:induction false} OrderKeptIffSameRing(c: Config, m: Routing.Machine, a: int, b: int)
    requires Routing.Initially(c, m) && Routing.Stays(a, |m.rings|) && Routing.Stays(b, |m.rings|)
    ensures Routing.Lane(a, |m.rings|) == Routing.Lane(b, |m.rings|) || Size(c) == 1 <==>
            forall moves :: KeepsOrder(c, m, moves, a, b)
  {
    if Routing.Lane(a, |m.rings|) == Routing.Lane(b, |m.rings|) || Size(c) == 1 {
      forall moves ensures KeepsOrder(c, m, moves, a, b) {
        if Routing.Runs(c, m, moves) {
          OrderIsKept(c, m, moves, a, b);
        }
      }
    } else {
      assert Initial(c, m.rings[0]);
      SizePositive(c);
      var plain := Call(0, []);
      var moves := CanOvertake(c, m, a, plain, b, plain);
      var e := Routing.After(c, m, moves);
      assert e.issued[0].fd == a && e.issued[1].fd == b && !InOrder(e, a, b);
      assert !KeepsOrder(c, m, moves, a, b);
    }
  }

  predicate KeepsOrder(c: Config, m: Routing.Machine, moves: seq<Routing.Move>, a: int, b: int)
    requires |m.rings| > 0 && Routing.Stays(a, |m.rings|) && Routing.Stays(b, |m.rings|)
  {
    Routing.Runs(c, m, moves) ==>
      |Routing.After(c, m, moves).rings| == |m.rings| && InOrder(Routing.After(c, m, moves), a, b)
  }

  lemma {:induction false} OrderIsKept(c: Config, m: Routing.Machine, moves: seq<Routing.Move>, a: int, b: int)
    requires Routing.Initially(c, m) && Routing.Runs(c, m, moves)
    requires Routing.Stays(a, |m.rings|) && Routing.Stays(b, |m.rings|)
    requires Routing.Lane(a, |m.rings|) == Routing.Lane(b, |m.rings|) || Size(c) == 1
    ensures KeepsOrder(c, m, moves, a, b)
  {
    var e := Routing.After(c, m, moves);
    Routing.InitialMachineInv(c, m);
    Routing.RunKeepsInv(c, m, moves);
    if Size(c) == 1 {
      forall r | 0 <= r < |m.rings| ensures Inv(c, m.rings[r]) {
        InitialInv(c, m.rings[r]);
      }
      OneEntryRunsNothing(c, m, moves);
      assert e.rings[Routing.Lane(b, |e.rings|)].executed == [];
    } else {
      forall i, j | 0 <= i < j < |e.issued| && e.issued[i].fd == a && e.issued[j].fd == b && Done(e, j)
        ensures Done(e, i)
      {
        SameRingKeepsOrder(c, e, i, j);
      }
    }
  }
}
