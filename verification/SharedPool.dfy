/** RATIO rings over one byte pool. A thread's rings all copy into the same pool, and a ring whose
    worker is late keeps an old region pending while the others move the pool on. So the executed
    writes see their callers' buffers on every run exactly when the thread has one ring. */
module SharedPool {
  import opened Basics
  import opened Cursors
  import opened Calls
  import opened RingProtocol
  import opened Regions
  import opened BytePool
  import opened SideData
  import opened RingRuns
  import Routing
  import TlsWrite

  /** The rings, and per ring what its calls were asked to write and what its executed calls saw. */
  datatype Machine = Machine(
    rings: seq<State>,
    mem: TlsWrite.Memory,
    wanted: seq<seq<Option<TlsWrite.Written>>>,
    seen: seq<seq<Option<TlsWrite.Written>>>)

  datatype Move = Move(ring: nat, action: TlsWrite.Action)

  predicate Formed(m: Machine) {
    |m.rings| == |m.wanted| == |m.seen| > 0
  }

  /** One ring and the pool, as that ring's wrapper and worker see them. */
  function View(m: Machine, r: nat): TlsWrite.Server
    requires Formed(m) && r < |m.rings|
  {
    Side(m.rings[r], m.mem, m.wanted[r], m.seen[r])
  }

  function Put(m: Machine, r: nat, x: TlsWrite.Server): Machine
    requires Formed(m) && r < |m.rings|
  {
    Machine(m.rings[r := x.ring], x.mem, m.wanted[r := x.wanted], m.seen[r := x.seen])
  }

  /** A write goes to the ring its descriptor selects; the thread does one thing at a time. */
  predicate Can(p: TlsWrite.Setup, m: Machine, move: Move) {
    && Formed(m) && move.ring < |m.rings| && p.maxWrite <= p.cap == |m.mem.bytes|
    && TlsWrite.Can(p, View(m, move.ring), move.action)
    && match move.action
       case Write(fd, _) => move.ring == Routing.Lane(fd, |m.rings|) && Routing.ThreadIsFree(m.rings)
       case Ring(step) => step.Visit? ==> Routing.ThreadIsFree(m.rings)
  }

  function Do(p: TlsWrite.Setup, m: Machine, move: Move): (n: Machine)
    requires Can(p, m, move)
    ensures Formed(n) && |n.rings| == |m.rings|
  {
    Put(m, move.ring, TlsWrite.Do(p, View(m, move.ring), move.action))
  }

  predicate Runs(p: TlsWrite.Setup, m: Machine, moves: seq<Move>)
    decreases |moves|
  {
    |moves| == 0 || (Can(p, m, moves[0]) && Runs(p, Do(p, m, moves[0]), moves[1..]))
  }

  function After(p: TlsWrite.Setup, m: Machine, moves: seq<Move>): Machine
    requires Runs(p, m, moves)
    decreases |moves|
  {
    if |moves| == 0 then m else After(p, Do(p, m, moves[0]), moves[1..])
  }

  ghost predicate Initially(p: TlsWrite.Setup, m: Machine) {
    Formed(m) && forall r :: 0 <= r < |m.rings| ==> TlsWrite.Initially(p, View(m, r))
  }

  /** Every executed write had its caller's descriptor and saw its caller's buffer. */
  predicate AllSeen(m: Machine) {
    Formed(m) && forall r :: 0 <= r < |m.rings| ==> m.seen[r] <= m.wanted[r]
  }

  lemma {:induction false} Join(p: TlsWrite.Setup, m: Machine, a: seq<Move>, b: seq<Move>)
    requires Runs(p, m, a) && Runs(p, After(p, m, a), b)
    ensures Runs(p, m, a + b) && After(p, m, a + b) == After(p, After(p, m, a), b)
    decreases |a|
  {
    if |a| == 0 {
      assert a + b == b;
    } else {
      Join(p, Do(p, m, a[0]), a[1..], b);
      FirstOfConcat(a, b);
    }
  }

  lemma {:induction false} Single(p: TlsWrite.Setup, m: Machine, move: Move)
    requires Can(p, m, move)
    ensures Runs(p, m, [move]) && After(p, m, [move]) == Do(p, m, move)
  {
    assert [move][1..] == [] && Runs(p, Do(p, m, move), []);
  }

  // ---------- one ring ----------

  /** With one ring the machine is the single-ring server. */
  lemma {:induction false} OneRing(p: TlsWrite.Setup, m: Machine, moves: seq<Move>) returns (actions: seq<TlsWrite.Action>)
    requires Runs(p, m, moves) && Formed(m) && |m.rings| == 1 && p.maxWrite <= p.cap == |m.mem.bytes|
    ensures Formed(After(p, m, moves)) && |After(p, m, moves).rings| == 1
    ensures TlsWrite.Runs(p, View(m, 0), actions)
    ensures View(After(p, m, moves), 0) == TlsWrite.After(p, View(m, 0), actions)
    decreases |moves|
  {
    if |moves| == 0 {
      actions := [];
    } else {
      var n := Do(p, m, moves[0]);
      var rest := OneRing(p, n, moves[1..]);
      actions := [moves[0].action] + rest;
      assert actions[1..] == rest && View(n, 0) == TlsWrite.Do(p, View(m, 0), actions[0]);
    }
  }

  // ---------- more rings ----------

  function Lifted(r: nat, steps: seq<Step>): (moves: seq<Move>)
    ensures |moves| == |steps|
    ensures forall k :: 0 <= k < |steps| ==> moves[k] == Move(r, TlsWrite.Ring(steps[k]))
  {
    seq(|steps|, k requires 0 <= k < |steps| => Move(r, TlsWrite.Ring(steps[k])))
  }

  /** Only ring `r`, and what its executed calls saw, may differ. */
  predicate OnlyRing(m: Machine, n: Machine, r: nat, s: State) {
    && Formed(m) && Formed(n) && r < |m.rings|
    && n.rings == m.rings[r := s] && n.mem == m.mem && n.wanted == m.wanted
    && |n.seen[r]| + |m.rings[r].executed| == |m.seen[r]| + |s.executed|
    && forall k :: 0 <= k < |m.rings| && k != r ==> n.seen[k] == m.seen[k]
  }

  /** A quiet run of one ring is a run of the machine that leaves pool and other rings alone. */
  lemma {:induction false} Lift(p: TlsWrite.Setup, m: Machine, r: nat, steps: seq<Step>)
    requires Formed(m) && r < |m.rings| && p.maxWrite <= p.cap == |m.mem.bytes| && Quiet(steps)
    requires RingProtocol.Runs(p.ring, m.rings[r], steps) && Fits(p.ring, m.rings[r], steps)
    ensures Runs(p, m, Lifted(r, steps))
    ensures OnlyRing(m, After(p, m, Lifted(r, steps)), r, RingProtocol.After(p.ring, m.rings[r], steps))
    ensures Execute !in steps ==> After(p, m, Lifted(r, steps)).seen == m.seen
    decreases |steps|
  {
    if |steps| > 0 {
      var moves := Lifted(r, steps);
      var n := Do(p, m, moves[0]);
      assert n.rings == m.rings[r := Apply(p.ring, m.rings[r], steps[0])];
      Lift(p, n, r, steps[1..]);
      assert moves[1..] == Lifted(r, steps[1..]);
    }
  }

  /** A write handed to a ring with room and submitted. */
  lemma {:induction false} SubmitWrite(p: TlsWrite.Setup, m: Machine, fd: nat, buf: seq<byte>, n: nat)
    returns (moves: seq<Move>)
    requires Formed(m) && Routing.ThreadIsFree(m.rings) && |buf| <= p.maxWrite <= p.cap == |m.mem.bytes|
    requires CaughtUp(p.ring, m.rings[Routing.Lane(fd, |m.rings|)], n) && n + 1 < Size(p.ring)
    ensures Runs(p, m, moves)
    ensures var e, r, g := After(p, m, moves), Routing.Lane(fd, |m.rings|), TlsWrite.NewRegion(p, m.mem, |buf|);
      && Formed(e) && |e.rings| == |m.rings| && Routing.ThreadIsFree(e.rings) && CaughtUp(p.ring, e.rings[r], n + 1)
      && e.rings[r].submitted == m.rings[r].submitted + [TlsWrite.WriteCall(p, fd, g)]
      && e.mem.bytes == Store(m.mem.bytes, g.start, buf) && e.mem.offset == End(g)
      && e.wanted == m.wanted[r := m.wanted[r] + [Some(TlsWrite.Written(p.sysnum, fd, buf))]] && e.seen == m.seen
      && forall k :: 0 <= k < |m.rings| && k != r ==> e.rings[k] == m.rings[k]
  {
    var r, move := Routing.Lane(fd, |m.rings|), Move(Routing.Lane(fd, |m.rings|), TlsWrite.Write(fd, buf));
    var g := TlsWrite.NewRegion(p, m.mem, |buf|);
    BeginKeepsInv(p.ring, m.rings[r], TlsWrite.WriteCall(p, fd, g));
    var e := Do(p, m, move);
    Single(p, m, move);
    var steps := FinishSubmission(p.ring, e.rings[r], n);
    Lift(p, e, r, steps);
    Join(p, m, [move], Lifted(r, steps));
    moves := [move] + Lifted(r, steps);
  }

  /** A write on an idle ring, submitted and executed. */
  lemma {:induction false} Cycle(p: TlsWrite.Setup, m: Machine, fd: nat, buf: seq<byte>) returns (moves: seq<Move>)
    requires Formed(m) && Routing.ThreadIsFree(m.rings) && |buf| <= p.maxWrite <= p.cap == |m.mem.bytes|
    requires CaughtUp(p.ring, m.rings[Routing.Lane(fd, |m.rings|)], 0) && Size(p.ring) > 1
    ensures Runs(p, m, moves)
    ensures var e, r, g := After(p, m, moves), Routing.Lane(fd, |m.rings|), TlsWrite.NewRegion(p, m.mem, |buf|);
      && Formed(e) && |e.rings| == |m.rings| && Routing.ThreadIsFree(e.rings) && CaughtUp(p.ring, e.rings[r], 0)
      && |e.rings[r].submitted| == |m.rings[r].submitted| + 1 && |e.seen[r]| == |m.seen[r]| + 1
      && e.mem.bytes == Store(m.mem.bytes, g.start, buf) && e.mem.offset == End(g)
      && e.wanted == m.wanted[r := m.wanted[r] + [Some(TlsWrite.Written(p.sysnum, fd, buf))]]
      && forall k :: 0 <= k < |m.rings| && k != r ==> e.rings[k] == m.rings[k] && e.seen[k] == m.seen[k]
  {
    var r := Routing.Lane(fd, |m.rings|);
    var submit := SubmitWrite(p, m, fd, buf, 0);
    var n := After(p, m, submit);
    var t := OnePass(p.ring, n.rings[r]);
    PassIsQuiet();
    Lift(p, n, r, PASS_STEPS);
    Join(p, m, submit, Lifted(r, PASS_STEPS));
    moves := submit + Lifted(r, PASS_STEPS);
  }

  predicate Zeros(w: Option<TlsWrite.Written>) {
    w.Some? && |w.value.bytes| > 0 && w.value.bytes[0] == 0
  }

  /** A ring's oldest pending write was given a buffer of zeros, at region `g` of the pool. */
  predicate ZerosPending(p: TlsWrite.Setup, m: Machine, r: nat, g: Region) {
    && Formed(m) && r < |m.rings| && Inv(p.ring, m.rings[r]) && m.rings[r].published < |m.rings[r].submitted|
    && TlsWrite.PointsAt(p, m.rings[r].submitted[m.rings[r].published], g)
    && |m.seen[r]| == m.rings[r].published < |m.wanted[r]|
    && g.len > 0 && Zeros(m.wanted[r][m.rings[r].published])
  }

  /** Once something else is in that region, executing the call shows it. */
  lemma {:induction false} SeesAnother(p: TlsWrite.Setup, m: Machine, r: nat, g: Region, n: nat) returns (moves: seq<Move>)
    requires ZerosPending(p, m, r, g) && CaughtUp(p.ring, m.rings[r], n) && !m.rings[r].producer.Marking?
    requires p.maxWrite <= p.cap == |m.mem.bytes| && Inside(m.mem.bytes, g) && m.mem.bytes[g.start] == 1
    ensures Runs(p, m, moves) && !AllSeen(After(p, m, moves))
  {
    var s := m.rings[r];
    FindPending(p.ring, s, n);
    var t := FindHead(p.ring, s);
    RingProtocol.RunKeepsInv(p.ring, s, [Poll, Snapshot]);
    Lift(p, m, r, [Poll, Snapshot]);
    var find, run := Lifted(r, [Poll, Snapshot]), Move(r, TlsWrite.Ring(Execute));
    var e := After(p, m, find);
    ShowsOne(p, e, r, g);
    Single(p, e, run);
    Join(p, m, find, [run]);
    moves := find + [run];
  }

  lemma {:induction false} ShowsOne(p: TlsWrite.Setup, m: Machine, r: nat, g: Region)
    requires ZerosPending(p, m, r, g) && m.rings[r].worker.Executing? && |m.rings[r].executed| == m.rings[r].published
    requires p.maxWrite <= p.cap == |m.mem.bytes| && Inside(m.mem.bytes, g) && m.mem.bytes[g.start] == 1
    ensures Can(p, m, Move(r, TlsWrite.Ring(Execute))) && !AllSeen(Do(p, m, Move(r, TlsWrite.Ring(Execute))))
  {
    var s, e := m.rings[r], Do(p, m, Move(r, TlsWrite.Ring(Execute)));
    ExecutesNext(p.ring, s);
    TlsWrite.FetchRegion(p, m.mem, s.submitted[s.published], g);
    assert Load(m.mem.bytes, g)[0] == 1;
    assert e.seen[r][s.published].value.bytes[0] == 1;
  }

  // ---------- two rings ----------

  /** Ring 0 has a zero pending at the very start of the pool; ring 1 is idle. */
  predicate Waiting(p: TlsWrite.Setup, m: Machine) {
    && ZerosPending(p, m, 0, Region(0, 1)) && |m.rings| > 1 && Routing.ThreadIsFree(m.rings) && |m.mem.bytes| == p.cap
    && CaughtUp(p.ring, m.rings[0], 1) && CaughtUp(p.ring, m.rings[1], 0)
  }

  /** One-byte writes on ring 1 take the pool to its end, and one more starts over. */
  lemma {:induction false} GoRound(p: TlsWrite.Setup, m: Machine, left: nat) returns (moves: seq<Move>)
    requires Waiting(p, m) && 1 <= p.maxWrite <= p.cap && Size(p.ring) > 1 && m.mem.offset + left == p.cap
    ensures Runs(p, m, moves)
    ensures var e := After(p, m, moves); Waiting(p, e) && e.mem.bytes[0] == 1
    decreases left
  {
    assert Routing.Lane(1, |m.rings|) == 1;
    moves := Cycle(p, m, 1, [1]);
    if left > 0 {
      var rest := GoRound(p, After(p, m, moves), left - 1);
      Join(p, m, moves, rest);
      moves := moves + rest;
    }
  }

  lemma {:induction false} FirstWrite(p: TlsWrite.Setup, m: Machine) returns (moves: seq<Move>)
    requires Initially(p, m) && |m.rings| > 1 && 1 <= p.maxWrite <= p.cap && Size(p.ring) > 1
    ensures Runs(p, m, moves) && Waiting(p, After(p, m, moves)) && After(p, m, moves).mem.offset == 1
  {
    InitiallyIdle(p, m);
    assert Routing.Lane(0, |m.rings|) == 0;
    moves := SubmitWrite(p, m, 0, [0], 0);
  }

  lemma {:induction false} InitiallyIdle(p: TlsWrite.Setup, m: Machine)
    requires Initially(p, m)
    ensures Routing.ThreadIsFree(m.rings) && m.mem.offset == 0 && |m.mem.bytes| == p.cap
    ensures forall r :: 0 <= r < |m.rings| ==>
              CaughtUp(p.ring, m.rings[r], 0) && m.rings[r].submitted == [] && m.wanted[r] == [] && m.seen[r] == []
  {
    assert TlsWrite.Initially(p, View(m, 0));
    forall r | 0 <= r < |m.rings|
      ensures m.rings[r].producer.Outside? && CaughtUp(p.ring, m.rings[r], 0)
      ensures m.rings[r].submitted == [] && m.wanted[r] == [] && m.seen[r] == []
    {
      assert TlsWrite.Initially(p, View(m, r));
      InitialInv(p.ring, m.rings[r]);
    }
  }

  /** With two rings or more, whatever the pool's size, a run on which an executed write sees
      bytes of a write that was issued later. */
  lemma {:induction false} TwoRingsMixBuffers(p: TlsWrite.Setup, m: Machine) returns (moves: seq<Move>)
    requires Initially(p, m) && |m.rings| > 1 && 1 <= p.maxWrite <= p.cap && Size(p.ring) > 1
    ensures Runs(p, m, moves) && !AllSeen(After(p, m, moves))
  {
    var submit := FirstWrite(p, m);
    var m1 := After(p, m, submit);
    var lap := GoRound(p, m1, p.cap - 1);
    var last := SeesAnother(p, After(p, m1, lap), 0, Region(0, 1), 1);
    Join(p, m1, lap, last);
    Join(p, m, submit, lap + last);
    moves := submit + (lap + last);
  }

  // ---------- one ring, and a pool too small ----------

  function Repeat(x: byte, n: nat): (r: seq<byte>)
    ensures |r| == n && forall k :: 0 <= k < n ==> r[k] == x
  {
    seq(n, _ => x)
  }

  /** The only ring has `k` writes of `maxWrite` zeros pending, the oldest at `first`. */
  predicate Queued(p: TlsWrite.Setup, m: Machine, first: nat, k: nat) {
    && Formed(m) && |m.rings| == 1 && Routing.ThreadIsFree(m.rings) && |m.mem.bytes| == p.cap
    && CaughtUp(p.ring, m.rings[0], k) && |m.wanted[0]| == |m.rings[0].submitted|
    && m.mem.offset == first + k * p.maxWrite
    && (if k > 0 then ZerosPending(p, m, 0, Region(first, p.maxWrite)) else |m.seen[0]| == m.rings[0].published)
  }

  /** A first write of `first` bytes, executed. */
  lemma {:induction false} StartAt(p: TlsWrite.Setup, m: Machine, first: nat) returns (moves: seq<Move>)
    requires Initially(p, m) && |m.rings| == 1 && first <= p.maxWrite <= p.cap && Size(p.ring) > 1
    ensures Runs(p, m, moves) && Queued(p, After(p, m, moves), first, 0)
  {
    InitiallyIdle(p, m);
    moves := Cycle(p, m, 0, Repeat(0, first));
  }

  lemma {:induction false} QueueOneMore(p: TlsWrite.Setup, m: Machine, first: nat, k: nat) returns (moves: seq<Move>)
    requires Queued(p, m, first, k) && 1 <= p.maxWrite && k + 1 < Size(p.ring)
    requires first + k * p.maxWrite + p.maxWrite <= p.cap
    ensures Runs(p, m, moves) && Queued(p, After(p, m, moves), first, k + 1)
  {
    OneMoreTimes(k, p.maxWrite);
    moves := SubmitWrite(p, m, 0, Repeat(0, p.maxWrite), k);
  }

  lemma {:induction false} OneMoreTimes(k: nat, m: nat)
    ensures (k + 1) * m == k * m + m
  {
  }

  lemma {:induction false} Queue(p: TlsWrite.Setup, m: Machine, first: nat, k: nat) returns (moves: seq<Move>)
    requires Queued(p, m, first, 0) && 1 <= p.maxWrite && k < Size(p.ring) && first + k * p.maxWrite <= p.cap
    ensures Runs(p, m, moves) && Queued(p, After(p, m, moves), first, k)
    decreases k
  {
    if k == 0 {
      moves := [];
    } else {
      OneMoreTimes(k - 1, p.maxWrite);
      var before := Queue(p, m, first, k - 1);
      var last := QueueOneMore(p, After(p, m, before), first, k - 1);
      Join(p, m, before, last);
      moves := before + last;
    }
  }

  /** With no room before the end, the copy of one more write lands on the oldest pending one. */
  lemma {:induction false} CopyOver(p: TlsWrite.Setup, m: Machine, first: nat, k: nat) returns (moves: seq<Move>)
    requires Queued(p, m, first, k) && k > 0 && first < p.maxWrite <= p.cap
    requires first + k * p.maxWrite <= p.cap < first + k * p.maxWrite + p.maxWrite
    requires first + p.maxWrite <= p.cap
    ensures Runs(p, m, moves) && !AllSeen(After(p, m, moves))
  {
    var copy := Move(0, TlsWrite.Write(0, Repeat(1, p.maxWrite)));
    BeginKeepsInv(p.ring, m.rings[0], TlsWrite.WriteCall(p, 0, Region(0, p.maxWrite)));
    var e := Do(p, m, copy);
    Single(p, m, copy);
    var last := SeesAnother(p, e, 0, Region(first, p.maxWrite), k);
    Join(p, m, [copy], last);
    moves := [copy] + last;
  }

  /** With one ring and a pool below the bound, a run on which an executed write sees bytes of a
      later one. */
  lemma {:induction false} SmallPoolMixesBuffers(p: TlsWrite.Setup, m: Machine) returns (moves: seq<Move>)
    requires Initially(p, m) && |m.rings| == 1 && 1 <= p.maxWrite <= p.cap && Size(p.ring) > 1
    requires !TlsWrite.PoolIsLargeEnough(p)
    ensures Runs(p, m, moves) && !AllSeen(After(p, m, moves))
  {
    var first, count := TightFit(p.cap, p.maxWrite, Size(p.ring));
    assert count * p.maxWrite >= p.maxWrite;
    var start := StartAt(p, m, first);
    var m1 := After(p, m, start);
    var fill := Queue(p, m1, first, count);
    var over := CopyOver(p, After(p, m1, fill), first, count);
    Join(p, m1, fill, over);
    Join(p, m, start, fill + over);
    moves := start + (fill + over);
  }

  /** The exact condition. Every run shows every executed write its caller's buffer if and only
      if the thread has one ring and (N + 1) * M <= pool size + 1. */
  lemma {:induction false} BuffersAreSafeIff(p: TlsWrite.Setup, m: Machine)
    requires Initially(p, m) && 1 <= p.maxWrite <= p.cap && Size(p.ring) > 1
    ensures (|m.rings| == 1 && TlsWrite.PoolIsLargeEnough(p)) <==>
            forall moves :: Runs(p, m, moves) ==> AllSeen(After(p, m, moves))
  {
    if |m.rings| > 1 {
      var moves := TwoRingsMixBuffers(p, m);
    } else if !TlsWrite.PoolIsLargeEnough(p) {
      var moves := SmallPoolMixesBuffers(p, m);
    } else {
      assert TlsWrite.Initially(p, View(m, 0));
      forall moves | Runs(p, m, moves) ensures AllSeen(After(p, m, moves)) {
        var actions := OneRing(p, m, moves);
        TlsWrite.WritesSeeTheirBuffers(p, View(m, 0), actions);
      }
    }
  }
}
