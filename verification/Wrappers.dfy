/** The wrappers in place: what one call to `write`, `sendmsg` or `sendfile64` does to the pools
    and to the ring it submits to. Outside a batch the call goes straight to the kernel. Inside
    one, the caller's data is copied before the call that points at it enters the ring. */
module Wrappers {
  import opened Basics
  import opened Cursors
  import opened Calls
  import opened RingProtocol
  import opened Regions
  import opened BytePool
  import opened EscaRing
  import opened RingRuns
  import TlsWrite
  import SendmsgGather
  import SendmsgServer
  import SendfileOffsets

  /** `Spins`: the call is in its slot and the spin test was true when it was first evaluated. */
  datatype Outcome = PassedThrough | Submitted | Spins

  predicate Ready(c: Config, s: State) {
    Shape(c, s) && |s.slots| == Size(c) && s.producer.Outside? && InRange(c, s.tail)
  }

  /** From `before` to `after` the wrapper handed `call` to the ring, by steps of its machine,
      as far as the spin test let it. */
  predicate Handed(c: Config, before: State, after: State, call: Call, steps: seq<Step>, outcome: Outcome)
    requires Shape(c, before) && ValidCall(call)
  {
    && Runs(c, before, steps) && after == After(c, before, steps)
    && (outcome == Submitted <==> !Full(c, before.head, before.tail))
    && (outcome == Spins <==> Full(c, before.head, before.tail))
    && (outcome == Submitted ==> HandedOver(c, before, after, call))
    && (outcome == Spins ==> FilledIn(c, before, after, call))
  }

  method Hand(ring: Ring, call: Call) returns (outcome: Outcome, ghost steps: seq<Step>)
    requires Ready(ring.c, ring.St()) && ValidCall(call)
    modifies ring.slots, ring`tail, ring`producer, ring`submitted
    ensures Handed(ring.c, old(ring.St()), ring.St(), call, steps, outcome)
  {
    var advanced;
    advanced, steps := ring.Submit(call);
    outcome := if advanced then Submitted else Spins;
  }

  /** `write`: the submitted call is a write on the caller's descriptor of exactly the bytes copied
      into the pool. `direct` is what the kernel's own `write` returns outside a batch. */
  method Write(p: TlsWrite.Setup, ring: Ring, pool: Pool, inSegment: bool, direct: int, fd: int, buf: seq<byte>)
    returns (outcome: Outcome, res: int, ghost steps: seq<Step>)
    requires Ready(ring.c, ring.St()) && |buf| <= pool.data.Length == p.cap
    modifies pool`offset, pool.data, ring.slots, ring`tail, ring`producer, ring`submitted
    ensures outcome == PassedThrough <==> !inSegment
    ensures res == if inSegment then |buf| else direct
    ensures !inSegment ==>
              ring.St() == old(ring.St()) && pool.data[..] == old(pool.data[..]) && pool.offset == old(pool.offset)
    ensures inSegment ==>
              var r := Region(Start(p.cap, old(pool.offset), |buf|), |buf|);
              var call := TlsWrite.WriteCall(p, fd, r);
              && pool.data[..] == Store(old(pool.data[..]), r.start, buf) && pool.offset == End(r)
              && Load(pool.data[..], r) == buf
              && call.sysnum == p.sysnum && call.args == [fd, p.base + r.start, |buf|]
              && Handed(ring.c, old(ring.St()), ring.St(), call, steps, outcome)
  {
    if !inSegment {
      return PassedThrough, direct, [];
    }
    ghost var bytes := pool.data[..];
    var start := pool.Copy(buf);
    LoadAfterStore(bytes, Region(start, |buf|), buf, Region(start, |buf|));
    outcome, steps := Hand(ring, Call(p.sysnum, [fd, p.base + start, |buf|]));
    res := |buf|;
  }

  /** `sendmsg`: the submitted call has the caller's descriptor and flags and names the header of the
      copied message, and the count returned is the message's length. */
  method Sendmsg(p: SendmsgServer.Setup, ring: Ring, pools: SendmsgGather.Pools, inSegment: bool, direct: int,
                 fd: int, frags: seq<seq<byte>>, msgFlags: int, flags: int)
    returns (outcome: Outcome, res: int, ghost steps: seq<Step>)
    requires Ready(ring.c, ring.St()) && SendmsgGather.ValidMemory(pools.Mem())
    requires SendmsgGather.FragmentsFit(frags, pools.bytes.data.Length)
    modifies pools, pools.bytes`offset, pools.bytes.data, pools.iovs, pools.msgs
    modifies ring.slots, ring`tail, ring`producer, ring`submitted
    ensures outcome == PassedThrough <==> !inSegment
    ensures res == if inSegment then |SendmsgGather.Concat(frags)| else direct
    ensures !inSegment ==> ring.St() == old(ring.St()) && pools.Mem() == old(pools.Mem())
    ensures inSegment ==>
              var slot := SendmsgGather.Mask(old(pools.msgOffset));
              var call := SendmsgServer.SendCall(p, fd, slot, flags);
              && pools.Mem() == SendmsgGather.Gather(old(pools.Mem()), frags, msgFlags)
              && call.sysnum == p.sysnum && call.args == [fd, slot, flags]
              && Handed(ring.c, old(ring.St()), ring.St(), call, steps, outcome)
  {
    if !inSegment {
      return PassedThrough, direct, [];
    }
    var slot;
    res, slot := pools.CopyMessage(frags, msgFlags);
    SendmsgGather.TotalIsLength(frags);
    outcome, steps := Hand(ring, Call(p.sysnum, [fd, slot, flags]));
  }

  /** `sendfile64` of the lighttpd wrapper: the private copy at the tail's slot takes the caller's
      offset, no other copy changes, the caller's variable moves on by the count, and the submitted
      call has output and input descriptor in this order. */
  method Sendfile(p: SendfileOffsets.Setup, ring: Ring, offArr: array<int>, inSegment: bool, direct: int,
                  outFd: int, inFd: int, offset: int, count: nat)
    returns (outcome: Outcome, res: int, offset': int, ghost steps: seq<Step>)
    requires Ready(ring.c, ring.St()) && Size(ring.c) <= offArr.Length
    modifies offArr, ring.slots, ring`tail, ring`producer, ring`submitted
    ensures outcome == PassedThrough <==> !inSegment
    ensures res == if inSegment then count else direct
    ensures !inSegment ==> ring.St() == old(ring.St()) && offArr[..] == old(offArr[..])
    ensures inSegment ==>
              var at := old(Index(ring.c, ring.tail));
              var call := SendfileOffsets.SendfileCall(p, outFd, inFd, at, count);
              && offset' == offset + count && offArr[..] == old(offArr[..])[at := offset]
              && call.sysnum == p.sendfile && call.args == [outFd, inFd, at, count]
              && Handed(ring.c, old(ring.St()), ring.St(), call, steps, outcome)
  {
    if !inSegment {
      return PassedThrough, direct, offset, [];
    }
    var at := Index(ring.c, ring.tail);
    offArr[at] := offset;
    offset' := offset + count;
    outcome, steps := Hand(ring, Call(p.sendfile, [outFd, inFd, at, count]));
    res := count;
  }
}
