/** `sendmsg`: a gather copy of a message into three pools (bytes, iovecs, message headers). */
module SendmsgGather {
  import opened Basics
  import opened Regions
  import opened BytePool

  const POOL_SLOTS: nat := 1024

  /** A copied header: where its iovecs start, how many there are, and the message flags. */
  datatype Header = Header(iov: nat, iovlen: nat, flags: int)

  /** The three pools. An iovec is a region of the byte pool. */
  datatype Memory = Memory(
    bytes: seq<byte>, offset: nat,
    iovs: seq<Region>, iovOffset: nat,
    msgs: seq<Header>, msgOffset: nat)

  predicate ValidMemory(m: Memory) {
    && |m.iovs| == |m.msgs| == POOL_SLOTS
    && m.iovOffset <= POOL_SLOTS && m.msgOffset <= POOL_SLOTS
    && m.offset <= |m.bytes|
  }

  function Mask(n: nat): (r: nat)
    ensures r < POOL_SLOTS
  {
    n % POOL_SLOTS
  }

  function Concat(frags: seq<seq<byte>>): seq<byte> {
    if |frags| == 0 then [] else Concat(frags[..|frags| - 1]) + frags[|frags| - 1]
  }

  function Total(frags: seq<seq<byte>>): nat {
    if |frags| == 0 then 0 else Total(frags[..|frags| - 1]) + |frags[|frags| - 1]|
  }

  predicate FragmentsFit(frags: seq<seq<byte>>, bound: nat) {
    forall k :: 0 <= k < |frags| ==> |frags[k]| <= bound
  }

  function FragmentRegion(m: Memory, frag: seq<byte>): Region {
    Region(Start(|m.bytes|, m.offset, |frag|), |frag|)
  }

  /** One turn of the copy loop. */
  function PutFragment(m: Memory, frag: seq<byte>): (r: Memory)
    requires ValidMemory(m) && |frag| <= |m.bytes|
    ensures ValidMemory(r) && |r.bytes| == |m.bytes|
  {
    var at, region := Mask(m.iovOffset), FragmentRegion(m, frag);
    m.(bytes := Store(m.bytes, region.start, frag), offset := End(region),
       iovs := m.iovs[at := region], iovOffset := at + 1)
  }

  function PutFragments(m: Memory, frags: seq<seq<byte>>): (r: Memory)
    requires ValidMemory(m) && FragmentsFit(frags, |m.bytes|)
    ensures ValidMemory(r) && |r.bytes| == |m.bytes|
  {
    if |frags| == 0 then m else
      PutFragment(PutFragments(m, frags[..|frags| - 1]), frags[|frags| - 1])
  }

  function Masked(m: Memory): Memory {
    m.(msgOffset := Mask(m.msgOffset), iovOffset := Mask(m.iovOffset))
  }

  /** The whole copy: fragments, then the header that points at the first iovec. */
  function Gather(m: Memory, frags: seq<seq<byte>>, flags: int): (r: Memory)
    requires ValidMemory(m) && FragmentsFit(frags, |m.bytes|)
    ensures ValidMemory(r) && |r.bytes| == |m.bytes|
  {
    var m1 := Masked(m);
    var m2 := PutFragments(m1, frags);
    m2.(msgs := m2.msgs[m1.msgOffset := Header(m1.iovOffset, |frags|, flags)], msgOffset := m1.msgOffset + 1)
  }

  /** What the kernel reads through a run of iovecs. */
  function Through(m: Memory, first: nat, count: nat): Option<seq<byte>> {
    if count == 0 then Some([]) else
      var before := Through(m, first, count - 1);
      if before.Some? && first + count <= |m.iovs| && Inside(m.bytes, m.iovs[first + count - 1])
      then Some(before.value + Load(m.bytes, m.iovs[first + count - 1]))
      else None
  }

  /** Following a header to its iovecs and those into the byte pool; `None` when that leads out
      of a pool. */
  function Follow(m: Memory, slot: int): Option<seq<byte>> {
    if 0 <= slot < |m.msgs| then Through(m, m.msgs[slot].iov, m.msgs[slot].iovlen) else None
  }

  // ---------- the copy, in place ----------

  class Pools {
    const bytes: Pool
    const iovs: array<Region>
    const msgs: array<Header>
    var iovOffset: nat
    var msgOffset: nat

    ghost function Mem(): Memory
      reads this, bytes, bytes.data, iovs, msgs
    {
      Memory(bytes.data[..], bytes.offset, iovs[..], iovOffset, msgs[..], msgOffset)
    }

    constructor (size: nat)
      ensures fresh(bytes) && fresh(bytes.data) && fresh(iovs) && fresh(msgs)
      ensures ValidMemory(Mem()) && bytes.data.Length == size
      ensures bytes.offset == 0 && iovOffset == 0 && msgOffset == 0
    {
      bytes := new Pool(size);
      iovs := new Region[POOL_SLOTS](_ => Region(0, 0));
      msgs := new Header[POOL_SLOTS](_ => Header(0, 0, 0));
      iovOffset, msgOffset := 0, 0;
    }

    /** The body of the wrapper up to the ring: afterwards the pools are as `Gather` says, the
        returned count is the number of bytes in the message, and `slot` is the header used. */
    method CopyMessage(frags: seq<seq<byte>>, flags: int) returns (res: nat, slot: nat)
      requires ValidMemory(Mem()) && FragmentsFit(frags, bytes.data.Length)
      modifies this, bytes`offset, bytes.data, iovs, msgs
      ensures Mem() == Gather(old(Mem()), frags, flags)
      ensures res == Total(frags) && slot == Mask(old(msgOffset))
    {
      msgOffset := Mask(msgOffset);
      iovOffset := Mask(iovOffset);
      ghost var m1 := Mem();
      res := 0;
      var start := iovOffset;
      var k := 0;
      while k < |frags|
        invariant 0 <= k <= |frags|
        invariant Mem() == PutFragments(m1, frags[..k])
        invariant res == Total(frags[..k])
        invariant start == m1.iovOffset && msgOffset == m1.msgOffset
      {
        PutOneMore(m1, frags, k);
        PutNext(frags[k]);
        res := res + |frags[k]|;
        k := k + 1;
      }
      assert frags[..k] == frags;
      slot := msgOffset;
      msgs[slot] := Header(start, |frags|, flags);
      msgOffset := msgOffset + 1;
    }

    method PutNext(frag: seq<byte>)
      requires ValidMemory(Mem()) && |frag| <= bytes.data.Length
      modifies this`iovOffset, bytes`offset, bytes.data, iovs
      ensures Mem() == PutFragment(old(Mem()), frag)
    {
      var at := bytes.Copy(frag);
      iovOffset := Mask(iovOffset);
      iovs[iovOffset] := Region(at, |frag|);
      iovOffset := iovOffset + 1;
    }
  }

  lemma {:induction false} PutOneMore(m: Memory, frags: seq<seq<byte>>, k: nat)
    requires ValidMemory(m) && FragmentsFit(frags, |m.bytes|) && k < |frags|
    ensures PutFragments(m, frags[..k + 1]) == PutFragment(PutFragments(m, frags[..k]), frags[k])
    ensures Total(frags[..k + 1]) == Total(frags[..k]) + |frags[k]|
  {
    assert frags[..k + 1][..k] == frags[..k];
  }

  // ---------- what the copy keeps and what it stores ----------

  /** The pending regions `rs` are laid out up to the pool's offset. */
  predicate Room(m: Memory, slack: nat, rs: seq<Region>) {
    Laid(|m.bytes|, slack, rs) && (|rs| > 0 ==> m.offset == End(rs[|rs| - 1]))
  }

  /** The regions hold the given fragments, one each. */
  predicate Holding(bytes: seq<byte>, rs: seq<Region>, frags: seq<seq<byte>>) {
    && |rs| == |frags|
    && forall q :: 0 <= q < |rs| ==> Inside(bytes, rs[q]) && Load(bytes, rs[q]) == frags[q]
  }

  lemma {:induction false} SumOfAppend(rs: seq<Region>, r: Region)
    ensures Sum(rs + [r]) == Sum(rs) + r.len
  {
    assert (rs + [r])[..|rs|] == rs;
  }

  /** Copying one more fragment leaves the earlier ones alone. */
  lemma {:induction false} PutOne(m: Memory, slack: nat, rs: seq<Region>, held: seq<seq<byte>>, frag: seq<byte>)
    requires ValidMemory(m) && Room(m, slack, rs) && Holding(m.bytes, rs, held)
    requires |frag| <= slack <= |m.bytes| && Sum(rs) + |frag| + slack <= |m.bytes| + 1
    ensures var r, after := FragmentRegion(m, frag), PutFragment(m, frag);
      Room(after, slack, rs + [r]) && Holding(after.bytes, rs + [r], held + [frag])
    ensures Sum(rs + [FragmentRegion(m, frag)]) == Sum(rs) + |frag|
  {
    var r := FragmentRegion(m, frag);
    Extend(|m.bytes|, slack, rs, r);
    SumOfAppend(rs, r);
    NewestApart(|m.bytes|, slack, rs, r);
    LoadAfterStore(m.bytes, r, frag, r);
    forall q | 0 <= q < |rs| ensures Load(Store(m.bytes, r.start, frag), rs[q]) == held[q] {
      LoadAfterStore(m.bytes, r, frag, rs[q]);
    }
  }

  function NewRegions(m: Memory, frags: seq<seq<byte>>): (rs: seq<Region>)
    requires ValidMemory(m) && FragmentsFit(frags, |m.bytes|)
    ensures |rs| == |frags|
  {
    if |frags| == 0 then [] else
      var before := frags[..|frags| - 1];
      NewRegions(m, before) + [FragmentRegion(PutFragments(m, before), frags[|frags| - 1])]
  }

  /** The loop's state after one more turn. */
  lemma {:induction false} OneMoreTurn(m: Memory, before: seq<seq<byte>>, last: seq<byte>)
    requires ValidMemory(m) && FragmentsFit(before, |m.bytes|) && |last| <= |m.bytes|
    ensures FragmentsFit(before + [last], |m.bytes|)
    ensures PutFragments(m, before + [last]) == PutFragment(PutFragments(m, before), last)
    ensures NewRegions(m, before + [last]) == NewRegions(m, before) + [FragmentRegion(PutFragments(m, before), last)]
    ensures Total(before + [last]) == Total(before) + |last|
  {
    assert (before + [last])[..|before|] == before;
  }

  /** The pending fragments and the copied ones are all in the pool, laid out up to its offset. */
  predicate Copied(m: Memory, slack: nat, rs: seq<Region>, held: seq<seq<byte>>, frags: seq<seq<byte>>)
    requires ValidMemory(m) && FragmentsFit(frags, |m.bytes|)
  {
    var all, after := rs + NewRegions(m, frags), PutFragments(m, frags);
    Room(after, slack, all) && Holding(after.bytes, all, held + frags) && Sum(all) == Sum(rs) + Total(frags)
  }

  lemma {:induction false} CopyOneMore(
    m: Memory, slack: nat, rs: seq<Region>, held: seq<seq<byte>>, before: seq<seq<byte>>, last: seq<byte>)
    requires ValidMemory(m) && FragmentsFit(before, |m.bytes|) && Copied(m, slack, rs, held, before)
    requires |last| <= slack <= |m.bytes| && Sum(rs) + Total(before) + |last| + slack <= |m.bytes| + 1
    ensures FragmentsFit(before + [last], |m.bytes|) && Copied(m, slack, rs, held, before + [last])
  {
    var mid, mids := PutFragments(m, before), NewRegions(m, before);
    PutOne(mid, slack, rs + mids, held + before, last);
    OneMoreTurn(m, before, last);
    Regroup(rs, mids, FragmentRegion(mid, last));
    Regroup(held, before, last);
  }

  /** All fragments end up in the pool beside the pending ones, which are untouched. */
  lemma {:induction false} PutAll(
    m: Memory, slack: nat, rs: seq<Region>, held: seq<seq<byte>>, frags: seq<seq<byte>>)
    requires ValidMemory(m) && Room(m, slack, rs) && Holding(m.bytes, rs, held)
    requires slack <= |m.bytes| && FragmentsFit(frags, slack)
    requires Sum(rs) + Total(frags) + slack <= |m.bytes| + 1
    ensures Copied(m, slack, rs, held, frags)
    decreases |frags|
  {
    if |frags| == 0 {
      assert rs + [] == rs && held + frags == held;
    } else {
      var n := |frags| - 1;
      PutAll(m, slack, rs, held, frags[..n]);
      CopyOneMore(m, slack, rs, held, frags[..n], frags[n]);
      assert frags == frags[..n] + [frags[n]];
    }
  }

  lemma {:induction false} Replace<T>(s: seq<T>, o: nat, b: seq<T>, x: T)
    requires o + |b| < |s|
    ensures (s[..o] + b + s[o + |b|..])[o + |b| := x] == s[..o] + (b + [x]) + s[o + |b| + 1..]
  {
  }

  lemma {:induction false} Regroup<T>(a: seq<T>, b: seq<T>, x: T)
    ensures a + (b + [x]) == (a + b) + [x]
  {
  }

  /** The run of iovecs describes the fragments in order; every other iovec and the headers are
      untouched. */
  predicate Described(m: Memory, frags: seq<seq<byte>>)
    requires ValidMemory(m) && FragmentsFit(frags, |m.bytes|) && m.iovOffset + |frags| <= POOL_SLOTS
  {
    var o, after := m.iovOffset, PutFragments(m, frags);
    && after.iovs == m.iovs[..o] + NewRegions(m, frags) + m.iovs[o + |frags|..]
    && after.iovOffset == o + |frags| && after.msgs == m.msgs && after.msgOffset == m.msgOffset
  }

  lemma {:induction false} DescribeOneMore(m: Memory, before: seq<seq<byte>>, last: seq<byte>)
    requires ValidMemory(m) && FragmentsFit(before, |m.bytes|) && |last| <= |m.bytes|
    requires m.iovOffset + |before| < POOL_SLOTS && Described(m, before)
    ensures FragmentsFit(before + [last], |m.bytes|) && Described(m, before + [last])
  {
    OneMoreTurn(m, before, last);
    var mid := PutFragments(m, before);
    PutInOrder(mid, last);
    Replace(m.iovs, m.iovOffset, NewRegions(m, before), FragmentRegion(mid, last));
  }

  lemma {:induction false} PutInOrder(m: Memory, frag: seq<byte>)
    requires ValidMemory(m) && |frag| <= |m.bytes| && m.iovOffset < POOL_SLOTS
    ensures var after := PutFragment(m, frag);
      && after.iovs == m.iovs[m.iovOffset := FragmentRegion(m, frag)] && after.iovOffset == m.iovOffset + 1
      && after.msgs == m.msgs && after.msgOffset == m.msgOffset
  {
  }

  /** A run of iovecs that does not reach past the last slot is put down contiguously. */
  lemma {:induction false} PutIovecs(m: Memory, frags: seq<seq<byte>>)
    requires ValidMemory(m) && FragmentsFit(frags, |m.bytes|)
    requires m.iovOffset + |frags| <= POOL_SLOTS
    ensures Described(m, frags)
    decreases |frags|
  {
    if |frags| > 0 {
      var n := |frags| - 1;
      PutIovecs(m, frags[..n]);
      DescribeOneMore(m, frags[..n], frags[n]);
      assert frags == frags[..n] + [frags[n]];
    }
  }

  /** A header, its run of iovecs and the bytes behind them are all in place. */
  predicate Intact(m: Memory, slot: nat, run: Region, regions: seq<Region>, frags: seq<seq<byte>>) {
    && End(run) <= |m.iovs| && m.iovs[run.start..End(run)] == regions
    && slot < |m.msgs| && m.msgs[slot].iov == run.start && m.msgs[slot].iovlen == run.len
    && Holding(m.bytes, regions, frags)
  }

  /** The copied message is in place, beside everything pending. */
  lemma {:induction false} GatherIsIntact(
    m: Memory, slack: nat, rs: seq<Region>, held: seq<seq<byte>>, frags: seq<seq<byte>>, flags: int)
    requires ValidMemory(m) && Room(m, slack, rs) && Holding(m.bytes, rs, held)
    requires slack <= |m.bytes| && FragmentsFit(frags, slack)
    requires Sum(rs) + Total(frags) + slack <= |m.bytes| + 1
    requires Mask(m.iovOffset) + |frags| <= POOL_SLOTS
    ensures var added, after := NewRegions(Masked(m), frags), Gather(m, frags, flags);
      && Intact(after, Mask(m.msgOffset), Region(Mask(m.iovOffset), |frags|), added, frags)
      && Room(after, slack, rs + added) && Holding(after.bytes, rs + added, held + frags)
  {
    var m1, added, after := Masked(m), NewRegions(Masked(m), frags), Gather(m, frags, flags);
    PutAll(m1, slack, rs, held, frags);
    PutIovecs(m1, frags);
    HoldingSuffix(after.bytes, rs, held, added, frags);
    assert after.iovs == PutFragments(m1, frags).iovs;
    Middle(m1.iovs[..m1.iovOffset], added, m1.iovs[m1.iovOffset + |frags|..]);
  }

  lemma {:induction false} Middle<T>(a: seq<T>, b: seq<T>, d: seq<T>)
    ensures (a + b + d)[|a|..|a| + |b|] == b
  {
  }

  lemma {:induction false} HoldingSuffix(
    bytes: seq<byte>, rs: seq<Region>, held: seq<seq<byte>>, added: seq<Region>, frags: seq<seq<byte>>)
    requires |rs| == |held| && Holding(bytes, rs + added, held + frags)
    ensures Holding(bytes, rs, held) && Holding(bytes, added, frags)
  {
    forall q | 0 <= q < |rs| ensures Inside(bytes, rs[q]) && Load(bytes, rs[q]) == held[q] {
      assert (rs + added)[q] == rs[q] && (held + frags)[q] == held[q];
    }
    forall q | 0 <= q < |added| ensures Inside(bytes, added[q]) && Load(bytes, added[q]) == frags[q] {
      assert (rs + added)[|rs| + q] == added[q] && (held + frags)[|rs| + q] == frags[q];
    }
  }

  lemma {:induction false} ThroughReadsFragments(m: Memory, first: nat, regions: seq<Region>, frags: seq<seq<byte>>)
    requires first + |regions| <= |m.iovs| && m.iovs[first..first + |regions|] == regions
    requires Holding(m.bytes, regions, frags)
    ensures Through(m, first, |frags|) == Some(Concat(frags))
    decreases |frags|
  {
    if |frags| > 0 {
      var n := |frags| - 1;
      assert m.iovs[first..first + n] == regions[..n];
      assert m.iovs[first + n] == regions[n];
      ThroughReadsFragments(m, first, regions[..n], frags[..n]);
    }
  }

  /** Following an intact header yields the concatenation of the caller's fragments. */
  lemma {:induction false} IntactReadsMessage(
    m: Memory, slot: nat, run: Region, regions: seq<Region>, frags: seq<seq<byte>>)
    requires Intact(m, slot, run, regions, frags)
    ensures Follow(m, slot) == Some(Concat(frags))
  {
    ThroughReadsFragments(m, run.start, regions, frags);
  }

  /** The gather copy is correct exactly for the messages whose run of iovecs stays inside the
      iovec pool, given that the message's bytes and its largest fragment fit the byte pool. */
  lemma {:induction false} GatherIsExact(m: Memory, frags: seq<seq<byte>>, flags: int, largest: nat)
    requires ValidMemory(m) && largest <= |m.bytes| && FragmentsFit(frags, largest)
    requires Total(frags) + largest <= |m.bytes| + 1
    ensures Follow(Gather(m, frags, flags), Mask(m.msgOffset)) == Some(Concat(frags))
            <==> Mask(m.iovOffset) + |frags| <= POOL_SLOTS
  {
    var start := Mask(m.iovOffset);
    if start + |frags| <= POOL_SLOTS {
      GatherIsIntact(m, largest, [], [], frags, flags);
      IntactReadsMessage(Gather(m, frags, flags), Mask(m.msgOffset), Region(start, |frags|),
        NewRegions(Masked(m), frags), frags);
    }
  }

  lemma {:induction false} TotalIsLength(frags: seq<seq<byte>>)
    ensures Total(frags) == |Concat(frags)|
  {
    if |frags| > 0 {
      TotalIsLength(frags[..|frags| - 1]);
    }
  }
}
