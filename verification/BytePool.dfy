/** The byte pool `mpool` that wrappers copy their callers' buffers into. */
module BytePool {
  import opened Basics
  import opened Regions

  /** `bytes` with `buf` copied over it from `start`. */
  function Store(bytes: seq<byte>, start: nat, buf: seq<byte>): (r: seq<byte>)
    requires start + |buf| <= |bytes|
    ensures |r| == |bytes|
  {
    bytes[..start] + buf + bytes[start + |buf|..]
  }

  predicate Inside(bytes: seq<byte>, r: Region) {
    End(r) <= |bytes|
  }

  function Load(bytes: seq<byte>, r: Region): seq<byte>
    requires Inside(bytes, r)
  {
    bytes[r.start..End(r)]
  }

  /** A copy is read back whole, and a region apart from it is not disturbed. */
  lemma {:induction false} LoadAfterStore(bytes: seq<byte>, r: Region, buf: seq<byte>, other: Region)
    requires Inside(bytes, r) && r.len == |buf| && Inside(bytes, other)
    ensures Load(Store(bytes, r.start, buf), r) == buf
    ensures Apart(other, r) ==> Load(Store(bytes, r.start, buf), other) == Load(bytes, other)
  {
    var after := Store(bytes, r.start, buf);
    assert forall k :: r.start <= k < End(r) ==> after[k] == buf[k - r.start];
    assert forall k :: 0 <= k < |bytes| && !(r.start <= k < End(r)) ==> after[k] == bytes[k];
  }

  lemma {:induction false} Stored(before: seq<byte>, after: seq<byte>, start: nat, buf: seq<byte>)
    requires |after| == |before| && start + |buf| <= |before|
    requires forall k :: start <= k < start + |buf| ==> after[k] == buf[k - start]
    requires forall k :: 0 <= k < |before| && !(start <= k < start + |buf|) ==> after[k] == before[k]
    ensures after == Store(before, start, buf)
  {
  }

  class Pool {
    const data: array<byte>
    var offset: nat

    constructor (size: nat)
      ensures fresh(data) && data.Length == size && offset == 0
    {
      data := new byte[size];
      offset := 0;
    }

    /** The allocation and `memcpy` of one buffer. A buffer larger than the whole pool is the
        caller's fault: the source would copy past its end. */
    method Copy(buf: seq<byte>) returns (start: nat)
      requires |buf| <= data.Length
      modifies this`offset, data
      ensures start == Start(data.Length, old(offset), |buf|) && offset == start + |buf| <= data.Length
      ensures data[..] == Store(old(data[..]), start, buf)
    {
      if offset + |buf| > data.Length {
        offset := 0;
      }
      start := offset;
      var n := 0;
      while n < |buf|
        invariant 0 <= n <= |buf| && offset == start
        invariant forall k :: start <= k < start + n ==> data[k] == buf[k - start]
        invariant forall k :: 0 <= k < data.Length && !(start <= k < start + n) ==> data[k] == old(data[k])
      {
        data[start + n] := buf[n];
        n := n + 1;
      }
      offset := offset + |buf|;
      Stored(old(data[..]), data[..], start, buf);
    }
  }
}
