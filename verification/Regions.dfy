/** The wrapping allocator behind the byte pool: a request that does not fit before the end of
    the pool starts again at 0. How far back a region stays untouched, and the size below which
    a pool has no room for a window of requests. */
module Regions {

  datatype Region = Region(start: nat, len: nat)

  function End(r: Region): nat {
    r.start + r.len
  }

  /** Where the next request of `len` bytes goes. */
  function Start(cap: nat, offset: nat, len: nat): nat {
    if offset + len > cap then 0 else offset
  }

  function Sum(rs: seq<Region>): nat {
    if |rs| == 0 then 0 else Sum(rs[..|rs| - 1]) + rs[|rs| - 1].len
  }

  predicate Apart(a: Region, b: Region) {
    End(a) <= b.start || End(b) <= a.start
  }

  /** `next` follows `prev` directly, or starts over less than `slack` before the end. */
  predicate Follows(cap: nat, slack: nat, prev: Region, next: Region) {
    next.start == End(prev) || (next.start == 0 && End(prev) + slack > cap)
  }

  predicate Small(m: nat, rs: seq<Region>) {
    forall k :: 0 <= k < |rs| ==> rs[k].len <= m
  }

  predicate Laid(cap: nat, slack: nat, rs: seq<Region>) {
    && (forall k :: 0 <= k < |rs| ==> End(rs[k]) <= cap)
    && (forall k :: 0 < k < |rs| ==> Follows(cap, slack, rs[k - 1], rs[k]))
  }

  lemma {:induction false} Extend(cap: nat, slack: nat, rs: seq<Region>, r: Region)
    requires Laid(cap, slack, rs) && End(r) <= cap
    requires |rs| > 0 ==> Follows(cap, slack, rs[|rs| - 1], r)
    ensures Laid(cap, slack, rs + [r])
  {
  }

  /** Over a window whose bytes and one slack fit the pool, the last region either lies beyond
      the first with no wrap between them, or the pool wrapped once and stopped short of it. */
  lemma {:induction false} Drift(cap: nat, slack: nat, rs: seq<Region>, i: nat, j: nat)
    requires Laid(cap, slack, rs) && i <= j < |rs|
    requires Sum(rs[i..j + 1]) + slack <= cap + 1
    ensures || (End(rs[j]) == rs[i].start + Sum(rs[i..j + 1]) && (i < j ==> End(rs[i]) <= rs[j].start))
            || (i < j && End(rs[j]) + (cap + 1 - slack - Sum(rs[i..j + 1])) <= rs[i].start)
    decreases j
  {
    SumOfWindow(rs, i, j);
    if i < j {
      Drift(cap, slack, rs, i, j - 1);
      assert Follows(cap, slack, rs[j - 1], rs[j]);
    }
  }

  lemma {:induction false} SumOfWindow(rs: seq<Region>, i: nat, j: nat)
    requires i <= j < |rs|
    ensures Sum(rs[i..j + 1]) == Sum(rs[i..j]) + rs[j].len && (i == j ==> Sum(rs[i..j]) == 0)
  {
    assert rs[i..j + 1][..j - i] == rs[i..j];
  }

  /** Two regions of such a window share no byte. */
  lemma {:induction false} WindowApart(cap: nat, slack: nat, rs: seq<Region>, i: nat, j: nat)
    requires Laid(cap, slack, rs) && i < j < |rs|
    requires Sum(rs[i..j + 1]) + slack <= cap + 1
    ensures Apart(rs[i], rs[j])
  {
    Drift(cap, slack, rs, i, j);
  }

  lemma {:induction false} SumAtMost(rs: seq<Region>, m: nat)
    requires Small(m, rs)
    ensures Sum(rs) <= |rs| * m
  {
    if |rs| > 0 {
      SumAtMost(rs[..|rs| - 1], m);
      assert |rs| * m == (|rs| - 1) * m + m;
    }
  }

  /** With `n` requests of at most `m` bytes in the window: (n+1)*m <= cap+1 is enough. */
  lemma {:induction false} BoundedWindowApart(cap: nat, m: nat, rs: seq<Region>, i: nat, j: nat, n: nat)
    requires Laid(cap, m, rs) && Small(m, rs) && i < j < |rs| && j - i < n
    requires (n + 1) * m <= cap + 1
    ensures Apart(rs[i], rs[j])
  {
    assert Sum(rs[i..j + 1]) + m <= cap + 1 by {
      SumAtMost(rs[i..j + 1], m);
      OneMore(j + 1 - i, n, m);
    }
    WindowApart(cap, m, rs, i, j);
  }

  lemma {:induction false} OneMore(a: nat, n: nat, m: nat)
    requires a <= n
    ensures a * m + m <= (n + 1) * m
  {
    assert (n - a) * m >= 0;
    assert (n + 1) * m == a * m + (n - a) * m + m;
  }

  lemma {:induction false} SumOfSuffix(rs: seq<Region>, i: nat)
    requires i <= |rs|
    ensures Sum(rs[i..]) <= Sum(rs)
    decreases |rs|
  {
    if i < |rs| {
      SumOfSuffix(rs[..|rs| - 1], i);
      assert rs[i..][..|rs| - 1 - i] == rs[..|rs| - 1][i..];
    }
  }

  /** When all regions, the new one and one slack fit the pool, the new one is apart from all. */
  lemma {:induction false} NewestApart(cap: nat, slack: nat, rs: seq<Region>, r: Region)
    requires Laid(cap, slack, rs + [r]) && Sum(rs) + r.len + slack <= cap + 1
    ensures forall other :: other in rs ==> Apart(other, r)
  {
    var all := rs + [r];
    assert all[..|rs|] == rs;
    forall other | other in rs ensures Apart(other, r) {
      var i :| 0 <= i < |rs| && rs[i] == other;
      SumOfSuffix(all, i);
      assert all[i..] == all[i..|rs| + 1];
      WindowApart(cap, slack, all, i, |rs|);
    }
  }

  /** Below the bound, fewer than n requests of m bytes, after one of `first` bytes, leave no
      room for one more before the end. */
  lemma {:induction false} TightFit(cap: nat, m: nat, n: nat) returns (first: nat, count: nat)
    requires n >= 2 && 1 <= m <= cap && (n + 1) * m > cap + 1
    ensures first < m && 1 <= count < n && first + count * m <= cap < first + count * m + m
  {
    if cap + 1 < 2 * m {
      first, count := 0, 1;
    } else {
      var top := cap + 1 - m;
      first, count := top % m, top / m;
      CountBelow(top, m, n);
      assert count * m + first == top;
    }
  }

  lemma {:induction false} CountBelow(top: nat, m: nat, n: nat)
    requires 1 <= m <= top < n * m
    ensures 1 <= top / m < n
  {
    var count := top / m;
    assert top == count * m + top % m;
    assert (n - count) * m == n * m - count * m > 0;
  }
}
