/** How many elements of a sequence satisfy a predicate, and how that changes with the sequence. */
module Counting {

  function Bit(b: bool): nat {
    if b then 1 else 0
  }

  function Count<T>(xs: seq<T>, p: T -> bool): nat {
    if |xs| == 0 then 0 else Count(xs[..|xs| - 1], p) + Bit(p(xs[|xs| - 1]))
  }

  function Drop<T>(xs: seq<T>, k: nat): (r: seq<T>)
    requires k < |xs|
    ensures |r| == |xs| - 1
  {
    xs[..k] + xs[k + 1..]
  }

  lemma {:induction false} CountOne<T>(xs: seq<T>, x: T, p: T -> bool)
    ensures Count(xs + [x], p) == Count(xs, p) + Bit(p(x))
  {
    assert (xs + [x])[..|xs|] == xs;
  }

  lemma {:induction false} CountTwo<T>(xs: seq<T>, x: T, y: T, p: T -> bool)
    ensures Count(xs + [x, y], p) == Count(xs, p) + Bit(p(x)) + Bit(p(y))
  {
    CountOne(xs, x, p);
    CountOne(xs + [x], y, p);
    assert xs + [x, y] == (xs + [x]) + [y];
  }

  lemma {:induction false} CountDrop<T>(xs: seq<T>, k: nat, p: T -> bool)
    requires k < |xs|
    ensures Count(xs, p) == Count(Drop(xs, k), p) + Bit(p(xs[k]))
    decreases |xs|
  {
    var n := |xs| - 1;
    if k < n {
      CountDrop(xs[..n], k, p);
      CountOne(Drop(xs[..n], k), xs[n], p);
      assert Drop(xs, k) == Drop(xs[..n], k) + [xs[n]];
    } else {
      assert Drop(xs, k) == xs[..n];
    }
  }

  lemma {:induction false} CountHead<T>(xs: seq<T>, p: T -> bool)
    requires |xs| > 0
    ensures Count(xs, p) == Bit(p(xs[0])) + Count(xs[1..], p)
  {
    CountDrop(xs, 0, p);
    assert Drop(xs, 0) == xs[1..];
  }

  lemma {:induction false} CountUpdate<T>(xs: seq<T>, k: nat, x: T, p: T -> bool)
    requires k < |xs|
    ensures Count(xs[k := x], p) + Bit(p(xs[k])) == Count(xs, p) + Bit(p(x))
  {
    CountDrop(xs, k, p);
    CountDrop(xs[k := x], k, p);
    assert Drop(xs[k := x], k) == Drop(xs, k);
  }

  lemma {:induction false} CountHas<T>(xs: seq<T>, k: nat, p: T -> bool)
    requires k < |xs| && p(xs[k])
    ensures Count(xs, p) >= 1
  {
    CountDrop(xs, k, p);
  }
}
