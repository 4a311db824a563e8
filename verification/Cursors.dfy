/** The two-level (table, entry) cursors of a shared ring, and the arithmetic the
    producer and the worker do on them. A cursor is related to an absolute count of
    entries by `At`: it is where stepping that often from the start leads. */
module Cursors {

  /** Which test `update_index` spins on: the one in the source, or the one it stands for. */
  datatype Guard = AsWritten | NextIsHead

  datatype Config = Config(entries: nat, tables: nat, guard: Guard)

  datatype Cursor = Cursor(table: nat, entry: nat)

  predicate ValidConfig(c: Config) {
    c.entries >= 1 && c.tables >= 1
  }

  /** `a` times `b` by repeated addition, which keeps nonlinear arithmetic out of the proofs. */
  function Times(a: nat, b: nat): nat {
    if a == 0 then 0 else Times(a - 1, b) + b
  }

  function Size(c: Config): nat {
    Times(c.tables, c.entries)
  }

  predicate InRange(c: Config, p: Cursor) {
    p.table < c.tables && p.entry < c.entries
  }

  function Index(c: Config, p: Cursor): nat {
    Times(p.table, c.entries) + p.entry
  }

  function Next(c: Config, p: Cursor): Cursor
    requires ValidConfig(c)
  {
    if p.entry == c.entries - 1 then
      Cursor(if p.table == c.tables - 1 then 0 else p.table + 1, 0)
    else
      Cursor(p.table, p.entry + 1)
  }

  /** The condition of the spin loop in `update_index`. */
  predicate Full(c: Config, head: Cursor, tail: Cursor)
    requires ValidConfig(c)
  {
    match c.guard
    case AsWritten => tail.entry + 1 == head.entry && tail.table == head.table
    case NextIsHead => Next(c, tail) == head
  }

  /** The number of entries the worker takes as submitted: the source's two-case formula. */
  function SnapshotCount(c: Config, head: Cursor, tail: Cursor): int {
    var headIndex := Index(c, head);
    var tailIndex := Index(c, tail);
    if tailIndex >= headIndex then tailIndex - headIndex else Size(c) - headIndex + tailIndex
  }

  /** `n` reduced modulo `size`, by repeated subtraction. */
  function Wrap(n: nat, size: nat): (r: nat)
    requires size > 0
    ensures r < size
    ensures n < size ==> r == n
  {
    if n < size then n else Wrap(n - size, size)
  }

  /** Where the `n`-th entry lives: the cursor stepped `n` times from the start. */
  function CursorAt(c: Config, n: nat): (p: Cursor)
    requires ValidConfig(c)
    ensures InRange(c, p)
    decreases n
  {
    if n == 0 then Cursor(0, 0) else Next(c, CursorAt(c, n - 1))
  }

  predicate At(c: Config, p: Cursor, n: nat)
    requires ValidConfig(c)
  {
    p == CursorAt(c, n)
  }

  /** The slot of the `n`-th entry. */
  function Place(c: Config, n: nat): (r: nat)
    requires ValidConfig(c)
    ensures r < Size(c)
  {
    IndexBound(c, CursorAt(c, n));
    Index(c, CursorAt(c, n))
  }

  function Walk(c: Config, p: Cursor, steps: nat): Cursor
    requires ValidConfig(c)
    decreases steps
  {
    if steps == 0 then p else Walk(c, Next(c, p), steps - 1)
  }

  // ---------- arithmetic ----------

  lemma {:induction false} SizePositive(c: Config)
    requires ValidConfig(c)
    ensures Size(c) > 0
  {
  }

  lemma {:induction false} WrapStep(n: nat, size: nat)
    requires size > 0
    ensures Wrap(n + 1, size) == if Wrap(n, size) + 1 == size then 0 else Wrap(n, size) + 1
  {
    if n + 1 > size {
      WrapStep(n - size, size);
    }
  }

  /** How far apart two counts are shows in their wrapped positions, up to one lap. */
  lemma {:induction false} WrapDistance(a: nat, b: nat, size: nat)
    requires size > 0 && a <= b <= a + size
    ensures b < a + size ==>
              b - a == (if Wrap(b, size) >= Wrap(a, size) then Wrap(b, size) - Wrap(a, size)
                        else size - Wrap(a, size) + Wrap(b, size))
    ensures b == a + size ==> Wrap(a, size) == Wrap(b, size)
  {
    if b < size {
    } else if a < size {
      assert Wrap(b, size) == Wrap(b - size, size) == b - size;
    } else {
      WrapDistance(a - size, b - size, size);
    }
  }

  /** Counts less than a lap apart share a slot only if they are equal. */
  lemma {:induction false} WrapDistinct(a: nat, b: nat, size: nat)
    requires size > 0 && a < b < a + size
    ensures Wrap(a, size) != Wrap(b, size)
  {
    WrapDistance(a, b, size);
  }

  lemma {:induction false} TimesIsProduct(a: nat, b: nat)
    ensures Times(a, b) == a * b
  {
    if a > 0 {
      TimesIsProduct(a - 1, b);
      assert a * b == (a - 1) * b + b;
    }
  }

  lemma {:induction false} TimesMonotone(a: nat, b: nat, e: nat)
    requires a <= b
    ensures Times(a, e) <= Times(b, e)
  {
    if a < b {
      TimesMonotone(a, b - 1, e);
    }
  }

  lemma {:induction false} IndexBound(c: Config, p: Cursor)
    requires ValidConfig(c) && InRange(c, p)
    ensures Index(c, p) < Size(c)
  {
    TimesMonotone(p.table + 1, c.tables, c.entries);
  }

  lemma {:induction false} IndexInjective(c: Config, p: Cursor, q: Cursor)
    requires ValidConfig(c) && InRange(c, p) && InRange(c, q)
    requires Index(c, p) == Index(c, q)
    ensures p == q
  {
    if p.table < q.table {
      TimesMonotone(p.table + 1, q.table, c.entries);
    } else if q.table < p.table {
      TimesMonotone(q.table + 1, p.table, c.entries);
    }
  }

  /** Stepping the nested cursor is adding one to the flat index, back to 0 at the end. */
  lemma {:induction false} NextIndex(c: Config, p: Cursor)
    requires ValidConfig(c) && InRange(c, p)
    ensures InRange(c, Next(c, p))
    ensures Index(c, Next(c, p)) == if Index(c, p) + 1 == Size(c) then 0 else Index(c, p) + 1
  {
    IndexBound(c, p);
    var q := Next(c, p);
    if p.entry == c.entries - 1 {
      if p.table == c.tables - 1 {
        assert q == Cursor(0, 0);
      } else {
        assert q == Cursor(p.table + 1, 0);
        IndexBound(c, q);
      }
    } else {
      assert q == Cursor(p.table, p.entry + 1);
      IndexBound(c, q);
    }
  }

  // ---------- cursors against counts ----------

  /** The nested cursor and the count modulo the ring size name the same slot. */
  lemma {:induction false} PlaceIsWrap(c: Config, n: nat)
    requires ValidConfig(c)
    ensures Size(c) > 0 && Place(c, n) == Wrap(n, Size(c))
    decreases n
  {
    SizePositive(c);
    if n > 0 {
      PlaceIsWrap(c, n - 1);
      NextIndex(c, CursorAt(c, n - 1));
      WrapStep(n - 1, Size(c));
    }
  }

  lemma {:induction false} AtNext(c: Config, p: Cursor, n: nat)
    requires ValidConfig(c) && At(c, p, n)
    ensures At(c, Next(c, p), n + 1)
    ensures Index(c, Next(c, p)) < Size(c)
  {
    IndexBound(c, Next(c, p));
  }

  /** Entries less than a lap apart live in different slots. */
  lemma {:induction false} PlaceDistinct(c: Config, a: nat, b: nat)
    requires ValidConfig(c) && a < b < a + Size(c)
    ensures Place(c, a) != Place(c, b)
  {
    PlaceIsWrap(c, a);
    PlaceIsWrap(c, b);
    WrapDistinct(a, b, Size(c));
  }

  /** Every entry in a window that ends less than a lap before `t` has a slot other than `t`'s. */
  lemma {:induction false} WindowDistinct(c: Config, h: nat, t: nat)
    requires ValidConfig(c) && h <= t < h + Size(c)
    ensures forall k: nat {:trigger Place(c, k)} :: h <= k < t ==> Place(c, k) != Place(c, t)
  {
    forall k: nat | h <= k < t ensures Place(c, k) != Place(c, t) {
      PlaceDistinct(c, k, t);
    }
  }

  /** Cursors less than a lap apart are equal exactly when their counts are; a lap apart they coincide. */
  lemma {:induction false} AtSame(c: Config, p: Cursor, a: nat, q: Cursor, b: nat)
    requires ValidConfig(c) && At(c, p, a) && At(c, q, b)
    requires a <= b <= a + Size(c)
    ensures p == q <==> (a == b || b == a + Size(c))
  {
    PlaceIsWrap(c, a);
    PlaceIsWrap(c, b);
    WrapDistance(a, b, Size(c));
    if Index(c, p) == Index(c, q) {
      IndexInjective(c, p, q);
    }
  }

  lemma {:induction false} WalkAt(c: Config, p: Cursor, n: nat, steps: nat)
    requires ValidConfig(c) && At(c, p, n)
    ensures At(c, Walk(c, p, steps), n + steps)
    decreases steps
  {
    if steps > 0 {
      AtNext(c, p, n);
      WalkAt(c, Next(c, p), n + 1, steps - 1);
    }
  }

  lemma {:induction false} AtOwnIndex(c: Config, p: Cursor)
    requires ValidConfig(c) && InRange(c, p)
    ensures At(c, p, Index(c, p))
  {
    IndexBound(c, p);
    PlaceIsWrap(c, Index(c, p));
    IndexInjective(c, p, CursorAt(c, Index(c, p)));
  }

  /** Stepping a cursor as often as the snapshot counts lands on the snapshotted tail,
      for every pair of cursors in range. */
  lemma {:induction false} WalkReachesTail(c: Config, head: Cursor, tail: Cursor)
    requires ValidConfig(c) && InRange(c, head) && InRange(c, tail)
    ensures 0 <= SnapshotCount(c, head, tail) < Size(c)
    ensures Walk(c, head, SnapshotCount(c, head, tail)) == tail
  {
    var h, t, count := Index(c, head), Index(c, tail), SnapshotCount(c, head, tail);
    IndexBound(c, head);
    IndexBound(c, tail);
    AtOwnIndex(c, head);
    AtOwnIndex(c, tail);
    WalkAt(c, head, h, count);
    AtSame(c, tail, t, CursorAt(c, t + Size(c)), t + Size(c));
  }

  /** The snapshot is the true number of outstanding entries exactly while that number is
      below the ring size; with one lap outstanding it reads 0. */
  lemma {:induction false} SnapshotIsOutstanding(c: Config, head: Cursor, h: nat, tail: Cursor, t: nat)
    requires ValidConfig(c) && At(c, head, h) && At(c, tail, t)
    requires h <= t <= h + Size(c)
    ensures SnapshotCount(c, head, tail) == t - h <==> t < h + Size(c)
    ensures t == h + Size(c) ==> SnapshotCount(c, head, tail) == 0
  {
    PlaceIsWrap(c, h);
    PlaceIsWrap(c, t);
    WrapDistance(h, t, Size(c));
  }

  /** The spin test in the source is the intended one with the case head_entry = 0 missing. */
  lemma {:induction false} GuardAsWritten(c: Config, head: Cursor, tail: Cursor)
    requires ValidConfig(c) && InRange(c, head) && InRange(c, tail)
    ensures Full(c.(guard := AsWritten), head, tail)
            <==> Full(c.(guard := NextIsHead), head, tail) && head.entry != 0
  {
  }

  /** One pass through `update_index` keeps at most size-1 entries outstanding exactly from the
      states other than the one its test misses: size-1 outstanding with head_entry = 0. */
  lemma {:induction false} AdvanceKeepsCapacity(c: Config, head: Cursor, h: nat, tail: Cursor, t: nat)
    requires ValidConfig(c) && At(c, head, h) && At(c, tail, t)
    requires h <= t < h + Size(c)
    requires !Full(c.(guard := AsWritten), head, tail)
    ensures At(c, Next(c, tail), t + 1)
    ensures t + 1 < h + Size(c) <==> !(t - h == Size(c) - 1 && head.entry == 0)
    ensures SnapshotCount(c, head, Next(c, tail)) == t + 1 - h
            <==> !(t - h == Size(c) - 1 && head.entry == 0)
  {
    AtNext(c, tail, t);
    GuardAsWritten(c, head, tail);
    AtSame(c, head, h, Next(c, tail), t + 1);
    SnapshotIsOutstanding(c, head, h, Next(c, tail), t + 1);
  }
}
