/**
 * The averaging filter `CFilterInt` as a pure state-transition system: the
 * contents of its two 100-slot arrays, its write cursor, its (uncapped) sample
 * counter and its first-write flag, and what `Write`, `Reset` and `Get` do to
 * them. The class in module Filter is proved against these functions.
 */
module FilterSpec {
  import opened Ints

  /** `FILTER_LENGTH`: the number of slots. */
  const Capacity: nat := 100

  /** The fields of a `CFilterInt` other than its scale. */
  datatype FilterState = FilterState(
    values: seq<int32>,   // m_Values
    stamps: seq<int64>,   // m_Timestamps, in ticks
    index: nat,           // m_Index, the write cursor
    count: nat,           // m_Count, never capped
    firstWrite: bool)     // m_FirstWrite: the next write bootstraps

  predicate Wf(s: FilterState)
  {
    |s.values| == Capacity && |s.stamps| == Capacity && s.index < Capacity
  }

  /** The slot the newest sample is in: the one before the cursor, circularly. */
  function LastIndex(s: FilterState): (k: nat)
    requires Wf(s)
    ensures k < Capacity && k == (s.index + Capacity - 1) % Capacity
  {
    if s.index != 0 then s.index - 1 else Capacity - 1
  }

  /** The state a bootstrapping write of `(ts, v)` leaves behind. */
  function Bootstrap(ts: int64, v: int32): (r: FilterState)
    ensures Wf(r) && r.count == 1 && r.index == 0 && !r.firstWrite
  {
    FilterState(seq(Capacity, _ => v), seq(Capacity, _ => ts), 0, 1, false)
  }

  /** The state right after construction, stamped with the clock reading `now`. */
  function Initial(now: int64): (r: FilterState)
    ensures Wf(r) && r.count == 0 && r.firstWrite
  {
    Bootstrap(now, 0).(count := 0, firstWrite := true)
  }

  /** A write that does not bootstrap: one slot, then the cursor moves on. */
  function Store(s: FilterState, ts: int64, v: int32): (r: FilterState)
    requires Wf(s)
  {
    s.(values := s.values[s.index := v], stamps := s.stamps[s.index := ts],
       index := (s.index + 1) % Capacity, count := s.count + 1)
  }

  /** `Write(Timestamp, Value)`. */
  function Write(s: FilterState, ts: int64, v: int32): (r: FilterState)
    requires Wf(s)
    ensures Wf(r) && !r.firstWrite
    ensures r.count == if s.firstWrite then 1 else s.count + 1
    ensures r.index == if s.firstWrite then 0 else (s.index + 1) % Capacity
  {
    if s.firstWrite then Bootstrap(ts, v) else Store(s, ts, v)
  }

  /**
   * A write puts the sample in the slot before the cursor. A bootstrapping write
   * puts it in every slot; any other write leaves the other slots alone.
   */
  lemma WriteSlots(s: FilterState, ts: int64, v: int32)
    requires Wf(s)
    ensures var r := Write(s, ts, v);
      && r.values[LastIndex(r)] == v && r.stamps[LastIndex(r)] == ts
      && (s.firstWrite ==> forall k | 0 <= k < Capacity :: r.values[k] == v && r.stamps[k] == ts)
      && (!s.firstWrite ==> forall k | 0 <= k < Capacity && k != s.index ::
            r.values[k] == s.values[k] && r.stamps[k] == s.stamps[k])
  {
  }

  /** `Reset()`: bootstraps again around the newest sample, if there is one. */
  function Reset(s: FilterState): (r: FilterState)
    requires Wf(s)
    ensures Wf(r)
    ensures s.count == 0 ==> r == s
    ensures s.count > 0 ==> r.count == 1 && r.index == 0 && !r.firstWrite
  {
    if s.count > 0 then
      var last := LastIndex(s);
      Write(s.(firstWrite := true), s.stamps[last], s.values[last])
    else s
  }

  /** After a reset every slot holds the newest sample from before it. */
  lemma ResetSlots(s: FilterState)
    requires Wf(s) && s.count > 0
    ensures forall k | 0 <= k < Capacity ::
      Reset(s).values[k] == s.values[LastIndex(s)] && Reset(s).stamps[k] == s.stamps[LastIndex(s)]
  {
  }

  /** How many slots, from slot 0 on, `Get` averages. */
  function Extent(s: FilterState): (n: nat)
    ensures n <= Capacity && (n == s.count || n == Capacity)
    ensures n == Capacity <==> s.count >= Capacity
  {
    if s.count < Capacity then s.count else Capacity
  }

  function Sum(xs: seq<int>): (total: int)
  {
    if xs == [] then 0 else Sum(xs[..|xs| - 1]) + xs[|xs| - 1]
  }

  /** `Get()`: the mean of the first `Extent` slots divided by the scale; 0 when empty. */
  function Average(s: FilterState, scale: nat): (r: real)
    requires Wf(s) && scale > 0
  {
    var n := Extent(s);
    if n == 0 then 0.0 else (Sum(s.values[..n]) as real / n as real) / scale as real
  }

  /** The mean of a non-empty sequence. */
  function Mean(xs: seq<int>): (r: real)
    requires xs != []
  {
    Sum(xs) as real / |xs| as real
  }

  // ---------------------------------------------------------------- sums

  lemma {:induction false} SumAppend(a: seq<int>, b: seq<int>)
    ensures Sum(a + b) == Sum(a) + Sum(b)
    decreases |b|
  {
    if b == [] {
      assert a + b == a;
    } else {
      assert (a + b)[..|a + b| - 1] == a + b[..|b| - 1];
      assert (a + b)[|a + b| - 1] == b[|b| - 1];
      SumAppend(a, b[..|b| - 1]);
    }
  }

  /** A sum of values between `lo` and `hi` lies between `|xs| * lo` and `|xs| * hi`. */
  lemma {:induction false} SumBetween(xs: seq<int>, lo: int, hi: int)
    requires forall k | 0 <= k < |xs| :: lo <= xs[k] <= hi
    ensures |xs| * lo <= Sum(xs) <= |xs| * hi
  {
    if xs != [] {
      var front := xs[..|xs| - 1];
      SumBetween(front, lo, hi);
      assert |xs| * lo == |front| * lo + lo && |xs| * hi == |front| * hi + hi;
    }
  }

  /** The `int64_t` accumulator of `Get` cannot overflow: 100 `int` values fit. */
  lemma SumFitsInt64(xs: seq<int32>)
    requires |xs| <= Capacity
    ensures -0x8000_0000_0000_0000 <= Sum(xs) < 0x8000_0000_0000_0000
  {
    SumBetween(xs, -0x8000_0000, 0x7FFF_FFFF);
  }

  // ------------------------------------------------------------ averages

  /** `Get` is a mean: it lies between the least and the greatest averaged value. */
  lemma AverageBetween(s: FilterState, scale: nat, lo: int, hi: int)
    requires Wf(s) && scale > 0 && Extent(s) > 0
    requires forall k | 0 <= k < Extent(s) :: lo <= s.values[k] <= hi
    ensures lo as real / scale as real <= Average(s, scale) <= hi as real / scale as real
  {
    var n := Extent(s);
    var w := s.values[..n];
    SumBetween(w, lo, hi);
    MeanBetween(Sum(w), n, lo, hi);
    var m := Sum(w) as real / n as real;
    DivideMonotone(lo as real, m, scale as real);
    DivideMonotone(m, hi as real, scale as real);
  }

  lemma MeanBetween(sum: int, n: nat, lo: int, hi: int)
    requires n > 0 && n * lo <= sum <= n * hi
    ensures lo as real <= sum as real / n as real <= hi as real
  {
    var q := sum as real / n as real;
    assert q * n as real == sum as real;
    assert (n * lo) as real == n as real * lo as real;
    assert (n * hi) as real == n as real * hi as real;
  }

  lemma DivideMonotone(x: real, y: real, d: real)
    requires x <= y && d > 0.0
    ensures x / d <= y / d
  {
  }

  /** A window of equal values averages to that value over the scale. */
  lemma AverageOfFlat(s: FilterState, scale: nat, v: int)
    requires Wf(s) && scale > 0 && Extent(s) > 0
    requires forall k | 0 <= k < Extent(s) :: s.values[k] == v
    ensures Average(s, scale) == v as real / scale as real
  {
    AverageBetween(s, scale, v, v);
  }

  /** After a `Reset`, `Get` is the newest sample over the scale. */
  lemma ResetAverage(s: FilterState, scale: nat)
    requires Wf(s) && scale > 0 && s.count > 0
    ensures Average(Reset(s), scale) == s.values[LastIndex(s)] as real / scale as real
  {
    ResetSlots(s);
    AverageOfFlat(Reset(s), scale, s.values[LastIndex(s)]);
  }

  /** Resetting twice is resetting once. */
  lemma ResetIdempotent(s: FilterState)
    requires Wf(s)
    ensures Reset(Reset(s)) == Reset(s)
  {
    if s.count > 0 {
      var r := Reset(s);
      ResetSlots(s);
      ResetSlots(r);
      assert r.values == seq(Capacity, _ => s.values[LastIndex(s)]);
      assert r.stamps == seq(Capacity, _ => s.stamps[LastIndex(s)]);
    }
  }

  /**
   * The second sample averages with one copy of the bootstrap value, not with
   * the ninety-nine other copies: bootstrap 50, then 60, gives 55.
   */
  lemma SecondSampleAveragesTwoSlots(t0: int64, t1: int64)
    ensures Average(Write(Bootstrap(t0, 50), t1, 60), 1) == 55.0
  {
    var s := Write(Bootstrap(t0, 50), t1, 60);
    assert Extent(s) == 2;
    assert s.values[..2] == [60, 50];
    assert Sum([60, 50]) == 110 by {
      assert [60, 50][..1] == [60];
      assert [60][..0] == [];
    }
  }

  // ------------------------------------------- the window holds the newest samples

  /**
   * `s` is what writing `h` leaves behind when `h[0]` was a bootstrapping write:
   * slots `0 ..` hold the later samples in order until the buffer wraps, and the
   * rest still hold `h[0]`; once wrapped, the 100 newest samples are stored
   * circularly with the oldest at the cursor.
   */
  ghost predicate Holds(s: FilterState, h: seq<int32>)
  {
    && Wf(s) && |h| >= 1 && s.count == |h| && !s.firstWrite
    && s.index == (|h| - 1) % Capacity
    && if |h| <= Capacity then
         && s.values[..|h| - 1] == h[1..]
         && forall k | |h| - 1 <= k < Capacity :: s.values[k] == h[0]
       else
         && s.values[s.index..] == h[|h| - Capacity .. |h| - s.index]
         && s.values[..s.index] == h[|h| - s.index..]
  }

  lemma BootstrapHolds(ts: int64, v: int32)
    ensures Holds(Bootstrap(ts, v), [v])
  {
  }

  lemma WriteHolds(s: FilterState, h: seq<int32>, ts: int64, v: int32)
    requires Holds(s, h)
    ensures Holds(Write(s, ts, v), h + [v])
  {
    if |h| < Capacity {
      StoreHoldsFilling(s, h, ts, v);
    } else if |h| == Capacity {
      StoreHoldsFirstWrap(s, h, ts, v);
    } else if s.index < Capacity - 1 {
      StoreHoldsWrapped(s, h, ts, v);
    } else {
      StoreHoldsWrappedLast(s, h, ts, v);
    }
  }

  lemma StoreHoldsFilling(s: FilterState, h: seq<int32>, ts: int64, v: int32)
    requires Holds(s, h) && |h| < Capacity
    ensures Holds(Store(s, ts, v), h + [v])
  {
    var r, h' := Store(s, ts, v), h + [v];
    assert r.values[..|h'| - 1] == s.values[..|h| - 1] + [v];
    assert h'[1..] == h[1..] + [v];
  }

  lemma StoreHoldsFirstWrap(s: FilterState, h: seq<int32>, ts: int64, v: int32)
    requires Holds(s, h) && |h| == Capacity
    ensures Holds(Store(s, ts, v), h + [v])
  {
    var r, h' := Store(s, ts, v), h + [v];
    assert r.index == 0;
    assert r.values[0..] == s.values[..Capacity - 1] + [v];
    assert h'[|h'| - Capacity .. |h'|] == h[1..] + [v];
  }

  lemma StoreHoldsWrapped(s: FilterState, h: seq<int32>, ts: int64, v: int32)
    requires Holds(s, h) && |h| > Capacity && s.index < Capacity - 1
    ensures Holds(Store(s, ts, v), h + [v])
  {
    var r, h', p := Store(s, ts, v), h + [v], s.index;
    assert r.index == p + 1;
    assert r.values[p + 1..] == s.values[p..][1..];
    assert r.values[..p + 1] == s.values[..p] + [v];
  }

  lemma StoreHoldsWrappedLast(s: FilterState, h: seq<int32>, ts: int64, v: int32)
    requires Holds(s, h) && |h| > Capacity && s.index == Capacity - 1
    ensures Holds(Store(s, ts, v), h + [v])
  {
    var r, h', p := Store(s, ts, v), h + [v], s.index;
    assert r.index == 0;
    assert r.values[0..] == s.values[..p] + [v];
    assert h'[|h'| - Capacity ..|h'|] == h[|h| - p..] + [v];
  }

  lemma ResetHolds(s: FilterState)
    requires Wf(s) && s.count > 0
    ensures Holds(Reset(s), [s.values[LastIndex(s)]])
  {
    var r := Reset(s);
    assert r == Bootstrap(s.stamps[LastIndex(s)], s.values[LastIndex(s)]);
  }

  /** The newest `min(|h|, 100)` samples of a history. */
  function Recent(h: seq<int32>): (w: seq<int32>)
    ensures |w| == if |h| < Capacity then |h| else Capacity
  {
    if |h| < Capacity then h else h[|h| - Capacity..]
  }

  /**
   * The slots `Get` averages hold exactly the newest `min(count, 100)` samples,
   * counting the bootstrapping one, though not in the order they arrived.
   */
  lemma WindowIsRecent(s: FilterState, h: seq<int32>)
    requires Holds(s, h)
    ensures Extent(s) == |Recent(h)| && Sum(s.values[..Extent(s)]) == Sum(Recent(h))
    ensures multiset(s.values[..Extent(s)]) == multiset(Recent(h))
  {
    if |h| <= Capacity {
      FillingWindowIsRecent(s, h);
    } else {
      WrappedWindowIsRecent(s, h);
    }
  }

  /** Before the buffer wraps, the window is the history rotated by one. */
  lemma FillingWindowIsRecent(s: FilterState, h: seq<int32>)
    requires Holds(s, h) && |h| <= Capacity
    ensures Extent(s) == |h| && Sum(s.values[..Extent(s)]) == Sum(Recent(h))
    ensures multiset(s.values[..Extent(s)]) == multiset(Recent(h))
  {
    assert s.values[..Extent(s)] == h[1..] + [h[0]];
    SumAppend(h[1..], [h[0]]);
    SumAppend([h[0]], h[1..]);
    assert [h[0]] + h[1..] == h;
    assert Sum([h[0]]) == h[0] by { assert [h[0]][..0] == []; }
    if |h| == Capacity {
      assert h[|h| - Capacity..] == h;
    }
  }

  /** Once wrapped, the window is the newest 100 samples split at the cursor. */
  lemma WrappedWindowIsRecent(s: FilterState, h: seq<int32>)
    requires Holds(s, h) && |h| > Capacity
    ensures Extent(s) == Capacity && Sum(s.values[..Extent(s)]) == Sum(Recent(h))
    ensures multiset(s.values[..Extent(s)]) == multiset(Recent(h))
  {
    var p := s.index;
    var older, newer := s.values[p..], s.values[..p];
    assert s.values[..Extent(s)] == newer + older;
    SumAppend(newer, older);
    assert Recent(h) == older + newer;
    SumAppend(older, newer);
  }

  /** `Get` is the mean of the newest `min(count, 100)` samples, over the scale. */
  lemma AverageIsRecentMean(s: FilterState, scale: nat, h: seq<int32>)
    requires Holds(s, h) && scale > 0
    ensures Average(s, scale) == Mean(Recent(h)) / scale as real
  {
    WindowIsRecent(s, h);
  }

  // ----------------------------------------------------------------- Read

  /**
   * The span `Read` reports, as written: from the slot at the cursor to the slot
   * before it, except that at cursor 0 it ends at slot 0 instead of slot 99.
   */
  function ReadElapsedAsWritten(s: FilterState): (span: int)
    requires Wf(s)
  {
    var end := if s.index != 0 then s.stamps[s.index - 1] else s.stamps[0];
    end as int - s.stamps[s.index] as int
  }

  /** The span `Read` evidently means: from the slot at the cursor to the newest slot. */
  function ReadElapsed(s: FilterState): (span: int)
    requires Wf(s)
  {
    s.stamps[LastIndex(s)] as int - s.stamps[s.index] as int
  }

  /**
   * Right after a write, the corrected span ends at that write's timestamp; the
   * span as written agrees with it everywhere except at cursor 0.
   */
  lemma ReadElapsedEndsAtNewest(s: FilterState, ts: int64, v: int32)
    requires Wf(s)
    ensures ReadElapsed(Write(s, ts, v)) == ts as int - Write(s, ts, v).stamps[Write(s, ts, v).index]
    ensures Write(s, ts, v).index != 0 ==> ReadElapsedAsWritten(Write(s, ts, v)) == ReadElapsed(Write(s, ts, v))
  {
    WriteSlots(s, ts, v);
  }

  /** Writes `ts[i], vs[i]` in order. */
  function WriteAll(s: FilterState, ts: seq<int64>, vs: seq<int32>): (r: FilterState)
    requires Wf(s) && |ts| == |vs|
    ensures Wf(r)
    decreases |ts|
  {
    if ts == [] then s
    else Write(WriteAll(s, ts[..|ts| - 1], vs[..|vs| - 1]), ts[|ts| - 1], vs[|vs| - 1])
  }

  /** After a bootstrap at `t0` and `k <= 100` further writes, the stamps sit in slots `0 .. k`. */
  lemma {:induction false} StampsAfterWrites(t0: int64, v0: int32, ts: seq<int64>, vs: seq<int32>)
    requires |ts| == |vs| <= Capacity
    ensures var r := WriteAll(Bootstrap(t0, v0), ts, vs);
      && !r.firstWrite
      && r.index == |ts| % Capacity
      && (forall k | 0 <= k < |ts| :: r.stamps[k] == ts[k])
      && (forall k | |ts| <= k < Capacity :: r.stamps[k] == t0)
    decreases |ts|
  {
    if ts != [] {
      var n := |ts| - 1;
      var front := WriteAll(Bootstrap(t0, v0), ts[..n], vs[..n]);
      StampsAfterWrites(t0, v0, ts[..n], vs[..n]);
      assert front.index == n;
      var r := Write(front, ts[n], vs[n]);
      assert r == Store(front, ts[n], vs[n]);
      assert r.stamps == front.stamps[n := ts[n]];
    }
  }

  /**
   * Bootstrap at tick 0, then write at ticks 1 .. 100: the samples span ticks 1
   * to 100, yet `Read` as written reports a span of 0.
   */
  lemma ReadElapsedVanishesAtWrap()
    ensures var r := WriteAll(Bootstrap(0, 0), seq(Capacity, i => i + 1), seq(Capacity, _ => 0));
      ReadElapsedAsWritten(r) == 0 && ReadElapsed(r) == 99
  {
    var ts: seq<int64> := seq(Capacity, i => i + 1);
    StampsAfterWrites(0, 0, ts, seq(Capacity, _ => 0));
  }

  // --------------------------------------------------------------- lockstep

  /** The part of a filter's state that does not depend on the values written. */
  function Cursor(s: FilterState): (nat, nat, bool)
  {
    (s.index, s.count, s.firstWrite)
  }

  /** Two filters whose cursors agree still agree after each takes a write. */
  lemma WriteInLockstep(a: FilterState, b: FilterState, ta: int64, va: int32, tb: int64, vb: int32)
    requires Wf(a) && Wf(b) && Cursor(a) == Cursor(b)
    ensures Cursor(Write(a, ta, va)) == Cursor(Write(b, tb, vb))
  {
  }

  /** Two filters whose cursors agree still agree after each is reset. */
  lemma ResetInLockstep(a: FilterState, b: FilterState)
    requires Wf(a) && Wf(b) && Cursor(a) == Cursor(b)
    ensures Cursor(Reset(a)) == Cursor(Reset(b))
  {
  }
}
