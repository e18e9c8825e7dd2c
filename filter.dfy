/**
 * `CFilterInt`: the averaging filter, a class over two 100-slot arrays whose
 * methods are proved against the transition functions of FilterSpec.
 */
module Filter {
  import opened Ints
  import opened FilterSpec

  class FilterInt {
    var count: nat            // m_Count
    var index: nat            // m_Index
    var firstWrite: bool      // m_FirstWrite
    const scale: nat          // m_Scale
    const values: array<int32>       // m_Values
    const timestamps: array<int64>   // m_Timestamps
    /** The samples written since the last bootstrap, oldest first. */
    ghost var history: seq<int32>

    ghost function Repr(): (r: set<object>)
    {
      {this, values, timestamps}
    }

    ghost function State(): (st: FilterState)
      reads this, values, timestamps
    {
      FilterState(values[..], timestamps[..], index, count, firstWrite)
    }

    /** The shape of the object: both arrays have 100 slots and the cursor is inside them. */
    ghost predicate Writable()
      reads this
    {
      values.Length == Capacity && timestamps.Length == Capacity && index < Capacity && scale > 0
    }

    /**
     * The filter between calls: the first-write flag is up exactly while no
     * sample is counted. (`Reset` raises the flag while samples are counted,
     * just before its own bootstrapping write.)
     */
    ghost predicate Valid()
      reads this, values, timestamps
      ensures Valid() ==> Wf(State())
    {
      Writable() && (firstWrite <==> count == 0)
    }

    /** Once bootstrapped, the arrays are what `history` leaves behind (see `Holds`). */
    ghost predicate Tracked()
      reads this, values, timestamps
    {
      !firstWrite ==> Holds(State(), history)
    }

    /** `CFilterInt(Scale)`; `now` is the clock reading the constructor takes. */
    constructor (s: nat, now: int64)
      requires s > 0
      ensures Valid() && Tracked() && fresh(values) && fresh(timestamps)
      ensures State() == Initial(now) && scale == s
    {
      count, index, firstWrite, scale := 0, 0, true, s;
      values := new int32[Capacity];
      timestamps := new int64[Capacity];
      history := [];
      new;
      Write(now, 0);
      firstWrite := true;
      count := 0;
    }

    /** The non-bootstrapping branch of `Write`: one slot, then the cursor moves on. */
    method Store(ts: int64, v: int32)
      requires values.Length == Capacity && timestamps.Length == Capacity && index < Capacity
      modifies this`index, values, timestamps
      ensures values[..] == old(values[..])[old(index) := v]
      ensures timestamps[..] == old(timestamps[..])[old(index) := ts]
      ensures index == (old(index) + 1) % Capacity
    {
      values[index] := v;
      timestamps[index] := ts;
      index := index + 1;
      index := index % Capacity;
    }

    /** `Write(Timestamp, Value)`; the bootstrap repeats the plain write 100 times. */
    method Write(ts: int64, v: int32)
      requires Writable()
      modifies this, values, timestamps
      ensures Valid() && (old(Tracked()) ==> Tracked())
      ensures State() == FilterSpec.Write(old(State()), ts, v)
      ensures history == if old(firstWrite) then [v] else old(history) + [v]
    {
      ghost var before := State();
      if firstWrite {
        firstWrite := false;
        index := 0;
        var i := 0;
        while i < Capacity
          invariant 0 <= i <= Capacity && index == i % Capacity && !firstWrite
          invariant forall k | 0 <= k < i :: values[k] == v && timestamps[k] == ts
        {
          Store(ts, v);
          count := count + 1;
          i := i + 1;
        }
        count := 0;
        assert values[..] == seq(Capacity, _ => v);
        assert timestamps[..] == seq(Capacity, _ => ts);
      } else {
        Store(ts, v);
      }
      count := count + 1;
      history := if before.firstWrite then [v] else history + [v];
      if before.firstWrite {
        BootstrapHolds(ts, v);
      } else if old(Tracked()) {
        WriteHolds(before, old(history), ts, v);
      }
    }

    /** `Reset()`: bootstraps again around the newest sample, if there is one. */
    method Reset()
      requires Valid()
      modifies this, values, timestamps
      ensures Valid() && (old(Tracked()) ==> Tracked())
      ensures State() == FilterSpec.Reset(old(State()))
      ensures old(count) > 0 ==> history == [old(values[LastIndex(State())])]
      ensures old(count) == 0 ==> history == old(history)
    {
      if count > 0 {
        var prevIndex := Capacity - 1;
        if index != 0 {
          prevIndex := index - 1;
        }
        var value := values[prevIndex];
        var timestamp := timestamps[prevIndex];
        firstWrite := true;
        Write(timestamp, value);
      }
    }

    /** `Get()`: the average of the first `min(count, 100)` slots over the scale. */
    method Get() returns (r: real)
      requires Valid()
      ensures r == Average(State(), scale)
      ensures Tracked() && count > 0 ==> r == Mean(Recent(history)) / scale as real
    {
      var sum: int64 := 0;
      var extent := Capacity;
      if count < Capacity {
        extent := count;
      }
      if extent == 0 {
        return 0.0;
      }
      var i := 0;
      while i < extent
        invariant 0 <= i <= extent && sum as int == Sum(values[..i])
      {
        assert values[..i + 1][..i] == values[..i];
        SumFitsInt64(values[..i + 1]);
        sum := sum + values[i];
        i := i + 1;
      }
      r := (sum as real / extent as real) / scale as real;
      if Tracked() {
        AverageIsRecentMean(State(), scale, history);
      }
    }

    /** The numbers `Get(string*)` formats: the newest sample and the average, both over the scale. */
    method Summary() returns (last: real, filtered: real)
      requires Valid()
      ensures last == values[LastIndex(State())] as real / scale as real
      ensures filtered == Average(State(), scale)
    {
      var lastIndex := Capacity - 1;
      if index != 0 {
        lastIndex := index - 1;
      }
      last := values[lastIndex] as real / scale as real;
      filtered := Get();
    }

    /**
     * `Read`, without its text: the span from the oldest to the newest slot and
     * the average truncated to an integer. The span ends at the slot before the
     * cursor, circularly (see `ReadElapsedAsWritten` for the code as written).
     */
    method Read() returns (elapsed: int, value: int)
      requires Valid()
      ensures elapsed == ReadElapsed(State())
      ensures value == TruncateReal(Average(State(), scale))
    {
      var v := Get();
      value := TruncateReal(v);
      var startTime := timestamps[index];
      var endTime := timestamps[Capacity - 1];
      if index != 0 {
        endTime := timestamps[index - 1];
      }
      elapsed := endTime as int - startTime as int;
    }
  }

  /** Two filters share no object: neither the filter nor either array. */
  ghost predicate Apart(f: FilterInt, g: FilterInt)
  {
    f != g && f.values != g.values && f.timestamps != g.timestamps
  }

  /** C++'s conversion of a floating-point value to `int`: rounds toward zero. */
  function TruncateReal(x: real): (n: int)
    ensures x >= 0.0 ==> n as real <= x < n as real + 1.0
    ensures x < 0.0 ==> n as real - 1.0 < x <= n as real
  {
    if x >= 0.0 then x.Floor else -((-x).Floor)
  }
}
