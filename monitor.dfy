/**
 * `CTiltMonitor`: one Tilt's four averaging filters (temperature, gravity,
 * transmit power, signal strength), its colour id and its log path. The pure
 * transition functions come first; the class is proved against them.
 */
module Monitor {
  import opened Ints
  import opened FilterSpec
  import Filter

  /** `m_Color`: the colour of Tilt id `k` is entry `k - 1`. */
  const Colors: seq<string> := ["Red", "Green", "Black", "Purple", "Orange", "Blue", "Yellow", "Pink"]

  /** The id a monitor holds before its first update. */
  const NoTilt: int := -1

  /** `m_Color[m_TiltID - 1]`: defined only for the ids 1 to 8. */
  function ColorName(id: int): (name: string)
    requires 1 <= id <= |Colors|
  {
    Colors[id - 1]
  }

  /** The log file a Tilt's rows are appended to. */
  function LogPath(id: int): (path: string)
    requires 1 <= id <= |Colors|
  {
    "TiltLog_" + ColorName(id) + ".txt"
  }

  /** The colour can be read back out of a log path. */
  lemma LogPathParts(id: int)
    requires 1 <= id <= |Colors|
    ensures |LogPath(id)| >= 12 && LogPath(id)[..8] == "TiltLog_" && LogPath(id)[|LogPath(id)| - 4..] == ".txt"
    ensures LogPath(id)[8..|LogPath(id)| - 4] == ColorName(id)
  {
  }

  /** Different Tilts write to different files. */
  lemma LogPathInjective(a: int, b: int)
    requires 1 <= a <= |Colors| && 1 <= b <= |Colors|
    requires LogPath(a) == LogPath(b)
    ensures a == b
  {
    LogPathParts(a);
    LogPathParts(b);
    assert ColorName(a) == ColorName(b);
  }

  /** The fields of a `CTiltMonitor` that the model keeps. */
  datatype MonitorState = MonitorState(
    tiltId: int,
    path: string,
    temperature: FilterState,
    gravity: FilterState,
    txPower: FilterState,
    signal: FilterState)

  /**
   * A monitor either has not been updated (id -1, empty path, nothing counted) or
   * holds a colour id, that colour's log path and at least one sample; its four
   * filters always share one cursor, count and first-write flag.
   */
  ghost predicate Consistent(m: MonitorState)
  {
    && Wf(m.temperature) && Wf(m.gravity) && Wf(m.txPower) && Wf(m.signal)
    && Cursor(m.gravity) == Cursor(m.temperature)
    && Cursor(m.txPower) == Cursor(m.temperature)
    && Cursor(m.signal) == Cursor(m.temperature)
    && (m.tiltId == NoTilt <==> m.temperature.count == 0)
    && (m.tiltId == NoTilt ==> m.path == "")
    && (m.tiltId != NoTilt ==> 1 <= m.tiltId <= |Colors| && m.path == LogPath(m.tiltId))
  }

  /** A new monitor; `now` is the clock reading each filter is constructed with. */
  function InitialMonitor(now: int64): (m: MonitorState)
    ensures Consistent(m)
  {
    MonitorState(NoTilt, "", Initial(now), Initial(now), Initial(now), Initial(now))
  }

  /** `OnAdvertisementReceived`: `Begin` on the first update, then one write per filter. */
  function Updated(m: MonitorState, id: int, ts: int64, rssi: int16,
                  txPower: int32, temperature: int32, gravity: int32): (r: MonitorState)
    requires Consistent(m)
    requires m.tiltId == NoTilt ==> 1 <= id <= |Colors|
    ensures Consistent(r)
    ensures r.tiltId == if m.tiltId == NoTilt then id else m.tiltId
    ensures m.tiltId != NoTilt ==> r.path == m.path
    ensures r.temperature.values[LastIndex(r.temperature)] == temperature
    ensures r.gravity.values[LastIndex(r.gravity)] == gravity
    ensures r.txPower.values[LastIndex(r.txPower)] == txPower
    ensures r.signal.values[LastIndex(r.signal)] == rssi
  {
    var begun := if m.tiltId == NoTilt then m.(tiltId := id, path := m.path + LogPath(id)) else m;
    WriteInLockstep(m.temperature, m.gravity, ts, temperature, ts, gravity);
    WriteInLockstep(m.temperature, m.txPower, ts, temperature, ts, txPower);
    WriteInLockstep(m.temperature, m.signal, ts, temperature, ts, rssi);
    begun.(temperature := Write(begun.temperature, ts, temperature),
           gravity := Write(begun.gravity, ts, gravity),
           txPower := Write(begun.txPower, ts, txPower),
           signal := Write(begun.signal, ts, rssi))
  }

  /** The filter part of `Emit`: reset all four filters, but only once updated. */
  function Emitted(m: MonitorState): (r: MonitorState)
    requires Consistent(m)
    ensures Consistent(r)
    ensures r.tiltId == m.tiltId && r.path == m.path
    ensures m.tiltId == NoTilt ==> r == m
  {
    if m.tiltId == NoTilt then m
    else
      ResetInLockstep(m.temperature, m.gravity);
      ResetInLockstep(m.temperature, m.txPower);
      ResetInLockstep(m.temperature, m.signal);
      m.(temperature := Reset(m.temperature), gravity := Reset(m.gravity),
         txPower := Reset(m.txPower), signal := Reset(m.signal))
  }

  /** The id is fixed by the first update: no later update or emit changes it. */
  lemma {:induction false} IdFixedByFirstUpdate(m: MonitorState, updates: seq<Sample>, emitAfter: seq<bool>)
    requires Consistent(m) && m.tiltId != NoTilt && |emitAfter| == |updates|
    ensures Consistent(Replay(m, updates, emitAfter))
    ensures Replay(m, updates, emitAfter).tiltId == m.tiltId
    ensures Replay(m, updates, emitAfter).path == m.path
    decreases |updates|
  {
    if updates != [] {
      IdFixedByFirstUpdate(m, updates[..|updates| - 1], emitAfter[..|emitAfter| - 1]);
    }
  }

  /** The arguments of one update. */
  datatype Sample = Sample(id: int, ts: int64, rssi: int16, txPower: int32, temperature: int32, gravity: int32)

  /** A run of updates, each followed by an `Emit` where `emitAfter` says so. */
  function Replay(m: MonitorState, updates: seq<Sample>, emitAfter: seq<bool>): (r: MonitorState)
    requires Consistent(m) && m.tiltId != NoTilt && |emitAfter| == |updates|
    ensures Consistent(r) && r.tiltId != NoTilt
    decreases |updates|
  {
    if updates == [] then m
    else
      var n := |updates| - 1;
      var before := Replay(m, updates[..n], emitAfter[..n]);
      var u := updates[n];
      var after := Updated(before, u.id, u.ts, u.rssi, u.txPower, u.temperature, u.gravity);
      if emitAfter[n] then Emitted(after) else after
  }

  /**
   * After `Emit` on an updated monitor, each filter reads back its own newest
   * sample over its scale.
   */
  lemma EmitRestartsAtNewest(m: MonitorState)
    requires Consistent(m) && m.tiltId != NoTilt
    ensures Average(Emitted(m).temperature, 1) == m.temperature.values[LastIndex(m.temperature)] as real
    ensures Average(Emitted(m).gravity, 1000) == m.gravity.values[LastIndex(m.gravity)] as real / 1000.0
    ensures Average(Emitted(m).txPower, 1) == m.txPower.values[LastIndex(m.txPower)] as real
    ensures Average(Emitted(m).signal, 1) == m.signal.values[LastIndex(m.signal)] as real
  {
    ResetAverage(m.temperature, 1);
    ResetAverage(m.gravity, 1000);
    ResetAverage(m.txPower, 1);
    ResetAverage(m.signal, 1);
  }

  class TiltMonitor {
    var tiltId: int                       // m_TiltID
    var path: string                      // m_Path
    const temperature: Filter.FilterInt   // m_Temperature, scale 1
    const gravity: Filter.FilterInt       // m_Gravity, scale 1000
    const txPower: Filter.FilterInt       // m_txPower, scale 1
    const signal: Filter.FilterInt        // m_Signal, scale 1

    ghost function Repr(): (r: set<object>)
    {
      {this} + temperature.Repr() + gravity.Repr() + txPower.Repr() + signal.Repr()
    }

    ghost function State(): (st: MonitorState)
      reads Repr()
    {
      MonitorState(tiltId, path, temperature.State(), gravity.State(), txPower.State(), signal.State())
    }

    /** Four valid filters with the scales 1, 1000, 1, 1, sharing no object. */
    ghost predicate FiltersValid()
      reads Repr()
    {
      && temperature.Valid() && gravity.Valid() && txPower.Valid() && signal.Valid()
      && temperature.scale == 1 && gravity.scale == 1000 && txPower.scale == 1 && signal.scale == 1
      && Filter.Apart(temperature, gravity) && Filter.Apart(temperature, txPower)
      && Filter.Apart(temperature, signal) && Filter.Apart(gravity, txPower)
      && Filter.Apart(gravity, signal) && Filter.Apart(txPower, signal)
    }

    ghost predicate Valid()
      reads Repr()
    {
      FiltersValid() && Consistent(State())
    }

    /** `CTiltMonitor()`; `now` stands for the clock readings of the filter constructors. */
    constructor (now: int64)
      ensures Valid()
      ensures fresh(temperature.Repr()) && fresh(gravity.Repr())
      ensures fresh(txPower.Repr()) && fresh(signal.Repr())
      ensures State() == InitialMonitor(now)
    {
      tiltId := NoTilt;
      path := "";
      temperature := new Filter.FilterInt(1, now);
      gravity := new Filter.FilterInt(1000, now);
      txPower := new Filter.FilterInt(1, now);
      signal := new Filter.FilterInt(1, now);
      new;
      assert FiltersValid();
      assert State() == InitialMonitor(now);
    }

    /** `Begin`, without the file it creates: records the id and the log path. */
    method Begin(id: int)
      requires 1 <= id <= |Colors|
      modifies this`tiltId, this`path
      ensures tiltId == id && path == old(path) + LogPath(id)
    {
      tiltId := id;
      path := path + LogPath(id);
    }

    /** `OnAdvertisementReceived(TiltID, timestamp, rssi, txPower, temperature, gravity)`. */
    method OnAdvertisementReceived(id: int, ts: int64, rssi: int16,
                                   txPower: int32, temperature: int32, gravity: int32)
      requires Valid()
      requires tiltId == NoTilt ==> 1 <= id <= |Colors|
      modifies Repr()
      ensures Valid()
      ensures State() == Updated(old(State()), id, ts, rssi, txPower, temperature, gravity)
    {
      ghost var m := State();
      if tiltId == NoTilt {
        Begin(id);
      }
      ghost var begun := m.(tiltId := tiltId, path := path);
      assert begun == if m.tiltId == NoTilt then m.(tiltId := id, path := m.path + LogPath(id)) else m;
      WriteReadings(ts, temperature, gravity);
      WriteRadio(ts, rssi, txPower);
      assert State() == begun.(temperature := Write(m.temperature, ts, temperature),
                               gravity := Write(m.gravity, ts, gravity),
                               txPower := Write(m.txPower, ts, txPower),
                               signal := Write(m.signal, ts, rssi));
      assert State() == Updated(m, id, ts, rssi, txPower, temperature, gravity);
      assert Consistent(State());
    }

    /** The first two writes of `OnAdvertisementReceived`: the hydrometer's readings. */
    method WriteReadings(ts: int64, temperature: int32, gravity: int32)
      requires FiltersValid()
      modifies this.temperature, this.temperature.values, this.temperature.timestamps
      modifies this.gravity, this.gravity.values, this.gravity.timestamps
      ensures FiltersValid()
      ensures this.temperature.State() == Write(old(this.temperature.State()), ts, temperature)
      ensures this.gravity.State() == Write(old(this.gravity.State()), ts, gravity)
    {
      this.temperature.Write(ts, temperature);
      this.gravity.Write(ts, gravity);
    }

    /** The last two writes of `OnAdvertisementReceived`: the radio's transmit power and signal strength. */
    method WriteRadio(ts: int64, rssi: int16, txPower: int32)
      requires FiltersValid()
      modifies this.txPower, this.txPower.values, this.txPower.timestamps
      modifies this.signal, this.signal.values, this.signal.timestamps
      ensures FiltersValid()
      ensures this.txPower.State() == Write(old(this.txPower.State()), ts, txPower)
      ensures this.signal.State() == Write(old(this.signal.State()), ts, rssi)
    {
      this.txPower.Write(ts, txPower);
      this.signal.Write(ts, rssi);
    }

    /** `Detect()`: whether this monitor has been updated. */
    method Detect() returns (detected: bool)
      requires Valid()
      ensures detected <==> temperature.count > 0
      ensures detected ==> 1 <= tiltId <= |Colors|
    {
      detected := tiltId != NoTilt;
    }

    /** `Emit()`, without the row it appends to the log: restarts all four filters. */
    method Emit()
      requires Valid()
      modifies Repr()
      ensures Valid()
      ensures State() == Emitted(old(State()))
    {
      if tiltId == NoTilt {
        return;
      }
      ResetReadings();
      ResetRadio();
    }

    /** The first two resets of `Emit`. */
    method ResetReadings()
      requires FiltersValid()
      modifies temperature, temperature.values, temperature.timestamps
      modifies gravity, gravity.values, gravity.timestamps
      ensures FiltersValid()
      ensures temperature.State() == Reset(old(temperature.State()))
      ensures gravity.State() == Reset(old(gravity.State()))
    {
      temperature.Reset();
      gravity.Reset();
    }

    /** The last two resets of `Emit`. */
    method ResetRadio()
      requires FiltersValid()
      modifies txPower, txPower.values, txPower.timestamps
      modifies signal, signal.values, signal.timestamps
      ensures FiltersValid()
      ensures txPower.State() == Reset(old(txPower.State()))
      ensures signal.State() == Reset(old(signal.State()))
    {
      txPower.Reset();
      signal.Reset();
    }

    /** The heading `UpdateDisplay` starts this monitor's block with; empty before the first update. */
    method DisplayLabel() returns (heading: string)
      requires Valid()
      ensures tiltId == NoTilt ==> heading == ""
      ensures tiltId != NoTilt ==> heading == ColorName(tiltId) + ": "
    {
      if tiltId == NoTilt {
        return "";
      }
      heading := ColorName(tiltId) + ": ";
    }
  }
}
