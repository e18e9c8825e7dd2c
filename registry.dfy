/**
 * `CTiltMonitors`: eight embedded `CTiltMonitor` values, one per Tilt colour,
 * and the router that hands a decoded beacon to the monitor of its colour. The
 * monitors are held by value, as the C++ array of embedded objects holds them,
 * and each is advanced with the transition functions of module Monitor.
 */
module Registry {
  import opened Ints
  import opened Wrappers
  import opened Decoder
  import opened Monitor

  /** `ARRAYSIZE(m_TiltMonitors)`. */
  const Slots: nat := 8

  // ------------------------------------------------------------------ routing

  /** The bound check as written: ids below 8 go to the slot with the same number. */
  function AdmitAsWritten(id: int): (slot: Option<int>)
    ensures slot.Some? <==> id < Slots
    ensures slot.Some? ==> slot.value == id
  {
    if id >= Slots then None else Some(id)
  }

  /**
   * The routing the colour table calls for: colour id `k` (1 for Red to 8 for
   * Pink) goes to slot `k - 1`; every other id is dropped.
   */
  function Slot(id: int): (slot: Option<nat>)
    ensures slot.Some? <==> 1 <= id <= Slots
    ensures slot.Some? ==> slot.value == id - 1 && slot.value < Slots
  {
    if 1 <= id <= Slots then Some(id - 1) else None
  }

  /** Every colour has a slot of its own, and the slot names that colour. */
  lemma SlotNamesColour(id: int)
    requires 1 <= id <= |Colors|
    ensures Slot(id).Some? && ColorName(Slot(id).value + 1) == Colors[id - 1]
  {
  }

  /** Different ids never share a slot. */
  lemma SlotInjective(a: int, b: int)
    requires Slot(a).Some? && Slot(a) == Slot(b)
    ensures a == b
  {
  }

  /** The reading an advertisement delivers and the slot it goes to, if any. */
  function Routed(adv: Advertisement): (r: Option<(nat, Reading)>)
    ensures r.Some? ==> r.value.0 < Slots && r.value.1.tiltId == r.value.0 + 1
    ensures r.Some? ==> Decode(adv) == Success(r.value.1)
  {
    match Decode(adv)
    case Failure(_) => None
    case Success(reading) =>
      match Slot(reading.tiltId)
      case None => None
      case Some(k) => Some((k, reading))
  }

  /** An advertisement is routed exactly when it decodes to a colour id. */
  lemma RoutedExactly(adv: Advertisement)
    ensures Routed(adv).Some? <==> Decode(adv).Success? && 1 <= Decode(adv).value.tiltId <= Slots
  {
  }

  // ---------------------------------------------------------------- monitors

  /**
   * Eight consistent monitors, each either never updated or holding the
   * colour id of its own slot.
   */
  ghost predicate Owned(ms: seq<MonitorState>)
  {
    |ms| == Slots && forall k | 0 <= k < Slots :: Consistent(ms[k]) && ms[k].tiltId in {NoTilt, k + 1}
  }

  /** `CTiltMonitor::Detect`. */
  predicate Detected(m: MonitorState)
  {
    m.tiltId != NoTilt
  }

  /** The headings `UpdateDisplay` writes, one per detected monitor, in slot order. */
  function Headings(ms: seq<MonitorState>): (hs: seq<string>)
    requires forall k | 0 <= k < |ms| :: Consistent(ms[k])
    ensures |hs| <= |ms|
  {
    if ms == [] then []
    else
      var last := ms[|ms| - 1];
      assert Consistent(last);
      Headings(ms[..|ms| - 1]) + if Detected(last) then [ColorName(last.tiltId) + ": "] else []
  }

  /** With no Tilt detected there is nothing to show. */
  lemma {:induction false} HeadingsNoneDetected(ms: seq<MonitorState>)
    requires forall k | 0 <= k < |ms| :: Consistent(ms[k]) && !Detected(ms[k])
    ensures Headings(ms) == []
  {
    if ms != [] {
      HeadingsNoneDetected(ms[..|ms| - 1]);
    }
  }

  /** With every Tilt detected the headings run through the colours in table order. */
  lemma {:induction false} HeadingsAllDetected(ms: seq<MonitorState>)
    requires |ms| <= Slots
    requires forall k | 0 <= k < |ms| :: Consistent(ms[k]) && ms[k].tiltId == k + 1
    ensures Headings(ms) == seq(|ms|, k requires 0 <= k < |ms| => Colors[k] + ": ")
  {
    if ms != [] {
      HeadingsAllDetected(ms[..|ms| - 1]);
    }
  }

  class TiltMonitors {
    /** `m_TiltMonitors`: slot `k` belongs to colour id `k + 1`. */
    const monitors: array<MonitorState>

    ghost predicate Valid()
      reads this, monitors
    {
      monitors.Length == Slots && Owned(monitors[..])
    }

    /** The monitors as constructed; `now` stands for the clock readings of their filters. */
    constructor (now: int64)
      ensures Valid() && fresh(monitors)
      ensures forall k | 0 <= k < Slots :: monitors[k] == InitialMonitor(now)
    {
      monitors := new MonitorState[Slots](_ => InitialMonitor(now));
    }

    /**
     * `OnAdvertisementReceived(watcher, eventArgs)`: decode, route, and update
     * the monitor of the beacon's colour; any other advertisement changes nothing.
     */
    method OnAdvertisementReceived(adv: Advertisement)
      requires Valid()
      modifies monitors
      ensures Valid()
      ensures Routed(adv).None? ==> monitors[..] == old(monitors[..])
      ensures Routed(adv).Some? ==>
        var (k, r) := Routed(adv).value;
        monitors[..] == old(monitors[..])[k := Updated(old(monitors[k]), r.tiltId, r.timestamp, r.rssi,
                                                       r.txPower, r.temperature, r.gravity)]
      ensures forall k | 0 <= k < Slots :: old(Detected(monitors[k])) ==> Detected(monitors[k])
    {
      var decoded := DecodeAdvertisement(adv);
      if decoded.Failure? {
        return;
      }
      var r := decoded.value;
      var slot := Slot(r.tiltId);
      if slot.None? {
        return;
      }
      var k := slot.value;
      monitors[k] := Updated(monitors[k], r.tiltId, r.timestamp, r.rssi, r.txPower, r.temperature, r.gravity);
    }

    /** `Detect()`: whether any monitor has been updated. */
    method Detect() returns (detected: bool)
      requires Valid()
      ensures detected <==> exists k | 0 <= k < Slots :: Detected(monitors[k])
    {
      detected := false;
      for i := 0 to Slots
        invariant detected <==> exists k | 0 <= k < i :: Detected(monitors[k])
      {
        detected := detected || Detected(monitors[i]);
      }
    }

    /** `Emit()`: every monitor emits, in slot order. */
    method Emit()
      requires Valid()
      modifies monitors
      ensures Valid()
      ensures forall k | 0 <= k < Slots :: monitors[k] == Emitted(old(monitors[k]))
      ensures forall k | 0 <= k < Slots :: Detected(monitors[k]) == old(Detected(monitors[k]))
    {
      for i := 0 to Slots
        invariant Owned(monitors[..])
        invariant forall k | 0 <= k < i :: monitors[k] == Emitted(old(monitors[k]))
        invariant forall k | i <= k < Slots :: monitors[k] == old(monitors[k])
      {
        monitors[i] := Emitted(monitors[i]);
      }
    }

    /** The headings of `UpdateDisplay`, without the statistics that follow each. */
    method DisplayHeadings() returns (headings: seq<string>)
      requires Valid()
      ensures headings == Headings(monitors[..])
    {
      headings := [];
      for i := 0 to Slots
        invariant headings == Headings(monitors[..i])
      {
        assert monitors[..i + 1][..i] == monitors[..i];
        var m := monitors[i];
        if Detected(m) {
          headings := headings + [ColorName(m.tiltId) + ": "];
        }
      }
      assert monitors[..Slots] == monitors[..];
    }
  }

  /** Once a slot has been updated it stays detected, whatever arrives later. */
  lemma UpdateKeepsDetection(ms: seq<MonitorState>, adv: Advertisement, k: nat)
    requires Owned(ms) && k < Slots && Detected(ms[k]) && Routed(adv).Some?
    ensures var (j, r) := Routed(adv).value;
      Detected(Updated(ms[j], r.tiltId, r.timestamp, r.rssi, r.txPower, r.temperature, r.gravity))
      && (j == k ==> Updated(ms[j], r.tiltId, r.timestamp, r.rssi, r.txPower, r.temperature, r.gravity).tiltId
                     == ms[k].tiltId)
  {
  }

  /** An update routed to slot `k` leaves that slot holding colour id `k + 1`. */
  lemma RoutedUpdateSetsColour(ms: seq<MonitorState>, adv: Advertisement)
    requires Owned(ms) && Routed(adv).Some?
    ensures var (k, r) := Routed(adv).value;
      var m := Updated(ms[k], r.tiltId, r.timestamp, r.rssi, r.txPower, r.temperature, r.gravity);
      m.tiltId == k + 1 && ColorName(m.tiltId) == Colors[k] && m.path == LogPath(k + 1)
  {
  }

  // ---------------------------------------------------------------- findings

  /** A beacon carrying the frame of colour id `id` with no flags section content. */
  function TiltBeacon(id: bv8): (adv: Advertisement)
    requires id < 16
  {
    Advertisement(NonConnectableUndirected, -60, true, [[], EncodeFrame(id, 0, 0x00, 0x44, 0x03, 0xF8, 0xC5)], 0)
  }

  /**
   * As written, a frame whose high nibble is 0 passes the bound check and is
   * handed over with id 0, for which the colour table has no entry
   * (`m_Color[-1]` in `Begin`).
   */
  lemma AsWrittenAdmitsColourlessId()
    ensures Decode(TiltBeacon(0)).Success?
    ensures var id := Decode(TiltBeacon(0)).value.tiltId;
      AdmitAsWritten(id) == Some(0) && !(1 <= id <= |Colors|)
  {
    DecodeEncoded([], -60, 0, 0, 0, 0x00, 0x44, 0x03, 0xF8, 0xC5);
  }

  /** As written, a Pink Tilt (id 8, the last colour) is dropped by the bound check. */
  lemma AsWrittenDropsPink()
    ensures Decode(TiltBeacon(8)).Success?
    ensures var id := Decode(TiltBeacon(8)).value.tiltId;
      AdmitAsWritten(id).None? && 1 <= id <= |Colors| && ColorName(id) == "Pink"
  {
    DecodeEncoded([], -60, 0, 8, 0, 0x00, 0x44, 0x03, 0xF8, 0xC5);
  }

  /** Corrected, id 0 is dropped and Pink is routed to the last slot. */
  lemma CorrectedRoutesPinkDropsZero()
    ensures Routed(TiltBeacon(0)).None?
    ensures Routed(TiltBeacon(8)).Some? && Routed(TiltBeacon(8)).value.0 == 7
  {
    DecodeEncoded([], -60, 0, 0, 0, 0x00, 0x44, 0x03, 0xF8, 0xC5);
    DecodeEncoded([], -60, 0, 8, 0, 0x00, 0x44, 0x03, 0xF8, 0xC5);
  }
}
