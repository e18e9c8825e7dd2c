/**
 * The beacon payload decoder of `CTiltMonitors::OnAdvertisementReceived`: an
 * exact-template matcher for the Apple iBeacon manufacturer-data frame a Tilt
 * hydrometer broadcasts (company id 0x004C, type 0x02, length 0x15, a 16-byte
 * UUID whose eighth byte carries the Tilt's colour in its high nibble, then a
 * big-endian major (temperature), a big-endian minor (gravity x 1000) and one
 * transmit-power byte). `Decode` states the acceptance rule; the method
 * `DecodeAdvertisement` is the source's loop with its early returns, proved
 * equal to it. The range check on the id belongs to the router (module Registry).
 */
module Decoder {
  import opened Ints
  import opened Wrappers

  /** `BluetoothLEAdvertisementType`. */
  datatype AdvertisementType =
    | ConnectableUndirected
    | ConnectableDirected
    | ScannableUndirected
    | NonConnectableUndirected
    | ScanResponse
    | Extended

  /**
   * What the radio stack delivers: the advertisement's type, its raw signal
   * strength, whether it carries manufacturer data under company id 0x004C,
   * its data sections in order and its timestamp in ticks.
   */
  datatype Advertisement = Advertisement(
    kind: AdvertisementType,
    rssi: int16,
    hasAppleData: bool,
    sections: seq<seq<bv8>>,
    timestamp: int64)

  /** The arguments the router passes on to one monitor. */
  datatype Reading = Reading(
    tiltId: int,
    timestamp: int64,
    rssi: int16,
    txPower: int32,
    temperature: int32,
    gravity: int32)

  /** Why an advertisement was dropped; the source silently returns in each case. */
  datatype Rejection =
    | NotABeacon
    | SignalLost
    | WrongVendor
    | OversizedSection
    | TemplateMismatch
    | UnexpectedSectionCount

  /** The raw signal strength that means "signal lost". */
  const SignalLostDbm: int := -127
  /** The size of the copy buffer every section must fit in. */
  const MaxSectionLength: nat := 256
  /** The length of the Tilt's manufacturer-data section. */
  const TiltSectionLength: nat := 25
  /** Bytes 0 to 6: company id 0x004C little-endian, type 0x02, length 0x15, UUID bytes A4 95 BB. */
  const IBeaconPrefix: seq<bv8> := [0x4C, 0x00, 0x02, 0x15, 0xA4, 0x95, 0xBB]
  /** Bytes 8 to 19: the rest of the Tilt UUID. Byte 7 is not compared. */
  const TiltUuidTail: seq<bv8> := [0xC5, 0xB1, 0x4B, 0x44, 0xB5, 0x12, 0x13, 0x70, 0xF0, 0x2D, 0x74, 0xDE]

  /** The second data section is a Tilt frame. */
  predicate MatchesTemplate(p: seq<bv8>)
  {
    |p| == TiltSectionLength && p[..7] == IBeaconPrefix && p[8..20] == TiltUuidTail
  }

  /** A big-endian 16-bit field, as `hi * 256 + lo` on `int`. */
  function BigEndian16(hi: bv8, lo: bv8): (n: int)
    ensures 0 <= n < 0x1_0000
    ensures n / 256 == hi as int && n % 256 == lo as int
  {
    hi as int * 256 + lo as int
  }

  /** The high nibble of a byte, as a number. */
  function HighNibbleOf(b: bv8): (n: int)
    ensures 0 <= n < 16
  {
    (b >> 4) as int
  }

  /** A byte as an unsigned number. */
  function ByteValue(b: bv8): (n: int)
    ensures 0 <= n < 256
  {
    b as int
  }

  /** The reading a matching section yields. */
  function ReadingOf(p: seq<bv8>, timestamp: int64, rssi: int16): (r: Reading)
    requires |p| == TiltSectionLength
    ensures r.tiltId == HighNibbleOf(p[7]) && 0 <= r.tiltId < 16
    ensures 0 <= r.temperature < 0x1_0000 && 0 <= r.gravity < 0x1_0000 && 0 <= r.txPower < 256
    ensures r.timestamp == timestamp && r.rssi == rssi
  {
    Reading(HighNibbleOf(p[7]), timestamp, rssi, ByteValue(p[24]),
            BigEndian16(p[20], p[21]), BigEndian16(p[22], p[23]))
  }

  /**
   * The acceptance rule, in the order the source checks it: the type, the
   * signal, the vendor; then the first failing section decides (every section
   * must fit in 256 bytes, and the second must match the template); then there
   * must have been exactly two sections.
   */
  function Decode(adv: Advertisement): (r: Result<Reading, Rejection>)
  {
    var secs := adv.sections;
    if adv.kind != NonConnectableUndirected then Failure(NotABeacon)
    else if adv.rssi == SignalLostDbm then Failure(SignalLost)
    else if !adv.hasAppleData then Failure(WrongVendor)
    else if |secs| >= 2 && |secs[0]| <= MaxSectionLength && |secs[1]| <= MaxSectionLength
            && !MatchesTemplate(secs[1]) then Failure(TemplateMismatch)
    else if exists k | 0 <= k < |secs| :: |secs[k]| > MaxSectionLength then Failure(OversizedSection)
    else if |secs| != 2 then Failure(UnexpectedSectionCount)
    else Success(ReadingOf(secs[1], adv.timestamp, adv.rssi))
  }

  /** The decoding loop of `CTiltMonitors::OnAdvertisementReceived`, up to the id check. */
  method DecodeAdvertisement(adv: Advertisement) returns (r: Result<Reading, Rejection>)
    ensures r == Decode(adv)
  {
    if adv.kind != NonConnectableUndirected {
      return Failure(NotABeacon);
    }
    var rssi := adv.rssi;
    if rssi == SignalLostDbm {
      return Failure(SignalLost);
    }
    if !adv.hasAppleData {
      return Failure(WrongVendor);
    }
    var sections := adv.sections;
    var payloadIndex := 0;
    var tiltId := 99;
    var temperature: int32 := 9999;
    var gravity: int32 := 9999;
    var txPower: int32 := 0;
    for i := 0 to |sections|
      invariant payloadIndex == i
      invariant forall k | 0 <= k < i :: |sections[k]| <= MaxSectionLength
      invariant i >= 2 ==> MatchesTemplate(sections[1])
      invariant i >= 2 ==>
        Reading(tiltId, adv.timestamp, rssi, txPower, temperature, gravity)
        == ReadingOf(sections[1], adv.timestamp, rssi)
    {
      var data := sections[i];
      if |data| > MaxSectionLength {
        return Failure(OversizedSection);
      }
      if payloadIndex == 1 {
        if |data| != TiltSectionLength {
          return Failure(TemplateMismatch);
        }
        if data[..7] != IBeaconPrefix {
          return Failure(TemplateMismatch);
        }
        tiltId := (data[7] >> 4) as int;
        if data[8..20] != TiltUuidTail {
          return Failure(TemplateMismatch);
        }
        temperature := data[20] as int32;
        temperature := temperature * 256;
        temperature := temperature + data[21] as int32;
        gravity := data[22] as int32;
        gravity := gravity * 256;
        gravity := gravity + data[23] as int32;
        txPower := data[24] as int32;
      }
      payloadIndex := payloadIndex + 1;
    }
    if payloadIndex != 2 {
      return Failure(UnexpectedSectionCount);
    }
    return Success(Reading(tiltId, adv.timestamp, rssi, txPower, temperature, gravity));
  }

  // --------------------------------------------------------------- properties

  /**
   * An advertisement is accepted exactly when it is a non-connectable undirected
   * beacon with a live signal and Apple data, carrying two sections of which the
   * first fits in 256 bytes and the second is a Tilt frame; the reading then
   * comes from that frame.
   */
  lemma AcceptedExactly(adv: Advertisement)
    ensures Decode(adv).Success? <==>
      && adv.kind == NonConnectableUndirected && adv.rssi != SignalLostDbm && adv.hasAppleData
      && |adv.sections| == 2 && |adv.sections[0]| <= MaxSectionLength
      && MatchesTemplate(adv.sections[1])
    ensures Decode(adv).Success? ==>
      Decode(adv).value == ReadingOf(adv.sections[1], adv.timestamp, adv.rssi)
  {
    var secs := adv.sections;
    if |secs| == 2 && |secs[0]| <= MaxSectionLength && MatchesTemplate(secs[1]) {
      assert forall k | 0 <= k < |secs| :: |secs[k]| <= MaxSectionLength by {
        forall k | 0 <= k < |secs| ensures |secs[k]| <= MaxSectionLength {
          assert k == 0 || k == 1;
        }
      }
    }
  }

  /**
   * The type, the signal and the vendor are checked before any section is
   * looked at: when one of them fails, the sections do not matter.
   */
  lemma HeaderChecksFirst(adv: Advertisement, other: seq<seq<bv8>>)
    requires adv.kind != NonConnectableUndirected || adv.rssi == SignalLostDbm || !adv.hasAppleData
    ensures Decode(adv) == Decode(adv.(sections := other))
    ensures Decode(adv) == Failure(
      if adv.kind != NonConnectableUndirected then NotABeacon
      else if adv.rssi == SignalLostDbm then SignalLost
      else WrongVendor)
  {
  }

  /** A section over 256 bytes rejects the advertisement, whatever its position. */
  lemma OversizedSectionRejects(adv: Advertisement, k: nat)
    requires k < |adv.sections| && |adv.sections[k]| > MaxSectionLength
    ensures Decode(adv).Failure?
  {
    AcceptedExactly(adv);
  }

  /** Any template byte that differs rejects the advertisement. */
  lemma TemplateByteRejects(adv: Advertisement, offset: nat)
    requires |adv.sections| >= 2 && |adv.sections[1]| == TiltSectionLength
    requires (offset < 7 && adv.sections[1][offset] != IBeaconPrefix[offset])
          || (8 <= offset < 20 && adv.sections[1][offset] != TiltUuidTail[offset - 8])
    ensures Decode(adv).Failure?
  {
    AcceptedExactly(adv);
    var p := adv.sections[1];
    if offset < 7 {
      assert p[..7][offset] == p[offset];
    } else {
      assert p[8..20][offset - 8] == p[offset];
    }
  }

  /** Only the high nibble of byte 7 matters: its low nibble never changes the outcome. */
  lemma LowNibbleIgnored(adv: Advertisement, b: bv8)
    requires |adv.sections| >= 2 && |adv.sections[1]| == TiltSectionLength
    requires b >> 4 == adv.sections[1][7] >> 4
    ensures Decode(adv) == Decode(adv.(sections := adv.sections[1 := adv.sections[1][7 := b]]))
  {
    var p := adv.sections[1];
    var q := p[7 := b];
    assert q[..7] == p[..7] && q[8..20] == p[8..20];
    assert MatchesTemplate(q) <==> MatchesTemplate(p);
    var adv' := adv.(sections := adv.sections[1 := q]);
    assert forall k | 0 <= k < |adv.sections| :: |adv'.sections[k]| == |adv.sections[k]|;
    if MatchesTemplate(p) {
      assert ReadingOf(q, adv.timestamp, adv.rssi) == ReadingOf(p, adv.timestamp, adv.rssi);
    }
  }

  // -------------------------------------------------------------- round trip

  /**
   * The Tilt frame a beacon with colour id `id` sends: `low` is the ignored low
   * nibble of byte 7, then come the two bytes of the temperature, the two bytes
   * of the gravity and the transmit power.
   */
  function EncodeFrame(id: bv8, low: bv8, tempHi: bv8, tempLo: bv8, gravHi: bv8, gravLo: bv8, txPower: bv8): (p: seq<bv8>)
    requires id < 16 && low < 16
    ensures |p| == TiltSectionLength
    ensures p[..7] == IBeaconPrefix && p[8..20] == TiltUuidTail
    ensures p[7] == (id << 4) | low
    ensures p[20] == tempHi && p[21] == tempLo && p[22] == gravHi && p[23] == gravLo && p[24] == txPower
  {
    IBeaconPrefix + [(id << 4) | low] + TiltUuidTail + [tempHi, tempLo, gravHi, gravLo, txPower]
  }

  lemma HighNibble(id: bv8, low: bv8)
    requires id < 16 && low < 16
    ensures ((id << 4) | low) >> 4 == id
  {
  }

  /** Decoding an encoded frame gives back the fields that were encoded. */
  lemma DecodeEncoded(flags: seq<bv8>, rssi: int16, timestamp: int64,
                      id: bv8, low: bv8, tempHi: bv8, tempLo: bv8, gravHi: bv8, gravLo: bv8, txPower: bv8)
    requires id < 16 && low < 16
    requires |flags| <= MaxSectionLength && rssi != SignalLostDbm
    ensures Decode(Advertisement(NonConnectableUndirected, rssi, true,
                                 [flags, EncodeFrame(id, low, tempHi, tempLo, gravHi, gravLo, txPower)], timestamp))
            == Success(Reading(id as int, timestamp, rssi, txPower as int,
                               BigEndian16(tempHi, tempLo), BigEndian16(gravHi, gravLo)))
  {
    var p := EncodeFrame(id, low, tempHi, tempLo, gravHi, gravLo, txPower);
    HighNibble(id, low);
    AcceptedExactly(Advertisement(NonConnectableUndirected, rssi, true, [flags, p], timestamp));
  }

  /** A Black Tilt (id 3) at 44 degrees and gravity 1.000 (0x002C, 0x03E8). */
  lemma BlackTiltExample(flags: seq<bv8>, timestamp: int64)
    requires |flags| <= MaxSectionLength
    ensures Decode(Advertisement(NonConnectableUndirected, -60, true,
                                 [flags, IBeaconPrefix + [0x30] + TiltUuidTail + [0x00, 0x2C, 0x03, 0xE8, 0xC5]],
                                 timestamp))
            == Success(Reading(3, timestamp, -60, 0xC5, 44, 1000))
  {
    assert EncodeFrame(3, 0, 0x00, 0x2C, 0x03, 0xE8, 0xC5)
        == IBeaconPrefix + [0x30] + TiltUuidTail + [0x00, 0x2C, 0x03, 0xE8, 0xC5];
    DecodeEncoded(flags, -60, timestamp, 3, 0, 0x00, 0x2C, 0x03, 0xE8, 0xC5);
  }
}
