/**
 * The DHT humidity and temperature sensor read through the RMT receiver: the
 * 41 received pulses become 40 bits (a long first level is a 1), packed most
 * significant bit first into five bytes; the fifth byte is a checksum of the
 * other four. Humidity and temperature are computed from the bytes (over
 * reals), and `read` attempts a transfer at most once every two seconds.
 */
module Dht {
  import opened Words

  /** Pulses the RMT receiver must deliver: the sensor's response, then 40 data bits. */
  const ITEMS: nat := 41
  /** A pulse whose first level lasts at least this many microseconds is a 1. */
  const ONE_THRESHOLD: nat := 33
  /** Milliseconds that must pass between two transfers. */
  const SENSOR_TIMEOUT_MS: nat := 2000

  /** The bit a pulse encodes, given the duration of its first level (`duration0`). */
  function ItemBit(duration: nat): (b: bv8)
    ensures b <= 1 && (b == 1 <==> duration >= ONE_THRESHOLD)
  {
    if duration < ONE_THRESHOLD then 0 else 1
  }

  /** Bits shifted into a byte from the right, one per pulse, so the first pulse ends up most significant. */
  function PackBits(durations: seq<nat>): bv8
  {
    if durations == [] then 0 else (PackBits(durations[..|durations| - 1]) << 1) | ItemBit(durations[|durations| - 1])
  }

  /** Of the last n <= 8 pulses packed, pulse j is bit n - 1 - j. */
  lemma {:induction false} PackBitsAt(durations: seq<nat>, j: nat)
    requires j < |durations| <= 8
    ensures (PackBits(durations) >> (|durations| - 1 - j)) & 1 == ItemBit(durations[j])
  {
    var prefix := durations[..|durations| - 1];
    var b := ItemBit(durations[|durations| - 1]);
    if j == |durations| - 1 {
      ShiftInBit(PackBits(prefix), b, 0);
    } else {
      PackBitsAt(prefix, j);
      ShiftInBit(PackBits(prefix), b, |durations| - 2 - j);
    }
  }

  lemma ShiftInBit(x: bv8, b: bv8, n: nat)
    requires b <= 1 && n < 7
    ensures (((x << 1) | b) >> (n + 1)) & 1 == (x >> n) & 1
    ensures ((x << 1) | b) & 1 == b
  {
  }

  /** The first pulse of byte m. */
  function First(m: nat): nat { 8 * m + 1 }

  /** The five bytes of a transfer: byte m collects pulses 8m+1 .. 8m+8; pulse 0 is the sensor's response. */
  function Bytes(durations: seq<nat>): (bytes: seq<bv8>)
    requires |durations| == ITEMS
    ensures |bytes| == 5
  {
    seq(5, m requires 0 <= m < 5 => PackBits(durations[First(m)..First(m) + 8]))
  }

  /** The end of the pulses of byte m shifted in once pulses 1 .. i - 1 are. */
  function Upto(m: nat, i: nat): nat
  {
    if i < First(m) then First(m) else if i > First(m) + 8 then First(m) + 8 else i
  }

  /** The bit loop of `recieve_and_decode`: pulse i is shifted into byte (i - 1) / 8 of a zeroed buffer. */
  method Collect(durations: seq<nat>) returns (data: array<bv8>)
    requires |durations| == ITEMS
    ensures fresh(data) && data.Length == 5 && data[..] == Bytes(durations)
  {
    data := new bv8[5];
    data[0], data[1], data[2], data[3], data[4] := 0, 0, 0, 0, 0;
    PartialStart(durations);
    for i := 1 to ITEMS
      invariant data[..] == Partial(durations, i)
    {
      var m := (i - 1) / 8;
      PartialStep(durations, i);
      data[m] := (data[m] << 1) | ItemBit(durations[i]);
    }
    PartialDone(durations);
  }

  /** The five bytes once pulses 1 .. i - 1 are shifted in. */
  ghost function Partial(durations: seq<nat>, i: nat): (bytes: seq<bv8>)
    requires |durations| == ITEMS && i <= ITEMS
    ensures |bytes| == 5
  {
    seq(5, m requires 0 <= m < 5 => PackBits(durations[First(m)..Upto(m, i)]))
  }

  /** Before the loop no pulse is in: five zero bytes. */
  lemma PartialStart(durations: seq<nat>)
    requires |durations| == ITEMS
    ensures Partial(durations, 1) == [0, 0, 0, 0, 0]
  {
    forall m | 0 <= m < 5
      ensures Partial(durations, 1)[m] == 0
    {
      assert durations[First(m)..Upto(m, 1)] == [];
    }
  }

  /** Pulse i changes its own byte only, shifting its bit in from the right. */
  lemma PartialStep(durations: seq<nat>, i: nat)
    requires |durations| == ITEMS && 1 <= i < ITEMS
    ensures var m := (i - 1) / 8;
      Partial(durations, i + 1) == Partial(durations, i)[m := (Partial(durations, i)[m] << 1) | ItemBit(durations[i])]
  {
    var m := (i - 1) / 8;
    ShiftPulse(durations, i);
    forall m' | 0 <= m' < 5 && m' != m
      ensures Upto(m', i + 1) == Upto(m', i)
    {
      OtherByte(i, m');
    }
  }

  /** After the last pulse every byte has its eight pulses. */
  lemma PartialDone(durations: seq<nat>)
    requires |durations| == ITEMS
    ensures Partial(durations, ITEMS) == Bytes(durations)
  {
    forall m | 0 <= m < 5
      ensures Partial(durations, ITEMS)[m] == Bytes(durations)[m]
    {
      assert Upto(m, ITEMS) == First(m) + 8;
    }
  }

  /** Pulse i leaves the bytes other than its own alone. */
  lemma OtherByte(i: nat, m: nat)
    requires 1 <= i && m != (i - 1) / 8
    ensures Upto(m, i + 1) == Upto(m, i)
  {
  }

  /** Pulse i extends the pulses of its own byte by one. */
  lemma ShiftPulse(durations: seq<nat>, i: nat)
    requires |durations| == ITEMS && 1 <= i < ITEMS
    ensures Upto((i - 1) / 8, i + 1) == i + 1 && Upto((i - 1) / 8, i) == i
    ensures PackBits(durations[First((i - 1) / 8)..i + 1])
         == (PackBits(durations[First((i - 1) / 8)..i]) << 1) | ItemBit(durations[i])
  {
    var m := (i - 1) / 8;
    assert durations[First(m)..i + 1][..i - First(m)] == durations[First(m)..i];
  }

  /** Bit 7 - k of byte m is the bit of pulse 8m + 1 + k: most significant bit first. */
  lemma BytesMsbFirst(durations: seq<nat>, m: nat, k: nat)
    requires |durations| == ITEMS && m < 5 && k < 8
    ensures (Bytes(durations)[m] >> (7 - k)) & 1 == ItemBit(durations[8 * m + 1 + k])
  {
    PackBitsAt(durations[First(m)..First(m) + 8], k);
  }

  /** Durations a sensor sends for a 0 bit and for a 1 bit, and for its response. */
  const ZERO_PULSE: nat := 26
  const ONE_PULSE: nat := 70
  const RESPONSE_PULSE: nat := 80

  /** The pulse a sensor sends for bit i of a byte. */
  function PulseFor(byte: bv8, i: nat): nat
    requires i < 8
  {
    if (byte >> i) & 1 == 1 then ONE_PULSE else ZERO_PULSE
  }

  /** The pulses of one byte, most significant bit first. */
  function PulsesOf(byte: bv8): (pulses: seq<nat>)
    ensures |pulses| == 8
  {
    seq(8, k requires 0 <= k < 8 => PulseFor(byte, 7 - k))
  }

  /** The pulses of a whole transfer: the response, then the five bytes. */
  function Transfer(bytes: seq<bv8>): (items: seq<nat>)
    requires |bytes| == 5
    ensures |items| == ITEMS
  {
    [RESPONSE_PULSE] + PulsesOf(bytes[0]) + PulsesOf(bytes[1]) + PulsesOf(bytes[2]) + PulsesOf(bytes[3])
      + PulsesOf(bytes[4])
  }

  /** Packing one more pulse shifts it in at the bottom. */
  lemma PackStep(pulses: seq<nat>, n: nat)
    requires 0 < n <= |pulses|
    ensures PackBits(pulses[..n]) == (PackBits(pulses[..n - 1]) << 1) | ItemBit(pulses[n - 1])
  {
    assert pulses[..n][..n - 1] == pulses[..n - 1];
  }

  lemma ShiftOut(byte: bv8)
    ensures byte >> 8 == 0
  {
  }

  /** The bits of a byte above bit j, moved down. */
  function Above(byte: bv8, j: nat): bv8
    requires j <= 8
  {
    byte >> j
  }

  /** The pulse sent for a bit decodes to that bit. */
  lemma PulseDecodes(byte: bv8, k: nat)
    requires k < 8
    ensures ItemBit(PulseFor(byte, k)) == Above(byte, k) & 1
  {
  }

  /** Shifting bit k back in below the bits above it gives the bits from k up. */
  lemma ShiftBack(byte: bv8, k: nat)
    requires k < 8
    ensures (Above(byte, k + 1) << 1) | (Above(byte, k) & 1) == Above(byte, k)
  {
    var high, low := byte >> (k + 1), byte >> k;
    assert Above(byte, k + 1) == high && Above(byte, k) == low;
    assert (high << 1) | (low & 1) == low;
  }

  /** The first n pulses of a byte pack to its top n bits. */
  lemma {:induction false} PackPrefix(byte: bv8, n: nat)
    requires n <= 8
    ensures PackBits(PulsesOf(byte)[..n]) == Above(byte, 8 - n)
  {
    var pulses := PulsesOf(byte);
    if n == 0 {
      assert pulses[..0] == [];
      ShiftOut(byte);
      assert Above(byte, 8) == 0;
    } else {
      var k := 8 - n;
      PackStep(pulses, n);
      assert pulses[n - 1] == PulseFor(byte, k);
      PulseDecodes(byte, k);
      PackPrefix(byte, n - 1);
      assert 8 - (n - 1) == k + 1;
      ShiftBack(byte, k);
    }
  }

  /** Decoding the pulses a sensor sends for five bytes gives those bytes back. */
  lemma TransferRoundTrip(bytes: seq<bv8>)
    requires |bytes| == 5
    ensures Bytes(Transfer(bytes)) == bytes
  {
    var items := Transfer(bytes);
    forall m | 0 <= m < 5
      ensures Bytes(items)[m] == bytes[m]
    {
      TransferSlice(bytes, m);
      ByteRoundTrip(bytes[m]);
    }
  }

  /** Pulses 8m+1 .. 8m+8 of a transfer are the pulses of byte m. */
  lemma TransferSlice(bytes: seq<bv8>, m: nat)
    requires |bytes| == 5 && m < 5
    ensures Transfer(bytes)[First(m)..First(m) + 8] == PulsesOf(bytes[m])
  {
    var items, pulses := Transfer(bytes), PulsesOf(bytes[m]);
    forall j | 0 <= j < 8
      ensures items[First(m) + j] == pulses[j]
    {
    }
  }

  /** The eight pulses of a byte pack back to that byte. */
  lemma ByteRoundTrip(byte: bv8)
    ensures PackBits(PulsesOf(byte)) == byte
  {
    PackPrefix(byte, 8);
    assert PulsesOf(byte)[..8] == PulsesOf(byte);
    assert Above(byte, 0) == byte;
  }

  /** The fifth byte is the sum of the first four, modulo 256. */
  predicate ChecksumOk(bytes: seq<bv8>)
    requires |bytes| == 5
  {
    bytes[4] == bytes[0] + bytes[1] + bytes[2] + bytes[3]
  }

  datatype Reading = Reading(humidity: real, temperature: real)

  /** Relative humidity: integral byte plus a tenth of the decimal byte. */
  function Humidity(bytes: seq<bv8>): real
    requires |bytes| == 5
  {
    (bytes[0] as int) as real + (bytes[1] as int) as real / 10.0
  }

  /**
   * Temperature: the integral byte, replaced by -1 minus itself when bit 7 of the decimal byte is set,
   * plus a tenth of the decimal byte's low four bits.
   */
  function Temperature(bytes: seq<bv8>): real
    requires |bytes| == 5
  {
    var whole := (bytes[2] as int) as real;
    var signed := if bytes[3] & 0x80 != 0 then -1.0 - whole else whole;
    signed + ((bytes[3] & 0x0F) as int) as real / 10.0
  }

  /** Bit 7 of the decimal byte is the sign, as long as the tenths are a decimal digit. */
  lemma TemperatureSign(bytes: seq<bv8>)
    requires |bytes| == 5
    ensures bytes[3] & 0x80 == 0 ==> Temperature(bytes) >= 0.0
    ensures bytes[3] & 0x80 != 0 && bytes[3] & 0x0F <= 9 ==> Temperature(bytes) < 0.0
  {
  }

  /** Humidity is never negative and a whole reading with no tenths is exact. */
  lemma HumidityRange(bytes: seq<bv8>)
    requires |bytes| == 5
    ensures 0.0 <= Humidity(bytes) <= 255.0 + 25.5
    ensures bytes[1] == 0 ==> Humidity(bytes) == (bytes[0] as int) as real
  {
  }

  /**
   * `recieve_and_decode` as a value: no receiver, no pulses or not exactly 41 of them, or a checksum
   * mismatch fail; otherwise the reading.
   */
  function Decode(hasReceiver: bool, items: Option<seq<nat>>): (r: Option<Reading>)
    ensures r.Some? <==> hasReceiver && items.Some? && |items.value| == ITEMS && ChecksumOk(Bytes(items.value))
  {
    if !hasReceiver || items.None? || |items.value| != ITEMS then None
    else
      var bytes := Bytes(items.value);
      if !ChecksumOk(bytes) then None else Some(Reading(Humidity(bytes), Temperature(bytes)))
  }

  /** A well-formed transfer decodes to the reading of its bytes; one with a wrong checksum is refused. */
  lemma DecodeTransfer(bytes: seq<bv8>)
    requires |bytes| == 5
    ensures ChecksumOk(bytes) ==> Decode(true, Some(Transfer(bytes))) == Some(Reading(Humidity(bytes), Temperature(bytes)))
    ensures !ChecksumOk(bytes) ==> Decode(true, Some(Transfer(bytes))) == None
  {
    TransferRoundTrip(bytes);
  }

  /** The gate of `read`: `current_time - last_read > 2000` in int, the clock read into an int. */
  function Due(lastRead: int32, now: uint32): bool
  {
    AsInt32(Wrap32(AsInt32(now) - lastRead)) > SENSOR_TIMEOUT_MS
  }

  /** Before the clock passes 2^31 ms, the gate is the plain difference. */
  lemma DueIsDifference(lastRead: int32, now: uint32)
    requires -1 <= lastRead && now < 0x8000_0000 && now - lastRead < 0x8000_0000
    ensures Due(lastRead, now) <==> now - lastRead > SENSOR_TIMEOUT_MS
  {
  }

  /** last_read starts at -1, so the first attempt waits until the clock reaches 2000 ms. */
  lemma FirstReadWaits(now: uint32)
    requires now < 0x7FFF_FFFF
    ensures Due(-1, now) <==> now >= SENSOR_TIMEOUT_MS
  {
    DueIsDifference(-1, now);
  }

  class DhtSensor {
    /** Whether the RMT receiver's ring buffer was set up. */
    const hasReceiver: bool
    var humidity: real
    var temperature: real
    var lastRead: int32

    constructor (receiverReady: bool)
      ensures hasReceiver == receiverReady && lastRead == -1 && humidity == 0.0 && temperature == 0.0
    {
      hasReceiver := receiverReady;
      humidity := 0.0;
      temperature := 0.0;
      lastRead := -1;
    }

    /**
     * `recieve_and_decode`, the pulses (the durations of their first levels, in microseconds) given: the bits are
     * shifted into a five-byte buffer, then the checksum is checked and the values set.
     */
    method ReceiveAndDecode(items: Option<seq<nat>>) returns (ok: bool)
      modifies this
      ensures lastRead == old(lastRead)
      ensures ok <==> Decode(hasReceiver, items).Some?
      ensures ok ==> Reading(humidity, temperature) == Decode(hasReceiver, items).value
      ensures !ok ==> humidity == old(humidity) && temperature == old(temperature)
    {
      if !hasReceiver {
        return false;
      }
      if items.None? || |items.value| != ITEMS {
        return false;
      }
      var durations := items.value;
      var data := Collect(durations);
      var bytes := data[..];
      if !ChecksumOk(bytes) {
        return false;
      }
      humidity := (data[0] as int) as real + (data[1] as int) as real / 10.0;
      temperature := (data[2] as int) as real;
      if data[3] & 0x80 != 0 {
        temperature := -1.0 - temperature;
      }
      temperature := temperature + ((data[3] & 0x0F) as int) as real / 10.0;
      ok := true;
    }

    /**
     * `read` at clock `now`: when more than two seconds have passed since the last attempt, records this
     * attempt and decodes; otherwise fails without touching the sensor.
     */
    method Read(now: uint32, items: Option<seq<nat>>) returns (ok: bool)
      modifies this
      ensures Due(old(lastRead), now) ==> lastRead == AsInt32(now)
      ensures !Due(old(lastRead), now) ==> lastRead == old(lastRead)
      ensures ok <==> Due(old(lastRead), now) && Decode(hasReceiver, items).Some?
      ensures ok ==> Reading(humidity, temperature) == Decode(hasReceiver, items).value
      ensures !ok ==> humidity == old(humidity) && temperature == old(temperature)
    {
      var currentTime := AsInt32(now);
      if AsInt32(Wrap32(currentTime - lastRead)) > SENSOR_TIMEOUT_MS {
        lastRead := currentTime;
        ok := ReceiveAndDecode(items);
        return;
      }
      ok := false;
    }
  }

  /** Two attempts that both pass the gate, with no wrap of the clock, are more than two seconds apart. */
  lemma AttemptsSpaced(first: uint32, second: uint32)
    requires first <= second < 0x8000_0000
    ensures Due(AsInt32(first), second) <==> second - first > SENSOR_TIMEOUT_MS
  {
    DueIsDifference(AsInt32(first), second);
  }
}
