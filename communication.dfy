/**
 * The two records the device reports, `Data` (a raw sample) and `Prediction`,
 * and the packed little-endian byte images that are sent whole and that the
 * server unpacks with the formats "<HHfffffff" and "<fi".
 */
module Communication {
  import opened Words
  import opened Float32

  /** One sensor sample, field for field as the packed struct. */
  datatype Data = Data(
    co2Ppm: uint16,
    tvocPpm: uint16,
    bmp280Temperature: Float,
    bmp280Pressure: Float,
    mlxObjectTemperature: Float,
    mlxAmbientTemperature: Float,
    humidityDht: Float,
    temperatureDht: Float,
    pirUptime: Float)

  /** What `new Data()` holds: every field zero (the all-zero pattern is +0.0). */
  const ZeroData: Data := Data(0, 0, 0, 0, 0, 0, 0, 0, 0)

  /** The latest model output: a count (float) and a ventilation tag (int32_t). */
  datatype Prediction = Prediction(humanCount: Float, ventilationTag: int32)

  /** The member initialisers of `Prediction`: 0.0f and 1. */
  const DefaultPrediction: Prediction := Prediction(0, 1)

  const DATA_FIELDS: nat := 9
  const DATA_SIZE: nat := 32
  const PREDICTION_SIZE: nat := 8

  /** Byte width of field k of `Data`: two uint16_t, then seven float. */
  function FieldWidth(k: nat): nat
  {
    if k < 2 then 2 else 4
  }

  /** Byte offset of each field of the packed `Data`. */
  const DataOffsets: seq<nat> := [0, 2, 4, 8, 12, 16, 20, 24, 28]

  /** The fields of a sample in declaration order, as unsigned integers (floats as their patterns). */
  function Fields(d: Data): (r: seq<nat>)
    ensures |r| == DATA_FIELDS
  {
    [d.co2Ppm, d.tvocPpm, d.bmp280Temperature, d.bmp280Pressure, d.mlxObjectTemperature,
     d.mlxAmbientTemperature, d.humidityDht, d.temperatureDht, d.pirUptime]
  }

  /** Little-endian image of a 16-bit value: reading it back gives the value. */
  function Le16(x: uint16): (r: seq<uint8>)
    ensures |r| == 2 && GetLe16(r, 0) == x
  {
    var lo, hi := x % 0x100, x / 0x100;
    ModUnique(x, 0x100, hi, lo);
    [lo, hi]
  }

  /** Little-endian image of a 32-bit value: reading it back gives the value. */
  function Le32(x: uint32): (r: seq<uint8>)
    ensures |r| == 4 && GetLe32(r, 0) == x
  {
    var lo, hi := x % 0x1_0000, x / 0x1_0000;
    ModUnique(x, 0x1_0000, hi, lo);
    var r := Le16(lo) + Le16(hi);
    assert GetLe32(r, 0) == GetLe16(r, 0) + 0x1_0000 * GetLe16(r, 2);
    r
  }

  /** The bytes of the packed struct, as `sendData` hands them to the transport. */
  function DataImage(d: Data): (r: seq<uint8>)
    ensures |r| == DATA_SIZE
  {
    Le16(d.co2Ppm) + Le16(d.tvocPpm) + Le32(d.bmp280Temperature) + Le32(d.bmp280Pressure)
    + Le32(d.mlxObjectTemperature) + Le32(d.mlxAmbientTemperature) + Le32(d.humidityDht)
    + Le32(d.temperatureDht) + Le32(d.pirUptime)
  }

  /** The server's unpacking with "<HHfffffff": it needs at least 32 bytes and ignores any after them. */
  function UnpackData(payload: seq<uint8>): (r: Option<Data>)
    ensures r.Some? <==> |payload| >= DATA_SIZE
  {
    if |payload| < DATA_SIZE then None
    else Some(Data(GetLe16(payload, 0), GetLe16(payload, 2), GetLe32(payload, 4), GetLe32(payload, 8),
                   GetLe32(payload, 12), GetLe32(payload, 16), GetLe32(payload, 20),
                   GetLe32(payload, 24), GetLe32(payload, 28)))
  }

  /** The fields are laid out back to back from offset 0, with no padding, and fill 32 bytes. */
  lemma DataIsPacked()
    ensures |DataOffsets| == DATA_FIELDS && DataOffsets[0] == 0
    ensures forall k :: 0 <= k < DATA_FIELDS - 1 ==> DataOffsets[k + 1] == DataOffsets[k] + FieldWidth(k)
    ensures DataOffsets[DATA_FIELDS - 1] + FieldWidth(DATA_FIELDS - 1) == DATA_SIZE
  {
  }

  /** Field k of a sample sits, little-endian, at DataOffsets[k] of its image. */
  lemma {:induction false} DataFieldAt(d: Data, k: nat)
    requires k < DATA_FIELDS
    ensures DataOffsets[k] + FieldWidth(k) <= DATA_SIZE
    ensures FieldWidth(k) == 2 ==> GetLe16(DataImage(d), DataOffsets[k]) == Fields(d)[k]
    ensures FieldWidth(k) == 4 ==> GetLe32(DataImage(d), DataOffsets[k]) == Fields(d)[k]
  {
    var img := DataImage(d);
    var parts := [Le16(d.co2Ppm), Le16(d.tvocPpm), Le32(d.bmp280Temperature), Le32(d.bmp280Pressure),
                  Le32(d.mlxObjectTemperature), Le32(d.mlxAmbientTemperature), Le32(d.humidityDht),
                  Le32(d.temperatureDht), Le32(d.pirUptime)];
    var at, part := DataOffsets[k], parts[k];
    forall j | 0 <= j < FieldWidth(k)
      ensures img[at + j] == part[j]
    {
    }
    if FieldWidth(k) == 2 {
      assert GetLe16(img, at) == GetLe16(part, 0);
    } else {
      assert GetLe32(img, at) == GetLe32(part, 0);
    }
  }

  /** The server recovers exactly the sample the device sent. */
  lemma DataRoundTrip(d: Data)
    ensures UnpackData(DataImage(d)) == Some(d)
  {
    forall k | 0 <= k < DATA_FIELDS {
      DataFieldAt(d, k);
    }
    assert Fields(UnpackData(DataImage(d)).value) == Fields(d);
  }

  /** The bytes of the packed `Prediction`: the count's pattern, then the tag in two's complement. */
  function PredictionImage(p: Prediction): (r: seq<uint8>)
    ensures |r| == PREDICTION_SIZE
  {
    Le32(p.humanCount) + Le32(Int32Bits(p.ventilationTag))
  }

  /** The server's unpacking with "<fi": a float at offset 0 and a signed int at offset 4. */
  function UnpackPrediction(payload: seq<uint8>): (r: Option<Prediction>)
    ensures r.Some? <==> |payload| >= PREDICTION_SIZE
  {
    if |payload| < PREDICTION_SIZE then None
    else Some(Prediction(GetLe32(payload, 0), AsInt32(GetLe32(payload, 4))))
  }

  /** The server recovers exactly the prediction the device sent, negative tags included. */
  lemma PredictionRoundTrip(p: Prediction)
    ensures UnpackPrediction(PredictionImage(p)) == Some(p)
  {
    var img := PredictionImage(p);
    assert img[4..8] == Le32(Int32Bits(p.ventilationTag));
    assert GetLe32(img, 4) == GetLe32(img[4..8], 0);
    assert img[0..4] == Le32(p.humanCount);
    assert GetLe32(img, 0) == GetLe32(img[0..4], 0);
  }
}
