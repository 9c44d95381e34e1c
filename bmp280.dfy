/**
 * The Bosch BMP280 pressure and temperature driver: the field constants and
 * configuration presets, the read-modify-write updates of the two control
 * registers, the assembly of the 20-bit ADC readings and the 16-bit
 * calibration words, and the integer compensation formulas of section 3.11.3
 * of the BMP280 datasheet (32-bit temperature, 64-bit pressure).
 *
 * Register contents are `bv8`; calibration words, ADC readings and the
 * compensation arithmetic are integers, with C's shifts written as
 * multiplication and floor division by powers of two and its `/` as
 * truncating division.
 */
module Bmp280 {
  import opened Words

  // ---------------------------------------------------------------- field constants

  /** Oversampling, standby and filter settings occupy three bits. */
  const X0: bv8 := 0
  const X1: bv8 := 1
  const X2: bv8 := 2
  const X4: bv8 := 3
  const X8: bv8 := 4
  const X16: bv8 := 5
  const X32: bv8 := 6
  const X64: bv8 := 7

  /** Power modes occupy two bits. */
  const SLEEP: bv8 := 0
  const FORCED: bv8 := 1
  const NORM: bv8 := 3

  const SPI_OFF: bv8 := 0
  const SPI_ON: bv8 := 1

  lemma FieldConstantsFit()
    ensures X0 < 8 && X1 < 8 && X2 < 8 && X4 < 8 && X8 < 8 && X16 < 8 && X32 < 8 && X64 < 8
    ensures SLEEP < 4 && FORCED < 4 && NORM < 4 && SPI_OFF < 2 && SPI_ON < 2
  {
  }

  // ---------------------------------------------------------------- register layout

  /**
   * Both control registers pack a 3-bit field at bits 5-7 (t_sb or osrs_t), a 3-bit field at
   * bits 2-4 (filter or osrs_p) and a low field at bits 0-1 (spi3w_en or mode).
   */
  function Pack(high: bv8, middle: bv8, low: bv8): bv8
  {
    (high << 5) | (middle << 2) | low
  }

  function Bits5To7(r: bv8): bv8 { r >> 5 }
  function Bits2To4(r: bv8): bv8 { (r >> 2) & 7 }
  function Bits0To1(r: bv8): bv8 { r & 3 }

  /** Packing fields that fit their widths and extracting them again gives them back. */
  lemma PackFields(high: bv8, middle: bv8, low: bv8)
    requires high < 8 && middle < 8 && low < 4
    ensures Bits5To7(Pack(high, middle, low)) == high
    ensures Bits2To4(Pack(high, middle, low)) == middle
    ensures Bits0To1(Pack(high, middle, low)) == low
  {
  }

  /** Every register value is the packing of its three fields. */
  lemma FieldsPack(r: bv8)
    ensures Pack(Bits5To7(r), Bits2To4(r), Bits0To1(r)) == r
  {
  }

  /** A configuration preset: the `config` and `ctrl_meas` register values. */
  datatype Preset = Preset(config: bv8, ctrlMeas: bv8)

  /** config = (t_sb << 5) | (filter << 2) | spi, ctrl_meas = (osrs_t << 5) | (osrs_p << 2) | mode. */
  function MakePreset(standby: bv8, filter: bv8, spi: bv8, osrsT: bv8, osrsP: bv8, mode: bv8): Preset
  {
    Preset(Pack(standby, filter, spi), Pack(osrsT, osrsP, mode))
  }

  const HandheldDeviceLowPower: Preset := MakePreset(X1, X2, SPI_OFF, X2, X16, NORM)
  const HandheldDeviceDynamic: Preset := MakePreset(X0, X8, SPI_OFF, X1, X4, NORM)
  const WeatherMonitoring: Preset := MakePreset(X0, X0, SPI_OFF, X1, X1, SLEEP)
  const ElevatorFloorChangeDetection: Preset := MakePreset(X4, X2, SPI_OFF, X1, X4, NORM)
  const DropDetection: Preset := MakePreset(X0, X0, SPI_OFF, X1, X2, NORM)
  const IndoorNavigation: Preset := MakePreset(X0, X8, SPI_OFF, X2, X16, NORM)

  const Presets: seq<Preset> := [HandheldDeviceLowPower, HandheldDeviceDynamic, WeatherMonitoring,
                                 ElevatorFloorChangeDetection, DropDetection, IndoorNavigation]

  /**
   * The presets' fields read back as written; the one the firmware uses is config 0x68, ctrl_meas 0x2F;
   * every preset leaves the 3-wire SPI interface off, and weather monitoring alone starts asleep.
   */
  lemma PresetValues()
    ensures ElevatorFloorChangeDetection == Preset(0x68, 0x2F)
    ensures Bits5To7(ElevatorFloorChangeDetection.config) == X4 && Bits2To4(ElevatorFloorChangeDetection.config) == X2
    ensures Bits5To7(ElevatorFloorChangeDetection.ctrlMeas) == X1 && Bits2To4(ElevatorFloorChangeDetection.ctrlMeas) == X4
    ensures forall p :: p in Presets ==> Bits0To1(p.config) == SPI_OFF
    ensures forall p :: p in Presets ==> (Bits0To1(p.ctrlMeas) == SLEEP <==> p == WeatherMonitoring)
    ensures Bits0To1(WeatherMonitoring.ctrlMeas) == SLEEP
  {
  }

  // ---------------------------------------------------------------- read-modify-write updates

  /** osrs_p or filter: bits 2-4 take `mode`. */
  function WithBits2To4(reg: bv8, mode: bv8): (r: bv8)
    ensures mode < 8 ==> Bits2To4(r) == mode && Bits5To7(r) == Bits5To7(reg) && Bits0To1(r) == Bits0To1(reg)
  {
    (reg & 0xE3) | (mode << 2)
  }

  /** The power mode: bits 0-1 take `mode`. */
  function WithBits0To1(reg: bv8, mode: bv8): (r: bv8)
    ensures mode < 4 ==> Bits0To1(r) == mode && Bits5To7(r) == Bits5To7(reg) && Bits2To4(r) == Bits2To4(reg)
  {
    ((reg >> 2) << 2) | mode
  }

  /** spi3w_en: bit 0 takes `spi`, every other bit, bit 1 included, is kept. */
  function WithInterface(reg: bv8, spi: bool): (r: bv8)
    ensures r & 1 == (if spi then SPI_ON else SPI_OFF) && r & 0xFE == reg & 0xFE
  {
    if spi then ((reg >> 1) << 1) + SPI_ON else (reg >> 1) << 1
  }

  /** osrs_t or t_sb as intended: bits 5-7 take `mode`. */
  function WithBits5To7(reg: bv8, mode: bv8): (r: bv8)
    ensures mode < 8 ==> Bits5To7(r) == mode && Bits2To4(r) == Bits2To4(reg) && Bits0To1(r) == Bits0To1(reg)
  {
    (reg & 0x1F) | (mode << 5)
  }

  /**
   * osrs_t or t_sb as written: `((reg << 3) >> 3) | (mode << 5)` computed after promotion to int,
   * so the shifts give back `reg` and its old bits 5-7 stay; the result is truncated to a byte.
   */
  function Bits5To7AsWritten(reg: bv8, mode: bv8): (r: bv8)
    ensures r == reg | (mode << 5)
  {
    (((((reg as bv16) << 3) >> 3) | ((mode as bv16) << 5)) & 0xFF) as bv8
  }

  /** Unless the old field is zero, the written update does not set the field to `mode`: 0xE0 with mode 1 stays 0xE0. */
  lemma Bits5To7KeepsOldBits()
    ensures Bits5To7(Bits5To7AsWritten(0xE0, X1)) == 7 != X1
    ensures Bits5To7(WithBits5To7(0xE0, X1)) == X1
  {
  }

  /** The two agree exactly when the old field's bits are all covered by the new mode. */
  lemma Bits5To7AgreeWhenCleared(reg: bv8, mode: bv8)
    requires mode < 8
    ensures Bits5To7AsWritten(reg, mode) == WithBits5To7(reg, mode) <==> Bits5To7(reg) & !mode == 0
  {
  }

  /** On packed registers the updates replace one field and keep the other two. */
  lemma UpdatesReplaceOneField(high: bv8, middle: bv8, low: bv8, v: bv8)
    requires high < 8 && middle < 8 && low < 4 && v < 8
    ensures WithBits5To7(Pack(high, middle, low), v) == Pack(v, middle, low)
    ensures WithBits2To4(Pack(high, middle, low), v) == Pack(high, v, low)
    ensures v < 4 ==> WithBits0To1(Pack(high, middle, low), v) == Pack(high, middle, v)
  {
  }

  // ---------------------------------------------------------------- readings and calibration words

  /**
   * A 20-bit ADC reading from its msb, lsb and xlsb registers: (msb << 12) | (lsb << 4) | (xlsb >> 4).
   * The three parts occupy disjoint bits, so the `|` is a sum.
   */
  function Adc20(msb: uint8, lsb: uint8, xlsb: uint8): (r: int)
    ensures 0 <= r < 0x10_0000
    ensures r / 0x1000 == msb && (r / 0x10) % 0x100 == lsb && r % 0x10 == xlsb / 0x10
  {
    var low := xlsb / 0x10;
    var r := msb * 0x1000 + lsb * 0x10 + low;
    ModUnique(r, 0x1000, msb, lsb * 0x10 + low);
    ModUnique(r, 0x10, msb * 0x100 + lsb, low);
    ModUnique(msb * 0x100 + lsb, 0x100, msb, lsb);
    r
  }

  /**
   * `read16s_bigendian` on a register: the two bytes that arrive, low byte first despite the name,
   * read as int16_t; 0 when the transfer fails (fewer than two bytes).
   */
  function Read16s(reply: seq<uint8>): (r: int16)
    ensures |reply| == 2 ==> Int16Bits(r) == reply[0] as int + 0x100 * reply[1] as int
    ensures |reply| != 2 ==> r == 0
  {
    if |reply| == 2 then AsInt16(GetLe16(reply, 0)) else 0
  }

  /** The trimming parameters dig_T1..dig_T3 and dig_P1..dig_P9. */
  datatype Calibration = Calibration(
    digT1: uint16, digT2: int16, digT3: int16,
    digP1: uint16, digP2: int16, digP3: int16, digP4: int16, digP5: int16,
    digP6: int16, digP7: int16, digP8: int16, digP9: int16)

  const ZeroCalibration: Calibration := Calibration(0, 0, 0, 0, 0, 0, 0, 0, 0, 0, 0, 0)

  /** The twelve words in register order, as the unsigned 16-bit patterns the chip sends. */
  function CalibrationWords(c: Calibration): (r: seq<uint16>)
    ensures |r| == 12
  {
    [c.digT1, Int16Bits(c.digT2), Int16Bits(c.digT3), c.digP1, Int16Bits(c.digP2), Int16Bits(c.digP3),
     Int16Bits(c.digP4), Int16Bits(c.digP5), Int16Bits(c.digP6), Int16Bits(c.digP7), Int16Bits(c.digP8), Int16Bits(c.digP9)]
  }

  /**
   * The 24 bytes read from 0x88 on: twelve little-endian words, stored through int16_t pointers (the two
   * unsigned parameters keep their bit patterns).
   */
  function CalibrationOf(b: seq<uint8>): (c: Calibration)
    requires |b| == 24
    ensures forall n :: 0 <= n < 12 ==> CalibrationWords(c)[n] == GetLe16(b, 2 * n)
  {
    Calibration(GetLe16(b, 0), AsInt16(GetLe16(b, 2)), AsInt16(GetLe16(b, 4)),
      GetLe16(b, 6), AsInt16(GetLe16(b, 8)), AsInt16(GetLe16(b, 10)), AsInt16(GetLe16(b, 12)),
      AsInt16(GetLe16(b, 14)), AsInt16(GetLe16(b, 16)), AsInt16(GetLe16(b, 18)),
      AsInt16(GetLe16(b, 20)), AsInt16(GetLe16(b, 22)))
  }

  // ---------------------------------------------------------------- compensation

  /** C's `/` on integers: the quotient truncated toward zero. */
  function CDiv(a: int, b: int): (q: int)
    requires b != 0
    ensures (q * b <= a < q * b + Abs(b)) || (q * b - Abs(b) < a <= q * b)
    ensures Abs(q * b) <= Abs(a)
  {
    var m: int := Abs(a) / Abs(b);
    var q := if (a >= 0) == (b > 0) then m else -m;
    TruncatedQuotient(a, b, m, q);
    q
  }

  lemma TruncatedQuotient(a: int, b: int, m: int, q: int)
    requires b != 0 && m == Abs(a) / Abs(b) && q == if (a >= 0) == (b > 0) then m else -m
    ensures (q * b <= a < q * b + Abs(b)) || (q * b - Abs(b) < a <= q * b)
    ensures Abs(q * b) <= Abs(a)
  {
    var x: int, y: int := Abs(a), Abs(b);
    DivBounds(x, y);
    var p := m * y;
    assert 0 <= p <= x;
    if a >= 0 && b > 0 {
      assert q * b == p && x == a && y == b;
    } else if a < 0 && b < 0 {
      assert q * b == m * -y == -p && x == -a;
    } else if a >= 0 {
      assert q * b == (-m) * (-y) == p && x == a;
    } else {
      assert q * b == (-m) * y == -p && x == -a && y == b;
    }
  }

  lemma DivBounds(x: nat, y: nat)
    requires y > 0
    ensures 0 <= (x / y) * y <= x < (x / y) * y + y
  {
  }

  function Abs(x: int): nat { if x < 0 then -x else x }

  /** t_fine, the fine temperature the pressure formula also uses. */
  function TFine(c: Calibration, adcT: int): int
  {
    var var1 := ((adcT / 8 - c.digT1 * 2) * c.digT2) / 0x800;
    var var2 := (((adcT / 16 - c.digT1) * (adcT / 16 - c.digT1)) / 0x1000 * c.digT3) / 0x4000;
    var1 + var2
  }

  /** The temperature in 0.01 degrees Celsius: t_fine * 5 / 256, rounded to the nearest (halves up). */
  function Temperature(tFine: int): (r: int)
    ensures 256 * r <= 5 * tFine + 128 < 256 * r + 256
  {
    (tFine * 5 + 128) / 256
  }

  /** A warmer t_fine never reads colder. */
  lemma TemperatureMonotone(a: int, b: int)
    requires a <= b
    ensures Temperature(a) <= Temperature(b)
  {
  }

  /** The pressure formula's divisor, var1 at the point of the division. */
  function PressureDivisor(c: Calibration, tFine: int): int
  {
    var v1 := tFine - 128000;
    var v1' := (v1 * v1 * c.digP3) / 0x100 + v1 * c.digP2 * 0x1000;
    ((0x8000_0000_0000 + v1') * c.digP1) / 0x2_0000_0000
  }

  /**
   * The pressure in Pa as unsigned Q24.8 (value / 256 is Pa), returned through uint32_t into the int32_t
   * result; 0 instead of a division by zero.
   */
  function Pressure(c: Calibration, tFine: int, adcP: int): (r: int32)
    ensures PressureDivisor(c, tFine) == 0 ==> r == 0
    ensures PressureDivisor(c, tFine) != 0 ==> Int32Bits(r) == Wrap32(PressureBeforeCast(c, tFine, adcP))
  {
    if PressureDivisor(c, tFine) == 0 then 0
    else
      var bits := Wrap32(PressureBeforeCast(c, tFine, adcP));
      AsInt32Bits(bits);
      AsInt32(bits)
  }

  /** The 64-bit value of p at the return, when the divisor is not zero. */
  function PressureBeforeCast(c: Calibration, tFine: int, adcP: int): int
    requires PressureDivisor(c, tFine) != 0
  {
    var v1 := tFine - 128000;
    var v2 := v1 * v1 * c.digP6 + v1 * c.digP5 * 0x2_0000 + c.digP4 * 0x8_0000_0000;
    var q := CDiv(((1048576 - adcP) * 0x8000_0000 - v2) * 3125, PressureDivisor(c, tFine));
    var w1 := (c.digP9 * (q / 0x2000) * (q / 0x2000)) / 0x200_0000;
    var w2 := (c.digP8 * q) / 0x8_0000;
    (q + w1 + w2) / 0x100 + c.digP7 * 16
  }

  /** The worked example of section 3.12 of the datasheet: 25.08 degrees Celsius and about 100653 Pa. */
  lemma DatasheetExample()
    ensures var c := Calibration(27504, 26435, -1000, 36477, -10685, 3024, 2855, 140, -7, 15500, -14600, 6000);
      TFine(c, 519888) == 128422 && Temperature(128422) == 2508
      && Pressure(c, 128422, 415148) == 25767233 && 25767233 / 256 == 100653
  {
    var c := Calibration(27504, 26435, -1000, 36477, -10685, 3024, 2855, 140, -7, 15500, -14600, 6000);
    assert (519888 / 8 - 27504 * 2) * 26435 / 0x800 == 128793;
    assert (519888 / 16 - 27504) * (519888 / 16 - 27504) / 0x1000 * -1000 / 0x4000 == -371;
    assert (422 * 422 * 3024) / 0x100 + 422 * -10685 * 0x1000 == -18467047103;
    assert PressureDivisor(c, 128422) == 597560748;
    var v2 := 422 * 422 * -7 + 422 * 140 * 0x2_0000 + 2855 * 0x8_0000_0000;
    assert v2 == 98104795527812;
    assert ((1048576 - 415148) * 0x8000_0000 - v2) * 3125 == 3944285864554787500;
    assert CDiv(3944285864554787500, 597560748) == 6600644165;
    assert 6600644165 / 0x2000 == 805742;
    assert (6000 * 805742 * 805742) / 0x200_0000 == 116089612;
    assert (-14600 * 6600644165) / 0x8_0000 == -183810053;
    assert PressureBeforeCast(c, 128422, 415148) == 25767233;
  }

  // ---------------------------------------------------------------- the driver

  class Bmp280Driver {
    /** The trimming parameters read by `begin`. */
    var calibration: Calibration
    var tFine: int
    /** The last temperature, 0.01 degrees Celsius. */
    var temperature: int
    /** The last pressure, Pa / 256. */
    var pressure: int32
    /** The chip's `config` (0xF5) and `ctrl_meas` (0xF4) registers. */
    var config: bv8
    var ctrlMeas: bv8

    constructor ()
      ensures calibration == ZeroCalibration && tFine == 0 && temperature == 0 && pressure == 0
      ensures config == 0 && ctrlMeas == 0
    {
      calibration := ZeroCalibration;
      tFine := 0;
      temperature := 0;
      pressure := 0;
      config := 0;
      ctrlMeas := 0;
    }

    /**
     * `begin`: a chip id of 0 (nothing answered) fails; so does a calibration read that does not deliver
     * 24 bytes. Otherwise the calibration is stored and the two registers are configured.
     */
    method Begin(id: uint8, calibrationReply: seq<uint8>, preset: Preset) returns (ok: bool)
      modifies this
      ensures ok <==> id != 0 && |calibrationReply| == 24
      ensures ok ==> calibration == CalibrationOf(calibrationReply) && config == preset.config && ctrlMeas == preset.ctrlMeas
      ensures !ok ==> calibration == old(calibration) && config == old(config) && ctrlMeas == old(ctrlMeas)
      ensures tFine == old(tFine) && temperature == old(temperature) && pressure == old(pressure)
    {
      if id == 0 {
        return false;
      }
      if |calibrationReply| != 24 {
        return false;
      }
      calibration := CalibrationOf(calibrationReply);
      config, ctrlMeas := preset.config, preset.ctrlMeas;
      ok := true;
    }

    /** `bmp280_compensate_T_int32`: sets t_fine and returns the temperature. */
    method CompensateTemperature(adcT: int) returns (t: int)
      modifies this
      ensures tFine == TFine(calibration, adcT) && t == Temperature(tFine)
      ensures calibration == old(calibration) && temperature == old(temperature) && pressure == old(pressure)
      ensures config == old(config) && ctrlMeas == old(ctrlMeas)
    {
      var var1 := ((adcT / 8 - calibration.digT1 * 2) * calibration.digT2) / 0x800;
      var var2 := (((adcT / 16 - calibration.digT1) * (adcT / 16 - calibration.digT1)) / 0x1000 * calibration.digT3) / 0x4000;
      tFine := var1 + var2;
      t := (tFine * 5 + 128) / 256;
    }

    /** `bmp280_compensate_P_int32`: the pressure for the current t_fine. */
    method CompensatePressure(adcP: int) returns (p: int32)
      ensures p == Pressure(calibration, tFine, adcP)
    {
      var var1 := tFine - 128000;
      var var2 := var1 * var1 * calibration.digP6;
      var2 := var2 + var1 * calibration.digP5 * 0x2_0000;
      var2 := var2 + calibration.digP4 * 0x8_0000_0000;
      var1 := (var1 * var1 * calibration.digP3) / 0x100 + var1 * calibration.digP2 * 0x1000;
      var1 := ((0x8000_0000_0000 + var1) * calibration.digP1) / 0x2_0000_0000;
      if var1 == 0 {
        return 0;
      }
      var q := 1048576 - adcP;
      q := CDiv((q * 0x8000_0000 - var2) * 3125, var1);
      var1 := (calibration.digP9 * (q / 0x2000) * (q / 0x2000)) / 0x200_0000;
      var2 := (calibration.digP8 * q) / 0x8_0000;
      q := (q + var1 + var2) / 0x100 + calibration.digP7 * 16;
      p := AsInt32(Wrap32(q));
    }

    /**
     * `read` in normal mode: the six bytes from 0xF7 on are pressure msb, lsb, xlsb and temperature msb,
     * lsb, xlsb; a short transfer fails and changes nothing. The temperature is compensated first, so the
     * pressure uses this reading's t_fine.
     */
    method Read(reply: seq<uint8>) returns (ok: bool)
      modifies this
      ensures ok <==> |reply| == 6
      ensures ok ==>
        var adcT := Adc20(reply[3], reply[4], reply[5]);
        tFine == TFine(calibration, adcT) && temperature == Temperature(tFine)
        && pressure == Pressure(calibration, TFine(calibration, adcT), Adc20(reply[0], reply[1], reply[2]))
      ensures !ok ==> tFine == old(tFine) && temperature == old(temperature) && pressure == old(pressure)
      ensures calibration == old(calibration) && config == old(config) && ctrlMeas == old(ctrlMeas)
    {
      if |reply| != 6 {
        return false;
      }
      var adcP := Adc20(reply[0], reply[1], reply[2]);
      var adcT := Adc20(reply[3], reply[4], reply[5]);
      temperature := CompensateTemperature(adcT);
      pressure := CompensatePressure(adcP);
      ok := true;
    }

    /**
     * A read-modify-write of one register: `read8s` gives 0 when the read fails, and the register changes
     * only when the write succeeds; the result is the write's success.
     */
    method SetPressureSampling(mode: bv8, readOk: bool, writeOk: bool) returns (ok: bool)
      modifies this
      ensures ok == writeOk && config == old(config)
      ensures ctrlMeas == if writeOk then WithBits2To4(if readOk then old(ctrlMeas) else 0, mode) else old(ctrlMeas)
      ensures calibration == old(calibration) && tFine == old(tFine) && temperature == old(temperature) && pressure == old(pressure)
    {
      var reg := if readOk then ctrlMeas else 0;
      reg := (reg & 0xE3) | (mode << 2);
      if writeOk {
        ctrlMeas := reg;
      }
      ok := writeOk;
    }

    method SetFilterCoef(mode: bv8, readOk: bool, writeOk: bool) returns (ok: bool)
      modifies this
      ensures ok == writeOk && ctrlMeas == old(ctrlMeas)
      ensures config == if writeOk then WithBits2To4(if readOk then old(config) else 0, mode) else old(config)
      ensures calibration == old(calibration) && tFine == old(tFine) && temperature == old(temperature) && pressure == old(pressure)
    {
      var reg := if readOk then config else 0;
      reg := (reg & 0xE3) | (mode << 2);
      if writeOk {
        config := reg;
      }
      ok := writeOk;
    }

    method SetOperationMode(mode: bv8, readOk: bool, writeOk: bool) returns (ok: bool)
      modifies this
      ensures ok == writeOk && config == old(config)
      ensures ctrlMeas == if writeOk then WithBits0To1(if readOk then old(ctrlMeas) else 0, mode) else old(ctrlMeas)
      ensures calibration == old(calibration) && tFine == old(tFine) && temperature == old(temperature) && pressure == old(pressure)
    {
      var reg := if readOk then ctrlMeas else 0;
      reg := ((reg >> 2) << 2) | mode;
      if writeOk {
        ctrlMeas := reg;
      }
      ok := writeOk;
    }

    method SetInterface(spi: bool, readOk: bool, writeOk: bool) returns (ok: bool)
      modifies this
      ensures ok == writeOk && ctrlMeas == old(ctrlMeas)
      ensures config == if writeOk then WithInterface(if readOk then old(config) else 0, spi) else old(config)
      ensures calibration == old(calibration) && tFine == old(tFine) && temperature == old(temperature) && pressure == old(pressure)
    {
      var reg := if readOk then config else 0;
      if spi {
        reg := ((reg >> 1) << 1) + SPI_ON;
      } else {
        reg := (reg >> 1) << 1;
      }
      if writeOk {
        config := reg;
      }
      ok := writeOk;
    }

    /** Temperature oversampling, with bits 5-7 cleared before `mode` goes in. */
    method SetTempSampling(mode: bv8, readOk: bool, writeOk: bool) returns (ok: bool)
      modifies this
      ensures ok == writeOk && config == old(config)
      ensures ctrlMeas == if writeOk then WithBits5To7(if readOk then old(ctrlMeas) else 0, mode) else old(ctrlMeas)
      ensures calibration == old(calibration) && tFine == old(tFine) && temperature == old(temperature) && pressure == old(pressure)
    {
      var reg := if readOk then ctrlMeas else 0;
      reg := (reg & 0x1F) | (mode << 5);
      if writeOk {
        ctrlMeas := reg;
      }
      ok := writeOk;
    }

    /** Standby time, with bits 5-7 cleared before `mode` goes in. */
    method SetDelay(mode: bv8, readOk: bool, writeOk: bool) returns (ok: bool)
      modifies this
      ensures ok == writeOk && ctrlMeas == old(ctrlMeas)
      ensures config == if writeOk then WithBits5To7(if readOk then old(config) else 0, mode) else old(config)
      ensures calibration == old(calibration) && tFine == old(tFine) && temperature == old(temperature) && pressure == old(pressure)
    {
      var reg := if readOk then config else 0;
      reg := (reg & 0x1F) | (mode << 5);
      if writeOk {
        config := reg;
      }
      ok := writeOk;
    }
  }

  /** A failed register read followed by a successful write clears the register's other two fields. */
  lemma FailedReadClearsOtherFields(mode: bv8)
    requires mode < 8
    ensures WithBits2To4(0, mode) == Pack(0, mode, 0)
    ensures WithBits5To7(0, mode) == Pack(mode, 0, 0)
  {
  }
}
