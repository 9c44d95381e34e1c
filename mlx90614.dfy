/**
 * The MLX90614 infrared thermometer's SMBus framing: the Packet Error Code, a
 * CRC-8 with polynomial x^8 + x^2 + x + 1 (section 7.4 of the SMBus 2.0
 * specification) computed bit by bit, the little-endian 16-bit register
 * reads, the write frame with its PEC, and the id check of `begin`.
 * Bytes are `bv8`, register words `bv16`.
 */
module Mlx90614 {

  /** The low byte of the generator x^8 + x^2 + x + 1. */
  const POLYNOMIAL: bv8 := 0x07

  /** The identification register `begin` reads. */
  const ID_REGISTER: bv8 := 0x3E

  // ---------------------------------------------------------------- the CRC, bit by bit

  /** The two registers of the inner loop: the CRC and the rest of the input byte, next bit at the top. */
  datatype Shift = Shift(crc: bv8, inbyte: bv8)

  /** One inner iteration: shift both left; when the bits shifted out differ, reduce by the polynomial. */
  function Step(s: Shift): Shift
  {
    var carry := (s.crc ^ s.inbyte) & 0x80;
    Shift(if carry != 0 then (s.crc << 1) ^ POLYNOMIAL else s.crc << 1, s.inbyte << 1)
  }

  function Steps(s: Shift, n: nat): Shift
    decreases n
  {
    if n == 0 then s else Steps(Step(s), n - 1)
  }

  lemma {:induction false} StepsLast(s: Shift, n: nat)
    ensures Steps(s, n + 1) == Step(Steps(s, n))
    decreases n
  {
    if n > 0 {
      StepsLast(Step(s), n - 1);
    }
  }

  /** The CRC after one more byte: exactly eight steps. */
  function CrcByte(crc: bv8, b: bv8): bv8
  {
    Steps(Shift(crc, b), 8).crc
  }

  /** The CRC of a message, continuing from `init`. */
  function CrcFrom(init: bv8, msg: seq<bv8>): bv8
  {
    if msg == [] then init else CrcByte(CrcFrom(init, msg[..|msg| - 1]), msg[|msg| - 1])
  }

  /** The PEC: initial value 0, no reflection, no final xor. */
  function Crc8(msg: seq<bv8>): bv8
  {
    CrcFrom(0, msg)
  }

  // ---------------------------------------------------------------- properties

  /**
   * The bitwise loop is the usual byte-at-a-time CRC: xor the byte into the register, then eight
   * shifts with nothing more coming in.
   */
  lemma CrcByteIsXorThenShift(crc: bv8, b: bv8)
    ensures CrcByte(crc, b) == Steps(Shift(crc ^ b, 0), 8).crc
  {
    StepsXor(Shift(crc, b), Shift(crc ^ b, 0), 8);
    InputShiftedOut(Shift(crc, b));
  }

  /** A step of (crc, inbyte) tracks a step of (crc ^ inbyte, 0) in the xor of its two registers. */
  lemma StepXor(s: Shift, t: Shift)
    requires t.inbyte == 0 && s.crc ^ s.inbyte == t.crc
    ensures Step(t).inbyte == 0 && Step(s).crc ^ Step(s).inbyte == Step(t).crc
  {
  }

  lemma {:induction false} StepsXor(s: Shift, t: Shift, n: nat)
    requires t.inbyte == 0 && s.crc ^ s.inbyte == t.crc
    ensures Steps(t, n).inbyte == 0 && Steps(s, n).crc ^ Steps(s, n).inbyte == Steps(t, n).crc
    decreases n
  {
    if n > 0 {
      StepXor(s, t);
      StepsXor(Step(s), Step(t), n - 1);
    }
  }

  /** After eight steps every bit of the input byte has been shifted out. */
  lemma InputShiftedOut(s: Shift)
    ensures Steps(s, 8).inbyte == 0
  {
    EightSteps(s);
  }

  /** Eight steps written out. */
  lemma EightSteps(s: Shift)
    ensures Steps(s, 8) == Step(Step(Step(Step(Step(Step(Step(Step(s))))))))
  {
    var s1 := Step(s);
    var s2 := Step(s1);
    var s3 := Step(s2);
    var s4 := Step(s3);
    var s5 := Step(s4);
    var s6 := Step(s5);
    var s7 := Step(s6);
    assert Steps(s, 8) == Steps(s1, 7) == Steps(s2, 6) == Steps(s3, 5) == Steps(s4, 4);
    assert Steps(s4, 4) == Steps(s5, 3) == Steps(s6, 2) == Steps(s7, 1) == Step(s7);
  }

  /** A register followed by itself clears: the byte-wise CRC of zero is zero. */
  lemma CrcByteSelf(crc: bv8)
    ensures CrcByte(crc, crc) == 0
  {
    CrcByteIsXorThenShift(crc, crc);
  }

  lemma CrcOfEmpty()
    ensures Crc8([]) == 0
  {
  }

  /** The CRC of a concatenation continues from the CRC of the first part. */
  lemma {:induction false} CrcAppend(init: bv8, a: seq<bv8>, b: seq<bv8>)
    ensures CrcFrom(init, a + b) == CrcFrom(CrcFrom(init, a), b)
    decreases |b|
  {
    if b == [] {
      assert a + b == a;
    } else {
      var b' := b[..|b| - 1];
      CrcAppend(init, a, b');
      assert (a + b)[..|a + b| - 1] == a + b';
    }
  }

  /** A message followed by its own PEC has CRC 0: this is how the receiver checks a frame. */
  lemma PecChecks(msg: seq<bv8>)
    ensures Crc8(msg + [Crc8(msg)]) == 0
  {
    CrcAppend(0, msg, [Crc8(msg)]);
    CrcByteSelf(Crc8(msg));
    assert CrcFrom(Crc8(msg), [Crc8(msg)]) == CrcByte(CrcFrom(Crc8(msg), []), Crc8(msg));
  }

  /** The check value of CRC-8/SMBUS: the ASCII digits "123456789" give 0xF4. */
  lemma CheckValue()
    ensures Crc8([0x31, 0x32, 0x33, 0x34, 0x35, 0x36, 0x37, 0x38, 0x39]) == 0xF4
  {
    var msg: seq<bv8> := [0x31, 0x32, 0x33, 0x34, 0x35, 0x36, 0x37, 0x38, 0x39];
    var crcs: seq<bv8> := [0x00, 0x97, 0x72, 0xC0, 0xC2, 0xCB, 0xFD, 0x78, 0xC7, 0xF4];
    forall k | 0 <= k < 9
      ensures CrcByte(crcs[k], msg[k]) == crcs[k + 1]
    {
      if k == 0 {
        KnownByte(0x00, 0x31, 0x97);
      } else if k == 1 {
        KnownByte(0x97, 0x32, 0x72);
      } else if k == 2 {
        KnownByte(0x72, 0x33, 0xC0);
      } else if k == 3 {
        KnownByte(0xC0, 0x34, 0xC2);
      } else if k == 4 {
        KnownByte(0xC2, 0x35, 0xCB);
      } else if k == 5 {
        KnownByte(0xCB, 0x36, 0xFD);
      } else if k == 6 {
        KnownByte(0xFD, 0x37, 0x78);
      } else if k == 7 {
        KnownByte(0x78, 0x38, 0xC7);
      } else {
        KnownByte(0xC7, 0x39, 0xF4);
      }
    }
    RunningCrc(msg, crcs, 9);
    assert msg[..9] == msg;
  }

  /** The CRC of a prefix is the running register value, when each byte takes the register one step. */
  lemma {:induction false} RunningCrc(msg: seq<bv8>, crcs: seq<bv8>, n: nat)
    requires n <= |msg| && |crcs| == |msg| + 1 && crcs[0] == 0
    requires forall k :: 0 <= k < |msg| ==> CrcByte(crcs[k], msg[k]) == crcs[k + 1]
    ensures Crc8(msg[..n]) == crcs[n]
  {
    if n == 0 {
      assert msg[..0] == [];
    } else {
      RunningCrc(msg, crcs, n - 1);
      CrcSnoc(msg, n - 1);
    }
  }

  /** A byte whose eight steps are known. */
  lemma KnownByte(crc: bv8, b: bv8, r: bv8)
    requires Step(Step(Step(Step(Step(Step(Step(Step(Shift(crc, b))))))))).crc == r
    ensures CrcByte(crc, b) == r
  {
    EightSteps(Shift(crc, b));
  }

  lemma CrcSnoc(msg: seq<bv8>, n: nat)
    requires n < |msg|
    ensures Crc8(msg[..n + 1]) == CrcByte(Crc8(msg[..n]), msg[n])
  {
    assert msg[..n + 1][..n] == msg[..n];
  }

  /** `crc8(addr, len)`: the PEC of the first `len` bytes of the buffer, with the loops of the driver. */
  method Crc8Of(buffer: array<bv8>, len: nat) returns (crc: bv8)
    requires len <= buffer.Length
    ensures crc == Crc8(buffer[..len])
  {
    crc := 0;
    var n := 0;
    while n < len
      invariant n <= len
      invariant crc == Crc8(buffer[..n])
    {
      crc := ShiftInByte(crc, buffer[n]);
      assert buffer[..n + 1][..n] == buffer[..n];
      n := n + 1;
    }
  }

  /** The inner loop of `crc8`: eight steps, counted down. */
  method ShiftInByte(start: bv8, b: bv8) returns (crc: bv8)
    ensures crc == CrcByte(start, b)
  {
    crc := start;
    var inbyte := b;
    var i: nat := 8;
    while i != 0
      invariant i <= 8
      invariant Steps(Shift(start, b), 8 - i) == Shift(crc, inbyte)
    {
      StepsLast(Shift(start, b), 8 - i);
      var carry := (crc ^ inbyte) & 0x80;
      crc := crc << 1;
      if carry != 0 {
        crc := crc ^ POLYNOMIAL;
      }
      inbyte := inbyte << 1;
      i := i - 1;
    }
  }

  // ---------------------------------------------------------------- register access

  /** `read16`: the two bytes of the reply, low byte first; 0 when fewer than two arrive. */
  function Read16(reply: seq<bv8>): (r: bv16)
    ensures |reply| == 2 ==> (r & 0xFF) as bv8 == reply[0] && (r >> 8) as bv8 == reply[1]
    ensures |reply| != 2 ==> r == 0
  {
    if |reply| != 2 then 0 else (reply[0] as bv16) | ((reply[1] as bv16) << 8)
  }

  /** The bytes the PEC of a write covers: the write address, the register, then the value low byte first. */
  function WriteHeader(address: bv8, reg: bv8, v: bv16): seq<bv8>
  {
    [address << 1, reg, (v & 0xFF) as bv8, (v >> 8) as bv8]
  }

  /** `write16`: the bytes sent after the address: register, low byte, high byte, PEC. */
  function Write16Frame(address: bv8, reg: bv8, v: bv16): (frame: seq<bv8>)
    ensures |frame| == 4 && frame[0] == reg
    ensures (frame[1] as bv16) | ((frame[2] as bv16) << 8) == v
    ensures frame[3] == Crc8(WriteHeader(address, reg, v))
  {
    var header := WriteHeader(address, reg, v);
    header[1..] + [Crc8(header)]
  }

  /** A receiver that prefixes the write address to the frame finds the PEC correct, and reads back the value. */
  lemma WriteFrameChecks(address: bv8, reg: bv8, v: bv16)
    ensures Crc8([address << 1] + Write16Frame(address, reg, v)) == 0
    ensures Read16(Write16Frame(address, reg, v)[1..3]) == v
  {
    var header := WriteHeader(address, reg, v);
    assert [address << 1] + Write16Frame(address, reg, v) == header + [Crc8(header)];
    PecChecks(header);
  }

  class Mlx90614Driver {
    /** The 7-bit bus address, kept for the PEC. */
    var address: bv8

    /** The driver is a global object, so its address starts zeroed until `begin` sets it. */
    constructor ()
      ensures address == 0
    {
      address := 0;
    }

    /** `begin`: reads the id register; an id of 0, which a failed read also gives, means no sensor. */
    method Begin(addr: bv8, idReply: seq<bv8>) returns (ok: bool)
      modifies this
      ensures address == addr
      ensures ok <==> |idReply| == 2 && (idReply[0] != 0 || idReply[1] != 0)
    {
      address := addr;
      var id := Read16(idReply);
      ok := id != 0;
    }

    /** `write16`: the frame sent for a write of `v` to register `reg`, its PEC computed by Crc8Of. */
    method Write16(reg: bv8, v: bv16) returns (frame: seq<bv8>)
      ensures frame == Write16Frame(address, reg, v)
    {
      var buffer := new bv8[4];
      buffer[0] := address << 1;
      buffer[1] := reg;
      buffer[2] := (v & 0xFF) as bv8;
      buffer[3] := (v >> 8) as bv8;
      assert buffer[..4] == WriteHeader(address, reg, v);
      var pec := Crc8Of(buffer, 4);
      frame := [reg, (v & 0xFF) as bv8, (v >> 8) as bv8, pec];
    }
  }
}
