/** Fixed-width integers of the firmware, powers of two and the Option type. */
module Words {

  type uint8 = x: int | 0 <= x < 0x100
  type uint16 = x: int | 0 <= x < 0x1_0000
  type uint32 = x: int | 0 <= x < 0x1_0000_0000
  type int16 = x: int | -0x8000 <= x < 0x8000
  type int32 = x: int | -0x8000_0000 <= x < 0x8000_0000

  datatype Option<+T> = None | Some(value: T)

  /** 2^n */
  function Pow2(n: nat): (r: nat)
    ensures r >= 1
  {
    if n == 0 then 1 else 2 * Pow2(n - 1)
  }

  lemma {:induction false} Pow2Add(a: nat, b: nat)
    ensures Pow2(a + b) == Pow2(a) * Pow2(b)
  {
    if a > 0 {
      Pow2Add(a - 1, b);
      assert Pow2(a + b) == 2 * Pow2(a - 1 + b);
    }
  }

  lemma {:induction false} Pow2Monotone(a: nat, b: nat)
    requires a <= b
    ensures Pow2(a) <= Pow2(b)
  {
    if a < b {
      Pow2Monotone(a, b - 1);
    }
  }

  /** The position of the highest set bit of n. */
  function Log2(n: nat): (r: nat)
    requires n >= 1
    ensures Pow2(r) <= n < Pow2(r + 1)
  {
    if n == 1 then 0 else 1 + Log2(n / 2)
  }

  /** The little-endian 16-bit value at offset `at`: low byte first. */
  function GetLe16(b: seq<uint8>, at: nat): uint16
    requires at + 2 <= |b|
  {
    b[at] as int + 0x100 * b[at + 1] as int
  }

  /** The little-endian 32-bit value at offset `at`. */
  function GetLe32(b: seq<uint8>, at: nat): uint32
    requires at + 4 <= |b|
  {
    b[at] as int + 0x100 * b[at + 1] as int + 0x1_0000 * b[at + 2] as int + 0x100_0000 * b[at + 3] as int
  }

  /** Unsigned 32-bit arithmetic: the result modulo 2^32, as C computes uint32_t. */
  function Wrap32(x: int): uint32
  {
    x % 0x1_0000_0000
  }

  /** The two's complement reading of a 16-bit pattern, as a cast to int16_t. */
  function AsInt16(x: uint16): int16
  {
    if x < 0x8000 then x else x - 0x1_0000
  }

  /** The two's complement reading of a 32-bit pattern, as a cast to int32_t. */
  function AsInt32(x: uint32): int32
  {
    if x < 0x8000_0000 then x else x - 0x1_0000_0000
  }

  /** The 16-bit pattern of an int16_t. */
  function Int16Bits(x: int16): uint16
  {
    if x >= 0 then x else x + 0x1_0000
  }

  /** Reading a 16-bit pattern as int16_t loses nothing. */
  lemma AsInt16Bits(x: uint16)
    ensures Int16Bits(AsInt16(x)) == x
  {
  }

  /** The 32-bit pattern of an int32_t. */
  function Int32Bits(x: int32): uint32
  {
    if x >= 0 then x else x + 0x1_0000_0000
  }

  /** Reading a 32-bit pattern as int32_t loses nothing. */
  lemma AsInt32Bits(x: uint32)
    ensures Int32Bits(AsInt32(x)) == x
  {
  }

  lemma Int32BitsInverse(x: int32)
    ensures AsInt32(Int32Bits(x)) == x
  {
  }

  /** Quotient and remainder are determined by any quotient-remainder decomposition. */
  lemma ModUnique(x: int, m: int, q: int, r: int)
    requires 0 <= r < m && x == q * m + r
    ensures x / m == q && x % m == r
  {
    var q', r' := x / m, x % m;
    assert x == q' * m + r' && 0 <= r' < m;
    if q' < q {
      AtLeastOneMore(q', q, m);
    } else if q' > q {
      AtLeastOneMore(q, q', m);
    }
  }

  lemma AtLeastOneMore(a: int, b: int, m: int)
    requires a < b && 0 < m
    ensures a * m + m <= b * m
  {
    var d := b - a - 1;
    assert b * m == a * m + m + d * m by { MulSplit(a, d, m); }
    assert d * m >= 0;
  }

  lemma MulSplit(a: int, d: int, m: int)
    ensures (a + d + 1) * m == a * m + m + d * m
  {
  }

  lemma ModSmall(x: nat, m: nat)
    requires x < m
    ensures x % m == x
  {
    ModUnique(x, m, 0, x);
  }
}
