/** Value types shared by both loader generations: optional values and results,
    the fixed-width integer types of the C++ source, and the 3D point. */
module Common {

  datatype Option<+T> = None | Some(value: T)

  datatype Result<+T, +E> = Ok(value: T) | Err(error: E)

  const TWO_TO_8: nat := 0x100
  const TWO_TO_31: nat := 0x8000_0000
  const TWO_TO_32: nat := 0x1_0000_0000
  const TWO_TO_63: nat := 0x8000_0000_0000_0000
  const TWO_TO_64: nat := 0x1_0000_0000_0000_0000

  /** `int64_t`, the element type of the Mixed topology dataset. */
  type int64 = x: int | -0x8000_0000_0000_0000 <= x < 0x8000_0000_0000_0000

  /** `uint8_t`, the type of a cell tag once it is stored in a cell. */
  type uint8 = x: nat | x < 0x100

  /** `uint32_t` / `unsigned int`, the type of a GPU index. */
  type uint32 = x: nat | x < 0x1_0000_0000

  /** `uint64_t`, the type of a node id in a cell. */
  type uint64 = x: nat | x < 0x1_0000_0000_0000_0000

  /** Conversion to `uint8_t`: keeps the low 8 bits (the value modulo 256). */
  function AsUint8(x: int): uint8 { x % 0x100 }

  /** Conversion to `unsigned int`: keeps the low 32 bits. */
  function AsUint32(x: int): uint32 { x % 0x1_0000_0000 }

  /** Conversion to `uint64_t`: keeps the low 64 bits. */
  function AsUint64(x: int): uint64 { x % 0x1_0000_0000_0000_0000 }

  /** A value that already fits in `uint8_t` is unchanged by the conversion. */
  lemma AsUint8InRange(x: int)
    requires 0 <= x < TWO_TO_8
    ensures AsUint8(x) == x
  {
  }

  /** A value that already fits in `unsigned int` is unchanged by the
      conversion. */
  lemma AsUint32InRange(x: int)
    requires 0 <= x < TWO_TO_32
    ensures AsUint32(x) == x
  {
  }

  /** Conversion of an `int64_t` to a 32-bit `int`: keeps the low 32 bits,
      read as a two's-complement number. */
  function AsInt32(x: int): int { (x + 0x8000_0000) % 0x1_0000_0000 - 0x8000_0000 }

  /** Narrowing to `int` first and then to `uint8_t` keeps the same low 8
      bits as narrowing straight to `uint8_t`. */
  lemma AsUint8OfAsInt32(x: int)
    ensures AsUint8(AsInt32(x)) == AsUint8(x)
  {
    var q := (x + TWO_TO_31) / TWO_TO_32;
    assert AsInt32(x) == x - q * TWO_TO_32;
    ModMultiple(x, -q * 0x100_0000);
    assert -q * 0x100_0000 * TWO_TO_8 == -q * TWO_TO_32;
  }

  /** Adding a multiple of 256 does not change the low 8 bits. */
  lemma ModMultiple(x: int, t: int)
    ensures (x + t * TWO_TO_8) % TWO_TO_8 == x % TWO_TO_8
  {
  }

  /** A geometry point: three coordinates (read as `double`). */
  datatype Point3 = Point3(x: real, y: real, z: real)

  /** The origin, the value `std::vector::resize` gives to new points. */
  const Origin: Point3 := Point3(0.0, 0.0, 0.0)
}
