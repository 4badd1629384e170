/**
 * Types and constants shared by the tag decoders (RFID.h).
 *
 * Integer widths are those of a target whose `int` and `long` are 32 bits
 * and whose `long long` is 64 bits. Every field is kept as an unsigned bit
 * pattern of that width.
 */
module RfidTypes {

  /** A value that may be absent: the byte a serial poll finds, if any. */
  datatype Option<T> = None | Some(value: T)

  /** The two interfaces a decoder can be built for (RFIDMode). */
  datatype Mode = Uart | Wiegand

  /** Wiegand frame lengths the library understands (W26BIT, W35BIT). */
  const W26BIT: bv8 := 26
  const W35BIT: bv8 := 35

  /** STX and ETX delimit a UART frame. */
  const STX: bv8 := 0x02
  const ETX: bv8 := 0x03

  /** Capacity of the raw character buffer, and how many data characters go into it. */
  const RAW_SIZE: nat := 13
  const FRAME_CHARS: nat := 12

  /**
   * The decoded tag (struct RFIDTag): manufacturer or facility code, card id,
   * checksum byte, the outcome of the integrity check and the raw characters.
   */
  datatype Tag = Tag(mfr: bv32, id: bv32, chk: bv8, valid: bool, raw: seq<bv8>)

  /** The low 32 bits of a 64-bit value, as an assignment to `int` or `long` keeps them. */
  function Low32(x: bv64): bv32 {
    (x & 0xFFFF_FFFF) as bv32
  }

  /** The low 8 bits of a 64-bit value, as an assignment to `byte` keeps them. */
  function Low8(x: bv64): bv8 {
    (x & 0xFF) as bv8
  }
}
