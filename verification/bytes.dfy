/** Byte-level helpers of the relay: the 24-bit big-endian reader the service
    calls `Uint32`, and the 32-bit big-endian writer of `encoding/binary`. */
module Bytes {

  newtype byte = x: int | 0 <= x < 0x100

  /** Go's `uint32`. */
  type uint32 = x: int | 0 <= x < 0x1_0000_0000

  const Two24: int := 0x100_0000
  const Two32: int := 0x1_0000_0000

  /** The service's `Uint32` helper: despite its name it reads only b[0], b[1], b[2]
      as a 24-bit big-endian number (and panics on a slice shorter than three bytes). */
  function Uint24(b: seq<byte>): (v: nat)
    requires |b| >= 3
    ensures v < Two24
  {
    (b[0] as int) * 0x10000 + (b[1] as int) * 0x100 + (b[2] as int)
  }

  /** `binary.BigEndian.PutUint32`: the four bytes of x, most significant first. */
  function PutUint32(x: uint32): (r: seq<byte>)
    ensures |r| == 4
    ensures (r[0] as int) * Two24 + Uint24(r[1..]) == x
  {
    [(x / Two24) as byte, (x / 0x10000 % 0x100) as byte, (x / 0x100 % 0x100) as byte, (x % 0x100) as byte]
  }

  /** Reading back the low three bytes written by PutUint32 gives x modulo 2^24;
      this is how the relay stores a 32-bit difference in a 24-bit field. */
  lemma LowBytesOfPutUint32(x: uint32)
    ensures Uint24(PutUint32(x)[1..]) == x % Two24
  {
  }

  /** Writing a 24-bit value and dropping the top byte reproduces the bytes it was read from. */
  lemma PutUint32OfUint24(b: seq<byte>)
    requires |b| == 3
    ensures PutUint32(Uint24(b))[1..] == b
    ensures PutUint32(Uint24(b))[0] == 0
  {
  }

  /** `b >> 4` on a Go byte: the high nibble. */
  function HighNibble(b: byte): (n: nat)
    ensures n < 16
    ensures n * 16 <= b as int < n * 16 + 16
  {
    (b as int) / 16
  }
}
