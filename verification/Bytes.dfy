/** Bytes and big-endian numbers, as every wire format here uses them. */
module Bytes {

  type Byte = b: int | 0 <= b < 256

  // Registers, sequence numbers and ticks are 32 bits wide.
  const WRAP := 0x1_0000_0000

  function Min(a: int, b: int): int { if a <= b then a else b }

  /** Two bytes as a big-endian 16-bit number. */
  function Word(high: Byte, low: Byte): (w: nat)
    ensures w <= 0xFFFF
  {
    (high as int) * 256 + (low as int)
  }

  /** The low `n` bytes of `v`, most significant first. */
  function BigEndian(v: nat, n: nat): (r: seq<Byte>)
    ensures |r| == n
  {
    if n == 0 then [] else BigEndian(v / 256, n - 1) + [v % 256]
  }

  lemma BigEndian2(v: nat)
    ensures BigEndian(v, 2) == [v / 256 % 256, v % 256]
  {
    assert BigEndian(v, 2) == BigEndian(v / 256, 1) + [v % 256];
    assert BigEndian(v / 256, 1) == BigEndian(v / 256 / 256, 0) + [v / 256 % 256];
  }

  lemma BigEndian4(v: nat)
    ensures BigEndian(v, 4) == [v / 256 / 256 / 256 % 256, v / 256 / 256 % 256, v / 256 % 256, v % 256]
  {
    assert BigEndian(v, 4) == BigEndian(v / 256, 3) + [v % 256];
    assert BigEndian(v / 256, 3) == BigEndian(v / 256 / 256, 2) + [v / 256 % 256];
    BigEndian2(v / 256 / 256);
  }
}
