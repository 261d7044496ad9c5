/** The width-specialised byte swaps of the anonymous namespace
    (bitSwap16, bitSwap32, bitSwap64), in their portable form.

    Bytes of a word are numbered by significance: byte 0 is the least
    significant. */
module BitSwap {
  import opened Bytes

  /** The bytes of a 16-bit word, least significant first. */
  function Bytes16(w: bv16): (s: seq<bv8>)
    ensures |s| == 2
  {
    [(w & 0xff) as bv8, (w >> 8) as bv8]
  }

  /** The 16-bit word whose bytes, least significant first, are `s`. */
  function Word16(s: seq<bv8>): (w: bv16)
    requires |s| == 2
    ensures Bytes16(w) == s
  {
    (s[0] as bv16) | ((s[1] as bv16) << 8)
  }

  /** The bytes of a 32-bit word, least significant first. */
  function Bytes32(w: bv32): (s: seq<bv8>)
    ensures |s| == 4
  {
    [(w & 0xff) as bv8, ((w >> 8) & 0xff) as bv8,
     ((w >> 16) & 0xff) as bv8, (w >> 24) as bv8]
  }

  /** The 32-bit word whose bytes, least significant first, are `s`. */
  function Word32(s: seq<bv8>): (w: bv32)
    requires |s| == 4
    ensures Bytes32(w) == s
  {
    (s[0] as bv32) | ((s[1] as bv32) << 8) |
    ((s[2] as bv32) << 16) | ((s[3] as bv32) << 24)
  }

  /** The bytes of a 64-bit word, least significant first. */
  function Bytes64(w: bv64): (s: seq<bv8>)
    ensures |s| == 8
  {
    [(w & 0xff) as bv8, ((w >> 8) & 0xff) as bv8,
     ((w >> 16) & 0xff) as bv8, ((w >> 24) & 0xff) as bv8,
     ((w >> 32) & 0xff) as bv8, ((w >> 40) & 0xff) as bv8,
     ((w >> 48) & 0xff) as bv8, (w >> 56) as bv8]
  }

  /** The 64-bit word whose bytes, least significant first, are `s`. */
  function Word64(s: seq<bv8>): (w: bv64)
    requires |s| == 8
    ensures Bytes64(w) == s
  {
    (s[0] as bv64) | ((s[1] as bv64) << 8) |
    ((s[2] as bv64) << 16) | ((s[3] as bv64) << 24) |
    ((s[4] as bv64) << 32) | ((s[5] as bv64) << 40) |
    ((s[6] as bv64) << 48) | ((s[7] as bv64) << 56)
  }

  /** A word is determined by its bytes. */
  lemma Bytes16Injective(a: bv16, b: bv16)
    requires Bytes16(a) == Bytes16(b)
    ensures a == b
  {
  }

  lemma Bytes32Injective(a: bv32, b: bv32)
    requires Bytes32(a) == Bytes32(b)
    ensures a == b
  {
  }

  lemma Bytes64Injective(a: bv64, b: bv64)
    requires Bytes64(a) == Bytes64(b)
    ensures a == b
  {
  }

  /** bitSwap16: a left rotation by 8 bits, which exchanges the two bytes. */
  function BitSwap16(value: bv16): (r: bv16)
    ensures Bytes16(r) == Reversed(Bytes16(value))
  {
    value.RotateLeft(8)
  }

  /** bitSwap32: each byte masked out and shifted to its mirrored lane. */
  function BitSwap32(value: bv32): (r: bv32)
    ensures Bytes32(r) == Reversed(Bytes32(value))
  {
    ((value & 0xff000000) >> 24) |
    ((value & 0x00ff0000) >> 8) |
    ((value & 0x0000ff00) << 8) |
    ((value & 0x000000ff) << 24)
  }

  /** bitSwap64: each byte masked out and shifted to its mirrored lane. */
  function BitSwap64(value: bv64): (r: bv64)
    ensures Bytes64(r) == Reversed(Bytes64(value))
  {
    var swapped :=
      ((value & 0xff00000000000000) >> 56) |
      ((value & 0x00ff000000000000) >> 40) |
      ((value & 0x0000ff0000000000) >> 24) |
      ((value & 0x000000ff00000000) >> 8) |
      ((value & 0x00000000ff000000) << 8) |
      ((value & 0x0000000000ff0000) << 24) |
      ((value & 0x000000000000ff00) << 40) |
      ((value & 0x00000000000000ff) << 56);
    assert Bytes64(swapped)[0] == Bytes64(value)[7] && Bytes64(swapped)[1] == Bytes64(value)[6];
    assert Bytes64(swapped)[2] == Bytes64(value)[5] && Bytes64(swapped)[3] == Bytes64(value)[4];
    assert Bytes64(swapped)[4] == Bytes64(value)[3] && Bytes64(swapped)[5] == Bytes64(value)[2];
    assert Bytes64(swapped)[6] == Bytes64(value)[1] && Bytes64(swapped)[7] == Bytes64(value)[0];
    swapped
  }

  /** The rotation in bitSwap16 is the OR of the two bytes shifted past each
      other, and the two shifted halves do not overlap. */
  lemma BitSwap16IsShiftPair(value: bv16)
    ensures BitSwap16(value) == (value >> 8) | (value << 8)
    ensures (value >> 8) & (value << 8) == 0
  {
  }

  /** The four masked terms of bitSwap32 occupy disjoint byte lanes, so
      their OR loses nothing: it equals their XOR and their sum. */
  lemma BitSwap32TermsDisjoint(value: bv32)
    ensures BitSwap32(value) ==
      ((value & 0xff000000) >> 24) ^ ((value & 0x00ff0000) >> 8) ^
      ((value & 0x0000ff00) << 8) ^ ((value & 0x000000ff) << 24)
    ensures BitSwap32(value) ==
      ((value & 0xff000000) >> 24) + ((value & 0x00ff0000) >> 8) +
      ((value & 0x0000ff00) << 8) + ((value & 0x000000ff) << 24)
  {
  }

  /** The eight masked terms of bitSwap64 occupy disjoint byte lanes, so
      their OR loses nothing: it equals their XOR and their sum. */
  lemma BitSwap64TermsDisjoint(value: bv64)
    ensures BitSwap64(value) ==
      ((value & 0xff00000000000000) >> 56) ^ ((value & 0x00ff000000000000) >> 40) ^
      ((value & 0x0000ff0000000000) >> 24) ^ ((value & 0x000000ff00000000) >> 8) ^
      ((value & 0x00000000ff000000) << 8) ^ ((value & 0x0000000000ff0000) << 24) ^
      ((value & 0x000000000000ff00) << 40) ^ ((value & 0x00000000000000ff) << 56)
    ensures BitSwap64(value) ==
      ((value & 0xff00000000000000) >> 56) + ((value & 0x00ff000000000000) >> 40) +
      ((value & 0x0000ff0000000000) >> 24) + ((value & 0x000000ff00000000) >> 8) +
      ((value & 0x00000000ff000000) << 8) + ((value & 0x0000000000ff0000) << 24) +
      ((value & 0x000000000000ff00) << 40) + ((value & 0x00000000000000ff) << 56)
  {
  }

  /** Each swap is an involution. */
  lemma BitSwap16Involution(value: bv16)
    ensures BitSwap16(BitSwap16(value)) == value
  {
  }

  lemma BitSwap32Involution(value: bv32)
    ensures BitSwap32(BitSwap32(value)) == value
  {
  }

  lemma BitSwap64Involution(value: bv64)
    ensures BitSwap64(BitSwap64(value)) == value
  {
  }

  /** The known vectors: 0x1234 -> 0x3412, 0x12345678 -> 0x78563412,
      0x0102030405060708 -> 0x0807060504030201. */
  lemma KnownVectors()
    ensures BitSwap16(0x1234) == 0x3412
    ensures BitSwap32(0x12345678) == 0x78563412
    ensures BitSwap64(0x0102030405060708) == 0x0807060504030201
  {
  }
}
