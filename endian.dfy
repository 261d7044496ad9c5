/** The `endian` namespace: swap_endian, which dispatches on the operand's
    width, and the four direction wrappers.

    An operand is its object representation (`data`, bytes in memory
    order, at least one byte as every C++ object has). The host's byte
    order, std::endian::native, is the parameter `native`. */
module Endian {
  import opened Bytes
  import opened BitSwap

  /* std::bit_cast between an operand of width 2, 4 or 8 and the unsigned
     word of that width: the word's bytes, by significance, are the
     operand's bytes as the host lays them out. */

  /** The 16-bit word an operand of width 2 bit-casts to on this host. */
  function Load16(native: Order, data: seq<bv8>): (w: bv16)
    requires |data| == 2
    ensures Bytes16(w) == Significance(native, data)
  {
    Word16(Significance(native, data))
  }

  /** The object representation of a 16-bit word on this host. */
  function Store16(native: Order, w: bv16): (data: seq<bv8>)
    ensures |data| == 2
    ensures Load16(native, data) == w
  {
    SignificanceInvolution(native, Bytes16(w));
    Bytes16Injective(Word16(Bytes16(w)), w);
    Significance(native, Bytes16(w))
  }

  /** The 32-bit word an operand of width 4 bit-casts to on this host. */
  function Load32(native: Order, data: seq<bv8>): (w: bv32)
    requires |data| == 4
    ensures Bytes32(w) == Significance(native, data)
  {
    Word32(Significance(native, data))
  }

  /** The object representation of a 32-bit word on this host. */
  function Store32(native: Order, w: bv32): (data: seq<bv8>)
    ensures |data| == 4
    ensures Load32(native, data) == w
  {
    SignificanceInvolution(native, Bytes32(w));
    Bytes32Injective(Word32(Bytes32(w)), w);
    Significance(native, Bytes32(w))
  }

  /** The 64-bit word an operand of width 8 bit-casts to on this host. */
  function Load64(native: Order, data: seq<bv8>): (w: bv64)
    requires |data| == 8
    ensures Bytes64(w) == Significance(native, data)
  {
    Word64(Significance(native, data))
  }

  /** The object representation of a 64-bit word on this host. */
  function Store64(native: Order, w: bv64): (data: seq<bv8>)
    ensures |data| == 8
    ensures Load64(native, data) == w
  {
    SignificanceInvolution(native, Bytes64(w));
    Bytes64Injective(Word64(Bytes64(w)), w);
    Significance(native, Bytes64(w))
  }

  /** Storing a loaded word gives back the bytes it was loaded from. */
  lemma StoreLoad16(native: Order, data: seq<bv8>)
    requires |data| == 2
    ensures Store16(native, Load16(native, data)) == data
  {
  }

  lemma StoreLoad32(native: Order, data: seq<bv8>)
    requires |data| == 4
    ensures Store32(native, Load32(native, data)) == data
  {
  }

  lemma StoreLoad64(native: Order, data: seq<bv8>)
    requires |data| == 8
    ensures Store64(native, Load64(native, data)) == data
  {
  }

  /** Swapping the loaded word and storing it back reverses the operand's
      bytes, whichever byte order the host has. */
  lemma WordSwapReverses16(native: Order, data: seq<bv8>)
    requires |data| == 2
    ensures Store16(native, BitSwap16(Load16(native, data))) == Reversed(data)
  {
  }

  lemma WordSwapReverses32(native: Order, data: seq<bv8>)
    requires |data| == 4
    ensures Store32(native, BitSwap32(Load32(native, data))) == Reversed(data)
  {
  }

  lemma WordSwapReverses64(native: Order, data: seq<bv8>)
    requires |data| == 8
    ensures Store64(native, BitSwap64(Load64(native, data))) == Reversed(data)
  {
  }

  /** swap_endian: a 1-byte operand is returned as it is; widths 2, 4 and 8
      go through bitSwap16/32/64 on the operand's bit pattern; every other
      width is reversed byte by byte (the loop is ReverseBytes below).
      Whatever the path, the result holds the operand's bytes reversed. */
  function SwapEndian(native: Order, data: seq<bv8>): (r: seq<bv8>)
    requires |data| >= 1
    ensures r == Reversed(data)
    ensures |data| == 1 ==> r == data
    ensures |data| == 2 ==> Load16(native, r) == BitSwap16(Load16(native, data))
    ensures |data| == 4 ==> Load32(native, r) == BitSwap32(Load32(native, data))
    ensures |data| == 8 ==> Load64(native, r) == BitSwap64(Load64(native, data))
  {
    if |data| == 1 then
      data
    else if |data| == 2 then
      Store16(native, BitSwap16(Load16(native, data)))
    else if |data| == 4 then
      Store32(native, BitSwap32(Load32(native, data)))
    else if |data| == 8 then
      Store64(native, BitSwap64(Load64(native, data)))
    else
      Reversed(data)
  }

  /** The generic branch of swap_endian: the operand's bytes are copied to
      a byte buffer, two indices walk in from both ends exchanging bytes
      until they meet or cross, and the buffer is the result. */
  method ReverseBytes(data: seq<bv8>) returns (r: seq<bv8>)
    requires |data| >= 1
    ensures r == Reversed(data)
    ensures |data| % 2 == 1 ==> r[|data| / 2] == data[|data| / 2]
  {
    var n := |data|;
    var p := new bv8[n](i requires 0 <= i < n => data[i]);
    var lo, hi := 0, n - 1;
    while hi > lo
      invariant 0 <= lo <= hi + 1 <= n
      invariant lo + hi == n - 1
      invariant forall k :: 0 <= k < lo ==> p[k] == data[n - 1 - k]
      invariant forall k :: hi < k < n ==> p[k] == data[n - 1 - k]
      invariant forall k :: lo <= k <= hi ==> p[k] == data[k]
    {
      p[lo], p[hi] := p[hi], p[lo];
      lo, hi := lo + 1, hi - 1;
    }
    r := p[..];
  }

  /** Swapping twice gives back the operand. */
  lemma SwapEndianInvolution(native: Order, data: seq<bv8>)
    requires |data| >= 1
    ensures SwapEndian(native, SwapEndian(native, data)) == data
  {
  }

  /** A 3-byte operand [a, b, c] becomes [c, b, a]: the middle byte stays. */
  lemma SwapEndianThreeBytes(native: Order, a: bv8, b: bv8, c: bv8)
    ensures SwapEndian(native, [a, b, c]) == [c, b, a]
  {
  }

  /** native_to_little: the result, read as little-endian, holds the same
      value as the operand read in native order; it is the operand itself
      on a little-endian host and its swap on a big-endian one. */
  function NativeToLittle(native: Order, data: seq<bv8>): (r: seq<bv8>)
    requires |data| >= 1
    ensures Significance(Little, r) == Significance(native, data)
    ensures native == Little ==> r == data
    ensures native == Big ==> r == SwapEndian(native, data)
  {
    if native == Big then SwapEndian(native, data) else data
  }

  /** native_to_big: the result, read as big-endian, holds the same value
      as the operand read in native order; it is the operand itself on a
      big-endian host and its swap on a little-endian one. */
  function NativeToBig(native: Order, data: seq<bv8>): (r: seq<bv8>)
    requires |data| >= 1
    ensures Significance(Big, r) == Significance(native, data)
    ensures native == Big ==> r == data
    ensures native == Little ==> r == SwapEndian(native, data)
  {
    if native == Little then SwapEndian(native, data) else data
  }

  /** big_to_native: the result, read in native order, holds the same value
      as the operand read as big-endian. */
  function BigToNative(native: Order, data: seq<bv8>): (r: seq<bv8>)
    requires |data| >= 1
    ensures Significance(native, r) == Significance(Big, data)
    ensures native == Big ==> r == data
    ensures native == Little ==> r == SwapEndian(native, data)
  {
    if native == Little then
      SwapEndian(native, data)
    else
      data
  }

  /** little_to_native: the result, read in native order, holds the same
      value as the operand read as little-endian. */
  function LittleToNative(native: Order, data: seq<bv8>): (r: seq<bv8>)
    requires |data| >= 1
    ensures Significance(native, r) == Significance(Little, data)
    ensures native == Little ==> r == data
    ensures native == Big ==> r == SwapEndian(native, data)
  {
    if native == Big then
      SwapEndian(native, data)
    else
      data
  }

  /** Converting to little-endian and back, or back and then to
      little-endian, gives the operand again, on either kind of host. */
  lemma LittleRoundTrip(native: Order, data: seq<bv8>)
    requires |data| >= 1
    ensures LittleToNative(native, NativeToLittle(native, data)) == data
    ensures NativeToLittle(native, LittleToNative(native, data)) == data
  {
    ReversedInvolution(data);
  }

  /** The same round trips through big-endian. */
  lemma BigRoundTrip(native: Order, data: seq<bv8>)
    requires |data| >= 1
    ensures BigToNative(native, NativeToBig(native, data)) == data
    ensures NativeToBig(native, BigToNative(native, data)) == data
  {
    ReversedInvolution(data);
  }
}
