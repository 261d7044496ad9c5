# Byte-order conversion in Aulit's `endian.hpp`, modelled in Dafny

This project models the byte-order conversion engine of the Aulit utility
headers. It covers `include/Aulit/endian.hpp` in four layers:

- `bitSwap16`, `bitSwap32` and `bitSwap64` reverse the bytes of an unsigned
  word (module `BitSwap`, file `bitswap.dfy`).
- `endian::swap_endian` dispatches on the operand's width (module `Endian`,
  file `endian.dfy`). A 1-byte operand is returned unchanged. Widths 2, 4 and 8
  are bit-cast to the unsigned word of that width and swapped by the matching
  `bitSwapN`. Any other width is reversed by a two-index loop over its bytes.
- `native_to_little`, `native_to_big`, `big_to_native` and `little_to_native`
  call `swap_endian` only when the host's byte order differs from the named
  one.
- The host's byte order, `std::endian::native`, is the parameter `native` of
  type `Bytes.Order`.

Operands are modelled by their object representation: a `seq<bv8>` in memory
order, at least one byte long, as every C++ object is. `std::bit_cast` to a
word of width 2, 4 or 8 is `Load16/32/64`. It reads the bytes in the host's
order of significance, given by `Bytes.Significance`. `Store16/32/64` is the
bit-cast back. Words are `bv16`, `bv32` and `bv64`. Their bytes, least
significant first, are `Bytes16/32/64`.

Main results:

- Each swap's bytes are its input's bytes reversed.
- `SwapEndian` reverses the operand's bytes whatever its width and whatever
  the host's order.
- The generic loop `ReverseBytes` computes the same reversal.
- Each wrapper's result holds the same value in the target order as its
  operand holds in the source order.
- Converting to an order and back gives the operand again.

`swap_endian` does not keep the operand's type: for widths 2, 4 and 8 it
returns a `std::uint16_t`, `std::uint32_t` or `std::uint64_t` (endian.hpp
lines 88, 90 and 92). Since every operand is a byte sequence, the model
compares bit patterns only.

## Model

| member | source | states |
|---|---|---|
| `BitSwap.BitSwap16` | include/Aulit/endian.hpp:13-25 | rotating left by 8 exchanges the two bytes: the result's bytes are the input's bytes reversed |
| `BitSwap.BitSwap32` | include/Aulit/endian.hpp:27-46 | byte k of the result is byte 3-k of the input |
| `BitSwap.BitSwap64` | include/Aulit/endian.hpp:48-77 | byte k of the result is byte 7-k of the input |
| `BitSwap.BitSwap16IsShiftPair` | include/Aulit/endian.hpp:15-22 | the rotation equals the OR of the two bytes shifted past each other, and those halves do not overlap |
| `BitSwap.BitSwap32TermsDisjoint` | include/Aulit/endian.hpp:29-32 | the four masked terms occupy disjoint lanes: their OR equals their XOR and their sum |
| `BitSwap.BitSwap64TermsDisjoint` | include/Aulit/endian.hpp:51-58 | the eight masked terms occupy disjoint lanes: their OR equals their XOR and their sum |
| `BitSwap.BitSwap16Involution` | include/Aulit/endian.hpp:13-25 | swapping twice gives back the 16-bit input |
| `BitSwap.BitSwap32Involution` | include/Aulit/endian.hpp:27-46 | swapping twice gives back the 32-bit input |
| `BitSwap.BitSwap64Involution` | include/Aulit/endian.hpp:48-77 | swapping twice gives back the 64-bit input |
| `BitSwap.KnownVectors` | include/Aulit/endian.hpp:13-77 | 0x1234 becomes 0x3412, 0x12345678 becomes 0x78563412, and 0x0102030405060708 becomes 0x0807060504030201 |
| `BitSwap.Word16` | include/Aulit/endian.hpp:88 | the word built from two bytes has exactly those bytes |
| `BitSwap.Word32` | include/Aulit/endian.hpp:90 | the word built from four bytes has exactly those bytes |
| `BitSwap.Word64` | include/Aulit/endian.hpp:92 | the word built from eight bytes has exactly those bytes |
| `Endian.Load16` | include/Aulit/endian.hpp:88 | the word a 2-byte operand bit-casts to has, least significant first, the operand's bytes in host order; `Store16` is its inverse (see `Store16` and `StoreLoad16`) |
| `Endian.Load32` | include/Aulit/endian.hpp:90 | the word a 4-byte operand bit-casts to has, least significant first, the operand's bytes in host order; `Store32` is its inverse |
| `Endian.Load64` | include/Aulit/endian.hpp:92 | the word an 8-byte operand bit-casts to has, least significant first, the operand's bytes in host order; `Store64` is its inverse |
| `Endian.Store16` | include/Aulit/endian.hpp:88 | bit-casting a 16-bit word to bytes and back gives the word again |
| `Endian.Store32` | include/Aulit/endian.hpp:90 | bit-casting a 32-bit word to bytes and back gives the word again |
| `Endian.Store64` | include/Aulit/endian.hpp:92 | bit-casting a 64-bit word to bytes and back gives the word again |
| `Endian.StoreLoad16` | include/Aulit/endian.hpp:88 | bit-casting 2 bytes to a word and back gives the bytes again |
| `Endian.StoreLoad32` | include/Aulit/endian.hpp:90 | bit-casting 4 bytes to a word and back gives the bytes again |
| `Endian.StoreLoad64` | include/Aulit/endian.hpp:92 | bit-casting 8 bytes to a word and back gives the bytes again |
| `Endian.WordSwapReverses16` | include/Aulit/endian.hpp:87-88 | bit-casting 2 bytes, swapping with bitSwap16 and bit-casting back reverses the bytes, on either byte order |
| `Endian.WordSwapReverses32` | include/Aulit/endian.hpp:89-90 | the same for 4 bytes and bitSwap32 |
| `Endian.WordSwapReverses64` | include/Aulit/endian.hpp:91-92 | the same for 8 bytes and bitSwap64 |
| `Endian.SwapEndian` | include/Aulit/endian.hpp:84-102 | the result is the operand's bytes reversed; a 1-byte operand is unchanged; for widths 2, 4 and 8 the result's bit pattern is bitSwapN of the operand's |
| `Endian.ReverseBytes` | include/Aulit/endian.hpp:93-101 | the two-index loop leaves position i holding original byte n-1-i; for odd n the middle byte keeps its value |
| `Endian.SwapEndianInvolution` | include/Aulit/endian.hpp:84-102 | swapping an operand twice gives it back, for every width |
| `Endian.SwapEndianThreeBytes` | include/Aulit/endian.hpp:93-101 | a 3-byte operand [a, b, c] becomes [c, b, a] |
| `Endian.NativeToLittle` | include/Aulit/endian.hpp:104-108 | the result read as little-endian equals the operand read natively; it is the operand on a little-endian host and its swap on a big-endian one |
| `Endian.NativeToBig` | include/Aulit/endian.hpp:110-114 | the result read as big-endian equals the operand read natively; it is the operand on a big-endian host and its swap on a little-endian one |
| `Endian.BigToNative` | include/Aulit/endian.hpp:116-120 | the result read natively equals the operand read as big-endian; it is the operand on a big-endian host and its swap on a little-endian one |
| `Endian.LittleToNative` | include/Aulit/endian.hpp:122-126 | the result read natively equals the operand read as little-endian; it is the operand on a little-endian host and its swap on a big-endian one |
| `Endian.LittleRoundTrip` | include/Aulit/endian.hpp:104-126 | little_to_native undoes native_to_little and the reverse holds too, on either host order |
| `Endian.BigRoundTrip` | include/Aulit/endian.hpp:110-120 | big_to_native undoes native_to_big and the reverse holds too, on either host order |
| `Bytes.ReversedInvolution` | include/Aulit/endian.hpp:93-101 | reversing a byte sequence twice gives it back |

## Left out

- Compiler intrinsics are not modelled: `__builtin_bswap16/32/64` and `_byteswap_ushort/ulong/uint64` (endian.hpp lines 17-20, 34-37, 60-63) are foreign calls. Only the portable expressions are modelled.
- The `std::is_constant_evaluated()` selection is not modelled. In each swap, the constant-evaluation branch and the portable run-time fallback are the same expression token for token (lines 15 and 22, 29-32 and 39-42, 51-58 and 65-73). So one function models both, and their equivalence holds by construction. Equivalence with the intrinsics is not stated.
- The `__has_builtin` and `_MSC_VER` preprocessor probing is not modelled. It chooses how a result is computed, not what it is.
- The empty 128-bit placeholder (lines 78-80) has no behaviour to model.
- `std::bit_cast` of floating-point or other typed operands is not modelled. Every operand is its byte sequence.
- The generic branch as written does not compile as C++. It takes a `std::byte*` from a `const` reference (line 94) and bit-casts a pointer back to the operand type (line 100). `Endian.ReverseBytes` models the intended behaviour instead: the operand's bytes are reversed in place in a mutable byte buffer, and that buffer is returned.
- Mixed-endian hosts are not modelled. `std::endian::native` may equal neither `little` nor `big`, and then all four wrappers return their operand unchanged. `Bytes.Order` has only `Little` and `Big`.
- The in-place conversion variants are not part of this model. This revision of `endian.hpp` defines only the four value-returning wrappers.
- The operand type is not tracked. For widths 2, 4 and 8 the code returns the unsigned word type, and the model compares bit patterns only.
- `include/Aulit/scope.hpp` is not part of this model. Its guards depend on exception and lifetime semantics (`std::uncaught_exceptions()`).
- `include/Aulit/random_value.hpp` is not part of this model. It uses a thread-local engine with non-deterministic seeding and floating-point distributions.
- `include/Aulit/is_char.hpp` is not part of this model. It is a compile-time type trait with no value-level behaviour.
- `include/Aulit/simplifiedIO.hpp` is not part of this model. It is stream I/O and output synchronisation.
