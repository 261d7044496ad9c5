/** Byte-level views shared by the word swaps and the width dispatcher.

    An operand of the endian utilities is modelled by its object
    representation: the sequence of its bytes in memory order. */
module Bytes {

  /** The byte order of a machine (std::endian): `Little` stores the least
      significant byte at the lowest address, `Big` the most significant. */
  datatype Order = Little | Big

  /** The byte sequence read back to front: position i holds byte n-1-i. */
  function Reversed(s: seq<bv8>): (r: seq<bv8>)
    ensures |r| == |s|
    ensures forall i :: 0 <= i < |s| ==> r[i] == s[|s| - 1 - i]
  {
    seq(|s|, i requires 0 <= i < |s| => s[|s| - 1 - i])
  }

  /** Reversing twice gives back the original bytes. */
  lemma ReversedInvolution(s: seq<bv8>)
    ensures Reversed(Reversed(s)) == s
  {
  }

  /** The bytes of a value stored in `order`, listed from least to most
      significant: memory order for a little-endian layout, memory order
      reversed for a big-endian one. */
  function Significance(order: Order, mem: seq<bv8>): (r: seq<bv8>)
    ensures |r| == |mem|
    ensures order == Little ==> r == mem
    ensures order == Big ==> forall i :: 0 <= i < |mem| ==> r[i] == mem[|mem| - 1 - i]
  {
    match order
    case Little => mem
    case Big => Reversed(mem)
  }

  /** Listing a layout by significance is undone by listing it again:
      the same function lays out a significance-ordered byte list in memory. */
  lemma SignificanceInvolution(order: Order, mem: seq<bv8>)
    ensures Significance(order, Significance(order, mem)) == mem
  {
  }
}
