/**
 * The two public obfuscation masks of the crypto-manager protocol: a 32-bit
 * word mask XORed onto integer fields and a byte mask XORed onto every byte
 * of key material and of every enciphered block.
 */
module Masks {
  import opened Aria

  const WordMask: bv32 := 0x1f398ab3
  const ByteMask: bv8 := 0xb3

  /** Each byte XORed with the byte mask. */
  function MaskBytes(s: seq<bv8>): (r: seq<bv8>)
    ensures |r| == |s|
    ensures forall i :: 0 <= i < |s| ==> r[i] == s[i] ^ ByteMask
  {
    if s == [] then [] else [s[0] ^ ByteMask] + MaskBytes(s[1..])
  }

  /** Each byte of each block XORed with the byte mask, block order kept. */
  function MaskBlocks(bs: seq<Block>): (r: seq<Block>)
    ensures |r| == |bs|
    ensures forall i :: 0 <= i < |bs| ==> r[i] == MaskBytes(bs[i])
  {
    if bs == [] then [] else [MaskBytes(bs[0])] + MaskBlocks(bs[1..])
  }

  lemma MaskWordInvolution(x: bv32)
    ensures (x ^ WordMask) ^ WordMask == x
  {
  }

  lemma {:induction false} MaskBytesInvolution(s: seq<bv8>)
    ensures MaskBytes(MaskBytes(s)) == s
  {
    if s != [] {
      MaskBytesInvolution(s[1..]);
      assert MaskBytes(s)[1..] == MaskBytes(s[1..]);
    }
  }

  lemma {:induction false} MaskBlocksInvolution(bs: seq<Block>)
    ensures MaskBlocks(MaskBlocks(bs)) == bs
  {
    if bs != [] {
      MaskBlocksInvolution(bs[1..]);
      MaskBytesInvolution(bs[0]);
      assert MaskBlocks(bs)[1..] == MaskBlocks(bs[1..]);
    }
  }
}
