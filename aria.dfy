/**
 * The ARIA block cipher as the crypto manager sees it: 16-byte blocks, a
 * 32-byte key, and an encrypt/decrypt pair.  The cipher itself belongs to an
 * external crate, so it is a value supplied by the caller; the only fact the
 * protocol relies on, that decryption undoes encryption under the same key,
 * is the predicate `DecryptInvertsEncrypt`, assumed where it is needed.
 */
module Aria {

  const BlockSize := 16
  const KeySize := 32

  type Block = b: seq<bv8> | |b| == BlockSize witness seq(BlockSize, _ => 0)

  type Key = k: seq<bv8> | |k| == KeySize witness seq(KeySize, _ => 0)

  /**
   * `encrypt(k, b)` is `k.expand().encrypt_mut(b)` and `decrypt(k, b)` is the
   * same with the decryption key derived from that expansion.  Being
   * functions, equal keys always give equal results.
   */
  datatype Cipher = Cipher(encrypt: (Key, Block) -> Block, decrypt: (Key, Block) -> Block)

  ghost predicate DecryptInvertsEncrypt(c: Cipher)
  {
    forall k: Key, b: Block :: c.decrypt(k, c.encrypt(k, b)) == b
  }

  /** Every block of `bs` encrypted with `k`, in order. */
  function EncryptBlocks(c: Cipher, k: Key, bs: seq<Block>): (r: seq<Block>)
    ensures |r| == |bs|
    ensures forall i :: 0 <= i < |bs| ==> r[i] == c.encrypt(k, bs[i])
  {
    if bs == [] then [] else [c.encrypt(k, bs[0])] + EncryptBlocks(c, k, bs[1..])
  }

  /** Every block of `bs` decrypted with `k`, in order. */
  function DecryptBlocks(c: Cipher, k: Key, bs: seq<Block>): (r: seq<Block>)
    ensures |r| == |bs|
    ensures forall i :: 0 <= i < |bs| ==> r[i] == c.decrypt(k, bs[i])
  {
    if bs == [] then [] else [c.decrypt(k, bs[0])] + DecryptBlocks(c, k, bs[1..])
  }

  /** Decrypting an encrypted block array gives it back. */
  lemma {:induction false} DecryptEncryptBlocks(c: Cipher, k: Key, bs: seq<Block>)
    requires DecryptInvertsEncrypt(c)
    ensures DecryptBlocks(c, k, EncryptBlocks(c, k, bs)) == bs
  {
    if bs != [] {
      DecryptEncryptBlocks(c, k, bs[1..]);
      assert EncryptBlocks(c, k, bs) == [c.encrypt(k, bs[0])] + EncryptBlocks(c, k, bs[1..]);
    }
  }
}
