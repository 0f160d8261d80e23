/**
 * The crypto-manager packets, as far as the connection handler reads and
 * writes them.  The wire layout belongs to the packet crate, which is not
 * part of this model; each payload is the record of fields the handler
 * uses.  Fields that are only compared with a constant are `nat`; fields
 * that are XORed with the word mask are `bv32`.
 */
module Packets {
  import opened Wrappers
  import opened Aria

  /** The crypto manager's `Connect` hello: two sentinels. */
  datatype Hello = Hello(unk1: nat, worldId: nat)

  datatype ConnectAckFields = ConnectAckFields(
    unk1: nat, unk2: seq<bv8>, unk3: nat, unk4: nat, unk5: bv32, unk6: nat)

  /** `KeyAuthRequest`: a masked port, two reserved words and four enciphered fields. */
  datatype AuthRequest = AuthRequest(
    xorPort: bv32, unk1: nat, unk2: nat,
    ipOrigin: Block, ipLocal: Block, srchash: seq<Block>, binbuf: seq<Block>)

  datatype AuthResponse = AuthResponse(
    unk1: nat, xorUnk2: bv32, ipLocal: Block,
    xorUnk3: bv8, encItem: seq<Block>,
    xorUnk4: bv8, encMobs: seq<Block>,
    xorUnk5: bv8, encWarp: seq<Block>,
    port: nat)

  /** The request nested, bincode-encoded, inside an inbound `ESYM` packet. */
  datatype EsymRequest = EsymRequest(nation: nat, srchash: string)

  /** The response nested, bincode-encoded, inside an outbound `ESYM` packet. */
  datatype EsymResponse = EsymResponse(unk1: nat, filesize: u32, esym: seq<bv8>)

  /**
   * The payload kinds the handler distinguishes.  `Connect(None)` is a
   * `Connect` packet that does not convert to the crypto manager's form;
   * `Other` stands for every kind the dispatch loop does not handle.
   */
  datatype Payload =
    | Connect(hello: Option<Hello>)
    | ConnectAck(ack: ConnectAckFields)
    | EncryptKey2Request(keySplitPoint: bv32)
    | EncryptKey2Response(keySplitPoint: bv32, shortkey: seq<bv8>)
    | KeyAuthRequest(auth: AuthRequest)
    | KeyAuthResponse(reply: AuthResponse)
    | Esym(bytes: seq<bv8>)
    | Other(kind: nat)

  /** Number of blocks in a fixed-size name array (`[Block; 16]`). */
  const NameBlocks := 16

  predicate IsAscii(s: string)
  {
    forall i :: 0 <= i < |s| ==> s[i] as int < 128
  }

  type AsciiString = s: string | IsAscii(s)

  /** An unsigned 32-bit field. */
  type u32 = x: int | 0 <= x < 0x1_0000_0000

  /** The one UTF-8 byte of an ASCII character: its code point. */
  function AsciiByte(c: char): bv8
    requires c as int < 128
  {
    c as int as bv8
  }

  /** The UTF-8 bytes of an ASCII string, one per character. */
  function AsciiBytes(s: string): (r: seq<bv8>)
    requires IsAscii(s)
    ensures |r| == |s|
  {
    seq(|s|, i requires 0 <= i < |s| => AsciiByte(s[i]))
  }

  /** `bytes` followed by zeros up to length `n`. */
  function ZeroPad(bytes: seq<bv8>, n: nat): (r: seq<bv8>)
    requires |bytes| <= n
    ensures |r| == n && r[..|bytes|] == bytes
    ensures forall i :: |bytes| <= i < n ==> r[i] == 0
  {
    bytes + seq(n - |bytes|, _ => 0)
  }

  /** `bytes` cut into consecutive blocks. */
  function Chunks(bytes: seq<bv8>): (r: seq<Block>)
    requires |bytes| % BlockSize == 0
    ensures |r| * BlockSize == |bytes|
    ensures Flatten(r) == bytes
  {
    if bytes == [] then []
    else
      var rest := Chunks(bytes[BlockSize..]);
      assert ([bytes[..BlockSize]] + rest)[1..] == rest;
      [bytes[..BlockSize]] + rest
  }

  /** The blocks of `bs`, concatenated. */
  function Flatten(bs: seq<Block>): (r: seq<bv8>)
    ensures |r| == |bs| * BlockSize
  {
    if bs == [] then [] else bs[0] + Flatten(bs[1..])
  }

  /** `Block::new(s)`: the string's bytes, zero-padded to one block. */
  function BlockOfStr(s: string): (b: Block)
    requires IsAscii(s) && |s| <= BlockSize
    ensures b[..|s|] == AsciiBytes(s)
  {
    ZeroPad(AsciiBytes(s), BlockSize)
  }

  /** `Block::arr_from_slice(s)` into `[Block; 16]`: the zero-padded bytes, block by block. */
  function NameArray(s: string): (bs: seq<Block>)
    requires IsAscii(s) && |s| <= NameBlocks * BlockSize
    ensures |bs| == NameBlocks
    ensures Flatten(bs)[..|s|] == AsciiBytes(s)
  {
    Chunks(ZeroPad(AsciiBytes(s), NameBlocks * BlockSize))
  }
}
