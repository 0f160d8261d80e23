/**
 * The crypto manager's per-connection handler: the `Connect` handshake, then
 * a dispatch loop answering key-exchange (`EncryptKey2Request`),
 * authentication (`KeyAuthRequest`) and resource (`ESYM`) requests.
 *
 * The first half states what one connection does as functions of what it
 * receives; `Connection` below is the stateful handler, proved to behave as
 * those functions say.
 */
module CryptoMgr {
  import opened Wrappers
  import opened Aria
  import opened Masks
  import opened Packets
  import opened Paths

  /** Code the handler calls but that is not part of this model. */
  datatype Env = Env(
    aria: Cipher,                                          // the `aria` crate
    isStr: seq<bv8> -> bool,                               // `try_as_str` succeeds on these bytes
    decodeEsym: seq<bv8> -> Option<(EsymRequest, nat)>,    // `bincode::decode_from_slice`: request and bytes consumed
    encodeEsym: EsymResponse -> seq<bv8>,                  // `bincode::encode_into_std_write`
    readFile: string -> Option<seq<bv8>>)                  // `std::fs::read`

  /** The shared read-only configuration a connection consults. */
  datatype Config = Config(resourcesDir: string)

  /** Why a connection ends.  `AssertionFailed` is an `assert_eq!` panic; the rest are errors. */
  datatype Failure =
    | RecvFailed
    | ExpectedConnect
    | MalformedHello
    | AssertionFailed(field: string)
    | ShortkeyNotInitialized
    | NotText(field: string)
    | EsymDecodeFailed
    | TrailingData
    | CannotRead(path: string)

  predicate IsPanic(f: Failure)
  {
    f.AssertionFailed?
  }

  datatype Outcome = Pass | Fail(failure: Failure)

  // ---------------------------------------------------------------- handshake

  const HelloUnk1 := 0xf6
  const HelloWorldId := 0xfd

  const ConnectAckPacket: Payload :=
    ConnectAck(ConnectAckFields(0x0, [0x00, 0xff, 0x00, 0xff, 0x00, 0x00, 0x00, 0x00], 0xf6, 0xf6, 0x398ab300, 0x1f))

  /** How the first packet is judged: `None` when it opens the session. */
  function HelloCheck(p: Payload): (f: Option<Failure>)
    ensures f.None? <==> p == Connect(Some(Hello(HelloUnk1, HelloWorldId)))
    ensures p.Connect? && p.hello.Some? && f.Some? ==> IsPanic(f.value)
    ensures !(p.Connect? && p.hello.Some?) ==> f.Some? && !IsPanic(f.value)
  {
    match p
    case Connect(None) => Some(MalformedHello)
    case Connect(Some(hello)) =>
      if hello.unk1 != HelloUnk1 then Some(AssertionFailed("unk1"))
      else if hello.worldId != HelloWorldId then Some(AssertionFailed("world_id"))
      else None
    case _ => Some(ExpectedConnect)
  }

  // ------------------------------------------------------------- key exchange

  /** Number of key bytes sent in the key-exchange reply. */
  const ShortKeyLen := 9
  /** Number of key bytes the generator fills with letters. */
  const LetterCount := 8

  /** `b` lies in `lo..=hi`, the range `gen_range` draws from. */
  predicate InRange(b: bv8, lo: bv8, hi: bv8)
  {
    lo <= b <= hi
  }

  predicate IsAsciiLetter(b: bv8)
  {
    InRange(b, 'a' as bv8, 'z' as bv8) || InRange(b, 'A' as bv8, 'Z' as bv8)
  }

  /** A key as the generator leaves it: eight letters, then zeros. */
  predicate IsFreshKey(k: Key)
  {
    (forall i :: 0 <= i < LetterCount ==> IsAsciiLetter(k[i])) &&
    (forall i :: LetterCount <= i < KeySize ==> k[i] == 0)
  }

  /** The key if there is one, else one of the shape the generator produces. */
  function KeyOr(key: Option<Key>): Key
  {
    if key.Some? then key.value else SomeFreshKey()
  }

  /** One key of the shape the generator produces. */
  function SomeFreshKey(): (k: Key)
    ensures IsFreshKey(k)
  {
    seq(KeySize, i => if i < LetterCount then 'a' as bv8 else 0)
  }

  /** The reply to a key request carrying `split`, once the key is `k`. */
  function KeyExchange(split: bv32, k: Key): (r: Payload)
    ensures r.EncryptKey2Response? && |r.shortkey| == ShortKeyLen
    ensures r.keySplitPoint ^ WordMask == split
    ensures MaskBytes(r.shortkey) == k[..ShortKeyLen]
  {
    MaskBytesInvolution(k[..ShortKeyLen]);
    EncryptKey2Response(split ^ WordMask, MaskBytes(k[..ShortKeyLen]))
  }

  // ----------------------------------------------------------- authentication

  /** Inbound layering: byte-unmask, then decrypt. */
  function OpenBlocks(c: Cipher, k: Key, bs: seq<Block>): seq<Block>
  {
    DecryptBlocks(c, k, MaskBlocks(bs))
  }

  /** Outbound layering: encrypt, then byte-mask. */
  function SealBlocks(c: Cipher, k: Key, bs: seq<Block>): seq<Block>
  {
    MaskBlocks(EncryptBlocks(c, k, bs))
  }

  const ItemName: AsciiString := "Data/Item.scp"
  const MobsName: AsciiString := "Data/Mobs.scp"
  const WarpName: AsciiString := "Data/Warp.scp"
  const LoopbackAddress: AsciiString := "127.0.0.1"
  const AuthPort := 38180

  /** The authentication reply under key `k`. */
  function AuthReply(c: Cipher, k: Key): (r: AuthResponse)
    ensures |r.encItem| == |r.encMobs| == |r.encWarp| == NameBlocks
    ensures r.xorUnk2 ^ WordMask == 0x03010101
    ensures r.xorUnk3 ^ ByteMask == 4 && r.xorUnk4 ^ ByteMask == 2 && r.xorUnk5 ^ ByteMask == 1
    ensures r.ipLocal[..|LoopbackAddress|] == AsciiBytes(LoopbackAddress)
  {
    AuthResponse(
      0x1, 0x03010101 ^ WordMask, BlockOfStr(LoopbackAddress),
      4 ^ ByteMask, SealBlocks(c, k, NameArray(ItemName)),
      2 ^ ByteMask, SealBlocks(c, k, NameArray(MobsName)),
      1 ^ ByteMask, SealBlocks(c, k, NameArray(WarpName)),
      AuthPort)
  }

  /** The text check on one inbound enciphered field. */
  function TextCheck(env: Env, k: Key, field: seq<Block>, name: string): Option<Failure>
  {
    if env.isStr(Flatten(OpenBlocks(env.aria, k, field))) then None else Some(NotText(name))
  }

  /** What a `KeyAuthRequest` yields, given the connection's key. */
  function Authenticate(env: Env, key: Option<Key>, req: AuthRequest): (r: Result<Payload, Failure>)
    ensures r.Ok? ==> r.value.KeyAuthResponse? && key.Some? && req.unk1 == 0 && req.unk2 == 0
    ensures r.Err? && IsPanic(r.error) <==> req.unk1 != 0 || req.unk2 != 0
  {
    if req.unk1 != 0 then Err(AssertionFailed("unk1"))
    else if req.unk2 != 0 then Err(AssertionFailed("unk2"))
    else if key.None? then Err(ShortkeyNotInitialized)
    else
      var k := key.value;
      var checks := [
        TextCheck(env, k, [req.ipOrigin], "ip_origin"),
        TextCheck(env, k, [req.ipLocal], "ip_local"),
        TextCheck(env, k, req.srchash, "srchash"),
        TextCheck(env, k, req.binbuf, "binbuf")];
      if checks[0].Some? then Err(checks[0].value)
      else if checks[1].Some? then Err(checks[1].value)
      else if checks[2].Some? then Err(checks[2].value)
      else if checks[3].Some? then Err(checks[3].value)
      else Ok(KeyAuthResponse(AuthReply(env.aria, k)))
  }

  // ------------------------------------------------------------------- ESYM

  /** `resources_dir.join("resources/esym").join(srchash).with_extension("esym")`. */
  function EsymPath(dir: string, srchash: string): (path: string)
    ensures FileName(Push(Push(dir, "resources/esym"), srchash)).Some? ==>
      |path| > 5 && path[|path| - 5..] == ".esym"
  {
    var p := Push(Push(dir, "resources/esym"), srchash);
    if FileName(p).Some? then ExtensionAppended(p, "esym"); SetExtension(p, "esym") else SetExtension(p, "esym")
  }

  const U32Modulus := 0x1_0000_0000

  /** The response carrying file contents `data`; `as u32` keeps the length mod 2^32. */
  function EsymResponseFor(data: seq<bv8>): (r: EsymResponse)
    ensures r.unk1 == 1 && r.esym == data
    ensures |data| < U32Modulus ==> r.filesize == |data|
  {
    EsymResponse(0x1, |data| % U32Modulus, data)
  }

  /** What an inbound `ESYM` packet carrying `bytes` yields. */
  function ServeEsym(env: Env, dir: string, bytes: seq<bv8>): (r: Result<Payload, Failure>)
    ensures r.Ok? ==> r.value.Esym?
    ensures r.Err? ==> r.error.EsymDecodeFailed? || r.error.TrailingData? || r.error.CannotRead?
  {
    match env.decodeEsym(bytes)
    case None => Err(EsymDecodeFailed)
    case Some((req, len)) =>
      if len != |bytes| then Err(TrailingData)
      else
        var path := EsymPath(dir, req.srchash);
        match env.readFile(path)
        case None => Err(CannotRead(path))
        case Some(data) => Ok(Esym(env.encodeEsym(EsymResponseFor(data))))
  }

  // --------------------------------------------------------------- dispatch

  /** One turn of the dispatch loop: go on, with an optional reply and the key, or stop. */
  datatype Step = Next(reply: Option<Payload>, key: Option<Key>) | Stop(failure: Failure)

  /**
   * The loop's answer to packet `p` when the key is `key`; `g` is the key
   * the generator produces if this packet is the one that creates it.
   */
  function Dispatch(env: Env, dir: string, key: Option<Key>, g: Key, p: Payload): (r: Step)
    ensures r.Stop? ==> p.KeyAuthRequest? || p.Esym?
    ensures r.Next? && key.Some? ==> r.key == key
  {
    match p
    case EncryptKey2Request(split) =>
      var k := if key.Some? then key.value else g;
      Next(Some(KeyExchange(split, k)), Some(k))
    case KeyAuthRequest(req) => StepOf(Authenticate(env, key, req), key)
    case Esym(bytes) => StepOf(ServeEsym(env, dir, bytes), key)
    case _ => Next(None, key)
  }

  /** The dispatch turn that answers with `r`, keeping `key`. */
  function StepOf(r: Result<Payload, Failure>, key: Option<Key>): (step: Step)
    ensures step.Stop? <==> r.Err?
  {
    match r
    case Ok(reply) => Next(Some(reply), key)
    case Err(e) => Stop(e)
  }

  /** A handler that sent `r`'s reply or reported its error has done what `StepOf(r, key)` says. */
  lemma AnswerStep(r: Result<Payload, Failure>, step: Step, key: Option<Key>, out: Outcome, sent0: seq<Payload>, sent1: seq<Payload>)
    requires step == StepOf(r, key)
    requires match r
      case Ok(reply) => out == Pass && sent1 == sent0 + [reply]
      case Err(e) => out == Fail(e) && sent1 == sent0
    ensures match step
      case Next(reply, key') => out == Pass && key' == key && sent1 == sent0 + ReplyList(reply)
      case Stop(e) => out == Fail(e) && sent1 == sent0
  {
  }

  /** What a connection has sent, the key it ends with, and why it ended. */
  datatype Run = Run(sent: seq<Payload>, key: Option<Key>, failure: Failure)

  function Prepend(out: seq<Payload>, run: Run): Run
  {
    run.(sent := out + run.sent)
  }

  function ReplyList(reply: Option<Payload>): (r: seq<Payload>)
    ensures |r| <= 1
  {
    if reply.Some? then [reply.value] else []
  }

  /** The dispatch loop over the packets `msgs`, until one fails or they run out. */
  function Loop(env: Env, dir: string, key: Option<Key>, g: Key, msgs: seq<Payload>): Run
    decreases |msgs|
  {
    if msgs == [] then Run([], key, RecvFailed)
    else
      match Dispatch(env, dir, key, g, msgs[0])
      case Stop(e) => Run([], key, e)
      case Next(reply, key') => Prepend(ReplyList(reply), Loop(env, dir, key', g, msgs[1..]))
  }

  /** A whole connection over the packets `msgs`: handshake, acknowledgement, loop. */
  function Session(env: Env, dir: string, g: Key, msgs: seq<Payload>): (r: Run)
    ensures r.sent != [] ==> r.sent[0] == ConnectAckPacket && msgs != [] && msgs[0] == Connect(Some(Hello(HelloUnk1, HelloWorldId)))
  {
    if msgs == [] then Run([], None, RecvFailed)
    else
      match HelloCheck(msgs[0])
      case Some(e) => Run([], None, e)
      case None => Prepend([ConnectAckPacket], Loop(env, dir, None, g, msgs[1..]))
  }

  /** The generator's key matters only to a key request that finds no key. */
  lemma DispatchIgnoresG(env: Env, dir: string, key: Option<Key>, g1: Key, g2: Key, p: Payload)
    requires key.Some? || !p.EncryptKey2Request?
    ensures Dispatch(env, dir, key, g1, p) == Dispatch(env, dir, key, g2, p)
  {
  }

  /** A packet the loop answers and goes on from moves its reply into the sent prefix. */
  lemma Advance(env: Env, dir: string, msgs: seq<Payload>, out: seq<Payload>, rest: seq<Payload>,
                key: Option<Key>, h: Key, reply: Option<Payload>, key': Option<Key>)
    requires rest != []
    requires Session(env, dir, h, msgs) == Prepend(out, Loop(env, dir, key, h, rest))
    requires Dispatch(env, dir, key, h, rest[0]) == Next(reply, key')
    ensures Session(env, dir, h, msgs) == Prepend(out + ReplyList(reply), Loop(env, dir, key', h, rest[1..]))
  {
  }

  /** A packet the loop fails on ends the session with what was sent before it. */
  lemma Finish(env: Env, dir: string, msgs: seq<Payload>, out: seq<Payload>, rest: seq<Payload>,
               key: Option<Key>, h: Key, e: Failure)
    requires rest != []
    requires Session(env, dir, h, msgs) == Prepend(out, Loop(env, dir, key, h, rest))
    requires Dispatch(env, dir, key, h, rest[0]) == Stop(e)
    ensures Session(env, dir, h, msgs) == Run(out, key, e)
  {
  }

  // ------------------------------------------------------ in-place transforms

  /** `xor_blocks_mut`: XOR every byte of every block with the byte mask, in place. */
  method XorBlocksMut(blocks: array<Block>)
    modifies blocks
    ensures blocks[..] == MaskBlocks(old(blocks[..]))
  {
    for i := 0 to blocks.Length
      invariant forall m :: 0 <= m < i ==> blocks[m] == MaskBytes(old(blocks[m]))
      invariant forall m :: i <= m < blocks.Length ==> blocks[m] == old(blocks[m])
    {
      var b := blocks[i];
      for j := 0 to BlockSize
        invariant |b| == BlockSize
        invariant forall n :: 0 <= n < j ==> b[n] == blocks[i][n] ^ ByteMask
        invariant forall n :: j <= n < BlockSize ==> b[n] == blocks[i][n]
      {
        b := b[j := b[j] ^ ByteMask];
      }
      assert b == MaskBytes(blocks[i]);
      blocks[i] := b;
    }
  }

  /** `for_each(|b| deckey.decrypt_mut(b))` over a block slice. */
  method DecryptBlocksMut(c: Cipher, k: Key, blocks: array<Block>)
    modifies blocks
    ensures blocks[..] == DecryptBlocks(c, k, old(blocks[..]))
  {
    for i := 0 to blocks.Length
      invariant forall m :: 0 <= m < i ==> blocks[m] == c.decrypt(k, old(blocks[m]))
      invariant forall m :: i <= m < blocks.Length ==> blocks[m] == old(blocks[m])
    {
      blocks[i] := c.decrypt(k, blocks[i]);
    }
  }

  /** `for_each(|b| enckey.encrypt_mut(b))` over a block slice. */
  method EncryptBlocksMut(c: Cipher, k: Key, blocks: array<Block>)
    modifies blocks
    ensures blocks[..] == EncryptBlocks(c, k, old(blocks[..]))
  {
    for i := 0 to blocks.Length
      invariant forall m :: 0 <= m < i ==> blocks[m] == c.encrypt(k, old(blocks[m]))
      invariant forall m :: i <= m < blocks.Length ==> blocks[m] == old(blocks[m])
    {
      blocks[i] := c.encrypt(k, blocks[i]);
    }
  }

  /**
   * The `get_or_init` closure: a zeroed 32-byte buffer whose first eight
   * bytes are each a random lower- or upper-case letter.
   */
  method GenerateKey() returns (k: Key)
    ensures IsFreshKey(k)
  {
    var keybuf := new bv8[KeySize](_ => 0);
    for i := 0 to LetterCount
      invariant forall m :: 0 <= m < i ==> IsAsciiLetter(keybuf[m])
      invariant forall m :: i <= m < KeySize ==> keybuf[m] == 0
    {
      var lower: bool :| true;
      var b: bv8;
      if lower {
        assert InRange('a' as bv8, 'a' as bv8, 'z' as bv8);
        b :| InRange(b, 'a' as bv8, 'z' as bv8);
      } else {
        assert InRange('A' as bv8, 'A' as bv8, 'Z' as bv8);
        b :| InRange(b, 'A' as bv8, 'Z' as bv8);
      }
      keybuf[i] := b;
    }
    k := keybuf[..];
  }

  // ------------------------------------------------------------- connection

  /**
   * One accepted connection.  The packet stream is the pair `inbox` (what
   * `recv` has yet to deliver) and `sent` (what `send` has delivered);
   * `shortkey` is the set-once cell holding the session key.
   */
  class Connection {
    const id: int
    const args: Config
    var inbox: seq<Payload>
    var sent: seq<Payload>
    var shortkey: Option<Key>

    /** A set key has the shape the generator gives it. */
    ghost predicate Valid()
      reads this
    {
      shortkey.Some? ==> IsFreshKey(shortkey.value)
    }

    /** What the listener builds for an accepted stream: an empty key cell. */
    constructor (id: int, args: Config, inbox: seq<Payload>)
      ensures Valid()
      ensures this.id == id && this.args == args && this.inbox == inbox
      ensures sent == [] && shortkey == None
    {
      this.id := id;
      this.args := args;
      this.inbox := inbox;
      sent := [];
      shortkey := None;
    }

    /** `stream.recv()`: the next packet, or a failure once the stream is done. */
    method Recv() returns (p: Option<Payload>)
      modifies this`inbox
      ensures old(inbox) == [] ==> p == None && inbox == []
      ensures old(inbox) != [] ==> p == Some(old(inbox)[0]) && inbox == old(inbox)[1..]
    {
      if inbox == [] {
        p := None;
      } else {
        p := Some(inbox[0]);
        inbox := inbox[1..];
      }
    }

    /** `stream.send(p)`. */
    method Send(p: Payload)
      modifies this`sent
      ensures sent == old(sent) + [p]
    {
      sent := sent + [p];
    }

    /** `handle_key_req`: create the key if there is none, then send it masked. */
    method HandleKeyReq(split: bv32)
      requires Valid()
      modifies this`shortkey, this`sent
      ensures Valid() && shortkey.Some?
      ensures old(shortkey).Some? ==> shortkey == old(shortkey)
      ensures sent == old(sent) + [KeyExchange(split, shortkey.value)]
    {
      var keySplitPoint := split ^ WordMask;
      if shortkey.None? {
        var k := GenerateKey();
        shortkey := Some(k);
      }
      var key := shortkey.value;
      Send(EncryptKey2Response(keySplitPoint, MaskBytes(key[..ShortKeyLen])));
    }

    /** Unmask and decrypt a copy of `field` in place, then try it as text. */
    method OpenField(env: Env, k: Key, field: seq<Block>, name: string) returns (f: Option<Failure>)
      ensures f == TextCheck(env, k, field, name)
    {
      var blocks := new Block[|field|](i requires 0 <= i < |field| => field[i]);
      assert blocks[..] == field;
      XorBlocksMut(blocks);
      DecryptBlocksMut(env.aria, k, blocks);
      f := if env.isStr(Flatten(blocks[..])) then None else Some(NotText(name));
    }

    /** Build a name array, encrypt it in place, then byte-mask it in place. */
    method SealName(c: Cipher, k: Key, name: string) returns (bs: seq<Block>)
      requires IsAscii(name) && |name| <= NameBlocks * BlockSize
      ensures bs == SealBlocks(c, k, NameArray(name))
    {
      var plain := NameArray(name);
      var blocks := new Block[NameBlocks](i requires 0 <= i < NameBlocks => plain[i]);
      assert blocks[..] == plain;
      EncryptBlocksMut(c, k, blocks);
      XorBlocksMut(blocks);
      bs := blocks[..];
    }

    /**
     * `handle_auth_req`: check the reserved words and the key, open the four
     * enciphered fields, and on success send the fixed reply.  Never touches
     * the key.
     */
    method HandleAuthReq(env: Env, req: AuthRequest) returns (out: Outcome)
      modifies this`sent
      ensures match Authenticate(env, shortkey, req)
        case Ok(reply) => out == Pass && sent == old(sent) + [reply]
        case Err(e) => out == Fail(e) && sent == old(sent)
    {
      var port := req.xorPort ^ WordMask;
      if req.unk1 != 0 {
        return Fail(AssertionFailed("unk1"));
      }
      if req.unk2 != 0 {
        return Fail(AssertionFailed("unk2"));
      }
      if shortkey.None? {
        return Fail(ShortkeyNotInitialized);
      }
      var key := shortkey.value;
      var origin := OpenField(env, key, [req.ipOrigin], "ip_origin");
      var local := OpenField(env, key, [req.ipLocal], "ip_local");
      var srchash := OpenField(env, key, req.srchash, "srchash");
      var binbuf := OpenField(env, key, req.binbuf, "binbuf");
      if origin.Some? {
        return Fail(origin.value);
      }
      if local.Some? {
        return Fail(local.value);
      }
      if srchash.Some? {
        return Fail(srchash.value);
      }
      if binbuf.Some? {
        return Fail(binbuf.value);
      }
      var ipLocal := BlockOfStr(LoopbackAddress);
      var encItem := SealName(env.aria, key, ItemName);
      var encMobs := SealName(env.aria, key, MobsName);
      var encWarp := SealName(env.aria, key, WarpName);
      Send(KeyAuthResponse(AuthResponse(
        0x1, 0x03010101 ^ WordMask, ipLocal,
        4 ^ ByteMask, encItem,
        2 ^ ByteMask, encMobs,
        1 ^ ByteMask, encWarp,
        AuthPort)));
      return Pass;
    }

    /** `handle_esym`: decode the nested request, read the file, send it back. */
    method HandleEsym(env: Env, bytes: seq<bv8>) returns (out: Outcome)
      modifies this`sent
      ensures match ServeEsym(env, args.resourcesDir, bytes)
        case Ok(reply) => out == Pass && sent == old(sent) + [reply]
        case Err(e) => out == Fail(e) && sent == old(sent)
    {
      var decoded := env.decodeEsym(bytes);
      if decoded.None? {
        return Fail(EsymDecodeFailed);
      }
      var (req, len) := decoded.value;
      if len != |bytes| {
        return Fail(TrailingData);
      }
      var path := EsymPath(args.resourcesDir, req.srchash);
      var data := env.readFile(path);
      if data.None? {
        return Fail(CannotRead(path));
      }
      var r := EsymResponse(0x1, |data.value| % U32Modulus, data.value);
      Send(Esym(env.encodeEsym(r)));
      return Pass;
    }

    /** One turn of the dispatch loop's `match` on the packet kind. */
    method HandlePacket(env: Env, p: Payload) returns (out: Outcome)
      requires Valid()
      modifies this`sent, this`shortkey
      ensures Valid()
      ensures old(shortkey).Some? ==> shortkey == old(shortkey)
      ensures match Dispatch(env, args.resourcesDir, old(shortkey), KeyOr(shortkey), p)
        case Next(reply, key) => out == Pass && shortkey == key && sent == old(sent) + ReplyList(reply)
        case Stop(e) => out == Fail(e) && shortkey == old(shortkey) && sent == old(sent)
    {
      match p {
        case EncryptKey2Request(split) =>
          HandleKeyReq(split);
          out := Pass;
        case KeyAuthRequest(req) =>
          ghost var sent0 := sent;
          out := HandleAuthReq(env, req);
          AnswerStep(Authenticate(env, shortkey, req), Dispatch(env, args.resourcesDir, shortkey, KeyOr(shortkey), p),
                     shortkey, out, sent0, sent);
        case Esym(bytes) =>
          ghost var sent0 := sent;
          out := HandleEsym(env, bytes);
          AnswerStep(ServeEsym(env, args.resourcesDir, bytes), Dispatch(env, args.resourcesDir, shortkey, KeyOr(shortkey), p),
                     shortkey, out, sent0, sent);
        case _ =>
          out := Pass;
      }
    }

    /**
     * `handle`: the handshake, then the dispatch loop until a packet fails or
     * the stream ends.  `g` is the key the generator produced, or any key of
     * that shape if none was needed.
     */
    method Handle(env: Env) returns (f: Failure, ghost g: Key)
      requires Valid() && shortkey.None?
      modifies this`inbox, this`sent, this`shortkey
      ensures Valid() && IsFreshKey(g)
      ensures var run := Session(env, args.resourcesDir, g, old(inbox));
        sent == old(sent) + run.sent && shortkey == run.key && f == run.failure
    {
      ghost var msgs := inbox;
      ghost var dir := args.resourcesDir;
      f, g := RecvFailed, SomeFreshKey();
      var p := Recv();
      if p.None? {
        return RecvFailed, g;
      }
      if !p.value.Connect? {
        return ExpectedConnect, g;
      }
      var hello := p.value.hello;
      if hello.None? {
        return MalformedHello, g;
      }
      if hello.value.unk1 != HelloUnk1 {
        return AssertionFailed("unk1"), g;
      }
      if hello.value.worldId != HelloWorldId {
        return AssertionFailed("world_id"), g;
      }

      Send(ConnectAckPacket);
      ghost var out := [ConnectAckPacket];

      while true
        invariant Valid()
        invariant sent == old(sent) + out
        invariant shortkey.None? ==> forall h :: IsFreshKey(h) ==>
          Session(env, dir, h, msgs) == Prepend(out, Loop(env, dir, None, h, inbox))
        invariant shortkey.Some? ==>
          Session(env, dir, shortkey.value, msgs) == Prepend(out, Loop(env, dir, shortkey, shortkey.value, inbox))
        decreases |inbox|
      {
        ghost var key := shortkey;
        ghost var rest := inbox;
        ghost var before := out;
        p := Recv();
        if p.None? {
          g := KeyOr(shortkey);
          return RecvFailed, g;
        }
        var o := HandlePacket(env, p.value);
        ghost var step := Dispatch(env, dir, key, KeyOr(shortkey), p.value);
        if o.Fail? {
          g := KeyOr(key);
          DispatchIgnoresG(env, dir, key, KeyOr(shortkey), g, p.value);
          Finish(env, dir, msgs, before, rest, key, g, o.failure);
          return o.failure, g;
        }
        out := out + ReplyList(step.reply);
        if shortkey.Some? {
          Advance(env, dir, msgs, before, rest, key, shortkey.value, step.reply, shortkey);
        } else {
          forall h | IsFreshKey(h)
            ensures Session(env, dir, h, msgs) == Prepend(out, Loop(env, dir, None, h, inbox))
          {
            DispatchIgnoresG(env, dir, key, KeyOr(shortkey), h, p.value);
            Advance(env, dir, msgs, before, rest, key, h, step.reply, key);
          }
        }
      }
    }
  }
}
