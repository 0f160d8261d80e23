/**
 * What the crypto manager's connection promises, proved about the functions
 * that specify it in `CryptoMgr` (and so about `Connection`, whose methods
 * are proved to follow them).
 */
module CryptoMgrProps {
  import opened Wrappers
  import opened Aria
  import opened Masks
  import opened Packets
  import opened Paths
  import opened CryptoMgr

  // ------------------------------------------------------------- key exchange

  /**
   * The key-exchange reply: its split point is the request's XOR the word
   * mask (so a request of 0 gives the mask itself), and unmasking its nine
   * key bytes gives the key's first nine bytes: eight letters and a zero.
   */
  lemma KeyReplyUnmasks(split: bv32, k: Key)
    requires IsFreshKey(k)
    ensures var r := KeyExchange(split, k);
      r.EncryptKey2Response? &&
      r.keySplitPoint ^ WordMask == split &&
      (split == 0 ==> r.keySplitPoint == 0x1f398ab3) &&
      |r.shortkey| == ShortKeyLen &&
      MaskBytes(r.shortkey) == k[..ShortKeyLen] &&
      (forall i :: 0 <= i < LetterCount ==> IsAsciiLetter(MaskBytes(r.shortkey)[i])) &&
      MaskBytes(r.shortkey)[LetterCount] == 0 &&
      r.shortkey[LetterCount] == ByteMask
  {
    MaskBytesInvolution(k[..ShortKeyLen]);
  }

  /** Once the key is set, the dispatch loop never changes it. */
  lemma {:induction false} KeySetOnce(env: Env, dir: string, k: Key, g: Key, msgs: seq<Payload>)
    ensures Loop(env, dir, Some(k), g, msgs).key == Some(k)
    decreases |msgs|
  {
    if msgs != [] {
      match Dispatch(env, dir, Some(k), g, msgs[0])
      case Stop(_) =>
      case Next(_, key') => KeySetOnce(env, dir, k, g, msgs[1..]);
    }
  }

  /**
   * Without a key, the loop ends either still without one or with the key
   * the generator produced; the first key request is what sets it.
   */
  lemma {:induction false} KeyComesFromGenerator(env: Env, dir: string, g: Key, msgs: seq<Payload>)
    ensures var run := Loop(env, dir, None, g, msgs);
      run.key == None || run.key == Some(g)
    ensures msgs != [] && msgs[0].EncryptKey2Request? ==> Loop(env, dir, None, g, msgs).key == Some(g)
    decreases |msgs|
  {
    if msgs != [] {
      match Dispatch(env, dir, None, g, msgs[0])
      case Stop(_) =>
      case Next(_, key') =>
        if key' == None {
          KeyComesFromGenerator(env, dir, g, msgs[1..]);
        } else {
          KeySetOnce(env, dir, g, g, msgs[1..]);
        }
    }
  }

  /**
   * Every key-exchange reply a connection sends carries the same nine bytes:
   * those of the key it ends with.
   */
  lemma {:induction false} KeyRepliesAgree(env: Env, dir: string, key: Option<Key>, g: Key, msgs: seq<Payload>)
    ensures var run := Loop(env, dir, key, g, msgs);
      forall i :: 0 <= i < |run.sent| && run.sent[i].EncryptKey2Response? ==>
        run.key.Some? && run.sent[i].shortkey == MaskBytes(run.key.value[..ShortKeyLen])
    decreases |msgs|
  {
    if msgs != [] {
      match Dispatch(env, dir, key, g, msgs[0])
      case Stop(_) =>
      case Next(reply, key') =>
        KeyRepliesAgree(env, dir, key', g, msgs[1..]);
        var run := Loop(env, dir, key, g, msgs);
        var tail := Loop(env, dir, key', g, msgs[1..]);
        assert run.sent == ReplyList(reply) + tail.sent && run.key == tail.key;
        DispatchKeyReply(env, dir, key, g, msgs[0]);
        if key'.Some? {
          KeySetOnce(env, dir, key'.value, g, msgs[1..]);
        }
        forall i | 0 <= i < |run.sent| && run.sent[i].EncryptKey2Response?
          ensures run.key.Some? && run.sent[i].shortkey == MaskBytes(run.key.value[..ShortKeyLen])
        {
          if i >= |ReplyList(reply)| {
            assert run.sent[i] == tail.sent[i - |ReplyList(reply)|];
          } else {
            assert reply.Some? && run.sent[i] == reply.value;
            assert key'.Some? && run.key == key';
          }
        }
    }
  }

  /**
   * Each handled request kind is answered with its own response kind, other
   * kinds get no answer, and only a key request can create the key.
   */
  lemma DispatchReplies(env: Env, dir: string, key: Option<Key>, g: Key, p: Payload)
    ensures var r := Dispatch(env, dir, key, g, p);
      (r.Next? && key.None? ==> r.key == None || (p.EncryptKey2Request? && r.key == Some(g))) &&
      (r.Next? ==> (r.reply.None? <==> !(p.EncryptKey2Request? || p.KeyAuthRequest? || p.Esym?))) &&
      (r.Next? && r.reply.Some? ==>
        (p.EncryptKey2Request? ==> r.reply.value.EncryptKey2Response?) &&
        (p.KeyAuthRequest? ==> r.reply.value.KeyAuthResponse?) &&
        (p.Esym? ==> r.reply.value.Esym?))
  {
  }

  /** Only a key request is answered with a key reply, and that reply carries the key the loop goes on with. */
  lemma DispatchKeyReply(env: Env, dir: string, key: Option<Key>, g: Key, p: Payload)
    ensures var step := Dispatch(env, dir, key, g, p);
      step.Next? && step.reply.Some? && step.reply.value.EncryptKey2Response? ==>
        p.EncryptKey2Request? && step.key.Some? &&
        step.reply.value.shortkey == MaskBytes(step.key.value[..ShortKeyLen])
  {
    if p.KeyAuthRequest? {
      AuthAcceptsIff(env, key, p.auth);
    }
  }

  // ----------------------------------------------------------- authentication

  /** Unmasking and then decrypting what was encrypted and then masked gives it back. */
  lemma OpenSealRoundTrip(c: Cipher, k: Key, bs: seq<Block>)
    requires DecryptInvertsEncrypt(c)
    ensures OpenBlocks(c, k, SealBlocks(c, k, bs)) == bs
  {
    MaskBlocksInvolution(EncryptBlocks(c, k, bs));
    DecryptEncryptBlocks(c, k, bs);
  }

  /**
   * The authentication reply: three name arrays that open, under the same
   * key, to the padded blocks of the three resource names, and fixed
   * remaining fields.
   */
  lemma AuthReplyContents(c: Cipher, k: Key)
    requires DecryptInvertsEncrypt(c)
    ensures var r := AuthReply(c, k);
      OpenBlocks(c, k, r.encItem) == NameArray("Data/Item.scp") &&
      OpenBlocks(c, k, r.encMobs) == NameArray("Data/Mobs.scp") &&
      OpenBlocks(c, k, r.encWarp) == NameArray("Data/Warp.scp") &&
      r.ipLocal == BlockOfStr("127.0.0.1") &&
      r.port == 38180 && r.unk1 == 1 &&
      r.xorUnk2 == 0x03010101 ^ 0x1f398ab3 && r.xorUnk2 ^ WordMask == 0x03010101 &&
      r.xorUnk3 ^ ByteMask == 4 && r.xorUnk4 ^ ByteMask == 2 && r.xorUnk5 ^ ByteMask == 1
  {
    OpenSealRoundTrip(c, k, NameArray(ItemName));
    OpenSealRoundTrip(c, k, NameArray(MobsName));
    OpenSealRoundTrip(c, k, NameArray(WarpName));
  }

  /** The four inbound fields all open, under `k`, to bytes `try_as_str` accepts. */
  predicate FieldsAreText(env: Env, k: Key, req: AuthRequest)
  {
    env.isStr(Flatten(OpenBlocks(env.aria, k, [req.ipOrigin]))) &&
    env.isStr(Flatten(OpenBlocks(env.aria, k, [req.ipLocal]))) &&
    env.isStr(Flatten(OpenBlocks(env.aria, k, req.srchash))) &&
    env.isStr(Flatten(OpenBlocks(env.aria, k, req.binbuf)))
  }

  /**
   * Authentication succeeds exactly when both reserved words are zero, a key
   * exists and the four fields open to text, and then the reply is the
   * fixed one under that key.
   */
  lemma AuthAcceptsIff(env: Env, key: Option<Key>, req: AuthRequest)
    ensures Authenticate(env, key, req).Ok? <==>
      req.unk1 == 0 && req.unk2 == 0 && key.Some? && FieldsAreText(env, key.value, req)
    ensures Authenticate(env, key, req).Ok? ==>
      Authenticate(env, key, req).value == KeyAuthResponse(AuthReply(env.aria, key.value))
  {
  }

  /**
   * A nonzero reserved word is an assertion failure whether or not a key
   * exists: the check comes first.  The loop then stops with nothing sent
   * and the key as it was.
   */
  lemma AuthRejectsReserved(env: Env, dir: string, key: Option<Key>, g: Key, req: AuthRequest, rest: seq<Payload>)
    requires req.unk1 != 0 || req.unk2 != 0
    ensures Authenticate(env, key, req).Err?
    ensures IsPanic(Authenticate(env, key, req).error)
    ensures Loop(env, dir, key, g, [KeyAuthRequest(req)] + rest) == Run([], key, Authenticate(env, key, req).error)
  {
  }

  /**
   * With zero reserved words and no key yet, authentication fails with
   * "shortkey not initialized"; nothing is sent and there is still no key.
   */
  lemma AuthRequiresKey(env: Env, dir: string, g: Key, req: AuthRequest, rest: seq<Payload>)
    requires req.unk1 == 0 && req.unk2 == 0
    ensures Authenticate(env, None, req) == Err(ShortkeyNotInitialized)
    ensures Loop(env, dir, None, g, [KeyAuthRequest(req)] + rest) == Run([], None, ShortkeyNotInitialized)
  {
  }

  /**
   * On a fresh connection, authentication straight after the handshake fails
   * and the acknowledgement is all that was ever sent.
   */
  lemma AuthBeforeKeyExchangeFails(env: Env, dir: string, g: Key, req: AuthRequest, rest: seq<Payload>)
    ensures var run := Session(env, dir, g, [Connect(Some(Hello(0xf6, 0xfd))), KeyAuthRequest(req)] + rest);
      run.sent == [ConnectAckPacket] && run.key == None &&
      (run.failure == ShortkeyNotInitialized || IsPanic(run.failure))
  {
    var msgs := [Connect(Some(Hello(0xf6, 0xfd))), KeyAuthRequest(req)] + rest;
    assert msgs[1..] == [KeyAuthRequest(req)] + rest;
  }

  // ------------------------------------------------------------------- ESYM

  /** The ESYM response: tag 1, the data, and its length truncated to 32 bits. */
  lemma EsymResponseFields(data: seq<bv8>)
    ensures var r := EsymResponseFor(data);
      r.unk1 == 1 && r.esym == data && r.filesize == |data| % 0x1_0000_0000 &&
      (|data| < 0x1_0000_0000 ==> r.filesize == |data|)
  {
  }

  /**
   * An ESYM request fails when its nested request does not decode, when
   * bytes trail it, or when the file cannot be read; otherwise the reply is
   * the encoded response for the file's contents.
   */
  lemma EsymOutcome(env: Env, dir: string, bytes: seq<bv8>)
    ensures env.decodeEsym(bytes).None? ==> ServeEsym(env, dir, bytes) == Err(EsymDecodeFailed)
    ensures env.decodeEsym(bytes).Some? && env.decodeEsym(bytes).value.1 != |bytes| ==>
      ServeEsym(env, dir, bytes) == Err(TrailingData)
    ensures ServeEsym(env, dir, bytes).Ok? <==>
      env.decodeEsym(bytes).Some? && env.decodeEsym(bytes).value.1 == |bytes| &&
      env.readFile(EsymPath(dir, env.decodeEsym(bytes).value.0.srchash)).Some?
    ensures env.decodeEsym(bytes).Some? && env.decodeEsym(bytes).value.1 == |bytes| ==>
      var path := EsymPath(dir, env.decodeEsym(bytes).value.0.srchash);
      (env.readFile(path).None? ==> ServeEsym(env, dir, bytes) == Err(CannotRead(path))) &&
      (env.readFile(path).Some? ==>
        ServeEsym(env, dir, bytes) == Ok(Esym(env.encodeEsym(EsymResponseFor(env.readFile(path).value)))))
  {
  }

  /**
   * A hash naming a single file lands in `<dir>/resources/esym`, with its
   * extension, if any, replaced by `esym`.
   */
  lemma EsymPathOfName(dir: string, hash: string)
    requires IsPlainName(hash)
    ensures EsymPath(dir, hash) == Push(dir, "resources/esym") + "/" + hash[..StemLength(hash)] + "." + "esym"
  {
    var base := Push(dir, "resources/esym");
    assert base[|base| - 1] == 'm';
    assert Push(base, hash) == base + "/" + hash;
    SetExtensionOfLast(base, hash, "esym");
  }

  /** A plain hash (no separator, no dot) becomes `<dir>/resources/esym/<hash>.esym`. */
  lemma PlainHashPath(dir: string, hash: string)
    requires dir != "" && dir[|dir| - 1] != '/'
    requires IsPlainName(hash) && AbsentBetween(hash, '.', 0, |hash|)
    ensures EsymPath(dir, hash) == dir + "/" + "resources/esym" + "/" + hash + "." + "esym"
  {
    EsymPathOfName(dir, hash);
    assert Push(dir, "resources/esym") == dir + "/" + "resources/esym";
    assert StemLength(hash) == |hash|;
    assert hash[..|hash|] == hash;
  }

  /**
   * The hash is not sanitised: an absolute one replaces the resources
   * directory altogether, so the file read does not depend on it.
   */
  lemma AbsoluteHashIgnoresDir(dir1: string, dir2: string, hash: string)
    requires hash != "" && hash[0] == '/'
    ensures EsymPath(dir1, hash) == EsymPath(dir2, hash) == SetExtension(hash, "esym")
  {
  }

  // --------------------------------------------------------------- handshake

  /**
   * Nothing is sent unless the first packet is a `Connect` with the two
   * sentinels; when it is, the fixed acknowledgement goes first.
   */
  lemma HandshakeGate(env: Env, dir: string, g: Key, msgs: seq<Payload>)
    ensures var run := Session(env, dir, g, msgs);
      (run.sent != [] <==> msgs != [] && msgs[0] == Connect(Some(Hello(0xf6, 0xfd)))) &&
      (run.sent != [] ==> run.sent[0] == ConnectAckPacket) &&
      (run.sent == [] ==> run.key == None)
  {
  }

  /**
   * A first packet that is a `Connect` with a wrong sentinel is an
   * `assert_eq!` panic; one of another kind, or a `Connect` without its
   * hello, is an error.  Either way nothing is sent and there is no key.
   */
  lemma HelloRejected(env: Env, dir: string, g: Key, p: Payload, rest: seq<Payload>)
    requires p != Connect(Some(Hello(HelloUnk1, HelloWorldId)))
    ensures var run := Session(env, dir, g, [p] + rest);
      run.sent == [] && run.key == None &&
      (IsPanic(run.failure) <==> p.Connect? && p.hello.Some?) &&
      (!p.Connect? ==> run.failure == ExpectedConnect) &&
      (p.Connect? && p.hello.Some? && p.hello.value.unk1 != HelloUnk1 ==> run.failure == AssertionFailed("unk1"))
  {
  }

  /** The loop sends at most one packet per packet it receives. */
  lemma {:induction false} LoopSentBound(env: Env, dir: string, key: Option<Key>, g: Key, msgs: seq<Payload>)
    ensures |Loop(env, dir, key, g, msgs).sent| <= |msgs|
    decreases |msgs|
  {
    if msgs != [] {
      match Dispatch(env, dir, key, g, msgs[0])
      case Stop(_) =>
      case Next(_, key') => LoopSentBound(env, dir, key', g, msgs[1..]);
    }
  }

  /** A whole connection, acknowledgement included, sends at most one packet per packet received. */
  lemma SessionSentBound(env: Env, dir: string, g: Key, msgs: seq<Payload>)
    ensures |Session(env, dir, g, msgs).sent| <= |msgs|
  {
    if msgs != [] {
      LoopSentBound(env, dir, None, g, msgs[1..]);
    }
  }

  /** A packet kind the loop does not handle is skipped: the loop goes on as if it were absent. */
  lemma UnhandledSkipped(env: Env, dir: string, key: Option<Key>, g: Key, p: Payload, rest: seq<Payload>)
    requires !p.EncryptKey2Request? && !p.KeyAuthRequest? && !p.Esym?
    ensures Loop(env, dir, key, g, [p] + rest) == Loop(env, dir, key, g, rest)
  {
    assert ([p] + rest)[1..] == rest;
  }
}
