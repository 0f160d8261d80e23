# Crypto manager connection handler, in Dafny

This project models the server's crypto manager (`server/src/crypto_mgr.rs`).
It is the TCP service a game client talks to before anything else. Each
accepted connection does four things:

1. It waits for a `Connect` hello carrying the two sentinel values `0xf6` and
   `0xfd`, and answers with a fixed `ConnectAck`.
2. It answers each `EncryptKey2Request` with the session key's first nine
   bytes, byte-masked with `0xb3`, and the request's split point XORed with
   `0x1f398ab3`. The session key is created on the first such request, as
   eight random letters followed by zeros, and never changes afterwards.
3. It answers a `KeyAuthRequest`. First it checks that the two reserved words
   are zero and that a key exists. Then it unmasks and ARIA-decrypts the four
   enciphered fields and requires each one to be text. On success it replies
   with three resource names, ARIA-encrypted and byte-masked under the key,
   plus fixed constants.
4. It answers an `ESYM` request by decoding the nested request and reading
   `<resources_dir>/resources/esym/<srchash>` with its extension set to
   `esym`. It sends the file back with its length as a 32-bit field.

Any other packet kind is skipped. The first error or panic ends the
connection.

The model has two layers:

- **Specification functions** in module `CryptoMgr`. `Session` and `Loop`
  state what one connection sends, the key it ends with and why it stops, as
  functions of the packets it receives. `Dispatch`, `Authenticate` and
  `ServeEsym` do the same for one packet.
- **An imperative `Connection` class.** Its fields are the packet stream and
  the set-once `shortkey` cell. Its methods are proved to do what those
  functions say. Blocks are transformed in place on arrays: `XorBlocksMut`,
  `EncryptBlocksMut` and `DecryptBlocksMut`.

Module `CryptoMgrProps` proves properties of the specification, and therefore
of the class:

- the key is set once and comes from the generator;
- every key reply carries the same key bytes;
- sealing then opening the resource names gives them back;
- authentication succeeds exactly when its checks pass;
- ESYM outcomes and path construction behave as stated in the table below;
- the handshake gates everything.

Supporting modules:

- `Aria`: the block cipher, as a pair of functions.
- `Masks`: the XOR masks.
- `Packets`: the packet records and block helpers.
- `Paths`: Unix `PathBuf::push`, `file_name` and `set_extension`, over strings.

Three points where the code may not do what one would expect:

- **Session key.** Since nine key bytes are sent, one might expect nine
  letters. The code fills only bytes 0 to 7 with letters and leaves byte 8
  zero, so the ninth byte on the wire is `0xb3` (see `KeyReplyUnmasks`).
- **Order of checks.** The reserved-word `assert_eq!` checks of an
  authentication request come before the key check. A nonzero word is
  therefore a panic even when no key exists.
- **ESYM path.** The file name is not simply `<hash>.esym`:
  - `with_extension` replaces an existing extension of the hash (see
    `EsymPathOfName`);
  - an absolute hash replaces the resources directory entirely (see
    `AbsoluteHashIgnoresDir`).

## Model

| member | source | states |
|---|---|---|
| Masks.MaskBytes | server/src/crypto_mgr.rs:64-68 | the result has the input's length and each byte is the input byte XOR `0xb3` |
| Masks.MaskBlocks | server/src/crypto_mgr.rs:64-68 | the block order is kept, and each block is byte-masked |
| Masks.MaskBytesInvolution | server/src/crypto_mgr.rs:112 | byte-masking twice gives the bytes back, so a client recovers the key bytes |
| Masks.MaskBlocksInvolution | server/src/crypto_mgr.rs:128-141 | block-masking twice gives the blocks back, so inbound unmasking undoes the client's masking |
| Masks.MaskWordInvolution | server/src/crypto_mgr.rs:89 | XOR with the word mask `0x1f398ab3` undoes itself |
| Aria.EncryptBlocks | server/src/crypto_mgr.rs:152 | each block is encrypted on its own, with the order kept |
| Aria.DecryptBlocks | server/src/crypto_mgr.rs:137 | each block is decrypted on its own, with the order kept |
| Aria.DecryptEncryptBlocks | server/src/crypto_mgr.rs:125-126 | if the cipher's decryption inverts its encryption, decrypting the encrypted blocks gives them back |
| CryptoMgr.XorBlocksMut | server/src/crypto_mgr.rs:64-68 | after the nested in-place loops, the array holds the byte-masked blocks of its old contents |
| CryptoMgr.DecryptBlocksMut | server/src/crypto_mgr.rs:137 | after the in-place loop, the array holds its old blocks decrypted |
| CryptoMgr.EncryptBlocksMut | server/src/crypto_mgr.rs:152 | after the in-place loop, the array holds its old blocks encrypted |
| CryptoMgr.GenerateKey | server/src/crypto_mgr.rs:95-106 | the key is 32 bytes; bytes 0..7 are letters in `a..=z` or `A..=Z` and the rest are zero |
| CryptoMgr.HelloCheck | server/src/crypto_mgr.rs:211-218 | the first packet opens the session exactly when it is a `Connect` hello with `unk1 = 0xf6` and `world_id = 0xfd`; a `Connect` with a hello but a wrong sentinel is an `assert_eq!` panic, while another packet kind or a `Connect` without a hello is an error |
| CryptoMgr.KeyExchange | server/src/crypto_mgr.rs:89-113 | the reply is an `EncryptKey2Response` whose split point, unmasked, is the request's, and whose nine bytes, unmasked, are the key's first nine |
| CryptoMgr.AuthReply | server/src/crypto_mgr.rs:150-172 | three 16-block name arrays; the masked constants unmask to 0x03010101, 4, 2 and 1; the local address block begins with the bytes of `127.0.0.1` |
| CryptoMgr.Authenticate | server/src/crypto_mgr.rs:117-174 | a success is a `KeyAuthResponse` and needs a key and zero reserved words; the outcome is a panic exactly when a reserved word is nonzero |
| CryptoMgr.EsymPath | server/src/crypto_mgr.rs:190-195 | whenever the joined path has a file name, the result ends in `.esym` |
| CryptoMgr.EsymResponseFor | server/src/crypto_mgr.rs:198-202 | tag 1 and the file data, with the length exact whenever it fits in 32 bits |
| CryptoMgr.ServeEsym | server/src/crypto_mgr.rs:176-208 | a success is an `ESYM` packet; a failure is a decode error, trailing data or an unreadable file, never a panic |
| CryptoMgr.Dispatch | server/src/crypto_mgr.rs:236-243 | only an authentication or ESYM request can stop the loop, and a key once set is kept |
| CryptoMgr.Session | server/src/crypto_mgr.rs:210-245 | anything sent begins with the `ConnectAck`, and only after the right hello was received first |
| CryptoMgr.Connection.constructor | server/src/crypto_mgr.rs:40-45 | a new connection has an empty key cell and has sent nothing |
| CryptoMgr.Connection.Recv | server/src/crypto_mgr.rs:235 | delivers the next inbound packet and consumes it, or fails once the stream is exhausted |
| CryptoMgr.Connection.Send | server/src/crypto_mgr.rs:114 | appends the packet to what was sent |
| CryptoMgr.Connection.HandleKeyReq | server/src/crypto_mgr.rs:84-115 | a key exists afterwards; a key that already existed is kept; the reply sent is the split point XOR the word mask with the key's nine masked bytes |
| CryptoMgr.Connection.OpenField | server/src/crypto_mgr.rs:128-147 | unmasking then decrypting a copy of the field in place gives the text check of the field's opened bytes |
| CryptoMgr.Connection.SealName | server/src/crypto_mgr.rs:151-159 | encrypting then masking the name array in place yields the sealed name blocks |
| CryptoMgr.Connection.HandleAuthReq | server/src/crypto_mgr.rs:117-174 | on success it sends exactly `Authenticate`'s reply; on failure it sends nothing and reports that failure; the key is never touched |
| CryptoMgr.Connection.HandleEsym | server/src/crypto_mgr.rs:176-208 | on success it sends exactly `ServeEsym`'s reply; on failure it sends nothing and reports that failure |
| CryptoMgr.Connection.HandlePacket | server/src/crypto_mgr.rs:236-243 | one dispatch turn sends `Dispatch`'s reply and moves to its key, or stops with nothing sent; a set key stays |
| CryptoMgr.Connection.Handle | server/src/crypto_mgr.rs:210-245 | for the key `g` the generator produced, the connection sends exactly `Session`'s packets, ends with its key and failure, and keeps any key it sets of the generator's shape |
| Packets.NameArray | server/src/crypto_mgr.rs:151 | sixteen blocks whose concatenated bytes begin with the ASCII bytes of the name |
| Packets.BlockOfStr | server/src/crypto_mgr.rs:150 | one block beginning with the ASCII bytes of the string |
| Packets.Chunks | server/src/crypto_mgr.rs:151 | splits a multiple of 16 bytes into blocks whose concatenation is the original bytes |
| Paths.Push | server/src/crypto_mgr.rs:193-194 | `PathBuf::join`: the result ends with the pushed path; an absolute path replaces the base; otherwise the base is kept as a prefix, followed by exactly one inserted `/` when the base is non-empty and does not already end with one, and by nothing else before the pushed path |
| Paths.FileName | server/src/crypto_mgr.rs:195 | `Path::file_name`: a reported name is a whole component: it starts the path or follows a `/`, holds no `/`, and is neither `.` nor `..`; and it is the last such component: only separators and `.` components follow it |
| Paths.FileNameInFound | server/src/crypto_mgr.rs:195 | `Path::file_name`, the converse: within `p[..end]`, any whole normal component followed only by separators and `.` components is exactly the span reported, so a last normal component is always found |
| Paths.FileNameFound | server/src/crypto_mgr.rs:195 | the same for the whole path: `file_name` returns the last normal component whenever the path has one; with the function's own contract, the result is that component and nothing else |
| Paths.StemLength | server/src/crypto_mgr.rs:195 | the stem ends at the name's last `.` when that `.` is not its first character; otherwise it is the whole name |
| Paths.SetExtension | server/src/crypto_mgr.rs:195 | `with_extension`: with no file name the path is unchanged; otherwise everything up to the end of the stem is kept and then exactly `.ext` follows (nothing for an empty extension) |
| Paths.ExtensionAppended | server/src/crypto_mgr.rs:195 | with a file name, the result ends in `.ext` after a non-empty stem |
| Paths.FileNameOfLast | server/src/crypto_mgr.rs:194-195 | after `dir/name` with a plain name, the file name is exactly that last component |
| Paths.SetExtensionOfLast | server/src/crypto_mgr.rs:195 | setting the extension of `dir/name` keeps `dir/` and the name's stem, then appends `.ext` |
| CryptoMgrProps.KeyReplyUnmasks | server/src/crypto_mgr.rs:89-113 | unmasking the reply gives back the request's split point and the key's first nine bytes (eight letters, then a zero sent as `0xb3`) |
| CryptoMgrProps.KeySetOnce | server/src/crypto_mgr.rs:95 | once the key is set, no sequence of packets changes it |
| CryptoMgrProps.KeyComesFromGenerator | server/src/crypto_mgr.rs:95-106 | a connection ends with no key or with the generated key, and a first key request sets it |
| CryptoMgrProps.KeyRepliesAgree | server/src/crypto_mgr.rs:95-113 | every key reply a connection sends carries the masked first nine bytes of the key it ends with |
| CryptoMgrProps.DispatchKeyReply | server/src/crypto_mgr.rs:237 | only a key request is answered with a key reply, and that reply carries the key the loop continues with |
| CryptoMgrProps.OpenSealRoundTrip | server/src/crypto_mgr.rs:128-159 | if the cipher inverts, the inbound opening undoes the outbound sealing |
| CryptoMgrProps.AuthReplyContents | server/src/crypto_mgr.rs:150-172 | the three name arrays open, under the same key, to the padded resource names; the other fields are the fixed constants and unmask to 0x03010101, 4, 2 and 1 |
| CryptoMgrProps.AuthAcceptsIff | server/src/crypto_mgr.rs:117-174 | authentication succeeds if and only if both reserved words are zero, a key exists and all four fields open to text; the reply is then the fixed one |
| CryptoMgrProps.AuthRejectsReserved | server/src/crypto_mgr.rs:121-122 | a nonzero reserved word is a panic whether or not a key exists; the connection stops with nothing sent |
| CryptoMgrProps.AuthRequiresKey | server/src/crypto_mgr.rs:124 | with zero reserved words and no key, the request fails with "shortkey not initialized", and nothing is sent |
| CryptoMgrProps.AuthBeforeKeyExchangeFails | server/src/crypto_mgr.rs:210-238 | on a fresh connection, an authentication request straight after the handshake ends it with only the acknowledgement sent and no key |
| CryptoMgrProps.EsymResponseFields | server/src/crypto_mgr.rs:198-202 | the response has tag 1, the file data, and the length mod 2^32 (the exact length when it fits) |
| CryptoMgrProps.EsymOutcome | server/src/crypto_mgr.rs:176-207 | fails on a decode error, on trailing bytes, or on an unreadable file (naming the path); succeeds exactly otherwise, with the encoded response for the file |
| CryptoMgrProps.EsymPathOfName | server/src/crypto_mgr.rs:190-195 | a hash that is a single plain component lands in `dir/resources/esym/`, with its extension replaced by `esym` |
| CryptoMgrProps.PlainHashPath | server/src/crypto_mgr.rs:190-195 | a hash without separator or dot gives `dir/resources/esym/<hash>.esym` |
| CryptoMgrProps.AbsoluteHashIgnoresDir | server/src/crypto_mgr.rs:190-195 | an absolute hash makes the path independent of the resources directory |
| CryptoMgrProps.HandshakeGate | server/src/crypto_mgr.rs:211-232 | something is sent if and only if the first packet is the right hello; the first packet sent is then `ConnectAckPacket`, the `ConnectAck` literal of lines 222-229; with nothing sent there is no key |
| CryptoMgrProps.HelloRejected | server/src/crypto_mgr.rs:211-218 | after a wrong first packet nothing is sent and there is no key; the session ends in a panic exactly when that packet is a `Connect` with a hello (a wrong sentinel), and with "expected Connect" when it is another kind |
| CryptoMgrProps.DispatchReplies | server/src/crypto_mgr.rs:236-243 | each handled request kind is answered with its own response kind, other kinds get no answer, and only a key request creates the key, the generated one |
| CryptoMgrProps.LoopSentBound | server/src/crypto_mgr.rs:234-244 | the dispatch loop (`Loop`) sends at most one packet per packet it receives |
| CryptoMgrProps.SessionSentBound | server/src/crypto_mgr.rs:210-245 | a whole connection, acknowledgement included, sends at most one packet per packet it receives |
| CryptoMgrProps.UnhandledSkipped | server/src/crypto_mgr.rs:240-243 | a packet of another kind is skipped: the loop runs as if it were absent |

## Left out

- `Listener` (lines 21-62): accepting sockets, spawning tasks and logging. The
  model starts from one accepted connection (`Connection.constructor`).
- The packet stream's framing, encoding and I/O errors are not modelled. The
  stream is the pair `inbox`/`sent`. `send` never fails, and `recv` fails only
  when `inbox` is exhausted.
- ARIA's key schedule and block function are not modelled. The cipher is a
  pair of functions in `Env`. That decryption inverts encryption is a
  hypothesis of the round-trip lemmas, not a proved fact.
- `try_as_str`, `bincode` decoding and encoding, and `std::fs::read` are
  modelled as function parameters of `Env`, because their code is not part
  of this model.
- The random number generator is not modelled. Each letter is an arbitrary
  choice from `a..=z` or `A..=Z`, so the uniform distribution is not modelled.
- Logging (`debug!`, `trace!`, `info!`) and the `Display` impl are not
  modelled. `HandleAuthReq` computes the unmasked `xor_port` but, like the
  source, only logs it.
- Field conversions are not modelled:
  - `Connect::try_from` is modelled only as the hello being present or
    absent (`MalformedHello`);
  - `ConnectAck::try_into` is taken to succeed.
- `Block::new` and `Block::arr_from_slice` are taken to copy the string's
  bytes and zero-pad the rest. Their code is not part of this model.
- `isStr` is one oracle. It stands both for `Block::try_as_str` (on the one
  block of `ip_origin` and `ip_local`) and for the block-array `try_as_str`
  (on the concatenated bytes of `srchash` and `binbuf`).
- `encodeEsym` cannot fail. `encode_into_std_write(...)?` returns a `Result`,
  but its writer is an in-memory `Vec`.
- Packet field widths are not modelled: the `nat` fields of the packet
  records do not carry their wire widths.
- `server/src/gms/chat.rs` is not part of this model.
- CryptoMgr.Connection.Handle: the generated key is a ghost out-parameter.
  The ensures is therefore stated for the key the generator produced, not
  for every possible draw.
- Paths: only Unix `PathBuf` semantics are modelled. Components are split at
  `/`, and `.` components are handled only when trailing.
