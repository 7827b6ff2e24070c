// The byte layouts of the secure channel: a sealed object frame, a stream
// of sealed chunks closed by a zero header, and the length-prefixed blobs
// of the key exchange.  Encryption is an abstract function value; the
// parsers below are the reference every read operation is proved against.

module Framing {
  import opened Common

  type Byte = x: int | 0 <= x < 256

  /** Bytes of the random nonce in front of every sealed payload (96 bits). */
  const IV_SIZE: nat := 12
  /** Plaintext bytes per stream chunk. */
  const BUFFER_SIZE: nat := 4096
  /** Bytes the authenticated cipher adds to every payload (a 128-bit tag). */
  const TAG_BYTES: nat := 16
  /** The reader's chunk buffer, twice the writer's. */
  const READ_BUFFER: nat := 2 * BUFFER_SIZE

  const IV_MSG: string := "Failed to read IV."
  const LENGTH_MSG: string := "Failed to read length of incoming data."
  const OBJECT_MSG: string := "Failed to read object data."
  const STREAM_MSG: string := "Failed to read stream data."

  // ---------------------------------------------------------------- integers

  /** `ByteBuffer.putInt`: four bytes, big-endian, two's complement. */
  function EncodeInt(n: Int32): (r: seq<Byte>)
    ensures |r| == 4
  {
    var u := if n < 0 then n + 0x1_0000_0000 else n;
    [u / 0x100_0000, (u / 0x1_0000) % 0x100, (u / 0x100) % 0x100, u % 0x100]
  }

  /** `ByteBuffer.getInt`: the signed value of four big-endian bytes. */
  function DecodeInt(b: seq<Byte>): (r: Int32)
    requires |b| == 4
  {
    var u := b[0] as int * 0x100_0000 + b[1] as int * 0x1_0000 + b[2] as int * 0x100 + b[3] as int;
    if u >= 0x8000_0000 then u - 0x1_0000_0000 else u
  }

  /** Every `int` survives the four-byte encoding... */
  lemma IntRoundTrip(n: Int32)
    ensures DecodeInt(EncodeInt(n)) == n
  {
    var u := if n < 0 then n + 0x1_0000_0000 else n;
    var q1, q2 := u / 0x100, u / 0x1_0000;
    ModUnique(u, 0x100, q1, u % 0x100);
    ModUnique(q1, 0x100, q1 / 0x100, q1 % 0x100);
    ModUnique(u, 0x1_0000, q1 / 0x100, (q1 % 0x100) * 0x100 + u % 0x100);
    ModUnique(q2, 0x100, q2 / 0x100, q2 % 0x100);
    ModUnique(u, 0x100_0000, q2 / 0x100, (q2 % 0x100) * 0x1_0000 + (q1 % 0x100) * 0x100 + u % 0x100);
    assert u == (u / 0x100_0000) * 0x100_0000 + (q2 % 0x100) * 0x1_0000 + (q1 % 0x100) * 0x100 + u % 0x100;
  }

  /** ...and every four bytes are the encoding of exactly one `int`. */
  lemma IntBytesRoundTrip(b: seq<Byte>)
    requires |b| == 4
    ensures EncodeInt(DecodeInt(b)) == b
  {
    var b0, b1, b2, b3 := b[0] as int, b[1] as int, b[2] as int, b[3] as int;
    var u := b0 * 0x100_0000 + b1 * 0x1_0000 + b2 * 0x100 + b3;
    ModUnique(u, 0x100_0000, b0, b1 * 0x1_0000 + b2 * 0x100 + b3);
    ModUnique(u, 0x1_0000, b0 * 0x100 + b1, b2 * 0x100 + b3);
    ModUnique(b0 * 0x100 + b1, 0x100, b0, b1);
    ModUnique(u, 0x100, b0 * 0x1_0000 + b1 * 0x100 + b2, b3);
    ModUnique(u / 0x100, 0x100, b0 * 0x100 + b1, b2);
    assert u / 0x100 == b0 * 0x1_0000 + b1 * 0x100 + b2;
    assert (if DecodeInt(b) < 0 then DecodeInt(b) + 0x1_0000_0000 else DecodeInt(b)) == u;
  }

  /** `putShort((short) x)`: the low 16 bits of `x`, big-endian. */
  function EncodeShort(x: int): (r: seq<Byte>)
    ensures |r| == 2
  {
    var u := x % 0x1_0000;
    [u / 0x100, u % 0x100]
  }

  /** `getShort`: the signed value of two big-endian bytes. */
  function DecodeShort(b: seq<Byte>): (r: int)
    requires |b| == 2
    ensures -0x8000 <= r < 0x8000
  {
    var u := b[0] as int * 0x100 + b[1] as int;
    if u >= 0x8000 then u - 0x1_0000 else u
  }

  /** A chunk length below 2^15 survives the `short` header; a longer one
    * (which the cipher's output never reaches) would read back negative. */
  lemma ShortRoundTrip(x: int)
    ensures 0 <= x < 0x8000 ==> DecodeShort(EncodeShort(x)) == x
    ensures 0x8000 <= x < 0x1_0000 ==> DecodeShort(EncodeShort(x)) == x - 0x1_0000 < 0
  {
  }

  // ---------------------------------------------------------------- cipher

  /** The symmetric cipher as two function values of (key, iv, data);
    * decryption reports a failed authentication as `None`. */
  datatype SymCipher = SymCipher(
    encrypt: (seq<Byte>, seq<Byte>, seq<Byte>) -> seq<Byte>,
    decrypt: (seq<Byte>, seq<Byte>, seq<Byte>) -> Option<seq<Byte>>)

  /** What the model relies on of AES/GCM: decryption undoes encryption under
    * the same key and IV, and the ciphertext is the plaintext plus the tag. */
  ghost predicate Sound(c: SymCipher) {
    forall key, iv, p :: c.decrypt(key, iv, c.encrypt(key, iv, p)) == Some(p) &&
      |c.encrypt(key, iv, p)| == |p| + TAG_BYTES
  }

  /** A parsed value and the bytes that follow it. */
  datatype Parsed<T> = Parsed(value: T, rest: seq<Byte>)

  // ---------------------------------------------------------------- objects

  /** An IV and the ciphertext sealed under it. */
  datatype Sealed = Sealed(iv: seq<Byte>, body: seq<Byte>)

  /** `sendObject`'s frame: the IV, the ciphertext length as an `int`, the ciphertext. */
  function ObjectFrame(iv: seq<Byte>, body: seq<Byte>): (r: seq<Byte>)
    requires |body| <= INT_MAX
    ensures |r| == |iv| + 4 + |body|
  {
    iv + EncodeInt(|body|) + body
  }

  /** `readObject`'s reads: the IV, the length, then that many bytes.  A
    * negative length cannot size the body buffer. */
  function ParseObject(input: seq<Byte>): (r: Result<Parsed<Sealed>>)
    ensures r.Ok? ==> |r.value.value.iv| == IV_SIZE && |r.value.value.body| <= INT_MAX && input == r.value.value.iv + EncodeInt(|r.value.value.body|) + r.value.value.body + r.value.rest
    ensures |input| < IV_SIZE ==> r == Err(IOFailure(IV_MSG))
    ensures IV_SIZE <= |input| < IV_SIZE + 4 ==> r == Err(IOFailure(LENGTH_MSG))
  {
    if |input| < IV_SIZE then Err(IOFailure(IV_MSG))
    else if |input| < IV_SIZE + 4 then Err(IOFailure(LENGTH_MSG))
    else
      var len := DecodeInt(input[IV_SIZE..IV_SIZE + 4]);
      if len < 0 then Err(NegativeArraySize)
      else if |input| - (IV_SIZE + 4) < len then Err(IOFailure(OBJECT_MSG))
      else
        var body := input[IV_SIZE + 4..IV_SIZE + 4 + len];
        IntBytesRoundTrip(input[IV_SIZE..IV_SIZE + 4]);
        assert input == input[..IV_SIZE] + input[IV_SIZE..IV_SIZE + 4] + body + input[IV_SIZE + 4 + len..];
        Ok(Parsed(Sealed(input[..IV_SIZE], body), input[IV_SIZE + 4 + len..]))
  }

  /** Decryption of a parsed frame; a failed tag check is `BadTag`. */
  function Unseal(c: SymCipher, key: seq<Byte>, frame: Result<Parsed<Sealed>>): (r: Result<seq<Byte>>)
    ensures frame.Err? ==> r == Err(frame.error)
  {
    match frame
    case Err(e) => Err(e)
    case Ok(Parsed(Sealed(iv, body), _)) =>
      match c.decrypt(key, iv, body)
      case None => Err(BadTag)
      case Some(p) => Ok(p)
  }

  /** Reading back a written frame recovers its IV and ciphertext and leaves
    * what follows untouched; with a sound cipher it recovers the plaintext. */
  lemma ObjectRoundTrip(c: SymCipher, key: seq<Byte>, iv: seq<Byte>, plain: seq<Byte>, rest: seq<Byte>)
    requires |iv| == IV_SIZE && |c.encrypt(key, iv, plain)| <= INT_MAX
    ensures ParseObject(ObjectFrame(iv, c.encrypt(key, iv, plain)) + rest) == Ok(Parsed(Sealed(iv, c.encrypt(key, iv, plain)), rest))
    ensures Sound(c) ==> Unseal(c, key, ParseObject(ObjectFrame(iv, c.encrypt(key, iv, plain)) + rest)) == Ok(plain)
  {
    var body := c.encrypt(key, iv, plain);
    var input := ObjectFrame(iv, body) + rest;
    assert input[..IV_SIZE] == iv;
    assert input[IV_SIZE..IV_SIZE + 4] == EncodeInt(|body|);
    IntRoundTrip(|body|);
    assert input[IV_SIZE + 4..IV_SIZE + 4 + |body|] == body;
    assert input[IV_SIZE + 4 + |body|..] == rest;
  }

  // ---------------------------------------------------------------- streams

  /** One chunk of `sendStream`: the ciphertext length as a `short`, the IV,
    * the ciphertext. */
  function ChunkFrame(iv: seq<Byte>, body: seq<Byte>): (r: seq<Byte>)
    ensures |r| == 2 + |iv| + |body|
  {
    EncodeShort(|body|) + iv + body
  }

  /** The chunks of a stream, each sealed under its own IV. */
  function ChunkFrames(c: SymCipher, key: seq<Byte>, chunks: seq<seq<Byte>>, ivs: seq<seq<Byte>>): seq<Byte>
    requires |ivs| == |chunks|
  {
    if chunks == [] then []
    else ChunkFrame(ivs[0], c.encrypt(key, ivs[0], chunks[0])) + ChunkFrames(c, key, chunks[1..], ivs[1..])
  }

  /** The two zero bytes that end a stream. */
  const TERMINATOR: seq<Byte> := [0, 0]

  /** Everything `sendStream` writes: the sealed chunks, then the terminator. */
  function SealedStream(c: SymCipher, key: seq<Byte>, chunks: seq<seq<Byte>>, ivs: seq<seq<Byte>>): (r: seq<Byte>)
    requires |ivs| == |chunks|
    ensures |r| >= 2 && r[|r| - 2..] == TERMINATOR
  {
    ChunkFrames(c, key, chunks, ivs) + TERMINATOR
  }

  /** Appending one chunk at the end of the frames (the order the writer
    * produces them in). */
  lemma {:induction false} ChunkFramesSnoc(c: SymCipher, key: seq<Byte>, chunks: seq<seq<Byte>>, ivs: seq<seq<Byte>>, chunk: seq<Byte>, iv: seq<Byte>)
    requires |ivs| == |chunks|
    ensures ChunkFrames(c, key, chunks + [chunk], ivs + [iv]) == ChunkFrames(c, key, chunks, ivs) + ChunkFrame(iv, c.encrypt(key, iv, chunk))
  {
    if chunks == [] {
      assert chunks + [chunk] == [chunk] && ivs + [iv] == [iv];
    } else {
      assert (chunks + [chunk])[1..] == chunks[1..] + [chunk];
      assert (ivs + [iv])[1..] == ivs[1..] + [iv];
      ChunkFramesSnoc(c, key, chunks[1..], ivs[1..], chunk, iv);
    }
  }

  /** What `readStream` has handed to the output when it stops, and either
    * the bytes after the terminator or the failure that stopped it. */
  datatype Drained = Drained(written: seq<Byte>, result: Result<seq<Byte>>)

  function Prepend(w: seq<Byte>, d: Drained): (r: Drained)
    ensures r.result == d.result
  {
    Drained(w + d.written, d.result)
  }

  /** Prepending twice is prepending both, in order. */
  lemma PrependTwice(a: seq<Byte>, b: seq<Byte>, d: Drained)
    ensures Prepend(a, Prepend(b, d)) == Prepend(a + b, d)
  {
    assert a + (b + d.written) == (a + b) + d.written;
  }

  /** `readStream`: a length header; zero ends the stream, anything else is
    * followed by an IV and that many ciphertext bytes.  A header that does
    * not fit the read buffer (negative, or over twice the chunk size) is an
    * index error; decrypted chunks are written in arrival order. */
  function ParseStream(c: SymCipher, key: seq<Byte>, input: seq<Byte>): (r: Drained)
    ensures |input| < 2 ==> r == Drained([], Err(IOFailure(LENGTH_MSG)))
    ensures |input| >= 2 && input[..2] == TERMINATOR ==> r == Drained([], Ok(input[2..]))
    ensures r.result.Ok? ==> |r.result.value| <= |input| - 2
    decreases |input|, 1
  {
    if |input| < 2 then Drained([], Err(IOFailure(LENGTH_MSG)))
    else ParseChunk(c, key, DecodeShort(input[..2]), input[2..])
  }

  /** The rest of `readStream` once a header with value `len` was read. */
  function ParseChunk(c: SymCipher, key: seq<Byte>, len: int, input: seq<Byte>): (r: Drained)
    ensures len == 0 ==> r == Drained([], Ok(input))
    ensures r.result.Ok? ==> |r.result.value| <= |input|
    decreases |input|, 0
  {
    if len == 0 then Drained([], Ok(input))
    else if |input| < IV_SIZE then Drained([], Err(IOFailure(IV_MSG)))
    else if len < 0 || len > READ_BUFFER then Drained([], Err(IndexOutOfBounds))
    else if |input| - IV_SIZE < len then Drained([], Err(IOFailure(STREAM_MSG)))
    else
      match c.decrypt(key, input[..IV_SIZE], input[IV_SIZE..IV_SIZE + len])
      case None => Drained([], Err(BadTag))
      case Some(p) => Prepend(p, ParseStream(c, key, input[IV_SIZE + len..]))
  }

  /** All chunks one after the other. */
  function Flatten(chunks: seq<seq<Byte>>): (r: seq<Byte>) {
    if chunks == [] then [] else chunks[0] + Flatten(chunks[1..])
  }

  /** Every chunk fits the writer's buffer and every IV has the nonce size. */
  predicate WellSized(chunks: seq<seq<Byte>>, ivs: seq<seq<Byte>>) {
    |ivs| == |chunks| &&
    (forall i :: 0 <= i < |chunks| ==> |chunks[i]| <= BUFFER_SIZE) &&
    (forall i :: 0 <= i < |ivs| ==> |ivs[i]| == IV_SIZE)
  }

  /** Reading one well-formed chunk writes its plaintext and goes on with
    * what follows it. */
  lemma ChunkRead(c: SymCipher, key: seq<Byte>, iv: seq<Byte>, body: seq<Byte>, p: seq<Byte>, tail: seq<Byte>)
    requires |iv| == IV_SIZE && 0 < |body| <= READ_BUFFER
    requires c.decrypt(key, iv, body) == Some(p)
    ensures ParseStream(c, key, ChunkFrame(iv, body) + tail) == Prepend(p, ParseStream(c, key, tail))
  {
    var input := ChunkFrame(iv, body) + tail;
    ShortRoundTrip(|body|);
    assert input[..2] == EncodeShort(|body|);
    var after := input[2..];
    assert after == iv + body + tail;
    assert after[..IV_SIZE] == iv && after[IV_SIZE..IV_SIZE + |body|] == body;
    assert after[IV_SIZE + |body|..] == tail;
  }

  /** Reading back a written stream yields the chunks in order, stops at the
    * terminator and leaves what follows untouched. */
  lemma {:induction false} StreamRoundTrip(c: SymCipher, key: seq<Byte>, chunks: seq<seq<Byte>>, ivs: seq<seq<Byte>>, rest: seq<Byte>)
    requires Sound(c) && WellSized(chunks, ivs)
    ensures ParseStream(c, key, SealedStream(c, key, chunks, ivs) + rest) == Drained(Flatten(chunks), Ok(rest))
  {
    if chunks == [] {
      assert SealedStream(c, key, chunks, ivs) + rest == TERMINATOR + rest;
      assert (TERMINATOR + rest)[..2] == TERMINATOR && (TERMINATOR + rest)[2..] == rest;
    } else {
      var iv, body := ivs[0], c.encrypt(key, ivs[0], chunks[0]);
      var tail := SealedStream(c, key, chunks[1..], ivs[1..]) + rest;
      assert SealedStream(c, key, chunks, ivs) + rest == ChunkFrame(iv, body) + tail;
      ChunkRead(c, key, iv, body, chunks[0], tail);
      StreamRoundTrip(c, key, chunks[1..], ivs[1..], rest);
    }
  }

  // ---------------------------------------------------------------- key exchange

  /** A handshake blob: its length as an `int`, then its bytes. */
  function BlobFrame(blob: seq<Byte>): (r: seq<Byte>)
    requires |blob| <= INT_MAX
    ensures |r| == 4 + |blob|
  {
    EncodeInt(|blob|) + blob
  }

  /** Reading a blob: the length (a short read fails with `lengthMsg`), then
    * that many bytes (a short read fails with `bodyMsg`). */
  function ParseBlob(input: seq<Byte>, lengthMsg: string, bodyMsg: string): (r: Result<Parsed<seq<Byte>>>)
    ensures |input| < 4 ==> r == Err(IOFailure(lengthMsg))
    ensures r.Ok? ==> |r.value.value| <= INT_MAX && input == EncodeInt(|r.value.value|) + r.value.value + r.value.rest
  {
    if |input| < 4 then Err(IOFailure(lengthMsg))
    else
      var len := DecodeInt(input[..4]);
      if len < 0 then Err(NegativeArraySize)
      else if |input| - 4 < len then Err(IOFailure(bodyMsg))
      else
        IntBytesRoundTrip(input[..4]);
        assert input == input[..4] + input[4..4 + len] + input[4 + len..];
        Ok(Parsed(input[4..4 + len], input[4 + len..]))
  }

  /** A written blob reads back unchanged, whatever follows it. */
  lemma BlobRoundTrip(blob: seq<Byte>, rest: seq<Byte>, lengthMsg: string, bodyMsg: string)
    requires |blob| <= INT_MAX
    ensures ParseBlob(BlobFrame(blob) + rest, lengthMsg, bodyMsg) == Ok(Parsed(blob, rest))
  {
    var input := BlobFrame(blob) + rest;
    assert input[..4] == EncodeInt(|blob|);
    IntRoundTrip(|blob|);
    assert input[4..4 + |blob|] == blob && input[4 + |blob|..] == rest;
  }

  /** The asymmetric cipher as function values: encryption under the bytes of
    * a public key (`None` when they do not decode to a key) and decryption
    * under a private key (`None` when the padding check fails). */
  datatype AsymCipher = AsymCipher(
    encrypt: (seq<Byte>, seq<Byte>) -> Option<seq<Byte>>,
    decrypt: (seq<Byte>, seq<Byte>) -> Option<seq<Byte>>)

  /** `priv` decrypts whatever is encrypted under `pub`. */
  ghost predicate KeyPair(a: AsymCipher, pub: seq<Byte>, priv: seq<Byte>) {
    forall m :: a.encrypt(pub, m).Some? ==> a.decrypt(priv, a.encrypt(pub, m).value) == Some(m)
  }

  /** A ciphertext is a Java array, so its length is an `int`. */
  ghost predicate ArraySized(a: AsymCipher) {
    forall pub, m :: a.encrypt(pub, m).Some? ==> |a.encrypt(pub, m).value| <= INT_MAX
  }

  const CLIENT_LENGTH_MSG: string := "Failed to read length of incoming data. Failed to negotiate channel."
  const CLIENT_BODY_MSG: string := "Failed to negotiate channel security."
  const SERVER_LENGTH_MSG: string := "Failed to negotiate channel security, could not read key length."
  const SERVER_BODY_MSG: string := "Failed to negotiate channel security, could not read key."
  const EMPTY_KEY_MSG: string := "Empty key"

  /** The servlet's side (`openClientChannel`, which the servlet calls on an
    * accepted connection) after sending its public key: read the client's
    * blob and decrypt the session key from it with the private key; a
    * failed unwrap is `BadPadding`, not the symmetric tag error, and an
    * empty key is refused as `SecretKeySpec` refuses it. */
  function ReceivedSessionKey(a: AsymCipher, priv: seq<Byte>, input: seq<Byte>): (r: Result<seq<Byte>>)
    ensures ParseBlob(input, CLIENT_LENGTH_MSG, CLIENT_BODY_MSG).Err? ==> r == Err(ParseBlob(input, CLIENT_LENGTH_MSG, CLIENT_BODY_MSG).error)
    ensures r.Ok? <==> ParseBlob(input, CLIENT_LENGTH_MSG, CLIENT_BODY_MSG).Ok? &&
                       a.decrypt(priv, ParseBlob(input, CLIENT_LENGTH_MSG, CLIENT_BODY_MSG).value.value).Some? &&
                       a.decrypt(priv, ParseBlob(input, CLIENT_LENGTH_MSG, CLIENT_BODY_MSG).value.value).value != []
    ensures r.Ok? ==> Some(r.value) == a.decrypt(priv, ParseBlob(input, CLIENT_LENGTH_MSG, CLIENT_BODY_MSG).value.value)
    ensures r.Ok? ==> r.value != []
    ensures ParseBlob(input, CLIENT_LENGTH_MSG, CLIENT_BODY_MSG).Ok? &&
            a.decrypt(priv, ParseBlob(input, CLIENT_LENGTH_MSG, CLIENT_BODY_MSG).value.value) == Some([]) ==>
              r == Err(IllegalArgument(EMPTY_KEY_MSG))
  {
    match ParseBlob(input, CLIENT_LENGTH_MSG, CLIENT_BODY_MSG)
    case Err(e) => Err(e)
    case Ok(Parsed(blob, _)) =>
      match a.decrypt(priv, blob)
      case None => Err(BadPadding)
      case Some(k) => if k == [] then Err(IllegalArgument(EMPTY_KEY_MSG)) else Ok(k)
  }

  /** The client's side (`openServerChannel`, which a client calls on the
    * socket to the servlet): read the servlet's public key and encrypt the
    * fresh session key under it; the result is the blob the client sends back. */
  function SealedSessionKey(a: AsymCipher, secretKey: seq<Byte>, input: seq<Byte>): (r: Result<seq<Byte>>)
    ensures ParseBlob(input, SERVER_LENGTH_MSG, SERVER_BODY_MSG).Err? ==> r == Err(ParseBlob(input, SERVER_LENGTH_MSG, SERVER_BODY_MSG).error)
    ensures r.Ok? <==> ParseBlob(input, SERVER_LENGTH_MSG, SERVER_BODY_MSG).Ok? &&
                       a.encrypt(ParseBlob(input, SERVER_LENGTH_MSG, SERVER_BODY_MSG).value.value, secretKey).Some?
    ensures r.Ok? ==> Some(r.value) == a.encrypt(ParseBlob(input, SERVER_LENGTH_MSG, SERVER_BODY_MSG).value.value, secretKey)
  {
    match ParseBlob(input, SERVER_LENGTH_MSG, SERVER_BODY_MSG)
    case Err(e) => Err(e)
    case Ok(Parsed(pub, _)) =>
      match a.encrypt(pub, secretKey)
      case None => Err(InvalidKey)
      case Some(e) => Ok(e)
  }

  /** The key exchange agrees: when the client reads the servlet's public-key
    * blob and the servlet reads the client's reply, the servlet ends up with
    * the session key the client drew, unless that key is empty. */
  lemma KeyExchangeAgrees(a: AsymCipher, pub: seq<Byte>, priv: seq<Byte>, secretKey: seq<Byte>,
                          clientRest: seq<Byte>, servletRest: seq<Byte>)
    requires KeyPair(a, pub, priv) && ArraySized(a) && |pub| <= INT_MAX
    requires a.encrypt(pub, secretKey).Some?
    ensures SealedSessionKey(a, secretKey, BlobFrame(pub) + clientRest) == Ok(a.encrypt(pub, secretKey).value)
    ensures secretKey != [] ==>
              ReceivedSessionKey(a, priv, BlobFrame(a.encrypt(pub, secretKey).value) + servletRest) == Ok(secretKey)
    ensures secretKey == [] ==>
              ReceivedSessionKey(a, priv, BlobFrame(a.encrypt(pub, secretKey).value) + servletRest) ==
              Err(IllegalArgument(EMPTY_KEY_MSG))
  {
    BlobRoundTrip(pub, clientRest, SERVER_LENGTH_MSG, SERVER_BODY_MSG);
    BlobRoundTrip(a.encrypt(pub, secretKey).value, servletRest, CLIENT_LENGTH_MSG, CLIENT_BODY_MSG);
  }
}
