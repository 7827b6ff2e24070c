// The secure channel as the code drives it: a connection whose written
// bytes grow and whose incoming bytes are consumed read by read, and a
// channel object that seals objects and streams onto it.  Every operation
// is proved against the layouts and parsers of the Framing module.

module SecureChannels {
  import opened Common
  import opened Framing

  /** A connected socket: the bytes written to it so far, the bytes the peer
    * sends, and how many of those have been read. */
  class Connection {
    var sent: seq<Byte>
    const incoming: seq<Byte>
    var pos: nat

    ghost predicate Valid()
      reads this
    {
      pos <= |incoming|
    }

    constructor (incoming: seq<Byte>)
      ensures Valid() && sent == [] && this.incoming == incoming && pos == 0
    {
      sent := [];
      this.incoming := incoming;
      pos := 0;
    }

    /** The bytes not read yet. */
    function Remaining(): (r: seq<Byte>)
      requires Valid()
      reads this
      ensures |r| == |incoming| - pos
    {
      incoming[pos..]
    }

    /** `getOutputStream().write(bytes)`. */
    method Write(bytes: seq<Byte>)
      modifies this`sent
      ensures sent == old(sent) + bytes
    {
      sent := sent + bytes;
    }

    /** `getInputStream().read(buf)` for a buffer of `n` bytes: the next `n`
      * bytes, or `None` (a short count) when the peer sent fewer, in which
      * case what there was is consumed. */
    method Read(n: nat) returns (r: Option<seq<Byte>>)
      requires Valid()
      modifies this`pos
      ensures Valid()
      ensures n <= |old(Remaining())| ==> r == Some(old(Remaining())[..n]) && Remaining() == old(Remaining())[n..]
      ensures n > |old(Remaining())| ==> r == None && Remaining() == []
    {
      if n <= |incoming| - pos {
        r := Some(incoming[pos..pos + n]);
        assert incoming[pos..][..n] == incoming[pos..pos + n];
        assert incoming[pos..][n..] == incoming[pos + n..];
        pos := pos + n;
      } else {
        r := None;
        pos := |incoming|;
      }
    }
  }

  class SecureChannel {
    const conn: Connection
    const cipher: SymCipher
    const secretKey: seq<Byte>

    constructor (cipher: SymCipher, conn: Connection, secretKey: seq<Byte>)
      ensures this.cipher == cipher && this.conn == conn && this.secretKey == secretKey
    {
      this.cipher := cipher;
      this.conn := conn;
      this.secretKey := secretKey;
    }

    /** `sendObject`: `payload` is the compressed serialised object and `iv`
      * the freshly drawn nonce.  Writes exactly one object frame. */
    method SendObject(payload: seq<Byte>, iv: seq<Byte>)
      requires |iv| == IV_SIZE && |cipher.encrypt(secretKey, iv, payload)| <= INT_MAX
      modifies conn`sent
      ensures conn.sent == old(conn.sent) + ObjectFrame(iv, cipher.encrypt(secretKey, iv, payload))
    {
      var encData := cipher.encrypt(secretKey, iv, payload);
      conn.Write(iv);
      conn.Write(EncodeInt(|encData|));
      conn.Write(encData);
    }

    /** `readObject` up to decryption: the payload of the next object frame,
      * or the failure `ParseObject` and `Unseal` describe. */
    method ReadObject() returns (r: Result<seq<Byte>>)
      requires conn.Valid()
      modifies conn`pos
      ensures conn.Valid()
      ensures r == Unseal(cipher, secretKey, ParseObject(old(conn.Remaining())))
      ensures ParseObject(old(conn.Remaining())).Ok? ==> conn.Remaining() == ParseObject(old(conn.Remaining())).value.rest
    {
      ghost var input := conn.Remaining();
      var iv := conn.Read(IV_SIZE);
      if iv.None? {
        return Err(IOFailure(IV_MSG));
      }
      var intBytes := conn.Read(4);
      if intBytes.None? {
        return Err(IOFailure(LENGTH_MSG));
      }
      assert intBytes.value == input[IV_SIZE..IV_SIZE + 4];
      var length := DecodeInt(intBytes.value);
      if length < 0 {
        return Err(NegativeArraySize);
      }
      var encData := conn.Read(length);
      if encData.None? {
        return Err(IOFailure(OBJECT_MSG));
      }
      assert encData.value == input[IV_SIZE + 4..IV_SIZE + 4 + length];
      assert conn.Remaining() == input[IV_SIZE + 4 + length..];
      var plain := cipher.decrypt(secretKey, iv.value, encData.value);
      if plain.None? {
        return Err(BadTag);
      }
      return Ok(plain.value);
    }

    /** `sendStream`: `chunks` are the successive reads of the deflated input
      * and `ivs` the nonce drawn for each.  Each read is sealed under its own
      * IV and written as one chunk; the terminator follows the last. */
    method SendStream(chunks: seq<seq<Byte>>, ivs: seq<seq<Byte>>)
      requires |ivs| == |chunks|
      modifies conn`sent
      ensures conn.sent == old(conn.sent) + SealedStream(cipher, secretKey, chunks, ivs)
    {
      var i := 0;
      while i < |chunks|
        invariant 0 <= i <= |chunks|
        invariant conn.sent == old(conn.sent) + ChunkFrames(cipher, secretKey, chunks[..i], ivs[..i])
      {
        var encData := cipher.encrypt(secretKey, ivs[i], chunks[i]);
        conn.Write(EncodeShort(|encData|));
        conn.Write(ivs[i]);
        conn.Write(encData);
        ChunkFramesSnoc(cipher, secretKey, chunks[..i], ivs[..i], chunks[i], ivs[i]);
        assert chunks[..i + 1] == chunks[..i] + [chunks[i]];
        assert ivs[..i + 1] == ivs[..i] + [ivs[i]];
        i := i + 1;
      }
      assert chunks[..i] == chunks && ivs[..i] == ivs;
      conn.Write(EncodeShort(0));
    }

    /** `readStream`: reads chunks until the zero header and hands each
      * decrypted chunk to the output in arrival order.  `written` is what the
      * output received, `failure` what stopped the read early. */
    method ReadStream() returns (written: seq<Byte>, failure: Option<Error>)
      requires conn.Valid()
      modifies conn`pos
      ensures conn.Valid()
      ensures written == ParseStream(cipher, secretKey, old(conn.Remaining())).written
      ensures failure.None? <==> ParseStream(cipher, secretKey, old(conn.Remaining())).result.Ok?
      ensures failure.Some? ==> ParseStream(cipher, secretKey, old(conn.Remaining())).result == Err(failure.value)
      ensures failure.None? ==> conn.Remaining() == ParseStream(cipher, secretKey, old(conn.Remaining())).result.value
    {
      ghost var spec := ParseStream(cipher, secretKey, conn.Remaining());
      written := [];
      var lenBytes := conn.Read(2);
      if lenBytes.None? {
        return [], Some(IOFailure(LENGTH_MSG));
      }
      var encLen := DecodeShort(lenBytes.value);
      while encLen != 0
        invariant conn.Valid()
        invariant spec == Prepend(written, ParseChunk(cipher, secretKey, encLen, conn.Remaining()))
        decreases |conn.Remaining()|
      {
        ghost var input := conn.Remaining();
        var plain, chunkFailure := ReadChunk(encLen);
        if chunkFailure.Some? {
          return written, chunkFailure;
        }
        ghost var next := ParseStream(cipher, secretKey, conn.Remaining());
        PrependTwice(written, plain, next);
        written := written + plain;
        lenBytes := conn.Read(2);
        if lenBytes.None? {
          return written, Some(IOFailure(LENGTH_MSG));
        }
        encLen := DecodeShort(lenBytes.value);
      }
      failure := None;
    }

    /** One chunk of `readStream` after its non-zero header `encLen`: its IV,
      * its ciphertext and the decrypted bytes, or the failure that ends the
      * stream. */
    method ReadChunk(encLen: int) returns (plain: seq<Byte>, failure: Option<Error>)
      requires conn.Valid() && encLen != 0
      modifies conn`pos
      ensures conn.Valid()
      ensures failure.Some? ==>
                ParseChunk(cipher, secretKey, encLen, old(conn.Remaining())) == Drained([], Err(failure.value))
      ensures failure.None? ==>
                |conn.Remaining()| < |old(conn.Remaining())| &&
                ParseChunk(cipher, secretKey, encLen, old(conn.Remaining())) ==
                  Prepend(plain, ParseStream(cipher, secretKey, conn.Remaining()))
    {
      ghost var input := conn.Remaining();
      plain := [];
      var iv := conn.Read(IV_SIZE);
      if iv.None? {
        return [], Some(IOFailure(IV_MSG));
      }
      if encLen < 0 || encLen > READ_BUFFER {
        return [], Some(IndexOutOfBounds);
      }
      var encData := conn.Read(encLen);
      if encData.None? {
        return [], Some(IOFailure(STREAM_MSG));
      }
      assert encData.value == input[IV_SIZE..IV_SIZE + encLen];
      assert conn.Remaining() == input[IV_SIZE + encLen..];
      var decrypted := cipher.decrypt(secretKey, iv.value, encData.value);
      if decrypted.None? {
        return [], Some(BadTag);
      }
      return decrypted.value, None;
    }

    /** `openClientChannel`, the servlet's side of the handshake: send the
      * public key as a blob, read the client's blob and decrypt the session
      * key from it.  The key pair and
      * the symmetric cipher instance are parameters. */
    static method OpenClientChannel(conn: Connection, rsa: AsymCipher, publicKey: seq<Byte>, privateKey: seq<Byte>,
                                    cipher: SymCipher) returns (r: Result<SecureChannel>)
      requires conn.Valid() && |publicKey| <= INT_MAX
      modifies conn`sent, conn`pos
      ensures conn.Valid()
      ensures conn.sent == old(conn.sent) + BlobFrame(publicKey)
      ensures r.Err? <==> ReceivedSessionKey(rsa, privateKey, old(conn.Remaining())).Err?
      ensures r.Err? ==> r.error == ReceivedSessionKey(rsa, privateKey, old(conn.Remaining())).error
      ensures r.Ok? ==> fresh(r.value) && r.value.conn == conn && r.value.cipher == cipher
      ensures r.Ok? ==> r.value.secretKey == ReceivedSessionKey(rsa, privateKey, old(conn.Remaining())).value
    {
      conn.Write(EncodeInt(|publicKey|));
      conn.Write(publicKey);
      var blob := ReadBlob(conn, CLIENT_LENGTH_MSG, CLIENT_BODY_MSG);
      if blob.Err? {
        return Err(blob.error);
      }
      var key := rsa.decrypt(privateKey, blob.value);
      if key.None? {
        return Err(BadPadding);
      }
      if key.value == [] {
        return Err(IllegalArgument(EMPTY_KEY_MSG));
      }
      var channel := new SecureChannel(cipher, conn, key.value);
      return Ok(channel);
    }

    /** `openServerChannel`, a client's side of the handshake: read the
      * servlet's public key, encrypt the fresh session key under it and send
      * the result as a blob. */
    static method OpenServerChannel(conn: Connection, rsa: AsymCipher, secretKey: seq<Byte>, cipher: SymCipher)
      returns (r: Result<SecureChannel>)
      requires conn.Valid() && ArraySized(rsa)
      modifies conn`sent, conn`pos
      ensures conn.Valid()
      ensures r.Err? <==> SealedSessionKey(rsa, secretKey, old(conn.Remaining())).Err?
      ensures r.Err? ==> r.error == SealedSessionKey(rsa, secretKey, old(conn.Remaining())).error && conn.sent == old(conn.sent)
      ensures r.Ok? ==> conn.sent == old(conn.sent) + BlobFrame(SealedSessionKey(rsa, secretKey, old(conn.Remaining())).value)
      ensures r.Ok? ==> fresh(r.value) && r.value.conn == conn && r.value.cipher == cipher && r.value.secretKey == secretKey
    {
      var publicKey := ReadBlob(conn, SERVER_LENGTH_MSG, SERVER_BODY_MSG);
      if publicKey.Err? {
        return Err(publicKey.error);
      }
      var enc := rsa.encrypt(publicKey.value, secretKey);
      if enc.None? {
        return Err(InvalidKey);
      }
      conn.Write(EncodeInt(|enc.value|));
      conn.Write(enc.value);
      var channel := new SecureChannel(cipher, conn, secretKey);
      return Ok(channel);
    }
  }

  /** A length-prefixed handshake blob, read as both handshakes do. */
  method ReadBlob(conn: Connection, lengthMsg: string, bodyMsg: string) returns (r: Result<seq<Byte>>)
    requires conn.Valid()
    modifies conn`pos
    ensures conn.Valid()
    ensures r.Err? <==> ParseBlob(old(conn.Remaining()), lengthMsg, bodyMsg).Err?
    ensures r.Err? ==> r.error == ParseBlob(old(conn.Remaining()), lengthMsg, bodyMsg).error
    ensures r.Ok? ==> r.value == ParseBlob(old(conn.Remaining()), lengthMsg, bodyMsg).value.value
    ensures r.Ok? ==> conn.Remaining() == ParseBlob(old(conn.Remaining()), lengthMsg, bodyMsg).value.rest
  {
    ghost var input := conn.Remaining();
    var lenBytes := conn.Read(4);
    if lenBytes.None? {
      return Err(IOFailure(lengthMsg));
    }
    var len := DecodeInt(lenBytes.value);
    if len < 0 {
      return Err(NegativeArraySize);
    }
    var blob := conn.Read(len);
    if blob.None? {
      return Err(IOFailure(bodyMsg));
    }
    assert blob.value == input[4..4 + len];
    assert conn.Remaining() == input[4 + len..];
    return Ok(blob.value);
  }
}
