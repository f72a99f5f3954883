/** How NetflixContinueWatchingImpl turns a token into the text it stores, and back. */
module TokenPipeline {
  import opened Base64
  import opened Wrappers

  const SEC_AES_BLOCK_SIZE := 16
  const SHA256_DIGEST_LENGTH := 32

  /** The digest and the block cipher under the stored key. */
  datatype Crypto = Crypto(digest: Bytes -> Bytes, encipher: Bytes -> Bytes, decipher: Bytes -> Bytes)

  predicate WholeBlocks(x: Bytes) {
    |x| % SEC_AES_BLOCK_SIZE == 0
  }

  /** A digest has 32 bytes; enciphering and deciphering keep the length of whole blocks, and deciphering undoes
      enciphering. */
  ghost predicate Lawful(c: Crypto) {
    && (forall x :: |c.digest(x)| == SHA256_DIGEST_LENGTH)
    && (forall x {:trigger c.encipher(x)} :: WholeBlocks(x) ==> |c.encipher(x)| == |x|)
    && (forall x {:trigger c.encipher(x)} :: WholeBlocks(x) ==> c.decipher(c.encipher(x)) == x)
    && (forall x {:trigger c.decipher(x)} :: WholeBlocks(x) ==> |c.decipher(x)| == |x|)
  }

  function HexDigit(v: nat): Byte
    requires v < 16
  {
    if v < 10 then 48 + v else 97 + (v - 10)
  }

  /** '0' to '9' and 'a' to 'f'. */
  predicate IsLowerHex(c: Byte) {
    48 <= c <= 57 || 97 <= c <= 102
  }

  function Hex(bytes: Bytes): (text: Bytes)
    ensures |text| == 2 * |bytes|
    ensures forall i :: 0 <= i < |text| ==> IsLowerHex(text[i])
  {
    if bytes == [] then [] else [HexDigit(bytes[0] / 16), HexDigit(bytes[0] % 16)] + Hex(bytes[1..])
  }

  lemma DigestSize(c: Crypto, x: Bytes)
    requires Lawful(c)
    ensures |Hex(c.digest(x))| == 2 * SHA256_DIGEST_LENGTH
  {
  }

  // ------------------------------------------------------- padding, as in section 6.3 of RFC 5652

  function PadLength(n: nat): (k: Byte)
    ensures 1 <= k <= SEC_AES_BLOCK_SIZE && (n + k) % SEC_AES_BLOCK_SIZE == 0
  {
    SEC_AES_BLOCK_SIZE - n % SEC_AES_BLOCK_SIZE
  }

  function Pad(x: Bytes): (p: Bytes)
    ensures |p| == |x| + PadLength(|x|) && |p| % SEC_AES_BLOCK_SIZE == 0
  {
    var k := PadLength(|x|);
    x + seq(k, i => k)
  }

  function Unpad(p: Bytes): Option<Bytes> {
    if p == [] then None
    else
      var k := p[|p| - 1];
      if 1 <= k <= SEC_AES_BLOCK_SIZE && k <= |p| && p[|p| - k..] == seq(k, i => k) then Some(p[..|p| - k]) else None
  }

  /** The padding can be told from the data, whatever the data ends with. */
  lemma PadRoundTrip(x: Bytes)
    ensures Unpad(Pad(x)) == Some(x)
    ensures forall i :: |x| <= i < |Pad(x)| ==> Pad(x)[i] as int == |Pad(x)| - |x|
  {
  }

  function Encrypted(c: Crypto, clear: Bytes): Bytes {
    c.encipher(Pad(clear))
  }

  function Decrypted(c: Crypto, cipher: Bytes): Option<Bytes> {
    if !WholeBlocks(cipher) then None else Unpad(c.decipher(cipher))
  }

  /** The room setApplicationToken reserves is exactly what the cipher writes, so encoding the whole reserved buffer
      encodes the cipher text and nothing else. */
  lemma EncryptRoundTrip(c: Crypto, clear: Bytes)
    requires Lawful(c)
    ensures |Encrypted(c, clear)| == |clear| + PadLength(|clear|)
    ensures Decrypted(c, Encrypted(c, clear)) == Some(clear)
  {
  }

  /** Whatever the cipher text, the room getApplicationToken reserves is enough for what decrypting writes. */
  lemma DecryptedFits(c: Crypto, cipher: Bytes)
    requires Lawful(c)
    ensures Decrypted(c, cipher).Some? ==> |Decrypted(c, cipher).value| < |cipher| < |cipher| + PadLength(|cipher|)
  {
  }

  // ------------------------------------------------------- the digest in hexadecimal

  lemma HexFirst(a: Bytes)
    requires a != []
    ensures Hex(a)[0] == HexDigit(a[0] / 16) && Hex(a)[1] == HexDigit(a[0] % 16) && Hex(a)[2..] == Hex(a[1..])
  {
  }

  lemma HexFrom(a: Bytes, i: nat, before: Bytes)
    requires i < |a|
    ensures before + Hex(a[i..]) == before + [HexDigit(a[i] / 16), HexDigit(a[i] % 16)] + Hex(a[i + 1..])
  {
    assert a[i..][1..] == a[i + 1..];
  }

  lemma SameByte(x: Byte, y: Byte)
    requires HexDigit(x / 16) == HexDigit(y / 16) && HexDigit(x % 16) == HexDigit(y % 16)
    ensures x == y
  {
    assert x / 16 == y / 16 && x % 16 == y % 16;
  }

  lemma SameSeq(a: Bytes, b: Bytes)
    requires a != [] && b != [] && a[0] == b[0] && a[1..] == b[1..]
    ensures a == b
  {
    assert a == [a[0]] + a[1..] && b == [b[0]] + b[1..];
  }

  /** Comparing two hexadecimal texts compares the digests. */
  lemma {:induction false} HexInjective(a: Bytes, b: Bytes)
    requires Hex(a) == Hex(b)
    ensures a == b
  {
    if a != [] && b != [] {
      HexFirst(a);
      HexFirst(b);
      SameByte(a[0], b[0]);
      hide Hex, HexDigit;
      HexInjective(a[1..], b[1..]);
      SameSeq(a, b);
    }
  }

  method Sha256(c: Crypto, str: Bytes) returns (text: Bytes)
    requires Lawful(c)
    ensures text == Hex(c.digest(str)) && |text| == 2 * SHA256_DIGEST_LENGTH
  {
    var hash := c.digest(str);
    DigestSize(c, str);
    hide Lawful;
    text := [];
    assert hash[0..] == hash;
    for i := 0 to SHA256_DIGEST_LENGTH
      invariant Hex(hash) == text + Hex(hash[i..])
    {
      hide Hex, HexDigit;
      HexFrom(hash, i, text);
      text := text + [HexDigit(hash[i] / 16), HexDigit(hash[i] % 16)];
    }
  }

  // ------------------------------------------------------- the stages

  /** The token in base64, behind the digest of that text. */
  function Signed(c: Crypto, token: Bytes): Bytes {
    Hex(c.digest(Encode(token))) + Encode(token)
  }

  function Sealed(c: Crypto, token: Bytes): Bytes {
    Encode(Encrypted(c, Signed(c, token)))
  }

  /** The token that stored text holds; empty when there is none or its digest does not match. */
  function Opened(c: Crypto, stored: Bytes): Bytes {
    match Decrypted(c, Decode(stored))
    case None => []
    case Some(clear) =>
      if |clear| < 2 * SHA256_DIGEST_LENGTH then []
      else
        var text := clear[2 * SHA256_DIGEST_LENGTH..];
        if clear[..2 * SHA256_DIGEST_LENGTH] == Hex(c.digest(text)) then Decode(text) else []
  }

  /** Every token comes back. */
  lemma SealedOpens(c: Crypto, token: Bytes)
    requires Lawful(c)
    ensures Opened(c, Sealed(c, token)) == token
  {
    hide Lawful, Hex, Encode, Decode, Encrypted, Decrypted;
    var signed := Signed(c, token);
    DigestSize(c, Encode(token));
    RoundTrip(Encrypted(c, signed));
    EncryptRoundTrip(c, signed);
    assert signed[2 * SHA256_DIGEST_LENGTH..] == Encode(token);
    assert signed[..2 * SHA256_DIGEST_LENGTH] == Hex(c.digest(Encode(token)));
    RoundTrip(token);
  }

  /** Sealed text is never empty and holds no NUL, so the C strings it passes through keep it whole. */
  lemma SealedIsWhole(c: Crypto, token: Bytes)
    requires Lawful(c)
    ensures Sealed(c, token) != [] && CStr(Sealed(c, token)) == Sealed(c, token)
  {
    EncryptRoundTrip(c, Signed(c, token));
    TextIsWhole(Sealed(c, token));
  }

  /** Text that was not sealed for a token opens to nothing, unless its digest is that of the data behind it. */
  lemma OpenedMeans(c: Crypto, stored: Bytes)
    ensures Opened(c, stored) != [] ==>
      exists text :: Decode(text) == Opened(c, stored) &&
        Decrypted(c, Decode(stored)) == Some(Hex(c.digest(text)) + text)
  {
    match Decrypted(c, Decode(stored))
    case None =>
    case Some(clear) =>
      if Opened(c, stored) != [] {
        var text := clear[2 * SHA256_DIGEST_LENGTH..];
        assert clear == clear[..2 * SHA256_DIGEST_LENGTH] + text;
        assert Decode(text) == Opened(c, stored);
      }
  }

  // ------------------------------------------------------- the buffers

  /** The library's encoder: fills the first EncodedSize bytes of the output. */
  method B64Encode(input: Bytes, output: array<Byte>)
    requires EncodedSize(|input|) <= output.Length
    modifies output
    ensures output[..EncodedSize(|input|)] == Encode(input)
  {
    var text := Encode(input);
    for i := 0 to |text|
      invariant output[..i] == text[..i]
    {
      output[i] := text[i];
    }
  }

  /** The library's decoder; returns how many bytes it wrote. */
  method B64Decode(input: Bytes, output: array<Byte>) returns (written: nat)
    requires DecodedSize(|input|) <= output.Length
    modifies output
    ensures written <= output.Length && output[..written] == Decode(input)
  {
    var bytes := Decode(input);
    DecodedFits(input);
    written := |bytes|;
    for i := 0 to written
      invariant output[..i] == bytes[..i]
    {
      output[i] := bytes[i];
    }
  }

  /** encryptData: fails when the feature, the processor or the key is not available, or the buffer is too small. */
  method EncryptData(c: Crypto, clear: Bytes, available: bool, protectedData: array<Byte>)
    returns (ok: bool, written: nat)
    requires Lawful(c)
    modifies protectedData
    ensures ok <==> available && |Encrypted(c, clear)| <= protectedData.Length
    ensures ok ==> written == |Encrypted(c, clear)| && protectedData[..written] == Encrypted(c, clear)
  {
    var cipher := Encrypted(c, clear);
    ok, written := available && |cipher| <= protectedData.Length, 0;
    if ok {
      written := |cipher|;
      for i := 0 to written
        invariant protectedData[..i] == cipher[..i]
      {
        protectedData[i] := cipher[i];
      }
    }
  }

  /** decryptData: also fails on cipher text that is not whole blocks or is wrongly padded. */
  method DecryptData(c: Crypto, cipher: Bytes, available: bool, clearData: array<Byte>) returns (ok: bool, written: nat)
    modifies clearData
    ensures ok <==> available && Decrypted(c, cipher).Some? && |Decrypted(c, cipher).value| <= clearData.Length
    ensures ok ==> written <= clearData.Length && Decrypted(c, cipher) == Some(clearData[..written])
  {
    var clear := Decrypted(c, cipher);
    ok, written := available && clear.Some? && |clear.value| <= clearData.Length, 0;
    if ok {
      written := |clear.value|;
      for i := 0 to written
        invariant clearData[..i] == clear.value[..i]
      {
        clearData[i] := clear.value[i];
      }
      assert clear.value[..written] == clear.value;
    }
  }

  /** A buffer as a string, byte by byte. */
  method Listed(buffer: array<Byte>, size: nat) returns (text: Bytes)
    requires size <= buffer.Length
    ensures text == buffer[..size]
  {
    text := [];
    for i := 0 to size
      invariant text == buffer[..i]
    {
      text := text + [buffer[i]];
    }
  }

  /** setApplicationToken up to the write: None when encryption failed. */
  method Seal(c: Crypto, token: Bytes, available: bool) returns (text: Option<Bytes>)
    requires Lawful(c)
    ensures text == if available then Some(Sealed(c, token)) else None
  {
    hide Lawful, Hex, Encode, Decode, Encrypted, Decrypted, EncodedSize;
    var workspaceSize := EncodedSize(|token|);
    var workspace := new Byte[workspaceSize];
    B64Encode(token, workspace);
    var tokenBase64 := Listed(workspace, workspaceSize);
    var hash := Sha256(c, tokenBase64);
    tokenBase64 := hash + tokenBase64;
    var paddingLength := SEC_AES_BLOCK_SIZE - |tokenBase64| % SEC_AES_BLOCK_SIZE;
    var size := |tokenBase64| + paddingLength;
    var cipher := new Byte[size];
    EncryptRoundTrip(c, tokenBase64);
    var ok, bytesWritten := EncryptData(c, tokenBase64, available, cipher);
    if !ok { return None; }
    assert cipher[..] == cipher[..bytesWritten];
    var jsonWorkspaceSize := EncodedSize(cipher.Length);
    var jsonWorkspace := new Byte[jsonWorkspaceSize];
    B64Encode(cipher[..], jsonWorkspace);
    var listed := Listed(jsonWorkspace, jsonWorkspaceSize);
    return Some(listed);
  }

  /** getApplicationToken after the read, with the exception for text shorter than a digest caught as an empty
      token. */
  method Open(c: Crypto, stored: Bytes, available: bool) returns (token: Bytes)
    requires Lawful(c)
    requires stored != []
    ensures token == if available then Opened(c, stored) else []
  {
    hide Lawful, Hex, Decode, Decrypted, DecodedSize;
    var workspaceSize := DecodedSize(|stored|);
    var workspace := new Byte[workspaceSize];
    var numChars := B64Decode(stored, workspace);
    var paddingLength := SEC_AES_BLOCK_SIZE - numChars % SEC_AES_BLOCK_SIZE;
    var size := numChars + paddingLength;
    var output := new Byte[size];
    DecryptedFits(c, workspace[..numChars]);
    var ok, bytesWritten := DecryptData(c, workspace[..numChars], available, output);
    if !ok { return []; }
    var clear := Listed(output, bytesWritten);
    var hashLength := SHA256_DIGEST_LENGTH * 2;
    if |clear| < hashLength { return []; }
    var inputHash := clear[..hashLength];
    var tokenData := clear[hashLength..];
    var tokenHash := Sha256(c, tokenData);
    if inputHash != tokenHash { return []; }
    var decWorkspace := new Byte[DecodedSize(|tokenData|)];
    var decNumChars := B64Decode(tokenData, decWorkspace);
    token := Listed(decWorkspace, decNumChars);
  }
}
