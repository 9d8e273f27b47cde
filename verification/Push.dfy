/**
 Web Push message encryption (internal/push/encrypt.go): the aes128gcm content coding of RFC 8188
 with one record, keyed as in sections 3.4 and 4 of RFC 8291, over HKDF (RFC 5869).

 The primitives are parameters. Of them only the laws in `Lawful` are used; nothing is said about
 their strength. Random choices (the sender's private key and the salt) are parameters too.
 */
module Push {
  import opened Wrappers

  datatype Primitives = Primitives(
    hmac: (Bytes, Bytes) -> Bytes,
    publicKey: Bytes -> Bytes,
    isPoint: Bytes -> bool,
    agree: (Bytes, Bytes) -> Bytes,
    seal: (Bytes, Bytes, Bytes) -> Bytes,
    unseal: (Bytes, Bytes, Bytes) -> Option<Bytes>)

  const TAG: nat := 16
  const BLOCK: nat := 32

  ghost predicate Lawful(c: Primitives) {
    && (forall key, msg :: |c.hmac(key, msg)| == BLOCK)
    && (forall k :: |c.publicKey(k)| == 65 && c.publicKey(k)[0] == 4 && c.isPoint(c.publicKey(k)))
    && (forall a, b :: c.agree(a, c.publicKey(b)) == c.agree(b, c.publicKey(a)))
    && (forall key, nonce, x :: |c.seal(key, nonce, x)| == |x| + TAG)
    && (forall key, nonce, x :: c.unseal(key, nonce, c.seal(key, nonce, x)) == Some(x))
  }

  function Zeros(n: nat): (r: Bytes)
    ensures |r| == n && forall i :: 0 <= i < n ==> r[i] == 0
  {
    seq(n, _ => 0)
  }

  /** The laws are consistent: these (worthless) primitives obey them. */
  const TOY := Primitives(
    (_, _) => Zeros(BLOCK),
    _ => [4] + Zeros(64),
    _ => true,
    (_, _) => [],
    (_, _, x: Bytes) => x + Zeros(TAG),
    (_, _, x: Bytes) => if |x| >= TAG then Some(x[..|x| - TAG]) else None)

  lemma ToyIsLawful()
    ensures Lawful(TOY)
  {
    forall key: Bytes, nonce: Bytes, x: Bytes ensures TOY.unseal(key, nonce, TOY.seal(key, nonce, x)) == Some(x) {
      assert (x + Zeros(TAG))[..|x|] == x;
    }
  }

  type Crypto = c: Primitives | Lawful(c) ghost witness (ToyIsLawful(); TOY)

  // ---- HKDF ----

  /** T(i) of HKDF-Expand; the program's counter is one byte and wraps. */
  function Block(c: Crypto, prk: Bytes, info: Bytes, i: nat): Bytes {
    if i == 0 then [] else c.hmac(prk, Block(c, prk, info, i - 1) + info + [(i % 256) as byte])
  }

  /** T(1) to T(n), one after another. */
  function Stream(c: Crypto, prk: Bytes, info: Bytes, n: nat): (r: Bytes)
    ensures |r| == n * BLOCK
  {
    if n == 0 then [] else Stream(c, prk, info, n - 1) + Block(c, prk, info, n)
  }

  function Expand(c: Crypto, prk: Bytes, info: Bytes, length: nat): (r: Bytes)
    ensures |r| == length
  {
    Stream(c, prk, info, (length + BLOCK - 1) / BLOCK)[..length]
  }

  method HkdfExpand(c: Crypto, prk: Bytes, info: Bytes, length: nat) returns (r: Bytes)
    ensures r == Expand(c, prk, info, length)
  {
    var okm: Bytes, t: Bytes, counter: byte := [], [], 1;
    ghost var n := 0;
    while |okm| < length
      invariant okm == Stream(c, prk, info, n) && t == Block(c, prk, info, n)
      invariant counter as int == (n + 1) % 256
      invariant n <= (length + BLOCK - 1) / BLOCK
    {
      t := c.hmac(prk, t + info + [counter]);
      okm := okm + t;
      counter := if counter == 255 then 0 else counter + 1;
      n := n + 1;
    }
    r := okm[..length];
  }

  /** T(i) of section 2.3 of RFC 5869, which stops at 255 blocks. */
  function StandardBlock(c: Crypto, prk: Bytes, info: Bytes, i: nat): Bytes
    requires i <= 255
  {
    if i == 0 then [] else c.hmac(prk, StandardBlock(c, prk, info, i - 1) + info + [i as byte])
  }

  lemma {:induction false} BlocksAreStandard(c: Crypto, prk: Bytes, info: Bytes, i: nat)
    requires i <= 255
    ensures Block(c, prk, info, i) == StandardBlock(c, prk, info, i)
  {
    if i == 0 {
    } else {
      BlocksAreStandard(c, prk, info, i - 1);
    }
  }

  lemma {:induction false} StreamAt(c: Crypto, prk: Bytes, info: Bytes, n: nat, k: nat)
    requires k < n * BLOCK
    ensures |Block(c, prk, info, k / BLOCK + 1)| == BLOCK
    ensures Stream(c, prk, info, n)[k] == Block(c, prk, info, k / BLOCK + 1)[k % BLOCK]
  {
    if k >= (n - 1) * BLOCK {
    } else {
      StreamAt(c, prk, info, n - 1, k);
    }
  }

  /** Up to the standard's limit of 255 blocks, byte k is byte k mod 32 of T(k / 32 + 1). */
  lemma ExpandIsStandard(c: Crypto, prk: Bytes, info: Bytes, length: nat, k: nat)
    requires length <= 255 * BLOCK && k < length
    ensures |StandardBlock(c, prk, info, k / BLOCK + 1)| == BLOCK
    ensures Expand(c, prk, info, length)[k] == StandardBlock(c, prk, info, k / BLOCK + 1)[k % BLOCK]
  {
    StreamAt(c, prk, info, (length + BLOCK - 1) / BLOCK, k);
    BlocksAreStandard(c, prk, info, k / BLOCK + 1);
  }

  // ---- Padding ----

  /** Index of the last byte that is not zero; -1 when there is none. */
  function LastNonZero(record: Bytes): (i: int)
    ensures -1 <= i < |record|
    ensures i >= 0 ==> record[i] != 0
    ensures forall k :: i < k < |record| ==> record[k] == 0
  {
    if record == [] then -1
    else if record[|record| - 1] != 0 then |record| - 1
    else LastNonZero(record[..|record| - 1])
  }

  function Unpad(record: Bytes): Option<Bytes> {
    var last := LastNonZero(record);
    if last < 0 || (record[last] != 2 && record[last] != 1) then None else Some(record[..last])
  }

  /** Unpadding accepts exactly the plaintexts followed by a delimiter and zeros. */
  lemma UnpadInvertsPadding(record: Bytes, plaintext: Bytes)
    ensures Unpad(record) == Some(plaintext) <==>
            exists d: byte, n: nat :: (d == 1 || d == 2) && record == plaintext + [d] + Zeros(n)
  {
    var last := LastNonZero(record);
    if Unpad(record) == Some(plaintext) {
      assert record == plaintext + [record[last]] + Zeros(|record| - last - 1);
    }
    forall d: byte, n: nat | (d == 1 || d == 2) && record == plaintext + [d] + Zeros(n)
      ensures Unpad(record) == Some(plaintext)
    {
      PaddedEndsAt(record, plaintext, d, n);
    }
  }

  lemma PaddedEndsAt(record: Bytes, plaintext: Bytes, d: byte, n: nat)
    requires d != 0 && record == plaintext + [d] + Zeros(n)
    ensures LastNonZero(record) == |plaintext| && record[|plaintext|] == d && record[..|plaintext|] == plaintext
  {
    assert record[|plaintext|] == d;
    forall k | |plaintext| < k < |record| ensures record[k] == 0 {
      assert record[k] == Zeros(n)[k - |plaintext| - 1];
    }
    var last := LastNonZero(record);
    assert !(last < |plaintext|);
  }

  // ---- Encryption ----

  datatype PushError = InvalidKeyLength | InvalidAuthLength | InvalidKey | InvalidPayload | OpenFailed

  const RECORD_SIZE: nat := 4096
  const HEADER: nat := 86

  /** "WebPush: info" and a zero byte. */
  const KEY_INFO: Bytes := [87, 101, 98, 80, 117, 115, 104, 58, 32, 105, 110, 102, 111, 0]
  /** "Content-Encoding: aes128gcm" and a zero byte. */
  const CEK_INFO: Bytes := [
    67, 111, 110, 116, 101, 110, 116, 45, 69, 110, 99, 111, 100, 105, 110, 103, 58, 32,
    97, 101, 115, 49, 50, 56, 103, 99, 109, 0]
  /** "Content-Encoding: nonce" and a zero byte. */
  const NONCE_INFO: Bytes := [
    67, 111, 110, 116, 101, 110, 116, 45, 69, 110, 99, 111, 100, 105, 110, 103, 58, 32,
    110, 111, 110, 99, 101, 0]

  datatype Keys = Keys(cek: Bytes, nonce: Bytes)

  /** Sections 3.3 and 3.4 of RFC 8291: both sides derive the content key and nonce like this. */
  function Derive(c: Crypto, secret: Bytes, auth: Bytes, uaPub: Bytes, asPub: Bytes, salt: Bytes): Keys {
    var ikm := Expand(c, c.hmac(auth, secret), KEY_INFO + uaPub + asPub, 32);
    var prk := c.hmac(salt, ikm);
    Keys(Expand(c, prk, CEK_INFO, 16), Expand(c, prk, NONCE_INFO, 12))
  }

  function BigEndian32(n: nat): (r: Bytes)
    requires n < 0x1_0000_0000
    ensures |r| == 4
    ensures ((r[0] as int * 256 + r[1] as int) * 256 + r[2] as int) * 256 + r[3] as int == n
  {
    var high := n / 256;
    var higher := high / 256;
    [(higher / 256) as byte, (higher % 256) as byte, (high % 256) as byte, (n % 256) as byte]
  }

  function Encrypted(c: Crypto, uaPub: Bytes, auth: Bytes, plaintext: Bytes, asPriv: Bytes, salt: Bytes)
    : Result<Bytes, PushError>
  {
    if |uaPub| != 65 || uaPub[0] != 4 then Err(InvalidKeyLength)
    else if |auth| != 16 then Err(InvalidAuthLength)
    else if !c.isPoint(uaPub) then Err(InvalidKey)
    else
      var asPub := c.publicKey(asPriv);
      var keys := Derive(c, c.agree(asPriv, uaPub), auth, uaPub, asPub, salt);
      Ok(salt + BigEndian32(RECORD_SIZE) + [65] + asPub + c.seal(keys.cek, keys.nonce, plaintext + [2]))
  }

  function Decrypted(c: Crypto, uaPriv: Bytes, auth: Bytes, encrypted: Bytes): Result<Bytes, PushError> {
    if |encrypted| < HEADER + 17 then Err(InvalidPayload)
    else if encrypted[20] != 65 then Err(InvalidPayload)
    else
      var asPub := encrypted[21..86];
      if !c.isPoint(asPub) then Err(InvalidKey)
      else
        var keys := Derive(c, c.agree(uaPriv, asPub), auth, c.publicKey(uaPriv), asPub, encrypted[..16]);
        match c.unseal(keys.cek, keys.nonce, encrypted[86..])
        case None => Err(OpenFailed)
        case Some(record) =>
          match Unpad(record)
          case None => Err(InvalidPayload)
          case Some(plaintext) => Ok(plaintext)
  }

  // ---- The standard's own receiver ----

  function Ascii(s: string): (r: Bytes)
    requires forall i :: 0 <= i < |s| ==> s[i] < '\U{80}'
    ensures |r| == |s| && forall i :: 0 <= i < |s| ==> r[i] as int == s[i] as int
  {
    seq(|s|, i requires 0 <= i < |s| => s[i] as int as byte)
  }

  /** The first `n` bytes of T(1), all of HKDF-Expand up to one block. */
  function ShortExpand(c: Crypto, prk: Bytes, info: Bytes, n: nat): Bytes
    requires n <= 32
  {
    c.hmac(prk, info + [1])[..n]
  }

  /**
   Sections 3.3 and 3.4 of RFC 8291 and 2.2 and 2.3 of RFC 8188, as they are written there: `secret` is
   the shared one, `receiver` and `sender` the public keys.
   */
  function StandardKeys(c: Crypto, secret: Bytes, auth: Bytes, receiver: Bytes, sender: Bytes, salt: Bytes): Keys {
    var ikm := ShortExpand(c, c.hmac(auth, secret), Ascii("WebPush: info") + [0] + receiver + sender, 32);
    var prk := c.hmac(salt, ikm);
    Keys(
      ShortExpand(c, prk, Ascii("Content-Encoding: aes128gcm") + [0], 16),
      ShortExpand(c, prk, Ascii("Content-Encoding: nonce") + [0], 12))
  }

  lemma InfosAreStandard()
    ensures KEY_INFO == Ascii("WebPush: info") + [0]
    ensures CEK_INFO == Ascii("Content-Encoding: aes128gcm") + [0]
    ensures NONCE_INFO == Ascii("Content-Encoding: nonce") + [0]
  {
  }

  lemma ExpandOneBlock(c: Crypto, prk: Bytes, info: Bytes, n: nat)
    requires 0 < n <= 32
    ensures Expand(c, prk, info, n) == ShortExpand(c, prk, info, n)
  {
    assert Stream(c, prk, info, 0) == [];
    assert Block(c, prk, info, 0) == [];
    assert [] + info + [1] == info + [1];
    assert Stream(c, prk, info, 1) == [] + Block(c, prk, info, 1) == c.hmac(prk, info + [1]);
  }

  lemma DeriveIsStandard(c: Crypto, secret: Bytes, auth: Bytes, receiver: Bytes, sender: Bytes, salt: Bytes)
    ensures Derive(c, secret, auth, receiver, sender, salt) == StandardKeys(c, secret, auth, receiver, sender, salt)
  {
    InfosAreStandard();
    hide KEY_INFO, CEK_INFO, NONCE_INFO, Ascii, Expand, ShortExpand;
    ExpandOneBlock(c, c.hmac(auth, secret), KEY_INFO + receiver + sender, 32);
    var prk := c.hmac(salt, ShortExpand(c, c.hmac(auth, secret), KEY_INFO + receiver + sender, 32));
    ExpandOneBlock(c, prk, CEK_INFO, 16);
    ExpandOneBlock(c, prk, NONCE_INFO, 12);
  }

  function RecordSize(message: Bytes): nat
    requires |message| >= 20
  {
    ((message[16] as int * 256 + message[17] as int) * 256 + message[18] as int) * 256 + message[19] as int
  }

  /**
   A receiver that knows the standards only: the header of section 2.1 of RFC 8188, keys from the key in
   it, a single record no longer than the header says, and in it the plaintext, the last record's
   delimiter 2 and zeros.
   */
  ghost predicate StandardReads(c: Crypto, uaPriv: Bytes, auth: Bytes, message: Bytes, plaintext: Bytes) {
    && |message| >= 21 && |message| >= 21 + message[20] as int
    && var body := 21 + message[20] as int;
       var sender := message[21..body];
       && c.isPoint(sender) && |message| - body <= RecordSize(message)
       && var keys := StandardKeys(c, c.agree(uaPriv, sender), auth, c.publicKey(uaPriv), sender, message[..16]);
          exists n: nat :: c.unseal(keys.cek, keys.nonce, message[body..]) == Some(plaintext + [2] + Zeros(n))
  }

  /** The header of section 2.1 of RFC 8188, and the ciphertext after it. */
  lemma Layout(c: Crypto, uaPub: Bytes, auth: Bytes, plaintext: Bytes, asPriv: Bytes, salt: Bytes)
    requires |salt| == 16 && Encrypted(c, uaPub, auth, plaintext, asPriv, salt).Ok?
    ensures var out := Encrypted(c, uaPub, auth, plaintext, asPriv, salt).value;
            var sender := c.publicKey(asPriv);
            var keys := StandardKeys(c, c.agree(asPriv, uaPub), auth, uaPub, sender, salt);
            && |out| == |plaintext| + 103
            && out[..16] == salt && out[16..20] == [0, 0, 16, 0] && out[20] == 65 && out[21..86] == sender
            && out[86..] == c.seal(keys.cek, keys.nonce, plaintext + [2])
            && (|out[86..]| <= RecordSize(out) <==> |plaintext| <= 4079)
  {
    var sender := c.publicKey(asPriv);
    DeriveIsStandard(c, c.agree(asPriv, uaPub), auth, uaPub, sender, salt);
    hide Derive, StandardKeys;
    var keys := StandardKeys(c, c.agree(asPriv, uaPub), auth, uaPub, sender, salt);
    Slices(salt, BigEndian32(RECORD_SIZE), [65], sender, c.seal(keys.cek, keys.nonce, plaintext + [2]));
    var out := Encrypted(c, uaPub, auth, plaintext, asPriv, salt).value;
    assert forall k :: 0 <= k < 4 ==> out[16 + k] == out[16..20][k];
  }

  lemma Slices(salt: Bytes, size: Bytes, idlen: Bytes, key: Bytes, body: Bytes)
    requires |salt| == 16 && |size| == 4 && |idlen| == 1 && |key| == 65
    ensures var out := salt + size + idlen + key + body;
            && out[..16] == salt && out[16..20] == size && out[20] == idlen[0]
            && out[21..86] == key && out[86..] == body
  {
  }

  lemma PaddingIsUnique(a: Bytes, b: Bytes, d: byte, e: byte, n: nat, m: nat)
    requires a + [d] + Zeros(n) == b + [e] + Zeros(m) && d != 0 && e != 0
    ensures a == b && d == e
  {
    PaddedEndsAt(a + [d] + Zeros(n), a, d, n);
    PaddedEndsAt(b + [e] + Zeros(m), b, e, m);
  }

  /**
   The standard's receiver reads from the message exactly the plaintext that was encrypted, whatever
   bytes it ends in and even when it is empty, as long as it fits the one record.
   */
  lemma StandardReceiverReads(
    c: Crypto, uaPriv: Bytes, auth: Bytes, plaintext: Bytes, asPriv: Bytes, salt: Bytes, read: Bytes)
    requires |auth| == 16 && |salt| == 16
    ensures var sent := Encrypted(c, c.publicKey(uaPriv), auth, plaintext, asPriv, salt);
            sent.Ok? && (StandardReads(c, uaPriv, auth, sent.value, read) <==> read == plaintext && |plaintext| <= 4079)
  {
    var out := Encrypted(c, c.publicKey(uaPriv), auth, plaintext, asPriv, salt).value;
    Layout(c, c.publicKey(uaPriv), auth, plaintext, asPriv, salt);
    hide Encrypted, StandardKeys, RecordSize;
    assert plaintext + [2] == plaintext + [2] + Zeros(0);
    forall n: nat | read + [2] + Zeros(n) == plaintext + [2] ensures read == plaintext {
      PaddingIsUnique(read, plaintext, 2, 2, n, 0);
    }
  }

  /** What the record of a message holds when it is opened with the standard's keys. */
  function Opened(c: Crypto, uaPriv: Bytes, auth: Bytes, message: Bytes): Option<Bytes>
    requires |message| >= 86
  {
    var sender := message[21..86];
    var keys := StandardKeys(c, c.agree(uaPriv, sender), auth, c.publicKey(uaPriv), sender, message[..16]);
    c.unseal(keys.cek, keys.nonce, message[86..])
  }

  /**
   The decoder returns a plaintext exactly when the message has room for a record, names a key of 65
   bytes which is a point, and its record, opened with the standard's keys, is the plaintext, a
   delimiter 1 or 2, and zeros; and otherwise the error of the first of these that fails.
   */
  lemma DecryptsExactly(c: Crypto, uaPriv: Bytes, auth: Bytes, message: Bytes, plaintext: Bytes)
    ensures var r := Decrypted(c, uaPriv, auth, message);
            if |message| < 103 || message[20] != 65 then r == Err(InvalidPayload)
            else if !c.isPoint(message[21..86]) then r == Err(InvalidKey)
            else if Opened(c, uaPriv, auth, message).None? then r == Err(OpenFailed)
            else
              && (r.Ok? || r == Err(InvalidPayload))
              && (r == Ok(plaintext) <==>
                  exists d: byte, n: nat ::
                    (d == 1 || d == 2) && Opened(c, uaPriv, auth, message) == Some(plaintext + [d] + Zeros(n)))
  {
    if |message| >= 103 {
      var sender := message[21..86];
      DeriveIsStandard(c, c.agree(uaPriv, sender), auth, c.publicKey(uaPriv), sender, message[..16]);
      hide Derive, StandardKeys, Unpad;
      var record := Opened(c, uaPriv, auth, message);
      if record.Some? {
        UnpadInvertsPadding(record.value, plaintext);
      }
    }
  }

  /** The encoder fails exactly on a key that is not 65 bytes uncompressed, a secret not of 16, or no point. */
  lemma EncryptsExactly(c: Crypto, uaPub: Bytes, auth: Bytes, plaintext: Bytes, asPriv: Bytes, salt: Bytes)
    ensures var r := Encrypted(c, uaPub, auth, plaintext, asPriv, salt);
            if |uaPub| != 65 || uaPub[0] != 4 then r == Err(InvalidKeyLength)
            else if |auth| != 16 then r == Err(InvalidAuthLength)
            else if !c.isPoint(uaPub) then r == Err(InvalidKey)
            else r.Ok?
  {
  }

  /** The subscriber recovers every plaintext, of any length. */
  lemma DecryptInvertsEncrypt(c: Crypto, uaPriv: Bytes, auth: Bytes, plaintext: Bytes, asPriv: Bytes, salt: Bytes)
    requires |auth| == 16 && |salt| == 16
    ensures var sent := Encrypted(c, c.publicKey(uaPriv), auth, plaintext, asPriv, salt);
            sent.Ok? && Decrypted(c, uaPriv, auth, sent.value) == Ok(plaintext)
  {
    Layout(c, c.publicKey(uaPriv), auth, plaintext, asPriv, salt);
    DecryptsExactly(c, uaPriv, auth, Encrypted(c, c.publicKey(uaPriv), auth, plaintext, asPriv, salt).value, plaintext);
    hide Encrypted, Decrypted, StandardKeys;
    assert plaintext + [2] == plaintext + [2] + Zeros(0);
  }

  /** So it does from any sender that follows the standards, pads as it likes and declares any record size. */
  lemma DecryptAcceptsPadding(
    c: Crypto, uaPriv: Bytes, auth: Bytes, plaintext: Bytes, asPriv: Bytes, salt: Bytes, size: Bytes, n: nat)
    requires |salt| == 16 && |size| == 4
    ensures var sender := c.publicKey(asPriv);
            var keys := StandardKeys(c, c.agree(asPriv, c.publicKey(uaPriv)), auth, c.publicKey(uaPriv), sender, salt);
            var sent := salt + size + [65] + sender + c.seal(keys.cek, keys.nonce, plaintext + [2] + Zeros(n));
            Decrypted(c, uaPriv, auth, sent) == Ok(plaintext)
  {
    var sender := c.publicKey(asPriv);
    var keys := StandardKeys(c, c.agree(asPriv, c.publicKey(uaPriv)), auth, c.publicKey(uaPriv), sender, salt);
    var body := c.seal(keys.cek, keys.nonce, plaintext + [2] + Zeros(n));
    Slices(salt, size, [65], sender, body);
    DecryptsExactly(c, uaPriv, auth, salt + size + [65] + sender + body, plaintext);
    hide Decrypted, StandardKeys;
  }

  // ---- The program's buffers ----

  /** `copy`: writes `src` into `dst` from `at` on. */
  method CopyInto(dst: array<byte>, at: nat, src: Bytes)
    requires at + |src| <= dst.Length
    modifies dst
    ensures dst[..] == old(dst[..at]) + src + old(dst[at + |src|..])
  {
    for i := 0 to |src|
      invariant dst[at..at + i] == src[..i]
      invariant dst[..at] == old(dst[..at]) && dst[at + i..] == old(dst[at + i..])
    {
      dst[at + i] := src[i];
    }
  }

  method EncryptPayload(c: Crypto, uaPub: Bytes, auth: Bytes, plaintext: Bytes, asPriv: Bytes, salt: Bytes)
    returns (r: Result<Bytes, PushError>)
    requires |salt| == 16
    ensures r == Encrypted(c, uaPub, auth, plaintext, asPriv, salt)
  {
    if |uaPub| != 65 || uaPub[0] != 4 {
      return Err(InvalidKeyLength);
    }
    if |auth| != 16 {
      return Err(InvalidAuthLength);
    }
    if !c.isPoint(uaPub) {
      return Err(InvalidKey);
    }
    var asPub := c.publicKey(asPriv);
    var ikm := HkdfExpand(c, c.hmac(auth, c.agree(asPriv, uaPub)), KEY_INFO + uaPub + asPub, 32);
    var prk := c.hmac(salt, ikm);
    var cek := HkdfExpand(c, prk, CEK_INFO, 16);
    var nonce := HkdfExpand(c, prk, NONCE_INFO, 12);

    var record := new byte[|plaintext| + 1];
    CopyInto(record, 0, plaintext);
    record[|plaintext|] := 2;
    assert record[..] == plaintext + [2];
    var ciphertext := c.seal(cek, nonce, record[..]);
    var out := Frame(salt, asPub, ciphertext);
    return Ok(out);
  }

  method Frame(salt: Bytes, asPub: Bytes, ciphertext: Bytes) returns (r: Bytes)
    requires |salt| == 16 && |asPub| == 65
    ensures r == salt + BigEndian32(RECORD_SIZE) + [65] + asPub + ciphertext
  {
    var out := new byte[HEADER + |ciphertext|];
    CopyInto(out, 0, salt);
    CopyInto(out, 16, BigEndian32(RECORD_SIZE));
    out[20] := |asPub| as byte;
    CopyInto(out, 21, asPub);
    CopyInto(out, 86, ciphertext);
    r := out[..];
  }

  method DecryptPayload(c: Crypto, uaPriv: Bytes, auth: Bytes, encrypted: Bytes) returns (r: Result<Bytes, PushError>)
    ensures r == Decrypted(c, uaPriv, auth, encrypted)
  {
    if |encrypted| < HEADER + 17 {
      return Err(InvalidPayload);
    }
    var salt := encrypted[0..16];
    var idlen := encrypted[20] as int;
    if idlen != 65 || |encrypted| < 21 + idlen + 16 {
      return Err(InvalidPayload);
    }
    var asPub := encrypted[21..21 + idlen];
    var ciphertext := encrypted[21 + idlen..];
    if !c.isPoint(asPub) {
      return Err(InvalidKey);
    }
    var uaPub := c.publicKey(uaPriv);
    var ikm := HkdfExpand(c, c.hmac(auth, c.agree(uaPriv, asPub)), KEY_INFO + uaPub + asPub, 32);
    var prk := c.hmac(salt, ikm);
    var cek := HkdfExpand(c, prk, CEK_INFO, 16);
    var nonce := HkdfExpand(c, prk, NONCE_INFO, 12);
    var unsealed := c.unseal(cek, nonce, ciphertext);
    if unsealed.None? {
      return Err(OpenFailed);
    }
    var record := unsealed.value;
    if |record| == 0 {
      return Err(InvalidPayload);
    }
    var lastIdx := |record| - 1;
    while lastIdx >= 0 && record[lastIdx] == 0
      invariant -1 <= lastIdx < |record|
      invariant forall k :: lastIdx < k < |record| ==> record[k] == 0
    {
      lastIdx := lastIdx - 1;
    }
    assert lastIdx == LastNonZero(record);
    if lastIdx < 0 || (record[lastIdx] != 2 && record[lastIdx] != 1) {
      return Err(InvalidPayload);
    }
    return Ok(record[..lastIdx]);
  }
}
