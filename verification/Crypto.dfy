/**
  Encryption at rest: AES-256-GCM with the tag and the nonce kept in columns of their own, as hex.

  The cipher, the key derivations, UTF-8 and the random source are parameters. `Sound` is all that is
  asked of them: opening undoes sealing, which adds 16 bytes, and decoding undoes encoding.
 */
module Crypto {
  import opened Wrappers

  type byte = x: int | 0 <= x < 256
  type Bytes = seq<byte>
  type Key = Bytes

  const IV_LEN := 12
  const TAG_LEN := 16
  const MIN_SALT_LEN := 8

  datatype Error = SecretMissing | KeyDerivation | BadSalt | BadIv | BadAuthTag | BadCiphertext
                 | Encrypt | Decrypt | NotUtf8 | Random | Db

  datatype Encrypted = Encrypted(encrypted: string, iv: string, authTag: string)

  datatype Primitives = Primitives(
    seal: (Key, Bytes, Bytes) -> Option<Bytes>,
    open: (Key, Bytes, Bytes) -> Option<Bytes>,
    systemKey: string -> Option<Key>,
    userKey: (string, Bytes) -> Option<Key>,
    encode: string -> Bytes,
    decode: Bytes -> Option<string>)

  /** The cipher and the encoding can be undone, and the cipher adds the tag and nothing else. */
  ghost predicate Sound(c: Primitives) {
    && (forall k: Key, n: Bytes, p: Bytes | |n| == IV_LEN && c.seal(k, n, p).Some? ::
          c.open(k, n, c.seal(k, n, p).value) == Some(p) && |c.seal(k, n, p).value| == |p| + TAG_LEN)
    && (forall k: Key, n: Bytes, p: Bytes | c.open(k, n, p).Some? :: |p| == |c.open(k, n, p).value| + TAG_LEN)
    && (forall s: string :: c.decode(c.encode(s)) == Some(s))
    && (forall b: Bytes | c.decode(b).Some? :: c.encode(c.decode(b).value) == b)
  }

  // --- Hex --------------------------------------------------------------------------------------------

  function Digit(n: int): (c: char)
    requires 0 <= n < 16
  {
    if n < 10 then '0' + n as char else 'a' + (n - 10) as char
  }

  /** Either case is read. */
  function DigitValue(c: char): (v: Option<int>)
    ensures v.Some? ==> 0 <= v.value < 16
  {
    if '0' <= c <= '9' then Some(c as int - '0' as int)
    else if 'a' <= c <= 'f' then Some(c as int - 'a' as int + 10)
    else if 'A' <= c <= 'F' then Some(c as int - 'A' as int + 10)
    else None
  }

  function HexEncode(b: Bytes): string {
    if b == [] then "" else [Digit(b[0] / 16), Digit(b[0] % 16)] + HexEncode(b[1..])
  }

  function HexDecode(s: string): Option<Bytes> {
    if s == "" then Some([])
    else if |s| == 1 then None
    else match (DigitValue(s[0]), DigitValue(s[1]), HexDecode(s[2..]))
      case (Some(hi), Some(lo), Some(rest)) => Some([16 * hi + lo] + rest)
      case _ => None
  }

  lemma {:induction false} HexRoundTrip(b: Bytes)
    ensures HexDecode(HexEncode(b)) == Some(b) && |HexEncode(b)| == 2 * |b|
  {
    if b != [] {
      var s := HexEncode(b);
      HexRoundTrip(b[1..]);
      assert s[2..] == HexEncode(b[1..]);
      assert [b[0]] + b[1..] == b;
    }
  }

  predicate HexDigit(c: char) {
    '0' <= c <= '9' || 'a' <= c <= 'f' || 'A' <= c <= 'F'
  }

  function LowerDigit(c: char): char {
    if 'A' <= c <= 'F' then c + 32 as char else c
  }

  function Lower(s: string): (r: string)
    ensures |r| == |s| && forall i :: 0 <= i < |s| ==> r[i] == LowerDigit(s[i])
  {
    seq(|s|, i requires 0 <= i < |s| => LowerDigit(s[i]))
  }

  /** Exactly the strings of pairs of digits are read. */
  lemma {:induction false} HexDecodeIff(s: string)
    ensures HexDecode(s).Some? <==> |s| % 2 == 0 && forall c <- s :: HexDigit(c)
    ensures HexDecode(s).Some? ==> |s| == 2 * |HexDecode(s).value|
  {
    if |s| >= 2 {
      HexDecodeIff(s[2..]);
      assert s == [s[0], s[1]] + s[2..];
      assert (forall c <- s :: HexDigit(c)) <==> HexDigit(s[0]) && HexDigit(s[1]) && forall c <- s[2..] :: HexDigit(c);
    } else if |s| == 1 {
      assert HexDecode(s).None?;
    }
  }

  lemma DigitsBack(hi: char, lo: char)
    requires HexDigit(hi) && HexDigit(lo)
    ensures var n := 16 * DigitValue(hi).value + DigitValue(lo).value;
            Digit(n / 16) == LowerDigit(hi) && Digit(n % 16) == LowerDigit(lo)
  {
    assert (16 * DigitValue(hi).value + DigitValue(lo).value) / 16 == DigitValue(hi).value;
    DigitBack(hi);
    DigitBack(lo);
  }

  lemma DigitBack(c: char)
    requires HexDigit(c)
    ensures DigitValue(c).Some? && Digit(DigitValue(c).value) == LowerDigit(c)
  {
  }

  lemma LowerPair(s: string)
    requires |s| >= 2
    ensures Lower(s) == [LowerDigit(s[0]), LowerDigit(s[1])] + Lower(s[2..])
  {
  }

  /** What is read is written back in lower case. */
  lemma {:induction false} HexIsLower(s: string)
    requires HexDecode(s).Some?
    ensures HexEncode(HexDecode(s).value) == Lower(s)
  {
    if s != "" {
      HexDecodeIff(s);
      HexIsLower(s[2..]);
      assert s[0] in s && s[1] in s;
      DigitsBack(s[0], s[1]);
      assert HexDecode(s).value[1..] == HexDecode(s[2..]).value;
      LowerPair(s);
    }
  }

  // --- Keys and values --------------------------------------------------------------------------------

  function DeriveSystemKey(c: Primitives, secret: string): Result<Key, Error> {
    match c.systemKey(secret)
    case Some(k) => Ok(k)
    case None => Err(KeyDerivation)
  }

  function DeriveUserKey(c: Primitives, secret: string, saltHex: string): Result<Key, Error> {
    match HexDecode(saltHex)
    case None => Err(BadSalt)
    case Some(salt) =>
      if |salt| < MIN_SALT_LEN then Err(BadSalt)
      else match c.userKey(secret, salt)
        case Some(k) => Ok(k)
        case None => Err(KeyDerivation)
  }

  /** A user's key is that of the salt's bytes; too short a salt has none. */
  lemma UserKeyOfSalt(c: Primitives, secret: string, salt: Bytes)
    ensures DeriveUserKey(c, secret, HexEncode(salt)) ==
            if |salt| < MIN_SALT_LEN then Err(BadSalt)
            else if c.userKey(secret, salt).Some? then Ok(c.userKey(secret, salt).value) else Err(KeyDerivation)
  {
    HexRoundTrip(salt);
  }

  /** `iv` is what the random source gave. The last 16 bytes the cipher returns are the tag. */
  function EncryptWithKey(c: Primitives, key: Key, iv: Option<Bytes>, plaintext: string): (r: Result<Encrypted, Error>)
    requires iv.Some? ==> |iv.value| == IV_LEN
  {
    if iv.None? then Err(Random)
    else match c.seal(key, iv.value, c.encode(plaintext))
      case None => Err(Encrypt)
      case Some(sealed) =>
        if |sealed| < TAG_LEN then Err(Encrypt)
        else
          var cut := |sealed| - TAG_LEN;
          Ok(Encrypted(HexEncode(sealed[..cut]), HexEncode(iv.value), HexEncode(sealed[cut..])))
  }

  function DecryptWithKey(c: Primitives, key: Key, e: Encrypted): Result<string, Error> {
    match HexDecode(e.iv)
    case None => Err(BadIv)
    case Some(iv) =>
      if |iv| != IV_LEN then Err(BadIv)
      else match HexDecode(e.authTag)
        case None => Err(BadAuthTag)
        case Some(tag) =>
          if |tag| != TAG_LEN then Err(BadAuthTag)
          else match HexDecode(e.encrypted)
            case None => Err(BadCiphertext)
            case Some(ct) =>
              match c.open(key, iv, ct + tag)
              case None => Err(Decrypt)
              case Some(plain) =>
                match c.decode(plain)
                case None => Err(NotUtf8)
                case Some(s) => Ok(s)
  }

  /** Decryption takes the hex strings apart and gives the parts to the cipher. */
  lemma DecryptParts(c: Primitives, key: Key, iv: Bytes, ct: Bytes, tag: Bytes, s: string)
    requires |iv| == IV_LEN && |tag| == TAG_LEN
    requires c.open(key, iv, ct + tag).Some? && c.decode(c.open(key, iv, ct + tag).value) == Some(s)
    ensures DecryptWithKey(c, key, Encrypted(HexEncode(ct), HexEncode(iv), HexEncode(tag))) == Ok(s)
  {
    HexRoundTrip(ct);
    HexRoundTrip(iv);
    HexRoundTrip(tag);
  }

  /** Encryption stores the ciphertext and the tag apart. */
  lemma EncryptParts(c: Primitives, key: Key, iv: Bytes, plaintext: string) returns (ct: Bytes, tag: Bytes)
    requires |iv| == IV_LEN && EncryptWithKey(c, key, Some(iv), plaintext).Ok?
    ensures |tag| == TAG_LEN && c.seal(key, iv, c.encode(plaintext)) == Some(ct + tag)
    ensures EncryptWithKey(c, key, Some(iv), plaintext) == Ok(Encrypted(HexEncode(ct), HexEncode(iv), HexEncode(tag)))
  {
    var sealed := c.seal(key, iv, c.encode(plaintext)).value;
    ct, tag := sealed[..|sealed| - TAG_LEN], sealed[|sealed| - TAG_LEN..];
    assert ct + tag == sealed;
  }

  /** What was encrypted under a key decrypts under it, whatever the text and the nonce. */
  lemma DecryptUndoesEncrypt(c: Primitives, key: Key, iv: Option<Bytes>, plaintext: string)
    requires Sound(c) && (iv.Some? ==> |iv.value| == IV_LEN)
    ensures var r := EncryptWithKey(c, key, iv, plaintext);
            r.Ok? ==> DecryptWithKey(c, key, r.value) == Ok(plaintext)
  {
    if EncryptWithKey(c, key, iv, plaintext).Ok? {
      var ct, tag := EncryptParts(c, key, iv.value, plaintext);
      DecryptParts(c, key, iv.value, ct, tag, plaintext);
    }
  }

  /** Nonces are stored as 24 hex digits and tags as 32. */
  lemma EncryptedLengths(c: Primitives, key: Key, iv: Bytes, plaintext: string)
    requires |iv| == IV_LEN && EncryptWithKey(c, key, Some(iv), plaintext).Ok?
    ensures var e := EncryptWithKey(c, key, Some(iv), plaintext).value;
            |e.iv| == 24 && |e.authTag| == 32
  {
    var ct, tag := EncryptParts(c, key, iv, plaintext);
    HexRoundTrip(iv);
    HexRoundTrip(tag);
  }

  /** Only triples with a nonce and a tag of these lengths decrypt. */
  lemma DecryptedLengths(c: Primitives, key: Key, e: Encrypted)
    requires DecryptWithKey(c, key, e).Ok?
    ensures |e.iv| == 24 && |e.authTag| == 32 && |e.encrypted| % 2 == 0
  {
    HexDecodeIff(e.iv);
    HexDecodeIff(e.authTag);
    HexDecodeIff(e.encrypted);
  }

  /** A triple with a ciphertext has a plaintext whose encryption has one too. */
  lemma NonEmptyStays(c: Primitives, oldKey: Key, e: Encrypted, newKey: Key, iv: Option<Bytes>)
    requires Sound(c) && (iv.Some? ==> |iv.value| == IV_LEN)
    requires e.encrypted != "" && DecryptWithKey(c, oldKey, e).Ok?
    ensures var r := EncryptWithKey(c, newKey, iv, DecryptWithKey(c, oldKey, e).value);
            r.Ok? ==> r.value.encrypted != ""
  {
    var ct := HexDecode(e.encrypted).value;
    assert |ct| > 0 by {
      if |e.encrypted| >= 2 {
        assert HexDecode(e.encrypted[2..]).Some?;
      }
    }
    var plain := c.open(oldKey, HexDecode(e.iv).value, ct + HexDecode(e.authTag).value).value;
    assert |plain| > 0;
    var s := DecryptWithKey(c, oldKey, e).value;
    assert c.encode(s) == plain;
    var r := EncryptWithKey(c, newKey, iv, s);
    if r.Ok? {
      var sealed := c.seal(newKey, iv.value, c.encode(s)).value;
      HexRoundTrip(sealed[..|sealed| - TAG_LEN]);
    }
  }

  /** The handle the application shares. User keys are cached by salt. */
  class SystemCrypto {
    const c: Primitives
    const secret: string
    const systemKey: Key
    var userKeys: map<string, Key>

    /** The cache holds what derivation would give. */
    ghost predicate Valid()
      reads this
    {
      && DeriveSystemKey(c, secret) == Ok(systemKey)
      && forall salt <- userKeys :: DeriveUserKey(c, secret, salt) == Ok(userKeys[salt])
    }

    constructor (c: Primitives, secret: string, systemKey: Key)
      requires DeriveSystemKey(c, secret) == Ok(systemKey)
      ensures Valid() && this.c == c && this.secret == secret && userKeys == map[]
    {
      this.c, this.secret, this.systemKey, userKeys := c, secret, systemKey, map[];
    }

    method UserKey(saltHex: string) returns (r: Result<Key, Error>)
      requires Valid()
      modifies this
      ensures Valid() && r == DeriveUserKey(c, secret, saltHex)
      ensures r.Ok? <==> HexDecode(saltHex).Some? && |HexDecode(saltHex).value| >= MIN_SALT_LEN
                         && c.userKey(secret, HexDecode(saltHex).value).Some?
      ensures r.Ok? ==> Some(r.value) == c.userKey(secret, HexDecode(saltHex).value)
      ensures userKeys == if r.Ok? then old(userKeys)[saltHex := r.value] else old(userKeys)
    {
      if saltHex in userKeys {
        return Ok(userKeys[saltHex]);
      }
      r := DeriveUserKey(c, secret, saltHex);
      if r.Ok? {
        userKeys := userKeys[saltHex := r.value];
      }
    }

    method EncryptForUser(saltHex: string, plaintext: string, iv: Option<Bytes>) returns (r: Result<Encrypted, Error>)
      requires Valid() && (iv.Some? ==> |iv.value| == IV_LEN)
      modifies this
      ensures Valid()
      ensures r.Ok? <==> DeriveUserKey(c, secret, saltHex).Ok?
                         && EncryptWithKey(c, DeriveUserKey(c, secret, saltHex).value, iv, plaintext).Ok?
      ensures r.Ok? ==> r == EncryptWithKey(c, DeriveUserKey(c, secret, saltHex).value, iv, plaintext)
      ensures r.Ok? && Sound(c) ==> DecryptWithKey(c, DeriveUserKey(c, secret, saltHex).value, r.value) == Ok(plaintext)
    {
      var key := UserKey(saltHex);
      if key.Err? {
        return Err(key.error);
      }
      r := EncryptWithKey(c, key.value, iv, plaintext);
      if Sound(c) {
        DecryptUndoesEncrypt(c, key.value, iv, plaintext);
      }
    }

    method DecryptForUser(saltHex: string, e: Encrypted) returns (r: Result<string, Error>)
      requires Valid()
      modifies this
      ensures Valid()
      ensures r == match DeriveUserKey(c, secret, saltHex)
                   case Ok(key) => DecryptWithKey(c, key, e)
                   case Err(error) => Err(error)
    {
      var key := UserKey(saltHex);
      if key.Err? {
        return Err(key.error);
      }
      r := DecryptWithKey(c, key.value, e);
    }
  }
}
