/**
 * The vault codec of services/cryptoService.ts.
 *
 * A password and a 16-byte salt give an AES-GCM key through PBKDF2 (section
 * 5.2 of RFC 8018) with SHA-256 and 100000 iterations; the data, serialised as
 * JSON and encoded as UTF-8, is sealed under that key with a 12-byte IV (NIST
 * SP 800-38D); the ciphertext, salt and IV are each stored in Base64. Opening
 * a vault reverses every step and reports any failure as one error.
 *
 * TextEncoder, PBKDF2 and AES-GCM are `Primitives`, functions the model does
 * not look inside; `Primitives.Lawful` states the two properties of an
 * authenticated cipher the vault depends on.
 */
module CryptoService {
  import opened Wrappers
  import Base64
  import Json

  type Bytes = Base64.Bytes

  /** A freshly drawn salt: `crypto.getRandomValues(new Uint8Array(16))`. */
  type Salt = b: Bytes | |b| == 16 witness seq(16, _ => 0)

  /** A freshly drawn IV: `crypto.getRandomValues(new Uint8Array(12))`. */
  type Iv = b: Bytes | |b| == 12 witness seq(12, _ => 0)

  const KDF_HASH := "SHA-256"
  const KDF_ITERATIONS := 100000
  const KEY_ALGORITHM := "AES-GCM"
  const KEY_BITS := 256
  const VAULT_ERROR := "Invalid Password or Corrupted Vault"

  datatype KeyUsage = Encrypt | Decrypt

  /** A WebCrypto key object: its raw bits and the attributes it was created with. */
  datatype CryptoKey = CryptoKey(bits: Bytes, algorithm: string, length: nat, extractable: bool, usages: seq<KeyUsage>)

  /**
   * The browser primitives: `utf8` is `TextEncoder.encode`; `pbkdf2(hash,
   * iterations, bits, password, salt)` is the key material PBKDF2 derives;
   * `seal` and `open` are AES-GCM encryption and decryption under raw key
   * bits and an IV, `open` giving `None` where WebCrypto throws an
   * OperationError (the tag does not match).
   */
  datatype Primitives = Primitives(
    utf8: string -> Bytes,
    pbkdf2: (string, nat, nat, Bytes, Bytes) -> Bytes,
    seal: (Bytes, Bytes, Bytes) -> Bytes,
    open: (Bytes, Bytes, Bytes) -> Option<Bytes>)
  {
    /**
     * PBKDF2 yields as many bits as asked for; what is sealed under a key and
     * an IV opens under the same key and IV, and does not open under any
     * other key (the integrity that the GCM tag provides).
     */
    ghost predicate Lawful() {
      && (forall h: string, n: nat, k: nat, p: Bytes, s: Bytes :: |pbkdf2(h, n, k, p, s)| == k / 8)
      && (forall key, iv, m :: Opens(key, iv, m))
      && (forall key, other, iv, m :: Rejects(key, other, iv, m))
    }

    /** What is sealed under `key` and `iv` opens under them. */
    ghost predicate Opens(key: Bytes, iv: Bytes, m: Bytes) {
      open(key, iv, seal(key, iv, m)) == Some(m)
    }

    /** What is sealed under `key` does not open under a different key. */
    ghost predicate Rejects(key: Bytes, other: Bytes, iv: Bytes, m: Bytes) {
      key != other ==> open(other, iv, seal(key, iv, m)) == None
    }
  }

  /** The object `encryptVault` returns and the App stores as JSON. */
  datatype VaultBlob = VaultBlob(cipher: string, salt: string, iv: string)

  /**
   * `deriveKey`: the password's UTF-8 bytes are imported as PBKDF2 key
   * material and stretched with the salt into a non-extractable 256-bit
   * AES-GCM key usable for encryption and decryption.
   */
  function DeriveKey(c: Primitives, password: string, salt: Bytes): (k: CryptoKey)
    ensures k.bits == c.pbkdf2("SHA-256", 100000, 256, c.utf8(password), salt)
    ensures k.algorithm == "AES-GCM" && k.length == 256
    ensures !k.extractable && k.usages == [Encrypt, Decrypt]
    ensures c.Lawful() ==> |k.bits| == 32
  {
    var bits := c.pbkdf2(KDF_HASH, KDF_ITERATIONS, KEY_BITS, c.utf8(password), salt);
    CryptoKey(bits, KEY_ALGORITHM, KEY_BITS, false, [Encrypt, Decrypt])
  }

  /** `encryptVault(data, password)` with the random salt and IV it draws passed in. */
  function EncryptVault<T(!new)>(c: Primitives, json: Json.Codec<T, Bytes>, data: T, password: string, salt: Salt, iv: Iv): VaultBlob
  {
    var key := DeriveKey(c, password, salt);
    var encrypted := c.seal(key.bits, iv, json.encode(data));
    VaultBlob(Base64.Encode(encrypted), Base64.Encode(salt), Base64.Encode(iv))
  }

  /**
   * The blob has exactly the three fields, each Base64 text of what was
   * used: the salt, the IV, and the data sealed under the key derived from
   * the password and that salt.
   */
  lemma EncryptedFields<T(!new)>(c: Primitives, json: Json.Codec<T, Bytes>, data: T, password: string, salt: Salt, iv: Iv)
    ensures var v := EncryptVault(c, json, data, password, salt, iv);
            && Base64.Decode(v.salt) == Some(salt)
            && Base64.Decode(v.iv) == Some(iv)
            && Base64.Decode(v.cipher) == Some(c.seal(DeriveKey(c, password, salt).bits, iv, json.encode(data)))
  {
    var key := DeriveKey(c, password, salt);
    Base64.DecodeEncode(c.seal(key.bits, iv, json.encode(data)));
    Base64.DecodeEncode(salt);
    Base64.DecodeEncode(iv);
  }

  /** The stored salt is 24 Base64 characters and the stored IV 16. */
  lemma EncryptedFieldLengths<T(!new)>(c: Primitives, json: Json.Codec<T, Bytes>, data: T, password: string, salt: Salt, iv: Iv)
    ensures var v := EncryptVault(c, json, data, password, salt, iv);
            |v.salt| == 24 && |v.iv| == 16
  {
    Base64.EncodeLength(salt);
    Base64.EncodeLength(iv);
  }

  /**
   * `decryptVault(vault, password)`: decodes the stored salt, IV and
   * ciphertext, derives the key from the password and the STORED salt, opens
   * the ciphertext with the STORED IV and parses the plaintext. Bad Base64, a
   * tag mismatch and unparsable JSON all end in the same error.
   */
  function DecryptVault<T(!new)>(c: Primitives, json: Json.Codec<T, Bytes>, v: VaultBlob, password: string): (r: Result<T, string>)
    ensures r.Failure? ==> r.error == VAULT_ERROR
  {
    var salt := Base64.Decode(v.salt);
    var iv := Base64.Decode(v.iv);
    var encrypted := Base64.Decode(v.cipher);
    if salt.None? || iv.None? || encrypted.None? then Failure(VAULT_ERROR)
    else
      var key := DeriveKey(c, password, salt.value);
      match c.open(key.bits, iv.value, encrypted.value)
      case None => Failure(VAULT_ERROR)
      case Some(plain) =>
        match json.decode(plain)
        case None => Failure(VAULT_ERROR)
        case Some(data) => Success(data)
  }

  /** A vault opens only if its fields decode and the ciphertext opens with the key from its own salt and its own IV. */
  lemma DecryptUsesStoredFields<T(!new)>(c: Primitives, json: Json.Codec<T, Bytes>, v: VaultBlob, password: string)
    ensures var r := DecryptVault(c, json, v, password);
            r.Success? ==>
              && Base64.Decode(v.salt).Some? && Base64.Decode(v.iv).Some? && Base64.Decode(v.cipher).Some?
              && var unsealed := c.open(DeriveKey(c, password, Base64.Decode(v.salt).value).bits,
                                        Base64.Decode(v.iv).value, Base64.Decode(v.cipher).value);
                 unsealed.Some? && json.decode(unsealed.value) == Some(r.value)
  {
  }

  /** Once the three fields decode, decryption is opening the ciphertext and parsing the plaintext. */
  lemma DecryptOfFields<T(!new)>(c: Primitives, json: Json.Codec<T, Bytes>, v: VaultBlob, password: string,
                                 salt: Bytes, iv: Bytes, cipher: Bytes)
    requires Base64.Decode(v.salt) == Some(salt) && Base64.Decode(v.iv) == Some(iv) && Base64.Decode(v.cipher) == Some(cipher)
    ensures DecryptVault(c, json, v, password)
            == match c.open(DeriveKey(c, password, salt).bits, iv, cipher)
               case None => Failure(VAULT_ERROR)
               case Some(plain) => if json.decode(plain).Some? then Success(json.decode(plain).value) else Failure(VAULT_ERROR)
  {
  }

  /**
   * Opening a vault with some password succeeds exactly when that password
   * derives, with the vault's salt, the key the vault was sealed under, and
   * then gives back the data; otherwise it fails with the one error.
   */
  lemma OpenSealedVault<T(!new)>(c: Primitives, json: Json.Codec<T, Bytes>, data: T, password: string, attempt: string, salt: Salt, iv: Iv)
    requires c.Lawful() && json.Lawful()
    ensures DecryptVault(c, json, EncryptVault(c, json, data, password, salt, iv), attempt)
            == if DeriveKey(c, attempt, salt) == DeriveKey(c, password, salt) then Success(data) else Failure(VAULT_ERROR)
  {
    var v := EncryptVault(c, json, data, password, salt, iv);
    var key := DeriveKey(c, password, salt);
    var other := DeriveKey(c, attempt, salt);
    var sealed := c.seal(key.bits, iv, json.encode(data));
    EncryptedFields(c, json, data, password, salt, iv);
    DecryptOfFields(c, json, v, attempt, salt, iv, sealed);
    assert json.RoundTrips(data);
    if other == key {
      assert c.Opens(key.bits, iv, json.encode(data));
      assert c.open(other.bits, iv, sealed) == Some(json.encode(data));
    } else {
      assert other.bits != key.bits;
      assert c.Rejects(key.bits, other.bits, iv, json.encode(data));
      assert c.open(other.bits, iv, sealed) == None;
    }
  }

  /** Round trip: a vault opens under the password it was sealed with and gives back the data. */
  lemma VaultRoundTrip<T(!new)>(c: Primitives, json: Json.Codec<T, Bytes>, data: T, password: string, salt: Salt, iv: Iv)
    requires c.Lawful() && json.Lawful()
    ensures DecryptVault(c, json, EncryptVault(c, json, data, password, salt, iv), password) == Success(data)
  {
    OpenSealedVault(c, json, data, password, password, salt, iv);
  }

  /** A password that derives a different key fails with the single vault error. */
  lemma WrongPasswordFails<T(!new)>(c: Primitives, json: Json.Codec<T, Bytes>, data: T, password: string, attempt: string, salt: Salt, iv: Iv)
    requires c.Lawful() && json.Lawful()
    requires DeriveKey(c, attempt, salt) != DeriveKey(c, password, salt)
    ensures DecryptVault(c, json, EncryptVault(c, json, data, password, salt, iv), attempt) == Failure(VAULT_ERROR)
  {
    OpenSealedVault(c, json, data, password, attempt, salt, iv);
  }
}
