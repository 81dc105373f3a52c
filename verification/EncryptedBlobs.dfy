/**
  The SSENC2 container of `sentinel/security.py`: header, salt, padded key id, nonce and ciphertext,
  with the key derived from salt and key id. Random salt and nonce are parameters.
 */
module EncryptedBlobs {
  import opened Prelude
  import Utf8

  const SALT_LENGTH := 16
  const KEY_ID_LENGTH := 32
  const NONCE_LENGTH := 12

  const HEADER_V1: Octets := [83, 83, 69, 78, 67, 49]
  const HEADER_V2: Octets := [83, 83, 69, 78, 67, 50]

  type Key = string

  /**
    Key derivation (HKDF, section 2 of RFC 5869), the authenticated cipher, and the text Python makes
    of octets that are not UTF-8 when it is told to replace what it cannot read.
   */
  datatype Crypto = Crypto(
    derive: (string, Octets, string) -> Key,
    deriveV1: string -> Key,
    encrypt: (Key, Octets, Octets, Octets) -> Octets,            // key, nonce, data, associated data
    decrypt: (Key, Octets, Octets, Octets) -> Option<Octets>,
    replacing: Octets -> string)

  ghost predicate CipherLaw(c: Crypto) {
    forall key, nonce, data, aad :: c.decrypt(key, nonce, c.encrypt(key, nonce, data, aad), aad) == Some(data)
  }

  datatype Failure = SecretMissing | BadHeader | BadKeyId | BadCiphertext

  function StripNul(s: string): string {
    if s != [] && s[|s| - 1] == '\0' then StripNul(s[..|s| - 1]) else s
  }

  function StripZero(b: Octets): Octets {
    if b != [] && b[|b| - 1] == 0 then StripZero(b[..|b| - 1]) else b
  }

  /** The key id as stored: its first 32 octets. */
  function StoredId(keyId: string): (r: Octets)
    ensures |r| <= KEY_ID_LENGTH
  {
    var b := Utf8.Encode(keyId);
    if |b| <= KEY_ID_LENGTH then b else b[..KEY_ID_LENGTH]
  }

  /** The key id the writer derives its key from. */
  function WrittenId(c: Crypto, keyId: string): string {
    match Utf8.Decode(StoredId(keyId))
    case Some(id) => StripNul(id)
    case None => StripNul(c.replacing(StoredId(keyId)))
  }

  /** The key id the reader finds in a blob; None where it is not UTF-8. */
  function RecoveredId(blob: Octets): Option<string> {
    Utf8.Decode(StripZero(Slice(blob, 22, 54)))
  }

  function Padded(id: Octets): (r: Octets)
    requires |id| <= KEY_ID_LENGTH
    ensures |r| == KEY_ID_LENGTH && r[..|id|] == id && forall i :: |id| <= i < KEY_ID_LENGTH ==> r[i] == 0
  {
    id + seq(KEY_ID_LENGTH - |id|, _ => 0)
  }

  function EncryptBytes(c: Crypto, secret: string, keyId: string, salt: Octets, nonce: Octets, data: Octets): Result<Octets, Failure> {
    if secret == "" then Failure(SecretMissing)
    else
      var padded := Padded(StoredId(keyId));
      var key := c.derive(secret, salt, WrittenId(c, keyId));
      Success(HEADER_V2 + salt + padded + nonce + c.encrypt(key, nonce, data, padded))
  }

  function Slice(b: Octets, lo: nat, hi: nat): Octets
    requires lo <= hi
  {
    if |b| <= lo then [] else if |b| <= hi then b[lo..] else b[lo..hi]
  }

  function From(b: Octets, lo: nat): Octets {
    if |b| <= lo then [] else b[lo..]
  }

  function Opened(r: Option<Octets>): Result<Octets, Failure> {
    match r case None => Failure(BadCiphertext) case Some(data) => Success(data)
  }

  function DecryptBytes(c: Crypto, secret: string, blob: Octets): Result<Octets, Failure> {
    if secret == "" then Failure(SecretMissing)
    else if HEADER_V2 <= blob then
      var salt := Slice(blob, 6, 22);
      var idRaw := Slice(blob, 22, 54);
      var nonce := Slice(blob, 54, 66);
      var ciphertext := From(blob, 66);
      match RecoveredId(blob)
      case None => Failure(BadKeyId)
      case Some(id) =>
        var key := c.derive(secret, salt, if id == "" then "default" else id);
        Opened(c.decrypt(key, nonce, ciphertext, idRaw))
    else if HEADER_V1 <= blob then
      Opened(c.decrypt(c.deriveV1(secret), Slice(blob, 6, 18), From(blob, 18), []))
    else Failure(BadHeader)
  }

  datatype Version = V1 | V2 | Unknown

  function HeaderVersion(blob: Octets): Version {
    if HEADER_V2 <= blob then V2 else if HEADER_V1 <= blob then V1 else Unknown
  }

  /** The four slices and the header tile a written blob exactly. */
  lemma SlicesTile(salt: Octets, id: Octets, nonce: Octets, ciphertext: Octets)
    requires |salt| == SALT_LENGTH && |id| == KEY_ID_LENGTH && |nonce| == NONCE_LENGTH
    ensures var blob := HEADER_V2 + salt + id + nonce + ciphertext;
      && HEADER_V2 <= blob && !(HEADER_V1 <= blob) && HeaderVersion(blob) == V2
      && Slice(blob, 6, 22) == salt && Slice(blob, 22, 54) == id
      && Slice(blob, 54, 66) == nonce && From(blob, 66) == ciphertext
  {
    var blob := HEADER_V2 + salt + id + nonce + ciphertext;
    assert blob[5] == 50 && HEADER_V1[5] == 49;
    assert blob[6..22] == salt;
    assert blob[22..54] == id;
    assert blob[54..66] == nonce;
    assert blob[66..] == ciphertext;
  }

  lemma {:induction false} StripZeroOfPadding(id: Octets, padded: Octets)
    requires |id| <= |padded| && padded[..|id|] == id && forall i :: |id| <= i < |padded| ==> padded[i] == 0
    requires 0 !in id
    ensures StripZero(padded) == id
    decreases |padded|
  {
    if |padded| > |id| {
      StripZeroOfPadding(id, padded[..|padded| - 1]);
    } else {
      assert padded == id;
      assert id != [] ==> id[|id| - 1] in id;
    }
  }

  lemma NothingToStrip(s: string)
    requires '\0' !in s
    ensures StripNul(s) == s
  {
    if s != [] {
      assert s[|s| - 1] in s;
    }
  }

  lemma StoredIdHasNoZero(keyId: string)
    requires '\0' !in keyId
    ensures 0 !in StoredId(keyId)
  {
    Utf8.EncodedNul(keyId);
  }

  /** The stored octets are whole characters of the key id. */
  ghost predicate CutAtCharacter(keyId: string) {
    exists n :: 0 <= n <= |keyId| && StoredId(keyId) == Utf8.Encode(keyId[..n])
  }

  lemma StoredIdIsValidIff(keyId: string)
    ensures Utf8.Decode(StoredId(keyId)).Some? <==> CutAtCharacter(keyId)
  {
    var b := Utf8.Encode(keyId);
    assert StoredId(keyId) == b[..|StoredId(keyId)|];
    Utf8.CutIsValidIff(keyId, |StoredId(keyId)|);
  }

  lemma ReadableIdIsNotEmpty(keyId: string)
    requires keyId != "" && '\0' !in keyId && Utf8.Decode(StoredId(keyId)).Some?
    ensures var id := Utf8.Decode(StoredId(keyId)).value; id != "" && '\0' !in id
  {
    Utf8.EncodeOfDecode(StoredId(keyId));
    Utf8.EncodedNul(Utf8.Decode(StoredId(keyId)).value);
    StoredIdHasNoZero(keyId);
  }

  /**
    Decrypting gives the data back exactly when the 32 octets kept of the key id end with a whole
    character, and the reader then finds the very id the key was derived from. A longer id cut inside a
    character encrypts without complaint and can never be decrypted again.
   */
  lemma DecryptOfEncryptIff(c: Crypto, secret: string, keyId: string, salt: Octets, nonce: Octets, data: Octets)
    requires CipherLaw(c) && secret != ""
    requires keyId != "" && '\0' !in keyId
    requires |salt| == SALT_LENGTH && |nonce| == NONCE_LENGTH
    ensures var blob := EncryptBytes(c, secret, keyId, salt, nonce, data);
      && blob.Success?
      && (DecryptBytes(c, secret, blob.value) == Success(data) <==> CutAtCharacter(keyId))
      && (CutAtCharacter(keyId) ==> RecoveredId(blob.value) == Some(WrittenId(c, keyId)))
      && (!CutAtCharacter(keyId) ==> DecryptBytes(c, secret, blob.value) == Failure(BadKeyId))
  {
    var id := StoredId(keyId);
    var padded := Padded(id);
    var key := c.derive(secret, salt, WrittenId(c, keyId));
    SlicesTile(salt, padded, nonce, c.encrypt(key, nonce, data, padded));
    StoredIdHasNoZero(keyId);
    StripZeroOfPadding(id, padded);
    StoredIdIsValidIff(keyId);
    if Utf8.Decode(id).Some? {
      ReadableIdIsNotEmpty(keyId);
      NothingToStrip(Utf8.Decode(id).value);
    }
  }

  /** Neither direction works without a secret, and nothing else keeps the writer from writing a version 2 blob. */
  lemma SecretNeeded(c: Crypto, secret: string, keyId: string, salt: Octets, nonce: Octets, data: Octets, blob: Octets)
    requires |salt| == SALT_LENGTH && |nonce| == NONCE_LENGTH
    ensures EncryptBytes(c, secret, keyId, salt, nonce, data).Failure? <==> secret == ""
    ensures DecryptBytes(c, secret, blob) == Failure(SecretMissing) <==> secret == ""
    ensures secret != "" ==> HeaderVersion(EncryptBytes(c, secret, keyId, salt, nonce, data).value) == V2
  {
    if secret != "" {
      var padded := Padded(StoredId(keyId));
      SlicesTile(salt, padded, nonce, c.encrypt(c.derive(secret, salt, WrittenId(c, keyId)), nonce, data, padded));
    }
  }

  /** A version 1 blob is header, nonce and ciphertext, under a key that depends on the secret alone. */
  lemma VersionOneOpens(c: Crypto, secret: string, nonce: Octets, data: Octets)
    requires CipherLaw(c) && secret != "" && |nonce| == NONCE_LENGTH
    ensures var blob := HEADER_V1 + nonce + c.encrypt(c.deriveV1(secret), nonce, data, []);
      HeaderVersion(blob) == V1 && DecryptBytes(c, secret, blob) == Success(data)
  {
    var ciphertext := c.encrypt(c.deriveV1(secret), nonce, data, []);
    var blob := HEADER_V1 + nonce + ciphertext;
    assert blob[5] == 49 && HEADER_V2[5] == 50;
    assert Slice(blob, 6, 18) == nonce && From(blob, 18) == ciphertext;
  }

  /** Anything else is refused. */
  lemma OtherHeadersRefused(c: Crypto, secret: string, blob: Octets)
    requires secret != "" && HeaderVersion(blob) == Unknown
    ensures DecryptBytes(c, secret, blob) == Failure(BadHeader)
  {
  }

  /** The headers are the texts "SSENC1" and "SSENC2". */
  lemma HeaderTexts()
    ensures HEADER_V1 == Utf8.Encode("SSENC1") && HEADER_V2 == Utf8.Encode("SSENC2")
  {
    HeaderText('1');
    HeaderText('2');
    assert "SSENC1" == ['S', 'S', 'E', 'N', 'C', '1'] && "SSENC2" == ['S', 'S', 'E', 'N', 'C', '2'];
  }

  lemma HeaderText(version: char)
    requires '0' <= version <= '9'
    ensures Utf8.Encode(['S', 'S', 'E', 'N', 'C', version]) == [83, 83, 69, 78, 67, version as int]
  {
    Utf8.AsciiText(['S', 'S', 'E', 'N', 'C', version], 0);
    Utf8.AsciiText(['S', 'S', 'E', 'N', 'C', version], 1);
    Utf8.AsciiText(['S', 'S', 'E', 'N', 'C', version], 2);
    Utf8.AsciiText(['S', 'S', 'E', 'N', 'C', version], 3);
    Utf8.AsciiText(['S', 'S', 'E', 'N', 'C', version], 4);
    Utf8.AsciiText(['S', 'S', 'E', 'N', 'C', version], 5);
  }

  /** A key id of up to 32 octets always comes back whole, and with it the data. */
  lemma ShortKeyIdComesBack(c: Crypto, secret: string, keyId: string, salt: Octets, nonce: Octets, data: Octets)
    requires CipherLaw(c) && secret != ""
    requires keyId != "" && '\0' !in keyId && |Utf8.Encode(keyId)| <= KEY_ID_LENGTH
    requires |salt| == SALT_LENGTH && |nonce| == NONCE_LENGTH
    ensures var blob := EncryptBytes(c, secret, keyId, salt, nonce, data);
      && blob.Success? && DecryptBytes(c, secret, blob.value) == Success(data)
      && RecoveredId(blob.value) == Some(keyId) && WrittenId(c, keyId) == keyId
  {
    assert keyId[..|keyId|] == keyId;
    assert CutAtCharacter(keyId);
    DecryptOfEncryptIff(c, secret, keyId, salt, nonce, data);
    Utf8.DecodeOfEncode(keyId);
    NothingToStrip(keyId);
  }

  /** 31 plain letters and an accented one are 33 octets; the 32nd is half a character. */
  lemma AccentedIdIsCut(letters: string)
    requires |letters| == 31 && forall i :: 0 <= i < 31 ==> 'a' <= letters[i] <= 'z'
    ensures !CutAtCharacter(letters + "\U{E9}")
  {
    var keyId, head := letters + "\U{E9}", Utf8.Encode(letters);
    Utf8.EncodeOfConcat(letters, "\U{E9}");
    Utf8.EncodeOfAscii(letters);
    assert Utf8.Encode("\U{E9}") == [0xC3, 0xA9];
    assert StoredId(keyId) == head + [0xC3];
    forall n | 0 <= n <= |keyId| ensures StoredId(keyId) != Utf8.Encode(keyId[..n]) {
      if n <= 31 {
        assert keyId[..n] == letters[..n];
        Utf8.EncodeOfAscii(letters[..n]);
      } else {
        assert keyId[..n] == keyId;
      }
    }
  }

  /** Such an id, then, produces blobs that nobody can read. */
  lemma AccentedIdCannotBeRead(c: Crypto, secret: string, letters: string, salt: Octets, nonce: Octets, data: Octets)
    requires CipherLaw(c) && secret != ""
    requires |letters| == 31 && forall i :: 0 <= i < 31 ==> 'a' <= letters[i] <= 'z'
    requires |salt| == SALT_LENGTH && |nonce| == NONCE_LENGTH
    ensures var blob := EncryptBytes(c, secret, letters + "\U{E9}", salt, nonce, data);
      blob.Success? && DecryptBytes(c, secret, blob.value) == Failure(BadKeyId)
  {
    AccentedIdIsCut(letters);
    DecryptOfEncryptIff(c, secret, letters + "\U{E9}", salt, nonce, data);
  }

  /** A blob without a key id is opened under the id "default". */
  lemma NoIdMeansDefault(c: Crypto, secret: string, salt: Octets, nonce: Octets, data: Octets)
    requires CipherLaw(c) && secret != "" && |salt| == SALT_LENGTH && |nonce| == NONCE_LENGTH
    ensures var zeros := Padded([]);
      DecryptBytes(c, secret, HEADER_V2 + salt + zeros + nonce + c.encrypt(c.derive(secret, salt, "default"), nonce, data, zeros)) == Success(data)
  {
    var zeros := Padded([]);
    SlicesTile(salt, zeros, nonce, c.encrypt(c.derive(secret, salt, "default"), nonce, data, zeros));
    StripZeroOfPadding([], zeros);
    assert Utf8.Decode([]) == Some("");
  }

  /** A blob written under an id cut inside a character is not lost: its key is that of the id with the half character replaced. */
  lemma CutIdHasReplacedKey(c: Crypto, secret: string, keyId: string, salt: Octets, nonce: Octets, data: Octets)
    requires CipherLaw(c) && secret != "" && |salt| == SALT_LENGTH && |nonce| == NONCE_LENGTH
    requires !CutAtCharacter(keyId)
    ensures var blob := EncryptBytes(c, secret, keyId, salt, nonce, data);
      var key := c.derive(secret, salt, StripNul(c.replacing(StoredId(keyId))));
      blob.Success? && c.decrypt(key, Slice(blob.value, 54, 66), From(blob.value, 66), Slice(blob.value, 22, 54)) == Some(data)
  {
    var padded := Padded(StoredId(keyId));
    StoredIdIsValidIff(keyId);
    SlicesTile(salt, padded, nonce, c.encrypt(c.derive(secret, salt, WrittenId(c, keyId)), nonce, data, padded));
  }
}
