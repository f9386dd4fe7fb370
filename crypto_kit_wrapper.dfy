/**
 * NearDrop/Core/CryptoKitWrapper.swift. The CryptoKit primitives are foreign code, so they are
 * the fields of a `CryptoKit` value handed to the model; their cryptographic properties are
 * not proved. What the wrapper itself computes around them, above all the safety code, is.
 */
module CryptoKitWrapper {
  import opened Wrappers
  import opened Bytes
  import opened Seqs
  import Base64

  /** `Curve25519.Signing.PrivateKey` (Ed25519). */
  type SigningPrivateKey
  /** `Curve25519.KeyAgreement.PrivateKey` (X25519). */
  type AgreementPrivateKey
  /** `Curve25519.KeyAgreement.PublicKey`. */
  type AgreementPublicKey
  /** CryptoKit's `SharedSecret`, the raw X25519 output. */
  type SharedSecret

  /** A SHA-256 digest (FIPS 180-4): 32 bytes. */
  type Digest = d: seq<byte> | |d| == 32 witness Zeros(32)
  /** A `SymmetricKey` of `outputByteCount: 32` bytes. */
  type SymmetricKey = k: seq<byte> | |k| == 32 witness Zeros(32)
  /** An AES-GCM nonce of CryptoKit's default size. */
  type Nonce = n: seq<byte> | |n| == NonceByteCount witness Zeros(NonceByteCount)
  /** An AES-GCM authentication tag. */
  type Tag = t: seq<byte> | |t| == TagByteCount witness Zeros(TagByteCount)

  const NonceByteCount := 12
  const TagByteCount := 16

  /** `IdentityKeys`: the Ed25519 signing key and `publicKeyData`, the raw public key. */
  datatype IdentityKeys = IdentityKeys(signingKey: SigningPrivateKey, publicKeyData: seq<byte>)

  /** `SessionKeys`: the X25519 agreement key and `publicKeyData`, the raw public key. */
  datatype SessionKeys = SessionKeys(privateKey: AgreementPrivateKey, publicKeyData: seq<byte>)

  /**
   * The CryptoKit calls the wrapper makes. A call that throws returns `None`.
   * - agreementPublicKey: `Curve25519.KeyAgreement.PublicKey(rawRepresentation:)`;
   * - sharedSecretFromKeyAgreement: X25519 (RFC 7748);
   * - hkdfSha256: `hkdfDerivedSymmetricKey(using: SHA256.self, salt:, sharedInfo:, outputByteCount: 32)`,
   *   HKDF of section 2 of RFC 5869;
   * - aesGcmSeal / aesGcmOpen: AES-GCM (NIST SP 800-38D) under an explicit nonce; `open` is
   *   `None` when the tag does not authenticate;
   * - sha256: `SHA256.hash(data:)`.
   */
  datatype CryptoKit = CryptoKit(
    agreementPublicKey: seq<byte> -> Option<AgreementPublicKey>,
    sharedSecretFromKeyAgreement: (AgreementPrivateKey, AgreementPublicKey) -> Option<SharedSecret>,
    hkdfSha256: (SharedSecret, seq<byte>, seq<byte>) -> SymmetricKey,
    aesGcmSeal: (SymmetricKey, Nonce, seq<byte>) -> Option<(seq<byte>, Tag)>,
    aesGcmOpen: (SymmetricKey, Nonce, seq<byte>, Tag) -> Option<seq<byte>>,
    sha256: seq<byte> -> Digest)

  /** What AES-GCM guarantees and this model assumes where it says so: `open` undoes `seal`. */
  ghost predicate AeadCorrect(kit: CryptoKit)
  {
    forall k: SymmetricKey, n: Nonce, p: seq<byte> {:trigger kit.aesGcmSeal(k, n, p)} ::
      kit.aesGcmSeal(k, n, p).Some? ==>
        kit.aesGcmOpen(k, n, kit.aesGcmSeal(k, n, p).value.0, kit.aesGcmSeal(k, n, p).value.1) == Some(p)
  }

  // ---------------------------------------------------------------------------------------
  // Key exchange

  /**
   * `deriveSharedSecret`: X25519 agreement, then HKDF-SHA256 to a 32-byte key. A missing salt is
   * the empty salt and the info defaults to empty. Fails exactly when the agreement throws.
   */
  function DeriveSharedSecret(
    kit: CryptoKit,
    privateKey: AgreementPrivateKey,
    publicKey: AgreementPublicKey,
    salt: Option<seq<byte>> := None,
    info: seq<byte> := []): (r: Option<SymmetricKey>)
    ensures r.Some? <==> kit.sharedSecretFromKeyAgreement(privateKey, publicKey).Some?
    ensures r.Some? ==>
      r.value == kit.hkdfSha256(kit.sharedSecretFromKeyAgreement(privateKey, publicKey).value, salt.GetOr([]), info)
  {
    match kit.sharedSecretFromKeyAgreement(privateKey, publicKey)
    case None => None
    case Some(shared) => Some(kit.hkdfSha256(shared, if salt.Some? then salt.value else [], info))
  }

  /** Leaving out the salt and the info is the same as passing empty ones. */
  lemma DeriveSharedSecretDefaults(kit: CryptoKit, privateKey: AgreementPrivateKey, publicKey: AgreementPublicKey)
    ensures DeriveSharedSecret(kit, privateKey, publicKey) == DeriveSharedSecret(kit, privateKey, publicKey, Some([]), [])
    ensures DeriveSharedSecret(kit, privateKey, publicKey).Some? ==>
      |DeriveSharedSecret(kit, privateKey, publicKey).value| == 32
  {
  }

  // ---------------------------------------------------------------------------------------
  // Encryption

  /**
   * `encrypt`: `AES.GCM.seal(...).combined`, the blob nonce ‖ ciphertext ‖ tag. The nonce,
   * random in CryptoKit, is a parameter. With a 12-byte nonce `combined` is never nil, so the
   * only failure is `seal` throwing.
   */
  function Encrypt(kit: CryptoKit, data: seq<byte>, key: SymmetricKey, nonce: Nonce): (r: Option<seq<byte>>)
    ensures r.Some? <==> kit.aesGcmSeal(key, nonce, data).Some?
    ensures r.Some? ==> |r.value| >= NonceByteCount + TagByteCount && r.value[..NonceByteCount] == nonce
  {
    match kit.aesGcmSeal(key, nonce, data)
    case None => None
    case Some((ciphertext, tag)) => Some(nonce + ciphertext + tag)
  }

  /**
   * `decrypt`: `AES.GCM.SealedBox(combined:)` splits the blob into a 12-byte nonce, the
   * ciphertext and a 16-byte tag and throws when it is shorter than the two; `open` then
   * authenticates.
   */
  function Decrypt(kit: CryptoKit, data: seq<byte>, key: SymmetricKey): (r: Option<seq<byte>>)
    ensures |data| < NonceByteCount + TagByteCount ==> r.None?
  {
    if |data| < NonceByteCount + TagByteCount then None
    else kit.aesGcmOpen(key, data[..NonceByteCount], data[NonceByteCount..|data| - TagByteCount], data[|data| - TagByteCount..])
  }

  /** Given a correct AEAD, `decrypt` undoes `encrypt` under the same key. */
  lemma DecryptEncrypt(kit: CryptoKit, data: seq<byte>, key: SymmetricKey, nonce: Nonce)
    requires AeadCorrect(kit)
    requires Encrypt(kit, data, key, nonce).Some?
    ensures Decrypt(kit, Encrypt(kit, data, key, nonce).value, key) == Some(data)
  {
    var (ciphertext, tag) := kit.aesGcmSeal(key, nonce, data).value;
    var blob := nonce + ciphertext + tag;
    assert blob[..NonceByteCount] == nonce;
    assert blob[NonceByteCount..|blob| - TagByteCount] == ciphertext;
    assert blob[|blob| - TagByteCount..] == tag;
  }

  // ---------------------------------------------------------------------------------------
  // Safety code

  predicate IsDigit(c: char)
  {
    '0' <= c <= '9'
  }

  function DigitValue(c: char): int
  {
    c as int - '0' as int
  }

  function DigitChar(d: int): (c: char)
    requires 0 <= d < 10
    ensures IsDigit(c) && DigitValue(c) == d
  {
    ('0' as int + d) as char
  }

  /** `String(format: "%02d", n)` for `n < 100`: two decimal digits, zero-padded. */
  function TwoDigits(n: int): (r: string)
    requires 0 <= n < 100
    ensures |r| == 2 && IsDigit(r[0]) && IsDigit(r[1])
    ensures DigitValue(r[0]) * 10 + DigitValue(r[1]) == n
  {
    [DigitChar(n / 10), DigitChar(n % 10)]
  }

  /** `bytes.map { String(format: "%02d", $0 % 100) }.joined()`: two digits per byte. */
  function CodeDigits(bytes: seq<byte>): (r: string)
    ensures |r| == 2 * |bytes|
    ensures forall k :: 0 <= k < |r| ==> IsDigit(r[k])
  {
    if bytes == [] then "" else TwoDigits(bytes[0] % 100) + CodeDigits(bytes[1..])
  }

  /** Characters 2i and 2i+1 of the digit string are the two digits of `bytes[i] % 100`. */
  lemma {:induction false} CodeDigitsAt(bytes: seq<byte>, i: nat)
    requires i < |bytes|
    ensures CodeDigits(bytes)[2 * i..2 * i + 2] == TwoDigits(bytes[i] % 100)
    ensures DigitValue(CodeDigits(bytes)[2 * i]) * 10 + DigitValue(CodeDigits(bytes)[2 * i + 1]) == bytes[i] % 100
  {
    var head := TwoDigits(bytes[0] % 100);
    var tail := CodeDigits(bytes[1..]);
    assert CodeDigits(bytes) == head + tail;
    if i > 0 {
      CodeDigitsAt(bytes[1..], i - 1);
      assert (head + tail)[2 * i..2 * i + 2] == tail[2 * (i - 1)..2 * (i - 1) + 2];
    }
  }

  /** Two byte strings give the same digits exactly when their bytes agree modulo 100. */
  lemma CodeDigitsEqual(a: seq<byte>, b: seq<byte>)
    requires |a| == |b|
    ensures CodeDigits(a) == CodeDigits(b) <==> forall i :: 0 <= i < |a| ==> a[i] % 100 == b[i] % 100
  {
    if CodeDigits(a) == CodeDigits(b) {
      forall i | 0 <= i < |a| ensures a[i] % 100 == b[i] % 100 {
        CodeDigitsAt(a, i);
        CodeDigitsAt(b, i);
      }
    }
    if forall i :: 0 <= i < |a| ==> a[i] % 100 == b[i] % 100 {
      CodeDigitsAgree(a, b);
    }
  }

  lemma {:induction false} CodeDigitsAgree(a: seq<byte>, b: seq<byte>)
    requires |a| == |b|
    requires forall i :: 0 <= i < |a| ==> a[i] % 100 == b[i] % 100
    ensures CodeDigits(a) == CodeDigits(b)
  {
    if a != [] {
      CodeDigitsAgree(a[1..], b[1..]);
    }
  }

  function Min(x: int, y: int): int
  {
    if x <= y then x else y
  }

  /**
   * `stride(from: 0, to: code.count, by: 3).map { code[index ..< index + min(3, code.count - index)] }`:
   * the chunks of three characters, the last one shorter when the length is not a multiple of 3.
   */
  function Chunks(code: string): (r: seq<string>)
    ensures |r| == (|code| + 2) / 3
  {
    seq((|code| + 2) / 3, k requires 0 <= k < (|code| + 2) / 3 => code[3 * k..3 * k + Min(3, |code| - 3 * k)])
  }

  /** `parts.joined(separator: String(sep))`. */
  function JoinWith(parts: seq<string>, sep: char): (r: string)
    ensures |parts| > 0 ==> |r| == |Concat(parts)| + |parts| - 1
    ensures |parts| == 0 ==> r == ""
  {
    if |parts| == 0 then ""
    else if |parts| == 1 then parts[0]
    else parts[0] + [sep] + JoinWith(parts[1..], sep)
  }

  /** The parts one after the other, with no separator: `parts.joined()`. */
  function Concat(parts: seq<string>): string
  {
    if parts == [] then "" else parts[0] + Concat(parts[1..])
  }

  /** Every chunk has one to three characters, and all but the last have exactly three. */
  lemma ChunksSizes(code: string)
    ensures forall k :: 0 <= k < |Chunks(code)| ==> 1 <= |Chunks(code)[k]| <= 3
    ensures forall k :: 0 <= k < |Chunks(code)| - 1 ==> |Chunks(code)[k]| == 3
    ensures |code| % 3 == 0 ==> forall k :: 0 <= k < |Chunks(code)| ==> |Chunks(code)[k]| == 3
  {
  }

  lemma ChunksCons(code: string)
    requires |code| > 3
    ensures Chunks(code) == [code[..3]] + Chunks(code[3..])
  {
    var r, t := Chunks(code), Chunks(code[3..]);
    assert |r| == 1 + |t|;
    forall k | 0 <= k < |r| ensures r[k] == ([code[..3]] + t)[k] {
      if k > 0 {
        var j, m := k - 1, Min(3, |code| - 3 * k);
        assert Min(3, |code[3..]| - 3 * j) == m;
        assert t[j] == code[3..][3 * j..3 * j + m];
        var u, v := code[3..][3 * j..3 * j + m], code[3 * k..3 * k + m];
        assert |u| == m == |v|;
        assert forall i :: 0 <= i < m ==> u[i] == v[i];
        assert t[j] == v;
      }
    }
  }

  /** Putting the chunks back together gives the string that was cut. */
  lemma {:induction false} ConcatChunks(code: string)
    ensures Concat(Chunks(code)) == code
    decreases |code|
  {
    if |code| == 0 {
    } else if |code| <= 3 {
      assert |Chunks(code)| == 1 && Chunks(code)[0] == code[0..|code|] == code;
      assert Chunks(code) == [code];
      assert Concat([code]) == code + Concat([]);
    } else {
      ChunksCons(code);
      ConcatChunks(code[3..]);
      assert ([code[..3]] + Chunks(code[3..]))[1..] == Chunks(code[3..]);
      assert code == code[..3] + code[3..];
    }
  }

  /** Deleting the separators from a join of separator-free parts gives the parts run together. */
  lemma {:induction false} RemoveSeparators(parts: seq<string>, sep: char)
    requires forall k :: 0 <= k < |parts| ==> sep !in parts[k]
    ensures RemoveAll(JoinWith(parts, sep), sep) == Concat(parts)
  {
    if |parts| == 1 {
      assert Concat(parts) == parts[0] + Concat([]);
    } else if |parts| > 1 {
      RemoveSeparators(parts[1..], sep);
      RemoveAllConcat(parts[0] + [sep], JoinWith(parts[1..], sep), sep);
      RemoveAllConcat(parts[0], [sep], sep);
      assert RemoveAll([sep], sep) == [];
      assert parts[0] + [sep] + JoinWith(parts[1..], sep) == (parts[0] + [sep]) + JoinWith(parts[1..], sep);
    }
  }

  /** Format as XXX-XXX-XXX-XXX: the chunks joined by '-'. */
  function Grouped(code: string): (r: string)
    ensures |code| > 0 ==> |r| == |code| + (|code| + 2) / 3 - 1
    ensures |code| == 0 ==> r == ""
  {
    ConcatChunks(code);
    JoinWith(Chunks(code), '-')
  }

  /** For any string without a hyphen, deleting the hyphens from its grouping gives it back. */
  lemma UngroupGrouped(code: string)
    requires '-' !in code
    ensures RemoveAll(Grouped(code), '-') == code
  {
    var parts := Chunks(code);
    assert forall k :: 0 <= k < |parts| ==> '-' !in parts[k] by {
      forall k | 0 <= k < |parts| ensures '-' !in parts[k] {
        assert forall c :: c in parts[k] ==> c in code;
      }
    }
    RemoveSeparators(parts, '-');
    ConcatChunks(code);
  }

  /** Twelve characters group into four full blocks: never a short final group. */
  lemma GroupedTwelve(code: string)
    requires |code| == 12
    ensures Grouped(code) == code[..3] + "-" + code[3..6] + "-" + code[6..9] + "-" + code[9..]
  {
    var parts := Chunks(code);
    assert parts[0] == code[..3] && parts[1] == code[3..6] && parts[2] == code[6..9] && parts[3] == code[9..];
    assert parts == [code[..3], code[3..6], code[6..9], code[9..]];
    var p1, p2, p3 := parts[1..], parts[2..], parts[3..];
    assert p3 == [code[9..]] && p2 == [code[6..9]] + p3 && p1 == [code[3..6]] + p2;
    assert JoinWith(p3, '-') == code[9..];
    assert JoinWith(p2, '-') == code[6..9] + "-" + code[9..];
    assert JoinWith(p1, '-') == code[3..6] + "-" + code[6..9] + "-" + code[9..];
  }

  /**
   * `generateSafetyCode`: SHA-256 of local ‖ remote (in that order, not sorted), the first six
   * digest bytes as two digits each, grouped as XXX-XXX-XXX-XXX.
   */
  function GenerateSafetyCode(kit: CryptoKit, localPublicKey: seq<byte>, remotePublicKey: seq<byte>): (r: string)
    ensures var digits := SafetyDigits(kit, localPublicKey, remotePublicKey);
      r == digits[..3] + "-" + digits[3..6] + "-" + digits[6..9] + "-" + digits[9..]
  {
    var hash := kit.sha256(localPublicKey + remotePublicKey);
    GroupedTwelve(CodeDigits(hash[..6]));
    Grouped(CodeDigits(hash[..6]))
  }

  /** The twelve digits before grouping, from the hash of local ‖ remote. */
  function SafetyDigits(kit: CryptoKit, localPublicKey: seq<byte>, remotePublicKey: seq<byte>): (r: string)
    ensures |r| == 12
    ensures forall i :: 0 <= i < 6 ==>
      r[2 * i..2 * i + 2] == TwoDigits(kit.sha256(localPublicKey + remotePublicKey)[i] % 100)
    ensures forall i :: 0 <= i < 6 ==>
      DigitValue(r[2 * i]) * 10 + DigitValue(r[2 * i + 1]) == kit.sha256(localPublicKey + remotePublicKey)[i] % 100
  {
    var hash := kit.sha256(localPublicKey + remotePublicKey);
    forall i | 0 <= i < 6
      ensures CodeDigits(hash[..6])[2 * i..2 * i + 2] == TwoDigits(hash[i] % 100)
      ensures DigitValue(CodeDigits(hash[..6])[2 * i]) * 10 + DigitValue(CodeDigits(hash[..6])[2 * i + 1]) == hash[i] % 100
    {
      CodeDigitsAt(hash[..6], i);
    }
    CodeDigits(hash[..6])
  }

  /**
   * The safety code has 15 characters: hyphens at 3, 7 and 11, decimal digits everywhere else;
   * and deleting the hyphens gives exactly the twelve digits.
   */
  lemma SafetyCodeShape(kit: CryptoKit, localPublicKey: seq<byte>, remotePublicKey: seq<byte>)
    ensures var code := GenerateSafetyCode(kit, localPublicKey, remotePublicKey);
      |code| == 15 && code[3] == '-' && code[7] == '-' && code[11] == '-' &&
      (forall i :: 0 <= i < 15 && i != 3 && i != 7 && i != 11 ==> IsDigit(code[i])) &&
      RemoveAll(code, '-') == SafetyDigits(kit, localPublicKey, remotePublicKey)
  {
    var digits := SafetyDigits(kit, localPublicKey, remotePublicKey);
    var code := GenerateSafetyCode(kit, localPublicKey, remotePublicKey);
    assert forall i :: 0 <= i < 15 && i != 3 && i != 7 && i != 11 ==>
      code[i] == digits[if i < 3 then i else if i < 7 then i - 1 else if i < 11 then i - 2 else i - 3];
    assert forall k :: 0 <= k < |digits| ==> digits[k] != '-';
    UngroupGrouped(digits);
  }

  /**
   * Because the keys are hashed in caller order, the two ends of a session (each passing its own
   * key first) show the same code exactly when the digests of a ‖ b and b ‖ a agree, modulo 100,
   * in each of their first six bytes.
   */
  lemma SafetyCodeAgreement(kit: CryptoKit, a: seq<byte>, b: seq<byte>)
    ensures GenerateSafetyCode(kit, a, b) == GenerateSafetyCode(kit, b, a) <==>
      forall i :: 0 <= i < 6 ==> kit.sha256(a + b)[i] % 100 == kit.sha256(b + a)[i] % 100
  {
    var hab, hba := kit.sha256(a + b), kit.sha256(b + a);
    CodeDigitsEqual(hab[..6], hba[..6]);
    if GenerateSafetyCode(kit, a, b) == GenerateSafetyCode(kit, b, a) {
      SafetyCodeShape(kit, a, b);
      SafetyCodeShape(kit, b, a);
    }
  }

  // ---------------------------------------------------------------------------------------
  // Base64 utilities

  /** `dataToBase64`: the encoding, which `base64ToData` decodes back to `data`. */
  function DataToBase64(data: seq<byte>): (r: string)
    ensures Base64ToData(r) == Some(data)
  {
    Base64.DecodeEncode(data);
    Base64.Encode(data)
  }

  /** `base64ToData`: `None` for a string that is not Base64. */
  function Base64ToData(s: string): (r: Option<seq<byte>>)
    ensures r.Some? ==> |s| == (|r.value| + 2) / 3 * 4
  {
    match Base64.Decode(s)
    case None => None
    case Some(data) => Base64.DecodeLength(s); Some(data)
  }
}
