// The voice transport cipher: key validation, mode selection, the 32-bit
// nonce counter and the packet layout `sealed ++ BE32(counter)` wrapped
// around an abstract AEAD (AES-256-GCM of NIST SP 800-38D, or the
// extended-nonce ChaCha20-Poly1305 of section 2.8 of RFC 8439).  The RTP
// fixed header (section 5.1 of RFC 3550) is the associated data.

module TransportCrypto {
  import opened Common

  const SecretKeySize: nat := 32
  const AesGcmTagSize: nat := 16
  const XChaChaTagSize: nat := 16
  const NonceSize: nat := 4
  const RtpHeaderSize: nat := 12

  const AesModeName: string := "aes256_gcm_rtpsize"
  const XChaChaModeName: string := "aead_xchacha20_poly1305_rtpsize"
  const NoModeName: string := "none"

  datatype EncryptionMode = NoEncryption | Aes256GcmRtpSize | XChaCha20Poly1305RtpSize

  datatype CryptoError =
    | NotInitialized
    | NoModeSet
    | InvalidSecretKey
    | UnsupportedMode
    | AesGcmUnavailable
    | HeaderTooSmall
    | CiphertextTooSmall
    | EncryptionFailed
    | DecryptionFailed

  /**
   * The two libsodium AEAD constructions, abstract.  Each takes
   * (mode, key, nonce, associated data, message); `None` is a failure
   * reported by the library.
   */
  datatype Aead = Aead(
    seal: (EncryptionMode, Bytes, Bytes, Bytes, Bytes) -> Option<Bytes>,
    open: (EncryptionMode, Bytes, Bytes, Bytes, Bytes) -> Option<Bytes>)

  /**
   * What the library promises: a sealed message is the plaintext plus one
   * tag long, and opening it with the same key, nonce and associated data
   * gives the plaintext back.
   */
  ghost predicate Sound(aead: Aead)
  {
    forall m, k, n, ad, p ::
      m != NoEncryption && aead.seal(m, k, n, ad, p).Some? ==>
        |aead.seal(m, k, n, ad, p).value| == |p| + TagSize(m) &&
        aead.open(m, k, n, ad, aead.seal(m, k, n, ad, p).value) == Some(p)
  }

  /** GetCurrentTagSize: 16 for either AEAD mode, 0 when no mode is set. */
  function TagSize(mode: EncryptionMode): (n: nat)
    ensures n == 0 <==> mode == NoEncryption
    ensures mode != NoEncryption ==> n == 16
  {
    match mode
    case Aes256GcmRtpSize => AesGcmTagSize
    case XChaCha20Poly1305RtpSize => XChaChaTagSize
    case NoEncryption => 0
  }

  /** The mode a name selects, if any. */
  function ModeFromName(name: string): (m: Option<EncryptionMode>)
  {
    if name == AesModeName then Some(Aes256GcmRtpSize)
    else if name == XChaChaModeName then Some(XChaCha20Poly1305RtpSize)
    else None
  }

  /** GetModeString: the name of a mode, which selects that mode again. */
  function ModeName(mode: EncryptionMode): (s: string)
    ensures ModeFromName(s) == if mode == NoEncryption then None else Some(mode)
    ensures mode == NoEncryption ==> s == NoModeName
  {
    match mode
    case Aes256GcmRtpSize => AesModeName
    case XChaCha20Poly1305RtpSize => XChaChaModeName
    case NoEncryption => NoModeName
  }

  /** The names getSupportedModes lists; AES-GCM only when the CPU supports it. */
  function SupportedModes(aesAvailable: bool): (names: seq<string>)
    ensures XChaChaModeName in names
    ensures AesModeName in names <==> aesAvailable
    ensures forall i :: 0 <= i < |names| ==> ModeFromName(names[i]).Some?
  {
    [XChaChaModeName] + (if aesAvailable then [AesModeName] else [])
  }

  /** validateMode: a name is accepted exactly when it is a supported mode. */
  function ValidateMode(name: string, aesAvailable: bool): (ok: bool)
    ensures ok <==> name in SupportedModes(aesAvailable)
  {
    if name == AesModeName then aesAvailable
    else name == XChaChaModeName
  }

  /** A usable key: exactly 32 bytes, not all of them zero. */
  predicate IsValidSecretKey(key: Bytes)
  {
    |key| == SecretKeySize && exists i :: 0 <= i < |key| && key[i] != 0
  }

  /** Zero bytes that pad the 4-byte counter up to the AEAD's nonce length. */
  function NoncePadding(mode: EncryptionMode): (n: nat)
  {
    if mode == Aes256GcmRtpSize then 8 else 20
  }

  /** The AEAD nonce: zero padding, then the 4 counter bytes as they go on the wire. */
  function AeadNonce(mode: EncryptionMode, wire: Bytes): (nonce: Bytes)
    requires |wire| == NonceSize
  {
    Zeros(NoncePadding(mode)) + wire
  }

  /** EncryptAES256GCM / EncryptXChaCha20Poly1305: seal, then append BE32(counter). */
  function SealPacket(aead: Aead, mode: EncryptionMode, key: Bytes, counter: U32,
                      header: Bytes, payload: Bytes): (blob: Option<Bytes>)
    requires mode != NoEncryption
  {
    match aead.seal(mode, key, AeadNonce(mode, Be32(counter)), header, payload)
    case None => None
    case Some(sealed) => Some(sealed + Be32(counter))
  }

  /**
   * DecryptAES256GCM / DecryptXChaCha20Poly1305: the last 4 bytes are the
   * wire nonce, taken verbatim; the rest is opened.
   */
  function OpenPacket(aead: Aead, mode: EncryptionMode, key: Bytes, header: Bytes,
                      blob: Bytes): (plain: Option<Bytes>)
    requires mode != NoEncryption
  {
    if |blob| < NonceSize + TagSize(mode) then None
    else aead.open(mode, key, AeadNonce(mode, blob[|blob| - NonceSize..]), header,
                   blob[..|blob| - NonceSize])
  }

  /** The counter after one successful packet: uint32_t increment. */
  function NextNonce(c: U32): (n: U32)
  {
    (c + 1) % Two32
  }

  /** The counter after `k` increments. */
  function Advance(c: U32, k: nat): (n: U32)
  {
    if k == 0 then c else NextNonce(Advance(c, k - 1))
  }

  /** Each nonce is 12 (AES-GCM) or 24 (XChaCha) bytes and ends in the wire counter. */
  lemma AeadNonceLayout(mode: EncryptionMode, counter: U32)
    requires mode != NoEncryption
    ensures |AeadNonce(mode, Be32(counter))| == (if mode == Aes256GcmRtpSize then 12 else 24)
    ensures AeadNonce(mode, Be32(counter))[|AeadNonce(mode, Be32(counter))| - NonceSize..] == Be32(counter)
    ensures forall i :: 0 <= i < NoncePadding(mode) ==> AeadNonce(mode, Be32(counter))[i] == 0
  {
  }

  /** Distinct counters give distinct nonces. */
  lemma NonceInjective(mode: EncryptionMode, c1: U32, c2: U32)
    requires mode != NoEncryption
    requires AeadNonce(mode, Be32(c1)) == AeadNonce(mode, Be32(c2))
    ensures c1 == c2
  {
    var n1 := AeadNonce(mode, Be32(c1));
    var n2 := AeadNonce(mode, Be32(c2));
    assert n1[NoncePadding(mode)..] == Be32(c1);
    assert n2[NoncePadding(mode)..] == Be32(c2);
    Be32Injective(c1, c2);
  }

  /** k increments add k modulo 2^32. */
  lemma {:induction false} AdvanceAdds(c: U32, k: nat)
    ensures Advance(c, k) == (c + k) % Two32
  {
    if k > 0 {
      AdvanceAdds(c, k - 1);
    }
  }

  /** The counter comes back to a value only after 2^32 increments. */
  lemma NonceRepeatsOnlyAfterWrap(c: U32, k: nat)
    requires 0 < k < Two32
    ensures Advance(c, k) != c
  {
    AdvanceAdds(c, k);
  }

  /**
   * A sealed packet is payload + tag + 4 bytes long and carries the counter,
   * big-endian, in its last four bytes.
   */
  lemma SealPacketLayout(aead: Aead, mode: EncryptionMode, key: Bytes, counter: U32,
                         header: Bytes, payload: Bytes)
    requires Sound(aead) && mode != NoEncryption
    requires SealPacket(aead, mode, key, counter, header, payload).Some?
    ensures var blob := SealPacket(aead, mode, key, counter, header, payload).value;
      |blob| == |payload| + TagSize(mode) + NonceSize &&
      blob[|blob| - NonceSize..] == Be32(counter) &&
      FromBe32(blob[|blob| - NonceSize..]) == counter
  {
    var nonce := AeadNonce(mode, Be32(counter));
    var sealed := aead.seal(mode, key, nonce, header, payload).value;
    var blob := sealed + Be32(counter);
    assert blob[|blob| - NonceSize..] == Be32(counter);
    Be32RoundTrip(counter);
  }

  /** Opening a packet sealed with the same key, mode and header gives the payload back. */
  lemma RoundTrip(aead: Aead, mode: EncryptionMode, key: Bytes, counter: U32,
                  header: Bytes, payload: Bytes)
    requires Sound(aead) && mode != NoEncryption
    requires SealPacket(aead, mode, key, counter, header, payload).Some?
    ensures OpenPacket(aead, mode, key, header,
                       SealPacket(aead, mode, key, counter, header, payload).value) == Some(payload)
  {
    var nonce := AeadNonce(mode, Be32(counter));
    var sealed := aead.seal(mode, key, nonce, header, payload).value;
    var blob := sealed + Be32(counter);
    assert |sealed| == |payload| + TagSize(mode);
    assert blob[|blob| - NonceSize..] == Be32(counter);
    assert blob[..|blob| - NonceSize] == sealed;
  }

  /** The key all-zero bytes the stream starts with is never accepted by SetSecretKey. */
  lemma InitialKeyIsNotValid()
    ensures !IsValidSecretKey(Zeros(SecretKeySize))
  {
  }

  class VoiceTransportCrypto {
    var mode: EncryptionMode
    var nonceCounter: U32
    /** false when the constructor was given an unsupported mode name */
    const initialized: bool
    /** resized to 32 zero bytes by InitializeCrypto, overwritten in place by SetSecretKey */
    const secretKey: array<byte>
    const aead: Aead

    ghost predicate Valid()
      reads this
    {
      secretKey.Length == if initialized then SecretKeySize else 0
    }

    /**
     * The optional mode name is mapped without the AES availability probe;
     * an unknown name aborts construction before the key is sized.
     */
    constructor (aead: Aead, requestedMode: Option<string>)
      ensures Valid() && fresh(secretKey)
      ensures this.aead == aead && nonceCounter == 0
      ensures initialized <==> requestedMode.None? || ModeFromName(requestedMode.value).Some?
      ensures mode == if requestedMode.Some? && ModeFromName(requestedMode.value).Some?
                      then ModeFromName(requestedMode.value).value else NoEncryption
      ensures forall i :: 0 <= i < secretKey.Length ==> secretKey[i] == 0
    {
      this.aead := aead;
      var selected := NoEncryption;
      var ok := true;
      if requestedMode.Some? {
        match ModeFromName(requestedMode.value)
        case Some(m) => selected := m;
        case None => ok := false;
      }
      mode := selected;
      nonceCounter := 0;
      initialized := ok;
      secretKey := new byte[if ok then SecretKeySize else 0](_ => 0);
    }

    /** The destructor scrubs the key. */
    method Dispose()
      requires Valid()
      modifies secretKey
      ensures forall i :: 0 <= i < secretKey.Length ==> secretKey[i] == 0
    {
      var i := 0;
      while i < secretKey.Length
        invariant 0 <= i <= secretKey.Length
        invariant forall j :: 0 <= j < i ==> secretKey[j] == 0
      {
        secretKey[i] := 0;
        i := i + 1;
      }
    }

    /** Accepts exactly the 32-byte keys with some non-zero byte. */
    method ValidateSecretKey(key: Bytes) returns (ok: bool)
      ensures ok == IsValidSecretKey(key)
    {
      if |key| != SecretKeySize {
        return false;
      }
      var allZeros := true;
      var i := 0;
      while i < |key|
        invariant 0 <= i <= |key|
        invariant allZeros
        invariant forall j :: 0 <= j < i ==> key[j] == 0
      {
        if key[i] != 0 {
          allZeros := false;
          break;
        }
        i := i + 1;
      }
      return !allZeros;
    }

    /** Validates first; only an accepted key is written (after zeroing the old one). */
    method SetSecretKey(key: Bytes) returns (r: Result<(), CryptoError>)
      requires Valid()
      modifies secretKey
      ensures Valid()
      ensures !initialized ==> r == Err(NotInitialized) && secretKey[..] == old(secretKey[..])
      ensures initialized && !IsValidSecretKey(key) ==>
                r == Err(InvalidSecretKey) && secretKey[..] == old(secretKey[..])
      ensures initialized && IsValidSecretKey(key) ==> r == Ok(()) && secretKey[..] == key
    {
      if !initialized {
        return Err(NotInitialized);
      }
      var valid := ValidateSecretKey(key);
      if !valid {
        return Err(InvalidSecretKey);
      }
      var i := 0;
      while i < secretKey.Length
        invariant 0 <= i <= secretKey.Length
        invariant forall j :: 0 <= j < i ==> secretKey[j] == 0
      {
        secretKey[i] := 0;
        i := i + 1;
      }
      i := 0;
      while i < secretKey.Length
        invariant 0 <= i <= secretKey.Length
        invariant forall j :: 0 <= j < i ==> secretKey[j] == key[j]
      {
        secretKey[i] := key[i];
        i := i + 1;
      }
      assert secretKey[..] == key;
      return Ok(());
    }

    /** Selects a mode by name; AES-GCM also needs the platform probe. */
    method SetMode(name: string, aesAvailable: bool) returns (r: Result<(), CryptoError>)
      modifies this`mode
      ensures r.Ok? <==> ValidateMode(name, aesAvailable)
      ensures r.Ok? ==> ModeName(mode) == name
      ensures r.Err? ==> mode == old(mode)
      ensures r == Err(AesGcmUnavailable) <==> name == AesModeName && !aesAvailable
      ensures name != AesModeName && name != XChaChaModeName ==> r == Err(UnsupportedMode)
    {
      if name == AesModeName {
        if !aesAvailable {
          return Err(AesGcmUnavailable);
        }
        mode := Aes256GcmRtpSize;
      } else if name == XChaChaModeName {
        mode := XChaCha20Poly1305RtpSize;
      } else {
        return Err(UnsupportedMode);
      }
      return Ok(());
    }

    /** setNonce: the number is converted as by Uint32Value (modulo 2^32). */
    method SetNonce(value: int)
      modifies this`nonceCounter
      ensures nonceCounter == value % Two32
    {
      nonceCounter := value % Two32;
    }

    method GetNonce() returns (n: U32)
      ensures n == nonceCounter
    {
      return nonceCounter;
    }

    method IncrementNonce() returns (n: U32)
      modifies this`nonceCounter
      ensures nonceCounter == Advance(old(nonceCounter), 1) && n == nonceCounter
    {
      nonceCounter := NextNonce(nonceCounter);
      return nonceCounter;
    }

    method Reset()
      modifies this`nonceCounter
      ensures nonceCounter == 0
    {
      nonceCounter := 0;
    }

    /**
     * Seals `payload` with the current counter as nonce and advances the
     * counter; every failure leaves the counter as it was.  The key is not
     * checked: before SetSecretKey it is all zeros.
     */
    method Encrypt(header: Bytes, payload: Bytes) returns (r: Result<Bytes, CryptoError>)
      requires Valid()
      modifies this`nonceCounter
      ensures !initialized ==> r == Err(NotInitialized)
      ensures initialized && mode == NoEncryption ==> r == Err(NoModeSet)
      ensures initialized && mode != NoEncryption && |header| < RtpHeaderSize ==>
                r == Err(HeaderTooSmall)
      ensures initialized && mode != NoEncryption && |header| >= RtpHeaderSize ==>
                r == match SealPacket(aead, mode, secretKey[..], old(nonceCounter), header, payload)
                     case None => Err(EncryptionFailed)
                     case Some(blob) => Ok(blob)
      ensures r.Ok? ==> nonceCounter == Advance(old(nonceCounter), 1)
      ensures r.Err? ==> nonceCounter == old(nonceCounter)
    {
      if !initialized {
        return Err(NotInitialized);
      }
      if mode == NoEncryption {
        return Err(NoModeSet);
      }
      if |header| < RtpHeaderSize {
        return Err(HeaderTooSmall);
      }
      match SealPacket(aead, mode, secretKey[..], nonceCounter, header, payload)
      case None =>
        return Err(EncryptionFailed);
      case Some(blob) =>
        nonceCounter := NextNonce(nonceCounter);
        return Ok(blob);
    }

    /** Opens a packet using the nonce it carries; the counter is not consulted or changed. */
    method Decrypt(header: Bytes, blob: Bytes) returns (r: Result<Bytes, CryptoError>)
      requires Valid()
      ensures !initialized ==> r == Err(NotInitialized)
      ensures initialized && mode == NoEncryption ==> r == Err(NoModeSet)
      ensures initialized && mode != NoEncryption && |header| < RtpHeaderSize ==>
                r == Err(HeaderTooSmall)
      ensures initialized && mode != NoEncryption && |header| >= RtpHeaderSize &&
              |blob| < TagSize(mode) + NonceSize
              ==> r == Err(CiphertextTooSmall)
      ensures initialized && mode != NoEncryption && |header| >= RtpHeaderSize &&
              |blob| >= TagSize(mode) + NonceSize
              ==> r == match OpenPacket(aead, mode, secretKey[..], header, blob)
                     case None => Err(DecryptionFailed)
                     case Some(plain) => Ok(plain)
    {
      if !initialized {
        return Err(NotInitialized);
      }
      if mode == NoEncryption {
        return Err(NoModeSet);
      }
      if |header| < RtpHeaderSize {
        return Err(HeaderTooSmall);
      }
      if |blob| < TagSize(mode) + NonceSize {
        return Err(CiphertextTooSmall);
      }
      match OpenPacket(aead, mode, secretKey[..], header, blob)
      case None =>
        return Err(DecryptionFailed);
      case Some(plain) =>
        return Ok(plain);
    }
  }
}
