/** Envelope encryption of secrets at rest: the DWV1 blob layout, the local KEK provider and the cipher.

    AES-GCM is a pair of functions about which only its laws are used: opening undoes sealing under the
    same key and nonce, and sealing adds a 16-byte tag. Random bytes and decoded base64 are inputs. */
module Envelope {
  import opened Basics

  type Byte = x: int | 0 <= x < 256
  type Bytes = seq<Byte>

  const MAGIC: Bytes := [0x44, 0x57, 0x56, 0x31]  // "DWV1"
  const VERSION: Byte := 1
  const NONCE_SIZE := 12
  const TAG_SIZE := 16
  const DEK_SIZE := 32

  datatype Error =
    | BadMagic
    | BadVersion(version: Byte)
    | TruncatedKekId
    | TruncatedBody
    | KekIdTooLong
    | UnknownKek
    | WrappedDekTooShort
    | BadKeySize
    | AuthenticationFailed

  // ---- the layout ----

  /** The fields of a blob. */
  datatype Blob = Blob(kekId: Bytes, wrappedDek: Bytes, nonce: Bytes, tag: Bytes, ct: Bytes) {
    predicate Fits() {
      |kekId| <= 0xFF && |wrappedDek| <= 0xFFFF && |nonce| == NONCE_SIZE && |tag| == TAG_SIZE
    }
  }

  function BigEndian16(n: int): Bytes
    requires 0 <= n <= 0xFFFF
  {
    [n / 256, n % 256]
  }

  function Print(b: Blob): Bytes
    requires b.Fits()
  {
    MAGIC + [VERSION] + [|b.kekId|] + b.kekId + BigEndian16(|b.wrappedDek|) + b.wrappedDek + b.nonce + b.tag + b.ct
  }

  /** The structural half of Decrypt, by offsets. */
  function Parse(blob: Bytes): Result<Blob, Error> {
    if |blob| < 6 || blob[..4] != MAGIC then Err(BadMagic)
    else if blob[4] != VERSION then Err(BadVersion(blob[4]))
    else
      var k := 6 + blob[5] as int;
      if |blob| < k + 2 then Err(TruncatedKekId)
      else
        var w := k + 2 + (blob[k] as int * 256 + blob[k + 1] as int);
        if |blob| < w + NONCE_SIZE + TAG_SIZE then Err(TruncatedBody)
        else Ok(Blob(blob[6..k], blob[k + 2..w], blob[w..w + NONCE_SIZE],
                     blob[w + NONCE_SIZE..w + NONCE_SIZE + TAG_SIZE], blob[w + NONCE_SIZE + TAG_SIZE..]))
  }

  lemma PrintHead(b: Blob)
    requires b.Fits()
    ensures var p, k := Print(b), 6 + |b.kekId|;
            && |p| == k + 2 + |b.wrappedDek| + NONCE_SIZE + TAG_SIZE + |b.ct|
            && p[..4] == MAGIC && p[4] == VERSION && p[5] == |b.kekId| && p[6..k] == b.kekId
            && p[k] == |b.wrappedDek| / 256 && p[k + 1] == |b.wrappedDek| % 256
            && p[k + 2..] == b.wrappedDek + b.nonce + b.tag + b.ct
  {
    var head := MAGIC + [VERSION] + [|b.kekId|];
    var tail := b.wrappedDek + b.nonce + b.tag + b.ct;
    assert Print(b) == head + b.kekId + BigEndian16(|b.wrappedDek|) + tail;
  }

  lemma TailParts(wrappedDek: Bytes, nonce: Bytes, tag: Bytes, ct: Bytes)
    ensures var tail, w, o := wrappedDek + nonce + tag + ct, |wrappedDek|, |wrappedDek| + |nonce|;
            tail[..w] == wrappedDek && tail[w..o] == nonce && tail[o..o + |tag|] == tag && tail[o + |tag|..] == ct
  {}

  /** What each byte string parses to: the magic, the version and the two lengths decide, in this order. */
  lemma ParseReadsOffsets(blob: Bytes)
    ensures var r := Parse(blob);
            if |blob| < 6 || blob[0] != 0x44 || blob[1] != 0x57 || blob[2] != 0x56 || blob[3] != 0x31 then r == Err(BadMagic)
            else if blob[4] != 1 then r == Err(BadVersion(blob[4]))
            else
              var k := blob[5] as int;
              if |blob| < 8 + k then r == Err(TruncatedKekId)
              else
                var w := blob[6 + k] as int * 256 + blob[7 + k] as int;
                if |blob| < 8 + k + w + 28 then r == Err(TruncatedBody)
                else r == Ok(Blob(blob[6..6 + k], blob[8 + k..8 + k + w], blob[8 + k + w..20 + k + w],
                                  blob[20 + k + w..36 + k + w], blob[36 + k + w..]))
  {
    if |blob| >= 6 { assert blob[..4] == [blob[0], blob[1], blob[2], blob[3]]; }
  }

  /** Parsing a printed tuple of fields returns it. */
  lemma ParsePrint(b: Blob)
    requires b.Fits()
    ensures Parse(Print(b)) == Ok(b)
  {
    var p, k := Print(b), 6 + |b.kekId|;
    var w := k + 2 + |b.wrappedDek|;
    PrintHead(b);
    TailParts(b.wrappedDek, b.nonce, b.tag, b.ct);
    var tail := p[k + 2..];
    assert p[k + 2..w] == tail[..|b.wrappedDek|];
    assert p[w..w + NONCE_SIZE] == tail[|b.wrappedDek|..|b.wrappedDek| + NONCE_SIZE];
    assert p[w + NONCE_SIZE..w + NONCE_SIZE + TAG_SIZE]
           == tail[|b.wrappedDek| + NONCE_SIZE..|b.wrappedDek| + NONCE_SIZE + TAG_SIZE];
    assert p[w + NONCE_SIZE + TAG_SIZE..] == tail[|b.wrappedDek| + NONCE_SIZE + TAG_SIZE..];
  }

  /** Any byte string the parser accepts prints back to itself. */
  lemma PrintParse(blob: Bytes)
    requires Parse(blob).Ok?
    ensures Parse(blob).value.Fits() && Print(Parse(blob).value) == blob
  {
    var b := Parse(blob).value;
    var k := 6 + blob[5] as int;
    var w := k + 2 + (blob[k] as int * 256 + blob[k + 1] as int);
    var head := MAGIC + [VERSION] + [|b.kekId|];
    assert head == blob[..6];
    assert head + b.kekId == blob[..k];
    assert blob[..k] + BigEndian16(|b.wrappedDek|) == blob[..k + 2];
    assert blob[..k + 2] + b.wrappedDek == blob[..w];
    assert blob[..w] + b.nonce == blob[..w + NONCE_SIZE];
    assert blob[..w + NONCE_SIZE] + b.tag == blob[..w + NONCE_SIZE + TAG_SIZE];
    assert blob[..w + NONCE_SIZE + TAG_SIZE] + b.ct == blob;
  }

  /** Two different tuples never print alike. */
  lemma PrintInjective(a: Blob, b: Blob)
    requires a.Fits() && b.Fits() && Print(a) == Print(b)
    ensures a == b
  {
    ParsePrint(a);
    ParsePrint(b);
  }

  // ---- AES-GCM and the KEKs ----

  datatype Aead = Aead(seal: (Bytes, Bytes, Bytes) -> Bytes, open: (Bytes, Bytes, Bytes) -> Option<Bytes>)

  ghost predicate Lawful(gcm: Aead) {
    forall key, nonce, plain ::
      |gcm.seal(key, nonce, plain)| == |plain| + TAG_SIZE && gcm.open(key, nonce, gcm.seal(key, nonce, plain)) == Some(plain)
  }

  /** Go's Seal returns ciphertext || tag. */
  function CtOf(sealed: Bytes): Bytes
    requires |sealed| >= TAG_SIZE
  {
    sealed[..|sealed| - TAG_SIZE]
  }

  function TagOf(sealed: Bytes): Bytes
    requires |sealed| >= TAG_SIZE
  {
    sealed[|sealed| - TAG_SIZE..]
  }

  predicate KeySizeOk(key: Bytes) {
    |key| == 16 || |key| == 24 || |key| == 32
  }

  datatype KekError = NoActiveId | NoKeks | BadBase64(id: Bytes) | BadLength(id: Bytes, length: int) | ActiveMissing

  /** A configured key, None where its base64 cannot be decoded, is of no use for this reason. */
  function KeyError(id: Bytes, key: Option<Bytes>): Option<KekError> {
    match key
    case None => Some(BadBase64(id))
    case Some(bytes) => if |bytes| == 32 then None else Some(BadLength(id, |bytes|))
  }

  /** The KEKs by id, and the id new DEKs are wrapped with. */
  datatype Keks = Keks(keys: map<Bytes, Bytes>, active: Bytes) {
    predicate Valid() {
      active != [] && active in keys && forall id :: id in keys ==> |keys[id]| == 32
    }
  }

  function Wrapped(gcm: Aead, keks: Keks, dek: Bytes, nonce: Bytes): Bytes
    requires keks.Valid()
  {
    var sealed := gcm.seal(keks.keys[keks.active], nonce, dek);
    if |sealed| < TAG_SIZE then [] else nonce + TagOf(sealed) + CtOf(sealed)
  }

  function Unwrapped(gcm: Aead, keks: Keks, kekId: Bytes, wrapped: Bytes): Result<Bytes, Error> {
    if kekId !in keks.keys then Err(UnknownKek)
    else if |wrapped| < NONCE_SIZE + TAG_SIZE then Err(WrappedDekTooShort)
    else
      match gcm.open(keks.keys[kekId], wrapped[..NONCE_SIZE],
                     wrapped[NONCE_SIZE + TAG_SIZE..] + wrapped[NONCE_SIZE..NONCE_SIZE + TAG_SIZE])
      case Some(dek) => Ok(dek)
      case None => Err(AuthenticationFailed)
  }

  /** The random bytes one encryption draws. */
  datatype Rand = Rand(dek: Bytes, nonce: Bytes, wrapNonce: Bytes) {
    predicate Valid() {
      |dek| == DEK_SIZE && |nonce| == NONCE_SIZE && |wrapNonce| == NONCE_SIZE
    }
  }

  function BlobFor(gcm: Aead, keks: Keks, plain: Bytes, r: Rand): Blob
    requires keks.Valid()
  {
    var sealed := gcm.seal(r.dek, r.nonce, plain);
    if |sealed| < TAG_SIZE then Blob([], [], [], [], [])
    else Blob(keks.active, Wrapped(gcm, keks, r.dek, r.wrapNonce), r.nonce, TagOf(sealed), CtOf(sealed))
  }

  /** Opening what the fields of a blob hold. */
  function Opened(gcm: Aead, keks: Keks, b: Blob): Result<Bytes, Error> {
    match Unwrapped(gcm, keks, b.kekId, b.wrappedDek)
    case Err(e) => Err(e)
    case Ok(dek) =>
      if !KeySizeOk(dek) then Err(BadKeySize)
      else match gcm.open(dek, b.nonce, b.ct + b.tag)
           case Some(plain) => Ok(plain)
           case None => Err(AuthenticationFailed)
  }

  function Decrypted(gcm: Aead, keks: Keks, blob: Bytes): Result<Bytes, Error> {
    match Parse(blob)
    case Err(e) => Err(e)
    case Ok(b) => Opened(gcm, keks, b)
  }

  /** A wrapped DEK opens under the KEK of the given id as nonce, tag and ciphertext, or says why it does not. */
  lemma UnwrappedMeans(gcm: Aead, keks: Keks, kekId: Bytes, wrapped: Bytes)
    ensures var r := Unwrapped(gcm, keks, kekId, wrapped);
            if kekId !in keks.keys then r == Err(UnknownKek)
            else if |wrapped| < 28 then r == Err(WrappedDekTooShort)
            else match gcm.open(keks.keys[kekId], wrapped[..12], wrapped[28..] + wrapped[12..28])
                 case Some(dek) => r == Ok(dek)
                 case None => r == Err(AuthenticationFailed)
  {}

  /** A blob decrypts to a plaintext if and only if it parses, its KEK is known, the DEK opens under it and is an
      AES key, and the ciphertext opens under the DEK to that plaintext. */
  lemma DecryptsIff(gcm: Aead, keks: Keks, blob: Bytes, plain: Bytes)
    ensures Decrypted(gcm, keks, blob) == Ok(plain) <==>
            Parse(blob).Ok? &&
            var b := Parse(blob).value;
            b.kekId in keks.keys && |b.wrappedDek| >= 28 &&
            var dek := gcm.open(keks.keys[b.kekId], b.wrappedDek[..12], b.wrappedDek[28..] + b.wrappedDek[12..28]);
            dek.Some? && (|dek.value| == 16 || |dek.value| == 24 || |dek.value| == 32)
            && gcm.open(dek.value, b.nonce, b.ct + b.tag) == Some(plain)
  {}

  /** KEKs under which what `past` sealed can still be read: the id is known with the same key. */
  predicate StillHas(keks: Keks, past: Keks) {
    past.active in past.keys && past.active in keks.keys && keks.keys[past.active] == past.keys[past.active]
  }

  lemma WrappedParts(gcm: Aead, keks: Keks, dek: Bytes, nonce: Bytes)
    requires Lawful(gcm) && keks.Valid() && |nonce| == NONCE_SIZE
    ensures var wrapped := Wrapped(gcm, keks, dek, nonce);
            && |wrapped| >= 28 && wrapped[..12] == nonce
            && wrapped[28..] + wrapped[12..28] == gcm.seal(keks.keys[keks.active], nonce, dek)
  {
    var sealed := gcm.seal(keks.keys[keks.active], nonce, dek);
    var wrapped := Wrapped(gcm, keks, dek, nonce);
    assert wrapped[..NONCE_SIZE] == nonce;
    assert wrapped[NONCE_SIZE..NONCE_SIZE + TAG_SIZE] == TagOf(sealed);
    assert wrapped[NONCE_SIZE + TAG_SIZE..] == CtOf(sealed);
    assert CtOf(sealed) + TagOf(sealed) == sealed;
  }

  lemma UnwrapWrapped(gcm: Aead, past: Keks, keks: Keks, dek: Bytes, nonce: Bytes)
    requires Lawful(gcm) && past.Valid() && StillHas(keks, past) && |nonce| == NONCE_SIZE
    ensures Unwrapped(gcm, keks, past.active, Wrapped(gcm, past, dek, nonce)) == Ok(dek)
    ensures |Wrapped(gcm, past, dek, nonce)| == NONCE_SIZE + TAG_SIZE + |dek|
  {
    var sealed := gcm.seal(past.keys[past.active], nonce, dek);
    var wrapped := Wrapped(gcm, past, dek, nonce);
    assert wrapped[..NONCE_SIZE] == nonce;
    assert wrapped[NONCE_SIZE..NONCE_SIZE + TAG_SIZE] == TagOf(sealed);
    assert wrapped[NONCE_SIZE + TAG_SIZE..] == CtOf(sealed);
    assert CtOf(sealed) + TagOf(sealed) == sealed;
  }

  // ---- the code ----

  /** NewLocalKekProvider; `decoded` holds the base64-decoded keys. Of several bad keys the one the map's
      iteration comes to first is reported. */
  method NewLocalKekProvider(active: Bytes, decoded: map<Bytes, Option<Bytes>>) returns (r: Result<Keks, KekError>)
    ensures r.Ok? <==> active != [] && active in decoded && forall id :: id in decoded ==> decoded[id].Some? && |decoded[id].value| == 32
    ensures forall id :: r == Err(BadBase64(id)) ==> id in decoded && decoded[id].None?
    ensures forall id, n :: r == Err(BadLength(id, n)) ==> id in decoded && decoded[id].Some? && |decoded[id].value| == n != 32
    ensures r == Err(NoActiveId) <==> active == []
    ensures r == Err(NoKeks) <==> active != [] && decoded == map[]
    ensures active != [] && decoded != map[] ==>
              match r
              case Ok(keks) =>
                && keks.Valid() && keks.active == active && keks.keys.Keys == decoded.Keys
                && forall id :: id in decoded ==> decoded[id] == Some(keks.keys[id])
              case Err(ActiveMissing) => active !in decoded && forall id :: id in decoded ==> KeyError(id, decoded[id]).None?
              case Err(error) => exists id :: id in decoded && KeyError(id, decoded[id]) == Some(error)
  {
    if active == [] {
      return Err(NoActiveId);
    }
    if decoded == map[] {
      return Err(NoKeks);
    }
    var keys: map<Bytes, Bytes> := map[];
    var pending := decoded.Keys;
    while pending != {}
      invariant pending <= decoded.Keys && keys.Keys == decoded.Keys - pending
      invariant forall id :: id in keys ==> decoded[id] == Some(keys[id]) && |keys[id]| == 32
    {
      var id := AnyOf(pending);
      if decoded[id].None? {
        return Err(BadBase64(id));
      }
      var key := decoded[id].value;
      if |key| != 32 {
        return Err(BadLength(id, |key|));
      }
      keys := keys[id := key];
      pending := pending - {id};
    }
    if active !in keys {
      return Err(ActiveMissing);
    }
    return Ok(Keks(keys, active));
  }

  class EnvelopeCipher {
    const gcm: Aead
    const keks: Keks

    constructor (gcm: Aead, keks: Keks)
      ensures this.gcm == gcm && this.keks == keks
    {
      this.gcm, this.keks := gcm, keks;
    }

    /** Encrypt appends the fields to the blob one by one. A blob is returned unless the active id does
        not fit its length byte, and it parses to the fields. */
    method Encrypt(plain: Bytes, r: Rand) returns (blob: Result<Bytes, Error>)
      requires Lawful(gcm) && keks.Valid() && r.Valid()
      ensures if |keks.active| > 0xFF then blob == Err(KekIdTooLong)
              else blob.Ok? && Parse(blob.value) == Ok(BlobFor(gcm, keks, plain, r))
      ensures blob.Ok? ==>
                var b := BlobFor(gcm, keks, plain, r);
                && b.kekId == keks.active && b.nonce == r.nonce && b.ct + b.tag == gcm.seal(r.dek, r.nonce, plain)
                && b.wrappedDek[..12] == r.wrapNonce
                && b.wrappedDek[28..] + b.wrappedDek[12..28] == gcm.seal(keks.keys[keks.active], r.wrapNonce, r.dek)
    {
      var sealed := gcm.seal(r.dek, r.nonce, plain);
      var ct, tag := sealed[..|sealed| - TAG_SIZE], sealed[|sealed| - TAG_SIZE..];
      var wrappedDek := Wrap(r.dek, r.wrapNonce);
      var kekId := keks.active;
      if |kekId| > 0xFF {
        return Err(KekIdTooLong);
      }
      UnwrapWrapped(gcm, keks, keks, r.dek, r.wrapNonce);
      WrappedParts(gcm, keks, r.dek, r.wrapNonce);
      assert ct + tag == sealed;
      var out: Bytes := [];
      out := out + MAGIC;
      out := out + [VERSION];
      out := out + [|kekId|];
      out := out + kekId;
      out := out + [|wrappedDek| / 256, |wrappedDek| % 256];
      out := out + wrappedDek;
      out := out + r.nonce;
      out := out + tag;
      out := out + ct;
      assert out == Print(BlobFor(gcm, keks, plain, r));
      ParsePrint(BlobFor(gcm, keks, plain, r));
      return Ok(out);
    }

    method Wrap(dek: Bytes, nonce: Bytes) returns (wrapped: Bytes)
      requires Lawful(gcm) && keks.Valid()
      ensures wrapped == Wrapped(gcm, keks, dek, nonce)
      ensures var sealed := gcm.seal(keks.keys[keks.active], nonce, dek);
              wrapped == nonce + sealed[|sealed| - 16..] + sealed[..|sealed| - 16]
    {
      var sealed := gcm.seal(keks.keys[keks.active], nonce, dek);
      var ct, tag := sealed[..|sealed| - TAG_SIZE], sealed[|sealed| - TAG_SIZE..];
      wrapped := [];
      wrapped := wrapped + nonce;
      wrapped := wrapped + tag;
      wrapped := wrapped + ct;
    }

    /** Decrypt advances an offset through the blob; every input gets an answer. */
    method Decrypt(blob: Bytes) returns (plain: Result<Bytes, Error>)
      ensures plain == Decrypted(gcm, keks, blob)
      ensures match Parse(blob)
              case Err(e) => plain == Err(e)
              case Ok(b) =>
                if b.kekId !in keks.keys then plain == Err(UnknownKek)
                else if |b.wrappedDek| < 28 then plain == Err(WrappedDekTooShort)
                else
                  match gcm.open(keks.keys[b.kekId], b.wrappedDek[..12], b.wrappedDek[28..] + b.wrappedDek[12..28])
                  case None => plain == Err(AuthenticationFailed)
                  case Some(dek) =>
                    if |dek| != 16 && |dek| != 24 && |dek| != 32 then plain == Err(BadKeySize)
                    else match gcm.open(dek, b.nonce, b.ct + b.tag)
                         case Some(p) => plain == Ok(p)
                         case None => plain == Err(AuthenticationFailed)
    {
      var o := 0;
      if |blob| < |MAGIC| + 2 || blob[..|MAGIC|] != MAGIC {
        return Err(BadMagic);
      }
      o := o + |MAGIC|;
      if blob[o] != VERSION {
        return Err(BadVersion(blob[o]));
      }
      o := o + 1;
      var kekIdLen := blob[o] as int;
      o := o + 1;
      if |blob| < o + kekIdLen + 2 {
        return Err(TruncatedKekId);
      }
      var kekId := blob[o..o + kekIdLen];
      o := o + kekIdLen;
      var wrappedLen := blob[o] as int * 256 + blob[o + 1] as int;
      o := o + 2;
      if |blob| < o + wrappedLen + NONCE_SIZE + TAG_SIZE {
        return Err(TruncatedBody);
      }
      var wrappedDek := blob[o..o + wrappedLen];
      o := o + wrappedLen;
      var nonce := blob[o..o + NONCE_SIZE];
      o := o + NONCE_SIZE;
      var tag := blob[o..o + TAG_SIZE];
      o := o + TAG_SIZE;
      var ct := blob[o..];
      assert Parse(blob) == Ok(Blob(kekId, wrappedDek, nonce, tag, ct));
      var dek := Unwrapped(gcm, keks, kekId, wrappedDek);
      if dek.Err? {
        return Err(dek.error);
      }
      if !KeySizeOk(dek.value) {
        return Err(BadKeySize);
      }
      var unsealed := gcm.open(dek.value, nonce, ct + tag);
      return if unsealed.Some? then Ok(unsealed.value) else Err(AuthenticationFailed);
    }
  }

  // ---- what the vault relies on ----

  /** A blob made under `past` opens to its plaintext under every KEK set that still has past's active key,
      whatever its own active id is now; and the blob is 96 bytes longer than the id and the plaintext. */
  lemma RoundTripUnderRotation(gcm: Aead, past: Keks, keks: Keks, plain: Bytes, r: Rand, blob: Bytes)
    requires Lawful(gcm) && past.Valid() && r.Valid() && StillHas(keks, past)
    requires Parse(blob) == Ok(BlobFor(gcm, past, plain, r))
    ensures Decrypted(gcm, keks, blob) == Ok(plain)
    ensures |blob| == 96 + |past.active| + |plain|
  {
    UnwrapWrapped(gcm, past, keks, r.dek, r.wrapNonce);
    var sealed := gcm.seal(r.dek, r.nonce, plain);
    assert CtOf(sealed) + TagOf(sealed) == sealed;
    PrintParse(blob);
  }

  /** Retiring a key makes exactly the blobs of its id unreadable, with the reason named. */
  lemma RetiredKekIsNamed(gcm: Aead, keks: Keks, blob: Bytes)
    ensures Decrypted(gcm, keks, blob) == Err(UnknownKek) <==> Parse(blob).Ok? && Parse(blob).value.kekId !in keks.keys
  {}

  /** The laws asked of AES-GCM can be met. */
  lemma LawsAreConsistent() returns (gcm: Aead)
    ensures Lawful(gcm)
  {
    var tag := seq(TAG_SIZE, _ => 0 as Byte);
    gcm := Aead((key, nonce, plain) => plain + tag,
                (key, nonce, sealed) => if |sealed| < TAG_SIZE then None else Some(CtOf(sealed)));
    forall key: Bytes, nonce: Bytes, plain: Bytes
      ensures |gcm.seal(key, nonce, plain)| == |plain| + TAG_SIZE && gcm.open(key, nonce, gcm.seal(key, nonce, plain)) == Some(plain)
    {
      assert CtOf(plain + tag) == plain;
    }
  }
}
