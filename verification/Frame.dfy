// The encrypted object format and the versioned keyring (internal/crypto/frame.go) over an
// abstract authenticated cipher.
module Frame {
  import opened Wrappers

  type KeyId = k: int | 0 <= k < 0x1_0000

  const MAGIC: Bytes := "LMB1"
  const FORMAT_VERSION: Byte := 1 as char
  const KEY_SIZE := 32
  const NONCE_SIZE := 12
  const TAG_SIZE := 16
  const HEADER_SIZE := 7
  const BODY_OFFSET := HEADER_SIZE + NONCE_SIZE
  const MIN_OBJECT_LEN := HEADER_SIZE + NONCE_SIZE + TAG_SIZE

  datatype FrameError =
    | Malformed | BadMagic | UnsupportedVersion | UnknownKeyId | AuthFailed
    | BadNonce | SealFailed | NoKeys | BadKeyLength | NoActiveKey

  // The primitive seam: seal(key, nonce, plaintext, aad), open(key, nonce, ciphertext||tag, aad).
  datatype Aead = Aead(
    seal: (Bytes, Bytes, Bytes, Bytes) -> Option<Bytes>,
    open: (Bytes, Bytes, Bytes, Bytes) -> Option<Bytes>)

  // All that is assumed of the primitive: open inverts seal, and seal appends a 16-byte tag.
  ghost predicate Lawful(a: Aead) {
    forall key: Bytes, nonce: Bytes, plaintext: Bytes, aad: Bytes ::
      var sealed := a.seal(key, nonce, plaintext, aad);
      sealed.Some? ==>
        && |sealed.value| == |plaintext| + TAG_SIZE
        && a.open(key, nonce, sealed.value, aad) == Some(plaintext)
  }

  datatype Keyring = Keyring(active: KeyId, keys: map<KeyId, Bytes>)

  ghost predicate ValidKeyring(kr: Keyring) {
    && kr.active in kr.keys
    && forall id :: id in kr.keys ==> |kr.keys[id]| == KEY_SIZE
  }

  // Copies the keys one by one; any key of the wrong size refuses the whole ring.
  method NewKeyring(active: KeyId, keys: map<KeyId, Bytes>) returns (r: Result<Keyring, FrameError>)
    ensures r.Ok? <==> ValidKeyring(Keyring(active, keys))
    ensures r.Ok? ==> r.value == Keyring(active, keys)
    ensures r == Err(NoKeys) <==> keys == map[]
    ensures r == Err(BadKeyLength) <==> exists id :: id in keys && |keys[id]| != 32
    ensures r == Err(NoActiveKey) <==> keys != map[] && active !in keys && forall id :: id in keys ==> |keys[id]| == 32
  {
    if |keys| == 0 { return Err(NoKeys); }
    var copied: map<KeyId, Bytes> := map[];
    var rest := keys.Keys;
    while rest != {}
      invariant rest <= keys.Keys && copied.Keys == keys.Keys - rest
      invariant forall id :: id in copied ==> copied[id] == keys[id] && |copied[id]| == KEY_SIZE
      decreases |rest|
    {
      var id :| id in rest;
      rest := rest - {id};
      if |keys[id]| != KEY_SIZE { return Err(BadKeyLength); }
      copied := copied[id := keys[id]];
    }
    assert copied == keys;
    if active !in copied { return Err(NoActiveKey); }
    return Ok(Keyring(active, copied));
  }

  function HighByte(k: KeyId): Byte { (k / 256) as char }

  function LowByte(k: KeyId): Byte { (k % 256) as char }

  function Uint16(hi: Byte, lo: Byte): KeyId { hi as int * 256 + lo as int }

  function HeaderBytes(k: KeyId): Bytes {
    MAGIC + [FORMAT_VERSION, HighByte(k), LowByte(k)]
  }

  // header: fills the seven bytes in place.
  method Header(k: KeyId) returns (h: array<Byte>)
    ensures fresh(h) && h[..] == HeaderBytes(k)
  {
    h := new Byte[HEADER_SIZE](i => 0 as char);
    for i := 0 to |MAGIC|
      invariant forall j :: 0 <= j < i ==> h[j] == MAGIC[j]
    {
      h[i] := MAGIC[i];
    }
    h[|MAGIC|] := FORMAT_VERSION;
    h[5] := HighByte(k);
    h[6] := LowByte(k);
  }

  function SealFrame(a: Aead, kr: Keyring, plaintext: Bytes, nonce: Bytes): Result<Bytes, FrameError>
    requires kr.active in kr.keys
  {
    if |nonce| != NONCE_SIZE then Err(BadNonce)
    else
      match a.seal(kr.keys[kr.active], nonce, plaintext, HeaderBytes(kr.active))
      case None => Err(SealFailed)
      case Some(body) => Ok(HeaderBytes(kr.active) + nonce + body)
  }

  // sealWithNonce: appends header, nonce and ciphertext to the output.
  method SealWithNonce(a: Aead, kr: Keyring, plaintext: Bytes, nonce: Bytes) returns (r: Result<Bytes, FrameError>)
    requires ValidKeyring(kr)
    ensures r == SealFrame(a, kr, plaintext, nonce)
  {
    if |nonce| != NONCE_SIZE { return Err(BadNonce); }
    var header := Header(kr.active);
    var body := a.seal(kr.keys[kr.active], nonce, plaintext, header[..]);
    if body.None? { return Err(SealFailed); }
    var out: Bytes := [];
    out := out + header[..];
    out := out + nonce;
    out := out + body.value;
    assert out == HeaderBytes(kr.active) + nonce + body.value;
    return Ok(out);
  }

  function KeyIdOf(frame: Bytes): Result<KeyId, FrameError> {
    if |frame| < HEADER_SIZE then Err(Malformed)
    else if frame[..4] != MAGIC then Err(BadMagic)
    else Ok(Uint16(frame[5], frame[6]))
  }

  function Open(a: Aead, kr: Keyring, frame: Bytes): Result<Bytes, FrameError> {
    if |frame| < MIN_OBJECT_LEN then Err(Malformed)
    else if frame[..4] != MAGIC then Err(BadMagic)
    else if frame[4] != FORMAT_VERSION then Err(UnsupportedVersion)
    else
      var id := Uint16(frame[5], frame[6]);
      if id !in kr.keys then Err(UnknownKeyId)
      else
        match a.open(kr.keys[id], frame[HEADER_SIZE..BODY_OFFSET], frame[BODY_OFFSET..], frame[..HEADER_SIZE])
        case None => Err(AuthFailed)
        case Some(plaintext) => Ok(plaintext)
  }

  // The wire format, offset by offset: the seven bytes of the header, and what follows them.
  ghost predicate IsHeader(h: Bytes, id: KeyId) {
    |h| == 7 && h[..4] == "LMB1" && h[4] as int == 1 && h[5] as int * 256 + h[6] as int == id
  }

  // The first seven bytes are what the cipher was given to authenticate.
  ghost predicate LaidOut(a: Aead, key: Bytes, id: KeyId, plaintext: Bytes, nonce: Bytes, frame: Bytes) {
    && |frame| >= 19 && IsHeader(frame[..7], id) && frame[7..19] == nonce
    && a.seal(key, nonce, plaintext, frame[..7]) == Some(frame[19..])
  }

  // Sealing takes any nonce of twelve bytes and fails only as the cipher fails; what it makes has the
  // layout, under the active key.
  lemma FrameLayout(a: Aead, kr: Keyring, plaintext: Bytes, nonce: Bytes)
    requires kr.active in kr.keys
    ensures var r, key := SealFrame(a, kr, plaintext, nonce), kr.keys[kr.active];
            && (r == Err(BadNonce) <==> |nonce| != 12)
            && (r == Err(SealFailed) <==>
                  |nonce| == 12 && exists h :: IsHeader(h, kr.active) && a.seal(key, nonce, plaintext, h).None?)
            && (r.Err? ==> r == Err(BadNonce) || r == Err(SealFailed))
            && (r.Ok? ==> LaidOut(a, key, kr.active, plaintext, nonce, r.value))
  {
    var header := HeaderBytes(kr.active);
    var r := SealFrame(a, kr, plaintext, nonce);
    assert header[..4] == MAGIC;
    assert IsHeader(header, kr.active);
    forall h | IsHeader(h, kr.active)
      ensures h == header
    {
      assert h == h[..4] + [h[4], h[5], h[6]];
    }
    if r.Ok? {
      var frame := r.value;
      var body := a.seal(kr.keys[kr.active], nonce, plaintext, header).value;
      assert frame == header + nonce + body;
      assert frame[..7] == header && frame[7..19] == nonce && frame[19..] == body;
    }
  }

  // Opening, likewise by offsets: the first thing wrong with an object is what is reported, and one
  // with nothing wrong opens to what the cipher makes of its nonce, body and header.
  lemma OpenExactly(a: Aead, kr: Keyring, frame: Bytes)
    ensures var r := Open(a, kr, frame);
            if |frame| < 35 then r == Err(Malformed)
            else if !("LMB1" <= frame) then r == Err(BadMagic)
            else if frame[4] as int != 1 then r == Err(UnsupportedVersion)
            else
              var id := frame[5] as int * 256 + frame[6] as int;
              if id !in kr.keys then r == Err(UnknownKeyId)
              else
                var plain := a.open(kr.keys[id], frame[7..19], frame[19..], frame[..7]);
                r == if plain.Some? then Ok(plain.value) else Err(AuthFailed)
    ensures var k := KeyIdOf(frame);
            if |frame| < 7 then k == Err(Malformed)
            else if !("LMB1" <= frame) then k == Err(BadMagic)
            else k == Ok(frame[5] as int * 256 + frame[6] as int)
  {
    assert |frame| >= 4 ==> ("LMB1" <= frame <==> frame[..4] == MAGIC);
  }

  // The key a frame was sealed under is still held, unchanged.
  ghost predicate Holds(kr: Keyring, id: KeyId, key: Bytes) {
    id in kr.keys && kr.keys[id] == key
  }

  // A sealed frame opens to its plaintext under every ring that holds its key, active or not.
  lemma OpenInvertsSeal(a: Aead, sealer: Keyring, plaintext: Bytes, nonce: Bytes, opener: Keyring)
    requires Lawful(a) && sealer.active in sealer.keys
    requires SealFrame(a, sealer, plaintext, nonce).Ok?
    requires Holds(opener, sealer.active, sealer.keys[sealer.active])
    ensures var frame := SealFrame(a, sealer, plaintext, nonce).value;
            && Open(a, opener, frame) == Ok(plaintext)
            && KeyIdOf(frame) == Ok(sealer.active)
            && |frame| == |plaintext| + MIN_OBJECT_LEN
  {
    var header := HeaderBytes(sealer.active);
    var body := a.seal(sealer.keys[sealer.active], nonce, plaintext, header).value;
    var frame := header + nonce + body;
    assert frame[..HEADER_SIZE] == header;
    assert frame[..4] == header[..4] == MAGIC;
    assert frame[HEADER_SIZE..BODY_OFFSET] == nonce;
    assert frame[BODY_OFFSET..] == body;
    assert Uint16(frame[5], frame[6]) == sealer.active;
  }

  // Rotation: every ring of a chain, each of which keeps the key of the one before, opens it.
  lemma {:induction false} OpensAcrossRotations(a: Aead, plaintext: Bytes, nonce: Bytes, rings: seq<Keyring>, i: nat)
    requires Lawful(a) && i < |rings| && rings[0].active in rings[0].keys
    requires SealFrame(a, rings[0], plaintext, nonce).Ok?
    requires forall j {:trigger rings[j]} :: 0 < j < |rings| ==>
               forall key :: Holds(rings[j - 1], rings[0].active, key) ==> Holds(rings[j], rings[0].active, key)
    ensures Open(a, rings[i], SealFrame(a, rings[0], plaintext, nonce).value) == Ok(plaintext)
  {
    var id, key := rings[0].active, rings[0].keys[rings[0].active];
    var j := 0;
    while j < i
      invariant j <= i && Holds(rings[j], id, key)
    {
      j := j + 1;
      assert Holds(rings[j - 1], id, key);
    }
    OpenInvertsSeal(a, rings[0], plaintext, nonce, rings[i]);
  }

  // Whatever Open accepts is, byte for byte, the frame rebuilt from its key id, nonce and body,
  // and the cipher authenticated that very header.
  lemma AcceptedIsCanonical(a: Aead, kr: Keyring, frame: Bytes)
    requires Open(a, kr, frame).Ok?
    ensures KeyIdOf(frame).Ok? && KeyIdOf(frame).value in kr.keys
    ensures |frame| >= MIN_OBJECT_LEN
    ensures frame == HeaderBytes(KeyIdOf(frame).value) + frame[HEADER_SIZE..BODY_OFFSET] + frame[BODY_OFFSET..]
    ensures a.open(kr.keys[KeyIdOf(frame).value], frame[HEADER_SIZE..BODY_OFFSET], frame[BODY_OFFSET..],
                   HeaderBytes(KeyIdOf(frame).value)) == Some(Open(a, kr, frame).value)
  {
    var id := Uint16(frame[5], frame[6]);
    assert HighByte(id) == frame[5] && LowByte(id) == frame[6];
    assert frame[..HEADER_SIZE] == frame[..4] + [frame[4], frame[5], frame[6]];
    assert frame[..HEADER_SIZE] == HeaderBytes(id);
    assert frame == frame[..HEADER_SIZE] + frame[HEADER_SIZE..BODY_OFFSET] + frame[BODY_OFFSET..];
  }

  // Dropping a key makes exactly the frames sealed under it unreadable, with a distinct error.
  lemma DroppedKeyIsReported(a: Aead, sealer: Keyring, plaintext: Bytes, nonce: Bytes, opener: Keyring)
    requires Lawful(a) && sealer.active in sealer.keys
    requires SealFrame(a, sealer, plaintext, nonce).Ok?
    ensures Open(a, opener, SealFrame(a, sealer, plaintext, nonce).value) == Err(UnknownKeyId) <==>
              sealer.active !in opener.keys
  {
    OpenInvertsSeal(a, sealer, plaintext, nonce, sealer);
    var frame := SealFrame(a, sealer, plaintext, nonce).value;
    AcceptedIsCanonical(a, sealer, frame);
  }

  // The assumption on the primitive can be met.
  lemma LawfulIsSatisfiable()
    ensures exists a :: Lawful(a)
  {
    var zeros: Bytes := seq(TAG_SIZE, i => 0 as char);
    var a := Aead(
      (key: Bytes, nonce: Bytes, plaintext: Bytes, aad: Bytes) => Some(plaintext + zeros),
      (key: Bytes, nonce: Bytes, body: Bytes, aad: Bytes) =>
        if |body| < TAG_SIZE then None else Some(body[..|body| - TAG_SIZE]));
    forall key: Bytes, nonce: Bytes, plaintext: Bytes, aad: Bytes
      ensures var sealed := a.seal(key, nonce, plaintext, aad);
              sealed.Some? ==>
                && |sealed.value| == |plaintext| + TAG_SIZE
                && a.open(key, nonce, sealed.value, aad) == Some(plaintext)
    {
      assert (plaintext + zeros)[..|plaintext|] == plaintext;
    }
    assert Lawful(a);
  }
}
