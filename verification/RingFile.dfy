/**
 * internal/devicejwt/file.go: the key ring on disk. The JSON text around the
 * fields and the file system are left out; the hex columns are modelled.
 */
module RingFile {
  import opened Common
  import opened Codec
  import opened DeviceJwt
  import Text

  /** The json-tagged fields of a Keypair; an empty private column is omitted from the file. */
  datatype FileKey = FileKey(
    kid: string, privateHex: string, publicHex: string, createdAt: Time, retiredAt: Option<Time>)

  datatype FileRing = FileRing(keys: seq<FileKey>, current: string)

  // ---------- saving ----------

  /** The hex columns mirror the byte slices; without a seed the private column stays as it is. */
  function Mirrored(k: Keypair): Keypair {
    k.(publicHex := Hex(k.publicKey), privateHex := if |k.seed| > 0 then Hex(k.seed) else k.privateHex)
  }

  function Columns(k: Keypair): FileKey {
    FileKey(k.kid, k.privateHex, k.publicHex, k.createdAt, k.retiredAt)
  }

  function Saved(ring: Ring): FileRing {
    FileRing(seq(|ring.keys|, i requires 0 <= i < |ring.keys| => Columns(Mirrored(ring.keys[i]))), ring.current)
  }

  // ---------- loading ----------

  /** A key as json.Unmarshal leaves it: columns only. */
  function Bare(f: FileKey): Keypair {
    Keypair(f.kid, [], f.privateHex, [], f.publicHex, f.createdAt, f.retiredAt)
  }

  /** The columns decoded into the byte slices, or None if one is malformed or of the wrong size. */
  function Filled(k: Keypair): Option<Keypair> {
    var seed := if k.privateHex != "" then Unhex(k.privateHex) else Some(k.seed);
    var pub := Unhex(k.publicHex);
    if seed.None? || (k.privateHex != "" && |seed.value| != SEED_SIZE) then None
    else if pub.None? || |pub.value| != PUBLIC_KEY_SIZE then None
    else Some(k.(seed := seed.value, publicKey := pub.value))
  }

  predicate AllFill(file: FileRing) {
    forall i :: 0 <= i < |file.keys| ==> Filled(Bare(file.keys[i])).Some?
  }

  function FilledKeys(file: FileRing): seq<Keypair>
    requires AllFill(file)
  {
    seq(|file.keys|, i requires 0 <= i < |file.keys| => Filled(Bare(file.keys[i])).value)
  }

  function Loaded(file: FileRing): Option<Ring> {
    if !AllFill(file) || file.current == "" || FindKey(FilledKeys(file), file.current).None? then None
    else Some(Ring(FilledKeys(file), file.current))
  }

  // ---------- the loops ----------

  /** SaveRingFile's loop: a fresh slice of keys, filled by index. */
  method SaveRing(ring: Ring) returns (file: FileRing)
    ensures file == Saved(ring)
  {
    var out := new FileKey[|ring.keys|](_ => FileKey("", "", "", 0, None));
    for i := 0 to |ring.keys|
      invariant forall j :: 0 <= j < i ==> out[j] == Columns(Mirrored(ring.keys[j]))
    {
      var k := ring.keys[i];
      k := k.(publicHex := Hex(k.publicKey));
      if |k.seed| > 0 {
        k := k.(privateHex := Hex(k.seed));
      }
      out[i] := Columns(k);
    }
    file := FileRing(out[..], ring.current);
  }

  /** LoadRingFile's loop: decodes the hex columns into the keys in place, up to the first bad one. */
  method FillKeys(keys: array<Keypair>) returns (ok: bool)
    modifies keys
    ensures ok <==> forall i :: 0 <= i < keys.Length ==> Filled(old(keys[i])).Some?
    ensures ok ==> forall i :: 0 <= i < keys.Length ==> Filled(old(keys[i])) == Some(keys[i])
  {
    for i := 0 to keys.Length
      invariant forall j :: 0 <= j < i ==> Filled(old(keys[j])) == Some(keys[j])
      invariant forall j :: i <= j < keys.Length ==> keys[j] == old(keys[j])
    {
      var k := keys[i];
      if k.privateHex != "" {
        var seed := Unhex(k.privateHex);
        if seed.None? || |seed.value| != SEED_SIZE {
          return false;
        }
        k := k.(seed := seed.value);
      }
      var pub := Unhex(k.publicHex);
      if pub.None? || |pub.value| != PUBLIC_KEY_SIZE {
        return false;
      }
      keys[i] := k.(publicKey := pub.value);
    }
    return true;
  }

  method LoadRing(file: FileRing) returns (ring: Option<Ring>)
    ensures ring == Loaded(file)
  {
    var keys := new Keypair[|file.keys|](i requires 0 <= i < |file.keys| => Bare(file.keys[i]));
    assert forall i :: 0 <= i < keys.Length ==> keys[i] == Bare(file.keys[i]);
    var ok := FillKeys(keys);
    assert ok <==> AllFill(file);
    if !ok || file.current == "" {
      return None;
    }
    assert keys[..] == FilledKeys(file);
    var found := FindKeyIndex(Ring(keys[..], file.current), file.current);
    if found.None? {
      return None;
    }
    return Some(Ring(keys[..], file.current));
  }

  // ---------- the round trip ----------

  /** Same keys in the same order, apart from the hex columns. */
  predicate SameKeys(r: Ring, q: Ring) {
    && r.current == q.current && |r.keys| == |q.keys|
    && forall i :: 0 <= i < |r.keys| ==> SameKey(r.keys[i], q.keys[i])
  }

  predicate SameKey(k: Keypair, j: Keypair) {
    k.kid == j.kid && k.seed == j.seed && k.publicKey == j.publicKey
    && k.createdAt == j.createdAt && k.retiredAt == j.retiredAt
  }

  /** Two lower-case digits a byte, the high half first. */
  predicate IsHexOf(text: string, b: seq<Byte>) {
    && |text| == 2 * |b|
    && forall i :: 0 <= i < |b| ==>
         text[2 * i] == "0123456789abcdef"[b[i] / 16] && text[2 * i + 1] == "0123456789abcdef"[b[i] % 16]
  }

  /** What is on disk for key i: the kid and the times as they are, the keys in hexadecimal. */
  lemma SavedColumnsAreHex(ring: Ring, i: nat)
    requires i < |ring.keys|
    ensures |Saved(ring).keys| == |ring.keys| && Saved(ring).current == ring.current
    ensures var k, f := ring.keys[i], Saved(ring).keys[i];
            && f.kid == k.kid && f.createdAt == k.createdAt && f.retiredAt == k.retiredAt
            && IsHexOf(f.publicHex, k.publicKey)
            && (if k.seed != [] then IsHexOf(f.privateHex, k.seed) else f.privateHex == k.privateHex)
  {
    HexIsStandard(ring.keys[i].publicKey);
    HexIsStandard(ring.keys[i].seed);
  }

  /** 64 hexadecimal digits of either case. */
  predicate IsKeyText(text: string) {
    |text| == 64 && forall c :: c in text ==> c in "0123456789abcdefABCDEF"
  }

  lemma KeyTextDecodes(text: string)
    ensures IsKeyText(text) <==> Unhex(text).Some? && |Unhex(text).value| == 32
  {
    UnhexIff(text);
    if Unhex(text).Some? {
      UnhexHalves(text);
    }
  }

  /**
   * A file loads if and only if every public column is a 32-byte key in
   * hexadecimal, every private one is too or is absent, and its current kid
   * is not empty and is the kid of some key.
   */
  lemma LoadsIff(file: FileRing)
    ensures Loaded(file).Some? <==>
            && (forall i :: 0 <= i < |file.keys| ==>
                  IsKeyText(file.keys[i].publicHex)
                  && (file.keys[i].privateHex == "" || IsKeyText(file.keys[i].privateHex)))
            && file.current != "" && exists i :: 0 <= i < |file.keys| && file.keys[i].kid == file.current
  {
    forall i | 0 <= i < |file.keys|
      ensures Filled(Bare(file.keys[i])).Some? <==>
              IsKeyText(file.keys[i].publicHex)
              && (file.keys[i].privateHex == "" || IsKeyText(file.keys[i].privateHex))
    {
      KeyTextDecodes(file.keys[i].publicHex);
      KeyTextDecodes(file.keys[i].privateHex);
    }
    if AllFill(file) {
      var keys := FilledKeys(file);
      FoundKeyHasKid(keys, file.current);
      if FindKey(keys, file.current).None? {
        NoneHasKid(keys, file.current);
      }
      forall i | 0 <= i < |keys|
        ensures keys[i].kid == file.keys[i].kid
      {
      }
    }
  }

  lemma {:induction false} NoneHasKid(keys: seq<Keypair>, kid: string)
    requires FindKey(keys, kid).None?
    ensures forall i :: 0 <= i < |keys| ==> keys[i].kid != kid
  {
    if keys != [] {
      NoneHasKid(keys[1..], kid);
      assert forall i :: 1 <= i < |keys| ==> keys[i] == keys[1..][i - 1];
    }
  }

  /** A 32-byte public key, and a 32-byte seed or none - none in the private column either. */
  predicate WellFormedKey(k: Keypair) {
    && |k.publicKey| == 32
    && (|k.seed| == 32 || (k.seed == [] && k.privateHex == ""))
  }

  predicate WellFormed(ring: Ring) {
    && (forall i :: 0 <= i < |ring.keys| ==> WellFormedKey(ring.keys[i]))
    && ring.current != "" && FindKey(ring.keys, ring.current).Some?
  }

  lemma KeyRoundTrip(k: Keypair)
    ensures var r := Filled(Bare(Columns(Mirrored(k))));
            (r.Some? && SameKey(r.value, k)) <==> WellFormedKey(k)
  {
    HexRoundTrip(k.publicKey);
    HexRoundTrip(k.seed);
  }

  lemma {:induction false} SameKidsFindTheSame(a: seq<Keypair>, b: seq<Keypair>, kid: string)
    requires |a| == |b| && forall i :: 0 <= i < |a| ==> a[i].kid == b[i].kid
    ensures FindKey(a, kid) == FindKey(b, kid)
  {
    if a != [] {
      SameKidsFindTheSame(a[1..], b[1..], kid);
    }
  }

  /**
   * Ring file round trip, exactly: loading what was saved gives the ring back
   * if and only if every public key has 32 bytes, every seed has 32 bytes or
   * is absent together with its hex column, and the current kid is present.
   */
  lemma SaveLoadRoundTrip(ring: Ring)
    ensures WellFormed(ring) <==> Loaded(Saved(ring)).Some? && SameKeys(Loaded(Saved(ring)).value, ring)
  {
    var file := Saved(ring);
    forall i | 0 <= i < |ring.keys|
      ensures (Filled(Bare(file.keys[i])).Some? && SameKey(Filled(Bare(file.keys[i])).value, ring.keys[i]))
              <==> WellFormedKey(ring.keys[i])
    {
      KeyRoundTrip(ring.keys[i]);
    }
    if AllFill(file) {
      SameKidsFindTheSame(FilledKeys(file), ring.keys, ring.current);
    }
  }

  lemma SameSignature(ed: Ed25519, r: Ring, q: Ring, c: Claims, now: Time)
    requires SameKeys(r, q)
    ensures Sign(ed, r, c, now) == Sign(ed, q, c, now)
  {
    SameKidsFindTheSame(r.keys, q.keys, r.current);
    FoundKeyHasKid(r.keys, r.current);
    var i := FindKey(r.keys, r.current);
    assert i.Some? ==> SameKey(r.keys[i.value], q.keys[i.value]);
  }

  lemma SameAccepted(r: Ring, q: Ring, hdr: Header, now: Time)
    requires SameKeys(r, q)
    ensures var k, j := AcceptedKey(r, hdr, now), AcceptedKey(q, hdr, now);
            k.Some? == j.Some? && (k.Some? ==> SameKey(k.value, j.value))
  {
    SameKidsFindTheSame(r.keys, q.keys, hdr.kid);
    FoundKeyHasKid(r.keys, hdr.kid);
    var i := FindKey(r.keys, hdr.kid);
    assert i.Some? ==> SameKey(r.keys[i.value], q.keys[i.value]);
  }

  lemma SameVerdict(ed: Ed25519, r: Ring, q: Ring, token: string, now: Time)
    requires SameKeys(r, q)
    ensures Verify(ed, r, token, now) == Verify(ed, q, token, now)
  {
    var parts := Text.Split(token, '.');
    if |parts| == 3 && HeaderOf(parts[0]).Some? {
      SameAccepted(r, q, HeaderOf(parts[0]).value, now);
    }
  }

  /** Rings with the same keys sign the same tokens and accept the same tokens at every time. */
  lemma SameKeysBehaveTheSame(ed: Ed25519, r: Ring, q: Ring, c: Claims, token: string, now: Time)
    requires SameKeys(r, q)
    ensures Sign(ed, r, c, now) == Sign(ed, q, c, now)
    ensures Verify(ed, r, token, now) == Verify(ed, q, token, now)
  {
    SameSignature(ed, r, q, c, now);
    SameVerdict(ed, r, q, token, now);
  }

  /** A well-formed ring survives a restart: same signatures, same verdicts. */
  lemma {:induction false} ReloadedRingBehavesTheSame(ed: Ed25519, ring: Ring, c: Claims, token: string, now: Time)
    requires WellFormed(ring)
    ensures Loaded(Saved(ring)).Some?
    ensures Sign(ed, Loaded(Saved(ring)).value, c, now) == Sign(ed, ring, c, now)
    ensures Verify(ed, Loaded(Saved(ring)).value, token, now) == Verify(ed, ring, token, now)
  {
    SaveLoadRoundTrip(ring);
    SameKeysBehaveTheSame(ed, Loaded(Saved(ring)).value, ring, c, token, now);
  }
}
