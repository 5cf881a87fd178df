/**
 * internal/devicejwt/devicejwt.go: the hand-rolled device token over a key
 * ring. Ed25519 is a parameter; its correctness is a hypothesis.
 */
module DeviceJwt {
  import opened Common
  import opened Text
  import opened Codec

  const RETIREMENT_WINDOW: int := 30 * 24 * HOUR
  const SEED_SIZE: nat := 32
  const PUBLIC_KEY_SIZE: nat := 32

  datatype Claims = Claims(deviceId: string, subdomain: string, issuedAt: Time, kid: string)

  datatype Keypair = Keypair(
    kid: string, seed: seq<Byte>, privateHex: string, publicKey: seq<Byte>, publicHex: string,
    createdAt: Time, retiredAt: Option<Time>)

  datatype Ring = Ring(keys: seq<Keypair>, current: string)

  datatype Ed25519 = Ed25519(
    publicOf: seq<Byte> -> seq<Byte>,
    sign: (seq<Byte>, string) -> seq<Byte>,
    verify: (seq<Byte>, string, seq<Byte>) -> bool)

  /** What a signature made with a seed is good for. */
  ghost predicate Correct(ed: Ed25519) {
    forall seed, m :: |seed| == SEED_SIZE ==> ed.verify(ed.publicOf(seed), m, ed.sign(seed, m))
  }

  /** time.Time's zero value: 1 January of year 1, as nanoseconds from the Unix epoch. */
  const ZERO_TIME: Time := -62135596800 * SECOND

  /** Time.Unix(): whole seconds, rounded towards the past. */
  function UnixSeconds(t: Time): int {
    t / SECOND
  }

  // ---------- the key ring ----------

  /** The first key with this kid. */
  function FindKey(keys: seq<Keypair>, kid: string): Option<nat> {
    if keys == [] then None
    else if keys[0].kid == kid then Some(0)
    else
      var i := FindKey(keys[1..], kid);
      if i.Some? then Some(i.value + 1) else None
  }

  lemma {:induction false} FindKeyIsFirst(keys: seq<Keypair>, kid: string, n: nat)
    requires n <= |keys| && forall j :: 0 <= j < n ==> keys[j].kid != kid
    ensures n < |keys| && keys[n].kid == kid ==> FindKey(keys, kid) == Some(n)
    ensures n == |keys| ==> FindKey(keys, kid) == None
  {
    if n > 0 {
      FindKeyIsFirst(keys[1..], kid, n - 1);
    }
  }

  lemma {:induction false} FoundKeyHasKid(keys: seq<Keypair>, kid: string)
    ensures FindKey(keys, kid).Some? ==>
              FindKey(keys, kid).value < |keys| && keys[FindKey(keys, kid).value].kid == kid
  {
    if keys != [] {
      FoundKeyHasKid(keys[1..], kid);
    }
  }

  method FindKeyIndex(ring: Ring, kid: string) returns (found: Option<nat>)
    ensures found == FindKey(ring.keys, kid)
  {
    for i := 0 to |ring.keys|
      invariant forall j :: 0 <= j < i ==> ring.keys[j].kid != kid
    {
      if ring.keys[i].kid == kid {
        FindKeyIsFirst(ring.keys, kid, i);
        return Some(i);
      }
    }
    FindKeyIsFirst(ring.keys, kid, |ring.keys|);
    return None;
  }

  /** The current signer, if the ring can sign. */
  function Current(ring: Ring): (r: Option<Keypair>)
    ensures r.Some? ==> |r.value.seed| == SEED_SIZE && r.value.kid == ring.current
  {
    FoundKeyHasKid(ring.keys, ring.current);
    var i := FindKey(ring.keys, ring.current);
    if ring.current == "" || i.None? || |ring.keys[i.value].seed| != SEED_SIZE then None
    else Some(ring.keys[i.value])
  }

  // ---------- the two JSON objects ----------

  const HEADER_ALG := "{\"alg\":\""
  const HEADER_KID := ",\"kid\":\""
  const HEADER_TYP := ",\"typ\":\""
  const PAYLOAD_SUB := "{\"sub\":\""
  const PAYLOAD_DOM := ",\"dom\":\""
  const PAYLOAD_IAT := ",\"iat\":"

  /** A quoted string body, its closing quote, and what follows. */
  function Str(s: string, tail: string): string {
    Quoted(s) + "\"" + tail
  }

  function HeaderJson(alg: string, kid: string, typ: string): string {
    HEADER_ALG + Str(alg, HEADER_KID + Str(kid, HEADER_TYP + Str(typ, "}")))
  }

  function PayloadJson(sub: string, dom: string, iat: int): string {
    PAYLOAD_SUB + Str(sub, PAYLOAD_DOM + Str(dom, PAYLOAD_IAT + (PrintInt(iat) + "}")))
  }

  /** The rest of s after this prefix. */
  function After(s: string, prefix: string): Option<string> {
    if |prefix| <= |s| && s[..|prefix|] == prefix then Some(s[|prefix|..]) else None
  }

  /** One member: its key as printed, a string value, and what follows. */
  function ReadMember(s: string, key: string): Option<(string, string)> {
    var t := After(s, key);
    if t.None? then None else ReadString(t.value)
  }

  datatype Header = Header(alg: string, kid: string, typ: string)

  function ReadHeader(s: string): Option<Header> {
    var a := ReadMember(s, HEADER_ALG);
    if a.None? then None
    else
      var k := ReadMember(a.value.1, HEADER_KID);
      if k.None? then None
      else
        var t := ReadMember(k.value.1, HEADER_TYP);
        if t.None? || t.value.1 != "}" then None else Some(Header(a.value.0, k.value.0, t.value.0))
  }

  datatype Payload = Payload(sub: string, dom: string, iat: int)

  function ReadPayload(s: string): Option<Payload> {
    var u := ReadMember(s, PAYLOAD_SUB);
    if u.None? then None
    else
      var d := ReadMember(u.value.1, PAYLOAD_DOM);
      if d.None? then None
      else
        var i := After(d.value.1, PAYLOAD_IAT);
        if i.None? then None
        else
          var n := ReadInt(i.value);
          if n.None? || n.value.1 != "}" then None else Some(Payload(u.value.0, d.value.0, n.value.0))
  }

  lemma AfterPrefix(prefix: string, tail: string)
    ensures After(prefix + tail, prefix) == Some(tail)
  {
    assert (prefix + tail)[..|prefix|] == prefix;
    assert (prefix + tail)[|prefix|..] == tail;
  }

  lemma MemberRoundTrip(key: string, s: string, tail: string)
    ensures ReadMember(key + Str(s, tail), key) == Some((s, tail))
  {
    AfterPrefix(key, Str(s, tail));
    StringRoundTrip(s, tail);
  }

  lemma HeaderRoundTrip(alg: string, kid: string, typ: string)
    ensures ReadHeader(HeaderJson(alg, kid, typ)) == Some(Header(alg, kid, typ))
  {
    MemberRoundTrip(HEADER_TYP, typ, "}");
    MemberRoundTrip(HEADER_KID, kid, HEADER_TYP + Str(typ, "}"));
    MemberRoundTrip(HEADER_ALG, alg, HEADER_KID + Str(kid, HEADER_TYP + Str(typ, "}")));
  }

  lemma PayloadRoundTrip(sub: string, dom: string, iat: int)
    requires IsInt64(iat)
    ensures ReadPayload(PayloadJson(sub, dom, iat)) == Some(Payload(sub, dom, iat))
  {
    IntRoundTrip(iat, "}");
    AfterPrefix(PAYLOAD_IAT, PrintInt(iat) + "}");
    MemberRoundTrip(PAYLOAD_DOM, dom, PAYLOAD_IAT + (PrintInt(iat) + "}"));
    MemberRoundTrip(PAYLOAD_SUB, sub, PAYLOAD_DOM + Str(dom, PAYLOAD_IAT + (PrintInt(iat) + "}")));
  }

  // ---------- token parts ----------

  /** base64url of the UTF-8 bytes, as every part but the signature is made. */
  function Wrap(text: string): string {
    Base64(Utf8(text))
  }

  function Unwrap(part: string): Option<string> {
    var b := Unbase64(part);
    if b.None? then None else Unutf8(b.value)
  }

  lemma WrapRoundTrip(text: string)
    ensures Unwrap(Wrap(text)) == Some(text) && '.' !in Wrap(text)
  {
    Base64RoundTrip(Utf8(text));
    Utf8RoundTrip(text);
  }

  function SigningInput(kid: string, sub: string, dom: string, iat: int): string {
    Wrap(HeaderJson("EdDSA", kid, "JWT")) + "." + Wrap(PayloadJson(sub, dom, iat))
  }

  lemma DotSplitsInTwo(a: string, b: string, s: string)
    requires '.' !in a && '.' !in b && s == a + "." + b
    ensures Split(s, '.') == [a, b]
  {
    SplitAt(a, b, '.');
    SplitPlain(a, '.');
    SplitPlain(b, '.');
    assert s == a + ['.'] + b;
    assert Split(s, '.') == [a] + [b];
  }

  lemma DotsSplitInThree(a: string, b: string, c: string)
    requires '.' !in a && '.' !in b && '.' !in c
    ensures Split(a + "." + b + "." + c, '.') == [a, b, c]
  {
    DotSplitsInTwo(a, b, a + "." + b);
    SplitAt(a + "." + b, c, '.');
    SplitPlain(c, '.');
    assert a + "." + b + "." + c == (a + "." + b) + ['.'] + c;
    assert Split(a + "." + b + "." + c, '.') == [a, b] + [c];
  }

  // ---------- Sign and Verify ----------

  function IssueTime(c: Claims, now: Time): Time {
    if c.issuedAt == ZERO_TIME then now else c.issuedAt
  }

  function Sign(ed: Ed25519, ring: Ring, c: Claims, now: Time): Option<string> {
    var signer := Current(ring);
    if signer.None? then None
    else
      var m := SigningInput(signer.value.kid, c.deviceId, c.subdomain, UnixSeconds(IssueTime(c, now)));
      Some(m + "." + Base64(ed.sign(signer.value.seed, m)))
  }

  predicate PastRetirement(k: Keypair, now: Time) {
    k.retiredAt.Some? && now - k.retiredAt.value > RETIREMENT_WINDOW
  }

  /** The key a header names, if the ring still accepts it at this time. */
  function AcceptedKey(ring: Ring, hdr: Header, now: Time): Option<Keypair> {
    FoundKeyHasKid(ring.keys, hdr.kid);
    var i := FindKey(ring.keys, hdr.kid);
    if hdr.alg != "EdDSA" || hdr.kid == "" || i.None? then None
    else
      var k := ring.keys[i.value];
      if PastRetirement(k, now) || |k.publicKey| != PUBLIC_KEY_SIZE then None else Some(k)
  }

  function HeaderOf(part: string): Option<Header> {
    var text := Unwrap(part);
    if text.None? then None else ReadHeader(text.value)
  }

  function PayloadOf(part: string): Option<Payload> {
    var text := Unwrap(part);
    if text.None? then None else ReadPayload(text.value)
  }

  /** The checks of Verify on the decoded parts; every failure looks the same. */
  function Check(ed: Ed25519, ring: Ring, hdr: Option<Header>, m: string, sig: Option<seq<Byte>>,
                 payload: Option<Payload>, now: Time): Option<Claims>
  {
    if hdr.None? || AcceptedKey(ring, hdr.value, now).None? || sig.None? then None
    else if !ed.verify(AcceptedKey(ring, hdr.value, now).value.publicKey, m, sig.value) then None
    else if payload.None? || payload.value.sub == "" || payload.value.dom == "" then None
    else Some(Claims(payload.value.sub, payload.value.dom, payload.value.iat * SECOND, hdr.value.kid))
  }

  function Verify(ed: Ed25519, ring: Ring, token: string, now: Time): Option<Claims> {
    var parts := Split(token, '.');
    if |parts| != 3 then None
    else Check(ed, ring, HeaderOf(parts[0]), parts[0] + "." + parts[1], Unbase64(parts[2]), PayloadOf(parts[1]), now)
  }

  /** Sign answers exactly when the ring's current key has a 32-byte seed. */
  lemma SignsIffCurrent(ed: Ed25519, ring: Ring, c: Claims, now: Time)
    ensures Sign(ed, ring, c, now).Some? <==>
            ring.current != "" &&
            exists i :: 0 <= i < |ring.keys| && ring.keys[i].kid == ring.current && |ring.keys[i].seed| == 32
                        && forall j :: 0 <= j < i ==> ring.keys[j].kid != ring.current
  {
    FoundKeyHasKid(ring.keys, ring.current);
    if i :| 0 <= i < |ring.keys| && ring.keys[i].kid == ring.current && |ring.keys[i].seed| == SEED_SIZE
            && forall j :: 0 <= j < i ==> ring.keys[j].kid != ring.current {
      FindKeyIsFirst(ring.keys, ring.current, i);
    }
    if Sign(ed, ring, c, now).Some? {
      var i := FindKey(ring.keys, ring.current).value;
      FirstBefore(ring.keys, ring.current);
      assert ring.keys[i].kid == ring.current;
    }
  }

  lemma {:induction false} FirstBefore(keys: seq<Keypair>, kid: string)
    ensures FindKey(keys, kid).Some? ==>
              FindKey(keys, kid).value < |keys| && forall j :: 0 <= j < FindKey(keys, kid).value ==> keys[j].kid != kid
  {
    if keys != [] && keys[0].kid != kid {
      FirstBefore(keys[1..], kid);
      if FindKey(keys[1..], kid).Some? {
        forall j | 0 <= j < FindKey(keys, kid).value
          ensures keys[j].kid != kid
        {
          if j > 0 {
            assert keys[j] == keys[1..][j - 1];
          }
        }
      }
    }
  }

  /** The parts of a signed token read back as what was put in. */
  lemma {:induction false} SignedTokenParts(ed: Ed25519, ring: Ring, c: Claims, now: Time)
    requires Current(ring).Some? && IsInt64(UnixSeconds(IssueTime(c, now)))
    ensures var signer := Current(ring).value; var iat := UnixSeconds(IssueTime(c, now));
            var h, p := Wrap(HeaderJson("EdDSA", signer.kid, "JWT")), Wrap(PayloadJson(c.deviceId, c.subdomain, iat));
            var sig := ed.sign(signer.seed, h + "." + p);
            && Split(Sign(ed, ring, c, now).value, '.') == [h, p, Base64(sig)]
            && HeaderOf(h) == Some(Header("EdDSA", signer.kid, "JWT"))
            && PayloadOf(p) == Some(Payload(c.deviceId, c.subdomain, iat))
            && Unbase64(Base64(sig)) == Some(sig)
  {
    var signer := Current(ring).value;
    var iat := UnixSeconds(IssueTime(c, now));
    var h, p := Wrap(HeaderJson("EdDSA", signer.kid, "JWT")), Wrap(PayloadJson(c.deviceId, c.subdomain, iat));
    WrapRoundTrip(HeaderJson("EdDSA", signer.kid, "JWT"));
    WrapRoundTrip(PayloadJson(c.deviceId, c.subdomain, iat));
    HeaderRoundTrip("EdDSA", signer.kid, "JWT");
    PayloadRoundTrip(c.deviceId, c.subdomain, iat);
    Base64RoundTrip(ed.sign(signer.seed, h + "." + p));
    DotsSplitInThree(h, p, Base64(ed.sign(signer.seed, h + "." + p)));
  }

  lemma CurrentIsAccepted(ring: Ring, t: Time)
    requires Current(ring).Some? && |Current(ring).value.publicKey| == PUBLIC_KEY_SIZE
    ensures var k := Current(ring).value;
            AcceptedKey(ring, Header("EdDSA", k.kid, "JWT"), t) == if PastRetirement(k, t) then None else Some(k)
  {
    FoundKeyHasKid(ring.keys, ring.current);
  }

  /** Verify works on the decoded parts only. */
  lemma VerifyOfParts(ed: Ed25519, ring: Ring, token: string, h: string, p: string, g: string,
                      hdr: Option<Header>, payload: Option<Payload>, sig: Option<seq<Byte>>, now: Time)
    requires Split(token, '.') == [h, p, g]
    requires HeaderOf(h) == hdr && PayloadOf(p) == payload && Unbase64(g) == sig
    ensures Verify(ed, ring, token, now) == Check(ed, ring, hdr, h + "." + p, sig, payload, now)
  {
  }

  /** Whatever ring verifies it, a signed token is checked for the claims it was signed for. */
  lemma {:induction false} SignedTokenIsChecked(ed: Ed25519, ring: Ring, c: Claims, now: Time, ring': Ring, t: Time)
    requires Current(ring).Some? && IsInt64(UnixSeconds(IssueTime(c, now)))
    ensures var k := Current(ring).value; var iat := UnixSeconds(IssueTime(c, now));
            var m := SigningInput(k.kid, c.deviceId, c.subdomain, iat);
            Verify(ed, ring', Sign(ed, ring, c, now).value, t) ==
            Check(ed, ring', Some(Header("EdDSA", k.kid, "JWT")), m, Some(ed.sign(k.seed, m)),
                  Some(Payload(c.deviceId, c.subdomain, iat)), t)
  {
    var k := Current(ring).value;
    var iat := UnixSeconds(IssueTime(c, now));
    var h, p := Wrap(HeaderJson("EdDSA", k.kid, "JWT")), Wrap(PayloadJson(c.deviceId, c.subdomain, iat));
    var sig := ed.sign(k.seed, h + "." + p);
    SignedTokenParts(ed, ring, c, now);
    VerifyOfParts(ed, ring', Sign(ed, ring, c, now).value, h, p, Base64(sig),
                  Some(Header("EdDSA", k.kid, "JWT")), Some(Payload(c.deviceId, c.subdomain, iat)), Some(sig), t);
  }

  /** A signed token verifies under every ring that still accepts the signer's public key by its kid. */
  lemma {:induction false} VerifiesElsewhere(ed: Ed25519, ring: Ring, c: Claims, now: Time, ring': Ring, t: Time)
    requires Correct(ed) && Current(ring).Some? && IsInt64(UnixSeconds(IssueTime(c, now)))
    requires var k' := AcceptedKey(ring', Header("EdDSA", ring.current, "JWT"), t);
             k'.Some? ==> k'.value.publicKey == ed.publicOf(Current(ring).value.seed)
    ensures Verify(ed, ring', Sign(ed, ring, c, now).value, t) ==
            if c.deviceId == "" || c.subdomain == ""
               || AcceptedKey(ring', Header("EdDSA", ring.current, "JWT"), t).None? then None
            else Some(Claims(c.deviceId, c.subdomain, UnixSeconds(IssueTime(c, now)) * SECOND, ring.current))
  {
    SignedTokenIsChecked(ed, ring, c, now, ring', t);
    var k := Current(ring).value;
    var m := SigningInput(k.kid, c.deviceId, c.subdomain, UnixSeconds(IssueTime(c, now)));
    assert ed.verify(ed.publicOf(k.seed), m, ed.sign(k.seed, m));
  }

  /** The key's grace is over: it was retired more than thirty days, counted in nanoseconds, before t. */
  predicate GraceIsOver(k: Keypair, t: Time) {
    k.retiredAt.Some? && t - k.retiredAt.value > 30 * 24 * 3600 * 1_000_000_000
  }

  /** The issue time to the second: now for claims without one, that is with the first instant of year 1. */
  function IssuedAtSecond(c: Claims, now: Time): Time {
    var at := if c.issuedAt == -62_135_596_800 * 1_000_000_000 then now else c.issuedAt;
    at - at % 1_000_000_000
  }

  lemma SecondsOfIssue(c: Claims, now: Time)
    ensures IssuedAtSecond(c, now) == UnixSeconds(IssueTime(c, now)) * 1_000_000_000
    ensures IssuedAtSecond(c, now) / 1_000_000_000 == UnixSeconds(IssueTime(c, now))
  {
  }

  lemma GraceIsRetirement(k: Keypair, t: Time)
    ensures GraceIsOver(k, t) <==> PastRetirement(k, t)
  {
  }

  /**
   * Round trip: a token signed by the current key verifies at time t exactly
   * when both claims are non-empty and the key is not retired or was retired
   * at most thirty days ago, and it then carries the same device id and
   * subdomain, the issue time truncated to seconds and the current kid.
   */
  lemma {:induction false} VerifyInvertsSign(ed: Ed25519, ring: Ring, c: Claims, now: Time, t: Time)
    requires Correct(ed) && Current(ring).Some? && IsInt64(UnixSeconds(IssueTime(c, now)))
    requires var k := Current(ring).value; k.publicKey == ed.publicOf(k.seed) && |k.publicKey| == 32
    ensures Verify(ed, ring, Sign(ed, ring, c, now).value, t) ==
            if c.deviceId == "" || c.subdomain == "" || GraceIsOver(Current(ring).value, t) then None
            else Some(Claims(c.deviceId, c.subdomain, IssuedAtSecond(c, now), ring.current))
  {
    CurrentIsAccepted(ring, t);
    GraceIsRetirement(Current(ring).value, t);
    SecondsOfIssue(c, now);
    VerifiesElsewhere(ed, ring, c, now, ring, t);
  }

  /** Key i is the one the ring looks up for this kid. */
  predicate IsFirstWith(keys: seq<Keypair>, kid: string, i: nat) {
    i < |keys| && keys[i].kid == kid && forall j :: 0 <= j < i ==> keys[j].kid != kid
  }

  lemma KeyIsAccepted(ring: Ring, kid: string, i: nat, t: Time)
    requires kid != "" && IsFirstWith(ring.keys, kid, i)
    ensures AcceptedKey(ring, Header("EdDSA", kid, "JWT"), t) ==
            if GraceIsOver(ring.keys[i], t) || |ring.keys[i].publicKey| != 32 then None else Some(ring.keys[i])
  {
    FindKeyIsFirst(ring.keys, kid, i);
    GraceIsRetirement(ring.keys[i], t);
  }

  /**
   * The same after a rotation: while the signer's public key stays in the
   * ring under its kid, its tokens verify, and once it is retired they do for
   * thirty days more.
   */
  lemma {:induction false} RetiredKeysVerifyThirtyDays(ed: Ed25519, ring: Ring, c: Claims, now: Time,
                                                       ring': Ring, i: nat, t: Time)
    requires Correct(ed) && Current(ring).Some? && IsInt64(UnixSeconds(IssueTime(c, now)))
    requires IsFirstWith(ring'.keys, ring.current, i) && |ring'.keys[i].publicKey| == 32
    requires ring'.keys[i].publicKey == ed.publicOf(Current(ring).value.seed)
    ensures Verify(ed, ring', Sign(ed, ring, c, now).value, t) ==
            if c.deviceId == "" || c.subdomain == "" || GraceIsOver(ring'.keys[i], t) then None
            else Some(Claims(c.deviceId, c.subdomain, IssuedAtSecond(c, now), ring.current))
  {
    KeyIsAccepted(ring', ring.current, i, t);
    SecondsOfIssue(c, now);
    VerifiesElsewhere(ed, ring, c, now, ring', t);
  }

  /** Without a key of that kid no token of the signer verifies. */
  lemma {:induction false} RemovedKeysVerifyNothing(ed: Ed25519, ring: Ring, c: Claims, now: Time, ring': Ring, t: Time)
    requires Correct(ed) && Current(ring).Some? && IsInt64(UnixSeconds(IssueTime(c, now)))
    requires forall j :: 0 <= j < |ring'.keys| ==> ring'.keys[j].kid != ring.current
    ensures Verify(ed, ring', Sign(ed, ring, c, now).value, t) == None
  {
    FindKeyIsFirst(ring'.keys, ring.current, |ring'.keys|);
    VerifiesElsewhere(ed, ring, c, now, ring', t);
  }

  // ---------- every rule of Verify ----------

  /** The decoded parts obey every rule at this time, with key i. */
  predicate Acceptable(ed: Ed25519, ring: Ring, hdr: Option<Header>, m: string, sig: Option<seq<Byte>>,
                       payload: Option<Payload>, i: nat, now: Time)
  {
    && hdr.Some? && hdr.value.alg == "EdDSA" && hdr.value.kid != ""
    && IsFirstWith(ring.keys, hdr.value.kid, i) && |ring.keys[i].publicKey| == 32
    && (ring.keys[i].retiredAt.Some? ==> now - ring.keys[i].retiredAt.value <= 30 * 24 * 3600 * 1_000_000_000)
    && sig.Some? && ed.verify(ring.keys[i].publicKey, m, sig.value)
    && payload.Some? && payload.value.sub != "" && payload.value.dom != ""
  }

  lemma CheckAcceptsIff(ed: Ed25519, ring: Ring, hdr: Option<Header>, m: string, sig: Option<seq<Byte>>,
                        payload: Option<Payload>, now: Time)
    ensures var c := Check(ed, ring, hdr, m, sig, payload, now);
            && (c.Some? <==> exists i :: Acceptable(ed, ring, hdr, m, sig, payload, i, now))
            && (c.Some? ==>
                  && hdr.Some? && payload.Some?
                  && c.value == Claims(payload.value.sub, payload.value.dom, payload.value.iat * 1_000_000_000,
                                       hdr.value.kid))
  {
    if hdr.Some? {
      var kid := hdr.value.kid;
      FirstBefore(ring.keys, kid);
      FoundKeyHasKid(ring.keys, kid);
      if i: nat :| Acceptable(ed, ring, hdr, m, sig, payload, i, now) {
        FindKeyIsFirst(ring.keys, kid, i);
        GraceIsRetirement(ring.keys[i], now);
      }
      if Check(ed, ring, hdr, m, sig, payload, now).Some? {
        var i := FindKey(ring.keys, kid).value;
        GraceIsRetirement(ring.keys[i], now);
        assert Acceptable(ed, ring, hdr, m, sig, payload, i, now);
      }
    }
  }

  /**
   * A token is accepted if and only if it has three parts that decode and
   * obey every rule, and then for the claims in its payload.
   */
  lemma VerifyAcceptsIff(ed: Ed25519, ring: Ring, token: string, now: Time)
    ensures var parts, c := Split(token, '.'), Verify(ed, ring, token, now);
            if |parts| != 3 then c == None
            else
              var hdr, payload := HeaderOf(parts[0]), PayloadOf(parts[1]);
              var m, sig := parts[0] + "." + parts[1], Unbase64(parts[2]);
              && (c.Some? <==> exists i :: Acceptable(ed, ring, hdr, m, sig, payload, i, now))
              && (c.Some? ==>
                    && hdr.Some? && payload.Some?
                    && c.value == Claims(payload.value.sub, payload.value.dom, payload.value.iat * 1_000_000_000,
                                         hdr.value.kid))
  {
    var parts := Split(token, '.');
    if |parts| == 3 {
      CheckAcceptsIff(ed, ring, HeaderOf(parts[0]), parts[0] + "." + parts[1], Unbase64(parts[2]),
                      PayloadOf(parts[1]), now);
    }
  }

  predicate PlainText(s: string) {
    forall i :: 0 <= i < |s| ==> NeedsNoEscape(s[i])
  }

  /**
   * What a token looks like: the JSON objects of RFC 7515 and RFC 7519 with
   * the claims written in, and the signature over both.
   */
  lemma SignedTokenIsAJwt(ed: Ed25519, ring: Ring, c: Claims, now: Time)
    requires Current(ring).Some? && PlainText(ring.current) && PlainText(c.deviceId) && PlainText(c.subdomain)
    requires IssuedAtSecond(c, now) >= 0
    ensures var iat := IssuedAtSecond(c, now) / 1_000_000_000;
            var h := "{\"alg\":\"EdDSA\",\"kid\":\"" + ring.current + "\",\"typ\":\"JWT\"}";
            var p := "{\"sub\":\"" + c.deviceId + "\",\"dom\":\"" + c.subdomain + "\",\"iat\":" + Decimal(iat) + "}";
            var m := Base64(Utf8(h)) + "." + Base64(Utf8(p));
            Sign(ed, ring, c, now) == Some(m + "." + Base64(ed.sign(Current(ring).value.seed, m)))
  {
    HeaderIsJson(ring.current);
    PayloadIsJson(c.deviceId, c.subdomain, IssuedAtSecond(c, now) / 1_000_000_000);
    SecondsOfIssue(c, now);
  }

  /** Appending to the right is appending. */
  lemma Nested(a: string, b: string, c: string, d: string, e: string)
    ensures a + (b + (c + (d + e))) == a + b + c + d + e
  {
  }

  lemma HeaderIsJson(kid: string)
    requires PlainText(kid)
    ensures HeaderJson("EdDSA", kid, "JWT") ==
            "{\"alg\":\"EdDSA\",\"kid\":\"" + kid + "\",\"typ\":\"JWT\"}"
  {
    PlainTextPrintsAsItself(kid);
    HeaderWords();
    HeaderPieces();
    HeaderNests(HEADER_ALG, "EdDSA", "\"", HEADER_KID, kid, HEADER_TYP + ("JWT" + "\"" + "}"));
  }

  lemma HeaderWords()
    ensures Quoted("EdDSA") == "EdDSA" && Quoted("JWT") == "JWT"
  {
    PlainTextPrintsAsItself("EdDSA");
    PlainTextPrintsAsItself("JWT");
  }

  lemma HeaderPieces()
    ensures HEADER_ALG + ("EdDSA" + "\"") + HEADER_KID == "{\"alg\":\"EdDSA\",\"kid\":\""
    ensures "\"" + (HEADER_TYP + ("JWT" + "\"" + "}")) == "\",\"typ\":\"JWT\"}"
  {
  }

  lemma HeaderNests(a: string, alg: string, q: string, k: string, kid: string, tail: string)
    ensures a + (alg + q + (k + (kid + q + tail))) == (a + (alg + q) + k) + kid + (q + tail)
  {
    Nested(a, alg + q, k, kid, q + tail);
    assert kid + q + tail == kid + (q + tail);
  }

  lemma PayloadIsJson(sub: string, dom: string, iat: nat)
    requires PlainText(sub) && PlainText(dom)
    ensures PayloadJson(sub, dom, iat) ==
            "{\"sub\":\"" + sub + "\",\"dom\":\"" + dom + "\",\"iat\":" + Decimal(iat) + "}"
  {
    PlainTextPrintsAsItself(sub);
    PlainTextPrintsAsItself(dom);
    PayloadPieces();
    PayloadNests(sub, dom, Decimal(iat));
  }

  lemma PayloadPieces()
    ensures "\"" + PAYLOAD_DOM == "\",\"dom\":\"" && "\"" + PAYLOAD_IAT == "\",\"iat\":"
  {
  }

  lemma PayloadNests(sub: string, dom: string, n: string)
    ensures PAYLOAD_SUB + (sub + "\"" + (PAYLOAD_DOM + (dom + "\"" + (PAYLOAD_IAT + (n + "}"))))) ==
            PAYLOAD_SUB + sub + ("\"" + PAYLOAD_DOM) + dom + ("\"" + PAYLOAD_IAT) + n + "}"
  {
    var q := "\"";
    Nested(PAYLOAD_SUB + sub, q + PAYLOAD_DOM, dom, q + PAYLOAD_IAT, n + "}");
    assert sub + q + (PAYLOAD_DOM + (dom + q + (PAYLOAD_IAT + (n + "}")))) ==
           sub + ((q + PAYLOAD_DOM) + (dom + ((q + PAYLOAD_IAT) + (n + "}"))));
  }

  // ---------- what an accepted token proves ----------

  /** One Sign call that happened: under which kid, for which claims. */
  datatype Issued = Issued(kid: string, sub: string, dom: string, iat: int)

  /** The one key of the ring that a header's kid names verifies the message. */
  predicate Verifies(ed: Ed25519, ring: Ring, hdr: Header, m: string, sig: seq<Byte>) {
    FoundKeyHasKid(ring.keys, hdr.kid);
    var i := FindKey(ring.keys, hdr.kid);
    i.Some? && ed.verify(ring.keys[i.value].publicKey, m, sig)
  }

  /** Some Sign call under this kid signed this message. */
  ghost predicate WasSigned(issued: set<Issued>, kid: string, m: string) {
    exists x :: x in issued && x.kid == kid && m == SigningInput(x.kid, x.sub, x.dom, x.iat)
  }

  /**
   * This one token is no forgery: if the key it names verifies its signature,
   * that key signed its message. It says nothing of signatures nobody presents.
   */
  ghost predicate Unforged(ed: Ed25519, ring: Ring, issued: set<Issued>, token: string) {
    var parts := Split(token, '.');
    |parts| == 3 ==>
      var hdr, m, sig := HeaderOf(parts[0]), parts[0] + "." + parts[1], Unbase64(parts[2]);
      hdr.Some? && sig.Some? && Verifies(ed, ring, hdr.value, m, sig.value) ==> WasSigned(issued, hdr.value.kid, m)
  }

  /** A token that Sign made is no forgery, whatever the scheme and whatever ring verifies it. */
  lemma SignedTokensAreUnforged(ed: Ed25519, ring: Ring, c: Claims, now: Time, ring': Ring, issued: set<Issued>)
    requires Current(ring).Some? && IsInt64(UnixSeconds(IssueTime(c, now)))
    requires Issued(ring.current, c.deviceId, c.subdomain, UnixSeconds(IssueTime(c, now))) in issued
    ensures Unforged(ed, ring', issued, Sign(ed, ring, c, now).value)
  {
    SignedTokenParts(ed, ring, c, now);
    var x := Issued(ring.current, c.deviceId, c.subdomain, UnixSeconds(IssueTime(c, now)));
    assert WasSigned(issued, ring.current, SigningInput(x.kid, x.sub, x.dom, x.iat));
  }

  /** Two parts without dots are determined by their join. */
  lemma TwoPartsDetermined(a: string, b: string, c: string, d: string)
    requires '.' !in a && '.' !in b && '.' !in c && '.' !in d
    requires a + "." + b == c + "." + d
    ensures a == c && b == d
  {
    DotSplitsInTwo(a, b, a + "." + b);
    DotSplitsInTwo(c, d, a + "." + b);
    assert [a, b] == [c, d];
    assert [a, b][0] == [c, d][0] && [a, b][1] == [c, d][1];
  }

  /**
   * Authenticity: an accepted token that is no forgery carries the kid and
   * claims of a Sign call - nothing in it can have been altered.
   */
  lemma OnlySignedClaimsVerify(ed: Ed25519, ring: Ring, issued: set<Issued>, token: string, now: Time)
    requires Unforged(ed, ring, issued, token) && forall x :: x in issued ==> IsInt64(x.iat)
    ensures var c := Verify(ed, ring, token, now);
            c.Some? ==> exists x :: x in issued && c.value == Claims(x.sub, x.dom, x.iat * SECOND, x.kid)
  {
    if Verify(ed, ring, token, now).Some? {
      var h, p, g := AcceptedParts(ed, ring, token, now);
      var m := h + "." + p;
      CheckProves(ed, ring, HeaderOf(h), m, Unbase64(g), PayloadOf(p), now);
      var x :| x in issued && x.kid == HeaderOf(h).value.kid && m == SigningInput(x.kid, x.sub, x.dom, x.iat);
      SigningInputDetermined(h, p, x);
    }
  }

  /** An accepted token has three parts without dots, and passes the check on them. */
  lemma AcceptedParts(ed: Ed25519, ring: Ring, token: string, now: Time) returns (h: string, p: string, g: string)
    requires Verify(ed, ring, token, now).Some?
    ensures '.' !in h && '.' !in p && Split(token, '.') == [h, p, g]
    ensures Verify(ed, ring, token, now) ==
            Check(ed, ring, HeaderOf(h), h + "." + p, Unbase64(g), PayloadOf(p), now)
  {
    var parts := Split(token, '.');
    SplitJoins(token, '.');
    h, p, g := parts[0], parts[1], parts[2];
  }

  /** What a passed check says: the key named verified the message, and the claims are the parts'. */
  lemma CheckProves(ed: Ed25519, ring: Ring, hdr: Option<Header>, m: string, sig: Option<seq<Byte>>,
                    payload: Option<Payload>, now: Time)
    requires Check(ed, ring, hdr, m, sig, payload, now).Some?
    ensures hdr.Some? && payload.Some? && sig.Some? && Verifies(ed, ring, hdr.value, m, sig.value)
    ensures Check(ed, ring, hdr, m, sig, payload, now).value ==
            Claims(payload.value.sub, payload.value.dom, payload.value.iat * SECOND, hdr.value.kid)
  {
    FoundKeyHasKid(ring.keys, hdr.value.kid);
  }

  lemma SigningInputDetermined(h: string, p: string, x: Issued)
    requires '.' !in h && '.' !in p && IsInt64(x.iat)
    requires h + "." + p == SigningInput(x.kid, x.sub, x.dom, x.iat)
    ensures HeaderOf(h) == Some(Header("EdDSA", x.kid, "JWT"))
    ensures PayloadOf(p) == Some(Payload(x.sub, x.dom, x.iat))
  {
    WrapRoundTrip(HeaderJson("EdDSA", x.kid, "JWT"));
    WrapRoundTrip(PayloadJson(x.sub, x.dom, x.iat));
    TwoPartsDetermined(h, p, Wrap(HeaderJson("EdDSA", x.kid, "JWT")), Wrap(PayloadJson(x.sub, x.dom, x.iat)));
    HeaderRoundTrip("EdDSA", x.kid, "JWT");
    PayloadRoundTrip(x.sub, x.dom, x.iat);
  }

  // ---------- the hypotheses can be met ----------

  /** A scheme that is correct, if not secret: the signature is the key and the message. */
  function PlainScheme(): Ed25519 {
    Ed25519(seed => seed, (seed, m) => seed + Utf8(m), (key, m, sig) => sig == key + Utf8(m))
  }

  function PlainRing(seed: seq<Byte>): Ring {
    Ring([Keypair("k", seed, "", seed, "", 0, None)], "k")
  }

  /** Correct and Unforged are met together by tokens that verify, for any claims a registration makes. */
  lemma AcceptedTokensExist(seed: seq<Byte>, c: Claims, now: Time, t: Time)
    requires |seed| == SEED_SIZE && c.deviceId != "" && c.subdomain != "" && IsInt64(UnixSeconds(IssueTime(c, now)))
    ensures var ed, ring, iat := PlainScheme(), PlainRing(seed), UnixSeconds(IssueTime(c, now));
            && Correct(ed) && Sign(ed, ring, c, now).Some?
            && Unforged(ed, ring, {Issued("k", c.deviceId, c.subdomain, iat)}, Sign(ed, ring, c, now).value)
            && Verify(ed, ring, Sign(ed, ring, c, now).value, t) ==
               Some(Claims(c.deviceId, c.subdomain, iat * SECOND, "k"))
  {
    var ed, ring := PlainScheme(), PlainRing(seed);
    assert FindKey(ring.keys, "k") == Some(0);
    assert Current(ring) == Some(ring.keys[0]);
    SecondsOfIssue(c, now);
    VerifyInvertsSign(ed, ring, c, now, t);
    SignedTokensAreUnforged(ed, ring, c, now, ring,
                            {Issued("k", c.deviceId, c.subdomain, UnixSeconds(IssueTime(c, now)))});
  }

  // ---------- the retirement window ----------

  /** Acceptance only ever ends: a token accepted at t2 was accepted at every earlier t1. */
  lemma AcceptanceIsMonotone(ed: Ed25519, ring: Ring, token: string, t1: Time, t2: Time)
    requires t1 <= t2 && Verify(ed, ring, token, t2).Some?
    ensures Verify(ed, ring, token, t1) == Verify(ed, ring, token, t2)
  {
    var hdr := HeaderOf(Split(token, '.')[0]).value;
    assert AcceptedKey(ring, hdr, t1) == AcceptedKey(ring, hdr, t2);
  }
}
