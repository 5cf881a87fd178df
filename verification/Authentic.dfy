/**
 * Why heartbeats are honest: the claims of a beat come from a bearer token
 * that Verify accepted, and the tokens in the world come from 201 answers.
 */
module Authentic {
  import opened Common
  import opened Tables
  import opened Requests
  import opened Conservation
  import opened Integrity
  import Codec
  import DeviceJwt

  /**
   * An event with what is on the wire. For a beat: the hub's key ring and
   * clock when it verifies, and the bearer token presented. For the step that
   * answers 201: the ring and the time with which its token was signed.
   */
  datatype Message = Message(event: Event, ring: DeviceJwt.Ring, at: Time, token: string)

  function Events(ms: seq<Message>): (es: seq<Event>)
    ensures |es| == |ms| && forall i :: 0 <= i < |es| ==> es[i] == ms[i].event
  {
    seq(|ms|, i requires 0 <= i < |ms| => ms[i].event)
  }

  function WorldAt(parent: string, ms: seq<Message>): World {
    Run(parent, Init(), Events(ms))
  }

  lemma WorldGrows(parent: string, ms: seq<Message>, m: Message)
    ensures WorldAt(parent, ms + [m]) == Next(parent, WorldAt(parent, ms), m.event)
  {
    assert Events(ms + [m])[..|ms|] == Events(ms);
  }

  predicate IsCreated(w: World, h: nat) {
    h in w.handlers && w.handlers[h].Reg? && w.handlers[h].r.Created()
  }

  /** The claims a registration has signed; Sign fills in the time and the kid. */
  function TokenClaims(r: Registration): DeviceJwt.Claims {
    DeviceJwt.Claims(r.req.deviceId, r.sub, DeviceJwt.ZERO_TIME, "")
  }

  /** The step after which registration e.h answers 201: the upsert of its last pointer. */
  predicate Answers201(w: World, e: Event) {
    && e.Go? && e.h in w.handlers && w.handlers[e.h].Reg?
    && (var r := w.handlers[e.h].r; r.pc == SaveAAAA || (r.pc == SaveA && r.req.v6.None?))
  }

  /** Registrations become created by these steps alone, and stay so. */
  lemma CreatedByAnswer(parent: string, w: World, e: Event, h: nat)
    ensures IsCreated(Next(parent, w, e), h) <==> IsCreated(w, h) || (Answers201(w, e) && e.h == h)
  {
    if e.Go? && e.h == h && h in w.handlers && w.handlers[h].Reg? {
      CreatedByStep(parent, w.s, w.handlers[h].r, e.o, e.now);
    }
  }

  lemma CreatedByStep(parent: string, s: Stores, r: Registration, o: Outcome, now: Time)
    requires Coherent(r)
    ensures var r' := StepRegistration(parent, s, r, o, now).1;
            r'.Created() <==> r.Created() || r.pc == SaveAAAA || (r.pc == SaveA && r.req.v6.None?)
  {
  }

  lemma AnswerKeepsName(parent: string, w: World, e: Event)
    requires Answers201(w, e)
    ensures var r := w.handlers[e.h].r; IssuedTo(Next(parent, w, e).handlers[e.h], r.req.deviceId, r.sub)
  {
  }

  /** What a message puts into circulation. */
  function HandedOutBy(w: World, m: Message): set<DeviceJwt.Issued> {
    if Answers201(w, m.event) then
      var r := w.handlers[m.event.h].r;
      {DeviceJwt.Issued(m.ring.current, r.req.deviceId, r.sub, DeviceJwt.UnixSeconds(m.at))}
    else {}
  }

  /** The Sign calls whose tokens are in circulation. */
  function HandedOut(parent: string, ms: seq<Message>): set<DeviceJwt.Issued> {
    if ms == [] then {}
    else
      var front := ms[..|ms| - 1];
      HandedOut(parent, front) + HandedOutBy(WorldAt(parent, front), ms[|ms| - 1])
  }

  lemma HandedOutOneMore(parent: string, ms: seq<Message>, m: Message)
    ensures HandedOut(parent, ms + [m]) == HandedOut(parent, ms) + HandedOutBy(WorldAt(parent, ms), m)
  {
    assert (ms + [m])[..|ms|] == ms;
  }

  /** A beat gets in with the claims of a verified token that nobody forged. */
  ghost predicate Authentic(ed: DeviceJwt.Ed25519, handed: set<DeviceJwt.Issued>, m: Message) {
    m.event.Report? ==>
      var c := DeviceJwt.Verify(ed, m.ring, m.token, m.at);
      && c.Some? && c.value.deviceId == m.event.beat.deviceId && c.value.subdomain == m.event.beat.subdomain
      && DeviceJwt.Unforged(ed, m.ring, handed, m.token)
  }

  /** Times fit Go's clock. */
  predicate Clocked(m: Message) {
    Codec.IsInt64(DeviceJwt.UnixSeconds(m.at))
  }

  /** Message i of the run is authentic when it comes. */
  ghost predicate AuthenticAt(ed: DeviceJwt.Ed25519, parent: string, ms: seq<Message>, i: nat)
    requires i < |ms|
  {
    Clocked(ms[i]) && Authentic(ed, HandedOut(parent, ms[..i]), ms[i])
  }

  ghost predicate AuthenticRun(ed: DeviceJwt.Ed25519, parent: string, ms: seq<Message>) {
    forall i :: 0 <= i < |ms| ==> AuthenticAt(ed, parent, ms, i)
  }

  lemma AuthenticPrefix(ed: DeviceJwt.Ed25519, parent: string, ms: seq<Message>)
    requires ms != [] && AuthenticRun(ed, parent, ms)
    ensures var k := |ms| - 1;
            && AuthenticRun(ed, parent, ms[..k])
            && Clocked(ms[k]) && Authentic(ed, HandedOut(parent, ms[..k]), ms[k])
  {
    var k := |ms| - 1;
    forall i | 0 <= i < k
      ensures AuthenticAt(ed, parent, ms[..k], i)
    {
      assert ms[..k][..i] == ms[..i] && AuthenticAt(ed, parent, ms, i);
    }
    assert AuthenticAt(ed, parent, ms, k);
  }

  // ---------- tokens come from answers ----------

  /** The claims of x were handed out by some 201 answer. */
  ghost predicate FromAnswer(w: World, x: DeviceJwt.Issued) {
    exists h :: h in w.handlers && IssuedTo(w.handlers[h], x.sub, x.dom)
  }

  lemma FromAnswerByNext(parent: string, w: World, e: Event, x: DeviceJwt.Issued)
    requires FromAnswer(w, x)
    ensures FromAnswer(Next(parent, w, e), x)
  {
    var h :| h in w.handlers && IssuedTo(w.handlers[h], x.sub, x.dom);
    FinishedByNext(parent, w, e, h);
  }

  /** Every token in circulation comes from a 201 answer. */
  ghost predicate Provenance(w: World, handed: set<DeviceJwt.Issued>) {
    forall x :: x in handed ==> Codec.IsInt64(x.iat) && FromAnswer(w, x)
  }

  lemma ProvenanceByNext(parent: string, w: World, handed: set<DeviceJwt.Issued>, m: Message, w': World)
    requires Provenance(w, handed) && Clocked(m) && w' == Next(parent, w, m.event)
    ensures Provenance(w', handed + HandedOutBy(w, m))
  {
    forall x | x in handed + HandedOutBy(w, m)
      ensures Codec.IsInt64(x.iat) && FromAnswer(w', x)
    {
      if x in handed {
        FromAnswerByNext(parent, w, m.event, x);
      } else {
        AnswerKeepsName(parent, w, m.event);
      }
    }
  }

  ghost predicate FromAnswers(parent: string, ms: seq<Message>) {
    Provenance(WorldAt(parent, ms), HandedOut(parent, ms))
  }

  lemma FromAnswersOneMore(parent: string, ms: seq<Message>, m: Message)
    requires FromAnswers(parent, ms) && Clocked(m)
    ensures FromAnswers(parent, ms + [m])
  {
    WorldGrows(parent, ms, m);
    HandedOutOneMore(parent, ms, m);
    ProvenanceByNext(parent, WorldAt(parent, ms), HandedOut(parent, ms), m, WorldAt(parent, ms + [m]));
  }

  lemma {:induction false} TokensComeFromAnswers(parent: string, ms: seq<Message>)
    requires forall i :: 0 <= i < |ms| ==> Clocked(ms[i])
    ensures FromAnswers(parent, ms)
  {
    if ms != [] {
      var front, m := ms[..|ms| - 1], ms[|ms| - 1];
      TokensComeFromAnswers(parent, front);
      FromAnswersOneMore(parent, front, m);
      assert ms == front + [m];
    }
  }

  // ---------- authentic runs are honest ----------

  lemma AuthenticBeatIsHonest(ed: DeviceJwt.Ed25519, w: World, handed: set<DeviceJwt.Issued>, m: Message)
    requires Authentic(ed, handed, m) && Provenance(w, handed)
    ensures Honest(w, m.event)
  {
    if m.event.Report? {
      DeviceJwt.OnlySignedClaimsVerify(ed, m.ring, handed, m.token, m.at);
    }
  }

  /**
   * Every run whose beats come with verified, unforged tokens is honest, so
   * what is proved of honest runs holds of it.
   */
  lemma {:induction false} AuthenticRunsAreHonest(ed: DeviceJwt.Ed25519, parent: string, ms: seq<Message>)
    requires AuthenticRun(ed, parent, ms)
    ensures HonestRun(parent, Events(ms))
  {
    if ms != [] {
      var k := |ms| - 1;
      AuthenticPrefix(ed, parent, ms);
      AuthenticRunsAreHonest(ed, parent, ms[..k]);
      forall i | 0 <= i < k
        ensures Clocked(ms[..k][i])
      {
        assert AuthenticAt(ed, parent, ms, i);
      }
      TokensComeFromAnswers(parent, ms[..k]);
      AuthenticBeatIsHonest(ed, WorldAt(parent, ms[..k]), HandedOut(parent, ms[..k]), ms[k]);
      HonestOneMore(parent, Events(ms[..k]), ms[k].event);
      assert Events(ms) == Events(ms[..k]) + [ms[k].event];
    }
  }

  lemma HonestOneMore(parent: string, es: seq<Event>, e: Event)
    requires HonestRun(parent, es) && Honest(Run(parent, Init(), es), e)
    ensures HonestRun(parent, es + [e])
  {
    forall i | 0 <= i < |es + [e]|
      ensures HonestAt(parent, es + [e], i)
    {
      assert (es + [e])[..i] == if i < |es| then es[..i] else es;
      assert i < |es| ==> HonestAt(parent, es, i);
    }
  }

  /** What honest runs are safe from: dangling pointers, and a 201's row or records going away. */
  ghost predicate Safe(parent: string, s: Stores, w: World, h: nat)
    requires IsCreated(w, h)
  {
    PointersSound(parent, s) && Served(parent, s, w.handlers[h].r)
  }

  lemma HonestRunsAreSafe(parent: string, es: seq<Event>, more: seq<Event>, h: nat)
    requires HonestRun(parent, es + more) && IsCreated(Run(parent, Init(), es), h)
    ensures Safe(parent, Run(parent, Init(), es + more).s, Run(parent, Init(), es), h)
  {
    PointersNeverDangle(parent, es + more);
    CreatedDevicesKeepTheirRecords(parent, es, more, h);
  }

  lemma EventsOfSum(ms: seq<Message>, more: seq<Message>)
    ensures Events(ms + more) == Events(ms) + Events(more)
  {
  }

  /** So no bearer token, however presented, makes a pointer dangle or takes the records of a 201 away. */
  lemma AuthenticRunsAreSafe(ed: DeviceJwt.Ed25519, parent: string, ms: seq<Message>, more: seq<Message>, h: nat)
    requires AuthenticRun(ed, parent, ms + more) && IsCreated(WorldAt(parent, ms), h)
    ensures Safe(parent, WorldAt(parent, ms + more).s, WorldAt(parent, ms), h)
  {
    AuthenticRunsAreHonest(ed, parent, ms + more);
    EventsOfSum(ms, more);
    HonestRunsAreSafe(parent, Events(ms), Events(more), h);
  }

  // ---------- and cams do get in ----------

  predicate Circulates(parent: string, ms: seq<Message>, x: DeviceJwt.Issued) {
    x in HandedOut(parent, ms)
  }

  lemma CirculatesOneMore(parent: string, ms: seq<Message>, more: seq<Message>, x: DeviceJwt.Issued)
    requires more != [] && Circulates(parent, ms + more[..|more| - 1], x)
    ensures Circulates(parent, ms + more, x)
  {
    HandedOutOneMore(parent, ms + more[..|more| - 1], more[|more| - 1]);
    assert ms + more == ms + more[..|more| - 1] + [more[|more| - 1]];
  }

  lemma {:induction false} StaysInCirculation(parent: string, ms: seq<Message>, more: seq<Message>, x: DeviceJwt.Issued)
    requires Circulates(parent, ms, x)
    ensures Circulates(parent, ms + more, x)
  {
    if more == [] {
      assert ms + more == ms;
    } else {
      StaysInCirculation(parent, ms, more[..|more| - 1], x);
      CirculatesOneMore(parent, ms, more, x);
    }
  }

  lemma AuthenticOneMore(ed: DeviceJwt.Ed25519, parent: string, ms: seq<Message>, m: Message)
    requires AuthenticRun(ed, parent, ms) && Clocked(m) && Authentic(ed, HandedOut(parent, ms), m)
    ensures AuthenticRun(ed, parent, ms + [m])
  {
    var ns := ms + [m];
    forall i | 0 <= i < |ns|
      ensures AuthenticAt(ed, parent, ns, i)
    {
      assert ns[..i] == if i < |ms| then ms[..i] else ms;
      assert i < |ms| ==> AuthenticAt(ed, parent, ms, i);
    }
  }

  lemma SignedBeatIsAuthentic(ed: DeviceJwt.Ed25519, handed: set<DeviceJwt.Issued>, m: Message, c: DeviceJwt.Claims,
                              b: Message)
    requires DeviceJwt.Correct(ed) && Clocked(m) && c.issuedAt == DeviceJwt.ZERO_TIME
    requires DeviceJwt.Sign(ed, m.ring, c, m.at) == Some(b.token)
    requires DeviceJwt.Issued(m.ring.current, c.deviceId, c.subdomain, DeviceJwt.UnixSeconds(m.at)) in handed
    requires b.event.Report? && b.event.beat.deviceId == c.deviceId != "" && b.event.beat.subdomain == c.subdomain != ""
    requires var k := DeviceJwt.AcceptedKey(b.ring, DeviceJwt.Header("EdDSA", m.ring.current, "JWT"), b.at);
             k.Some? && k.value.publicKey == ed.publicOf(DeviceJwt.Current(m.ring).value.seed)
    ensures Authentic(ed, handed, b)
  {
    DeviceJwt.VerifiesElsewhere(ed, m.ring, c, m.at, b.ring, b.at);
    DeviceJwt.SignedTokensAreUnforged(ed, m.ring, c, m.at, b.ring, handed);
  }

  /**
   * The hypotheses leave room for every honest cam: after any authentic run,
   * the token of any 201 answer lets its device report any address, as long as
   * the ring still accepts the signer's public key under its kid.
   */
  lemma TokenHoldersGetIn(ed: DeviceJwt.Ed25519, parent: string, ms: seq<Message>, m: Message, more: seq<Message>,
                          ring: DeviceJwt.Ring, at: Time, g: nat, beat: BeatReq)
    requires DeviceJwt.Correct(ed) && AuthenticRun(ed, parent, ms + [m] + more) && Clocked(m)
    requires Answers201(WorldAt(parent, ms), m.event) && DeviceJwt.Current(m.ring).Some?
    requires var r := WorldAt(parent, ms).handlers[m.event.h].r;
             && beat.deviceId == r.req.deviceId != "" && beat.subdomain == r.sub != ""
    requires var k := DeviceJwt.AcceptedKey(ring, DeviceJwt.Header("EdDSA", m.ring.current, "JWT"), at);
             k.Some? && k.value.publicKey == ed.publicOf(DeviceJwt.Current(m.ring).value.seed)
    requires Codec.IsInt64(DeviceJwt.UnixSeconds(at))
    ensures var token := DeviceJwt.Sign(ed, m.ring, TokenClaims(WorldAt(parent, ms).handlers[m.event.h].r), m.at);
            && token.Some?
            && AuthenticRun(ed, parent, ms + [m] + more + [Message(Report(g, beat), ring, at, token.value)])
  {
    var c := TokenClaims(WorldAt(parent, ms).handlers[m.event.h].r);
    var token := DeviceJwt.Sign(ed, m.ring, c, m.at).value;
    var handed := HandedOut(parent, ms + [m] + more);
    HandedOutOneMore(parent, ms, m);
    StaysInCirculation(parent, ms + [m], more,
                       DeviceJwt.Issued(m.ring.current, c.deviceId, c.subdomain, DeviceJwt.UnixSeconds(m.at)));
    SignedBeatIsAuthentic(ed, handed, m, c, Message(Report(g, beat), ring, at, token));
    AuthenticOneMore(ed, parent, ms + [m] + more, Message(Report(g, beat), ring, at, token));
  }
}
