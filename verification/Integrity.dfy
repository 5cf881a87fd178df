/**
 * What every run keeps when heartbeats carry only tokens the hub issued:
 * a registration answered 201 keeps its row and its live A record for good,
 * and every dns_records row points at a live record of its own name and type.
 */
module Integrity {
  import opened Common
  import opened Tables
  import opened Requests
  import opened Conservation
  import Subdomain

  // ---------- honest heartbeats ----------

  /** A 201 answer to (device, subdomain): the only place a device token comes from. */
  predicate IssuedTo(p: Handler, id: string, sub: string) {
    p.Reg? && p.r.Created() && p.r.req.deviceId == id && p.r.sub == sub
  }

  /** A beat carries the claims of a token some 201 handed out; Authentic derives this from Verify. */
  ghost predicate Honest(w: World, e: Event) {
    e.Report? ==> exists h :: h in w.handlers && IssuedTo(w.handlers[h], e.beat.deviceId, e.beat.subdomain)
  }

  /** Event i of the run is honest when it comes. */
  ghost predicate HonestAt(parent: string, es: seq<Event>, i: nat)
    requires i < |es|
  {
    Honest(Run(parent, Init(), es[..i]), es[i])
  }

  ghost predicate HonestRun(parent: string, es: seq<Event>) {
    forall i :: 0 <= i < |es| ==> HonestAt(parent, es, i)
  }

  lemma HonestPrefix(parent: string, es: seq<Event>)
    requires es != [] && HonestRun(parent, es)
    ensures HonestRun(parent, es[..|es| - 1])
    ensures Honest(Run(parent, Init(), es[..|es| - 1]), es[|es| - 1])
  {
    var k := |es| - 1;
    forall i | 0 <= i < k
      ensures HonestAt(parent, es[..k], i)
    {
      assert es[..k][..i] == es[..i];
      assert HonestAt(parent, es, i);
    }
    assert HonestAt(parent, es, k);
  }

  // ---------- the invariant ----------

  predicate Named(z: Zone, id: nat, fqdn: string, t: RecordType) {
    id in z.records && z.records[id].fqdn == fqdn && z.records[id].rtype == t
  }

  function Targets(pointers: PointerTable): set<nat> {
    set k | k in pointers :: pointers[k].cloudflareId
  }

  predicate PointerSound(parent: string, s: Stores, k: (string, RecordType))
    requires k in s.pointers
  {
    && k.0 in s.devices
    && s.pointers[k].fqdn == Subdomain.Fqdn(s.devices[k.0].subdomain, parent)
    && Named(s.zone, s.pointers[k].cloudflareId, s.pointers[k].fqdn, k.1)
  }

  /** Each dns_records row names an existing device and a live record of its own name and type. */
  ghost predicate PointersSound(parent: string, s: Stores) {
    forall k :: k in s.pointers ==> PointerSound(parent, s, k)
  }

  /** Records a handler created and has not yet published in dns_records. */
  function Private(p: Handler): set<nat> {
    match p
    case Reg(r) => if r.Created() then {} else if r.pc == SaveAAAA then ToSet(r.aaaa) else r.Owned()
    case Hb(b) => if b.pc == SaveNew then {b.id} else {}
  }

  /** The record a beat read from dns_records and is about to overwrite or re-save. */
  function Held(p: Handler): set<nat> {
    if p.Hb? && p.b.pc in {Update, SaveOld} then {p.b.id} else {}
  }

  /** The registration could still take its device row back. */
  predicate Tentative(p: Handler) {
    p.Reg? && p.r.pc in {Sign, UndoDevice}
  }

  predicate RecordsNamed(parent: string, z: Zone, r: Registration) {
    r.pc in {CreateAAAA, Insert, Sign, SaveA, SaveAAAA, UndoDevice} || r.Created() ==>
      && (r.a.Some? ==> Named(z, r.a.value, Subdomain.Fqdn(r.sub, parent), A))
      && (r.aaaa.Some? ==> Named(z, r.aaaa.value, Subdomain.Fqdn(r.sub, parent), AAAA))
  }

  predicate BeatSound(parent: string, s: Stores, b: Beat) {
    && CoherentBeat(b)
    && b.req.deviceId in s.devices && s.devices[b.req.deviceId].subdomain == b.req.subdomain
    && (b.pc in {SaveNew, Update, SaveOld} ==> Named(s.zone, b.id, Name(parent, b), Head(b)))
  }

  predicate Local(parent: string, s: Stores, p: Handler) {
    && (match p case Reg(r) => RecordsNamed(parent, s.zone, r) case Hb(b) => BeatSound(parent, s, b))
    && Private(p) !! Targets(s.pointers)
  }

  predicate Compatible(p: Handler, q: Handler) {
    && Private(p) !! Held(q)
    && (Tentative(p) && q.Hb? ==> p.r.req.deviceId != q.b.req.deviceId)
  }

  ghost predicate Sane(parent: string, w: World) {
    && PointersSound(parent, w.s)
    && (forall h :: h in w.handlers ==> Local(parent, w.s, w.handlers[h]))
    && (forall g, h :: g in w.handlers && h in w.handlers && g != h ==> Compatible(w.handlers[g], w.handlers[h]))
  }

  // ---------- what one step of p does to everyone else ----------

  /** Records only disappear from p's private set; the others keep name and type. */
  ghost predicate KeepsRecords(z: Zone, z': Zone, mine: set<nat>) {
    forall id :: id in z.records && id !in mine ==>
      id in z'.records && z'.records[id].fqdn == z.records[id].fqdn && z'.records[id].rtype == z.records[id].rtype
  }

  /** Rows stay, apart from the row p is taking back, whose pointers go with it. */
  ghost predicate KeepsDevices(s: Stores, s': Stores, p: Handler) {
    forall d :: d in s.devices ==>
      || (d in s'.devices && s'.devices[d].subdomain == s.devices[d].subdomain)
      || (Tentative(p) && p.r.req.deviceId == d && forall k :: k in s'.pointers ==> k.0 != d)
  }

  /** A changed pointer is sound, and aims at a record p created or held. */
  ghost predicate KeepsPointers(parent: string, s: Stores, s': Stores, p: Handler) {
    forall k :: k in s'.pointers ==>
      || (k in s.pointers && s'.pointers[k] == s.pointers[k])
      || (PointerSound(parent, s', k) && s'.pointers[k].cloudflareId in Private(p) + Held(p))
  }

  ghost predicate Mild(parent: string, s: Stores, s': Stores, p: Handler, p': Handler) {
    && KeepsRecords(s.zone, s'.zone, Private(p))
    && KeepsDevices(s, s', p)
    && KeepsPointers(parent, s, s', p)
    && (forall id :: id in Private(p') ==> id in Private(p) || id !in s.zone.records)
    && Held(p') <= Held(p) + Targets(s.pointers)
    && (Tentative(p') ==> p.Reg? && p'.r.req == p.r.req && (Tentative(p) || p.r.req.deviceId !in s.devices))
    && (p.Hb? <==> p'.Hb?) && (p.Hb? ==> p'.b.req == p.b.req)
  }

  lemma PrivateIsOwned(p: SoundHandler)
    ensures Private(p) <= p.Owned()
  {
  }

  lemma OthersStayLocal(parent: string, s: Stores, s': Stores, p: SoundHandler, p': Handler, q: SoundHandler)
    requires Mild(parent, s, s', p, p') && Local(parent, s, p) && Local(parent, s, q)
    requires Compatible(p, q) && Compatible(q, p)
    requires p.Owned() !! q.Owned()
    ensures Local(parent, s', q)
  {
    PrivateIsOwned(p);
    PrivateIsOwned(q);
    forall k | k in s'.pointers
      ensures s'.pointers[k].cloudflareId !in Private(q)
    {
      if k in s.pointers && s'.pointers[k] == s.pointers[k] {
        assert s.pointers[k].cloudflareId in Targets(s.pointers);
      }
    }
    match q
    case Reg(r) =>
      assert r.a.Some? ==> r.a.value in q.Owned();
      assert r.aaaa.Some? ==> r.aaaa.value in q.Owned();
    case Hb(b) =>
      if b.pc in {Update, SaveOld} {
        assert b.id in Held(q);
      }
      if b.pc == SaveNew {
        assert b.id in q.Owned();
      }
  }

  lemma OthersStayCompatible(parent: string, s: Stores, s': Stores, p: SoundHandler, p': Handler, q: SoundHandler)
    requires Mild(parent, s, s', p, p') && Local(parent, s, p) && Local(parent, s, q)
    requires Compatible(p, q) && Compatible(q, p)
    ensures Compatible(p', q) && Compatible(q, p')
  {
    if q.Hb? && q.b.pc in {Update, SaveOld} {
      assert q.b.id in s.zone.records;
    }
  }

  lemma PointersStaySound(parent: string, s: Stores, s': Stores, p: Handler, p': Handler)
    requires Mild(parent, s, s', p, p') && PointersSound(parent, s) && Private(p) !! Targets(s.pointers)
    ensures PointersSound(parent, s')
  {
    forall k | k in s'.pointers
      ensures PointerSound(parent, s', k)
    {
      if k in s.pointers && s'.pointers[k] == s.pointers[k] {
        assert PointerSound(parent, s, k);
        assert s.pointers[k].cloudflareId in Targets(s.pointers);
      }
    }
  }

  lemma TargetsLive(parent: string, s: Stores)
    requires PointersSound(parent, s)
    ensures Targets(s.pointers) <= s.zone.records.Keys
  {
    forall k | k in s.pointers
      ensures s.pointers[k].cloudflareId in s.zone.records
    {
      assert PointerSound(parent, s, k);
    }
  }

  // ---------- every registration step is mild ----------

  /** What the conservation invariant says about one registration. */
  ghost predicate Backed(s: Stores, r: Registration) {
    && Coherent(r) && Distinct(Reg(r))
    && Issued(s.zone) && r.Owned() <= s.zone.records.Keys
    && (r.row ==> r.req.deviceId in s.devices && s.devices[r.req.deviceId].subdomain == r.sub)
  }

  lemma LocalStepMild(parent: string, s: Stores, r: Registration, o: Outcome, now: Time)
    requires Backed(s, r) && Local(parent, s, Reg(r)) && r.pc in {Consume, Resolve, Sign, Answered}
    ensures var x := StepRegistration(parent, s, r, o, now);
            Mild(parent, s, x.0, Reg(r), Reg(x.1)) && Local(parent, x.0, Reg(x.1))
  {
  }

  lemma CreateMild(parent: string, s: Stores, r: Registration, o: Outcome)
    requires Backed(s, r) && Local(parent, s, Reg(r)) && r.pc in {CreateA, CreateAAAA} && PointersSound(parent, s)
    ensures var x := if r.pc == CreateA then StepCreateA(parent, s, r, o) else StepCreateAAAA(parent, s, r, o);
            Mild(parent, s, x.0, Reg(r), Reg(x.1)) && Local(parent, x.0, Reg(x.1))
  {
    TargetsLive(parent, s);
    assert r.a.Some? ==> r.a.value in r.Owned();
  }

  lemma InsertMild(parent: string, s: Stores, r: Registration, o: Outcome, now: Time)
    requires Backed(s, r) && Local(parent, s, Reg(r)) && r.pc == Insert
    ensures var x := StepInsert(s, r, o, now);
            Mild(parent, s, x.0, Reg(r), Reg(x.1)) && Local(parent, x.0, Reg(x.1))
  {
  }

  lemma UndoDeviceMild(parent: string, s: Stores, r: Registration, o: Outcome)
    requires Backed(s, r) && Local(parent, s, Reg(r)) && r.pc == UndoDevice
    ensures var x := StepUndoDevice(s, r, o);
            Mild(parent, s, x.0, Reg(r), Reg(x.1)) && Local(parent, x.0, Reg(x.1))
  {
    var x := StepUndoDevice(s, r, o);
    assert Targets(x.0.pointers) <= Targets(s.pointers);
  }

  lemma UndoRecordMild(parent: string, s: Stores, r: Registration, o: Outcome)
    requires Backed(s, r) && Local(parent, s, Reg(r)) && r.pc in {UndoA, UndoAAAA}
    ensures var x := if r.pc == UndoA then StepUndoA(s, r, o) else StepUndoAAAA(s, r, o);
            Mild(parent, s, x.0, Reg(r), Reg(x.1)) && Local(parent, x.0, Reg(x.1))
  {
    var x := if r.pc == UndoA then StepUndoA(s, r, o) else StepUndoAAAA(s, r, o);
    assert r.a.Some? ==> r.a.value in r.Owned();
    assert r.aaaa.Some? ==> r.aaaa.value in r.Owned();
    assert x.1.Owned() <= r.Owned();
  }

  lemma SaveMild(parent: string, s: Stores, r: Registration, o: Outcome)
    requires Backed(s, r) && Local(parent, s, Reg(r)) && r.pc in {SaveA, SaveAAAA}
    ensures var x := if r.pc == SaveA then StepSaveA(parent, s, r, o) else StepSaveAAAA(parent, s, r, o);
            Mild(parent, s, x.0, Reg(r), Reg(x.1)) && Local(parent, x.0, Reg(x.1))
  {
    var x := if r.pc == SaveA then StepSaveA(parent, s, r, o) else StepSaveAAAA(parent, s, r, o);
    var id := if r.pc == SaveA then r.a.value else r.aaaa.value;
    assert Targets(x.0.pointers) <= Targets(s.pointers) + {id};
    assert id in Private(Reg(r));
  }

  lemma RegistrationMild(parent: string, s: Stores, r: Registration, o: Outcome, now: Time)
    requires Backed(s, r) && Local(parent, s, Reg(r)) && PointersSound(parent, s)
    ensures var x := StepRegistration(parent, s, r, o, now);
            Mild(parent, s, x.0, Reg(r), Reg(x.1)) && Local(parent, x.0, Reg(x.1))
  {
    match r.pc
    case CreateA => CreateMild(parent, s, r, o);
    case CreateAAAA => CreateMild(parent, s, r, o);
    case Insert => InsertMild(parent, s, r, o, now);
    case UndoDevice => UndoDeviceMild(parent, s, r, o);
    case UndoA => UndoRecordMild(parent, s, r, o);
    case UndoAAAA => UndoRecordMild(parent, s, r, o);
    case SaveA => SaveMild(parent, s, r, o);
    case SaveAAAA => SaveMild(parent, s, r, o);
    case _ => LocalStepMild(parent, s, r, o, now);
  }

  // ---------- every heartbeat step is mild ----------

  lemma ReadMild(parent: string, s: Stores, b: Beat, o: Outcome, now: Time)
    requires Local(parent, s, Hb(b)) && PointersSound(parent, s) && b.pc in {Lookup, GetPointer, Replied}
    ensures var x := StepBeat(parent, s, b, o, now);
            Mild(parent, s, x.0, Hb(b), Hb(x.1)) && Local(parent, x.0, Hb(x.1))
  {
    if b.pc == GetPointer && (b.req.deviceId, Head(b)) in s.pointers {
      var k := (b.req.deviceId, Head(b));
      assert PointerSound(parent, s, k);
      assert s.pointers[k].cloudflareId in Targets(s.pointers);
    }
  }

  /** Once its pushes are queued or it has replied, a beat neither holds nor hides a record. */
  lemma TouchHoldsNothing(s: Stores, b: Beat, o: Outcome, now: Time)
    requires CoherentBeat(b) && b.pc == Touch
    ensures var b' := StepTouch(s, b, o, now).1;
            b'.req == b.req && b'.pc in {GetPointer, Replied} && Private(Hb(b')) == {} && Held(Hb(b')) == {}
  {
  }

  lemma TouchKeepsRows(s: Stores, b: Beat, o: Outcome, now: Time)
    requires b.seen.Some?
    ensures var s' := StepTouch(s, b, o, now).0;
            && s'.zone == s.zone && s'.pointers == s.pointers && s'.devices.Keys == s.devices.Keys
            && forall d :: d in s.devices ==> s'.devices[d].subdomain == s.devices[d].subdomain
  {
  }

  lemma TouchMild(parent: string, s: Stores, b: Beat, o: Outcome, now: Time)
    requires Local(parent, s, Hb(b)) && PointersSound(parent, s) && b.pc == Touch
    requires CoherentBeat(StepTouch(s, b, o, now).1)
    ensures var x := StepTouch(s, b, o, now);
            Mild(parent, s, x.0, Hb(b), Hb(x.1)) && Local(parent, x.0, Hb(x.1))
  {
    TouchHoldsNothing(s, b, o, now);
    TouchKeepsRows(s, b, o, now);
  }

  lemma CreateRecordMild(parent: string, s: Stores, b: Beat, o: Outcome)
    requires Local(parent, s, Hb(b)) && Issued(s.zone) && PointersSound(parent, s) && b.pc == Create
    ensures var x := StepCreate(parent, s, b, o);
            Mild(parent, s, x.0, Hb(b), Hb(x.1)) && Local(parent, x.0, Hb(x.1))
  {
    TargetsLive(parent, s);
    var x := StepCreate(parent, s, b, o);
    assert x.0.devices == s.devices && x.0.pointers == s.pointers;
  }

  lemma UpdateStaysLocal(parent: string, s: Stores, b: Beat, o: Outcome)
    requires Local(parent, s, Hb(b)) && b.pc == Update
    ensures Local(parent, StepUpdate(parent, s, b, o).0, Hb(StepUpdate(parent, s, b, o).1))
  {
    assert StepUpdate(parent, s, b, o).0.devices == s.devices;
  }

  lemma UpdateRecordMild(parent: string, s: Stores, b: Beat, o: Outcome)
    requires Local(parent, s, Hb(b)) && PointersSound(parent, s) && b.pc == Update
    ensures var x := StepUpdate(parent, s, b, o);
            Mild(parent, s, x.0, Hb(b), Hb(x.1)) && Local(parent, x.0, Hb(x.1))
  {
    var x := StepUpdate(parent, s, b, o);
    UpdateStaysLocal(parent, s, b, o);
    assert x.0.devices == s.devices && x.0.pointers == s.pointers;
    assert KeepsRecords(s.zone, x.0.zone, {});
  }

  lemma StoreStaysLocal(parent: string, s: Stores, b: Beat, o: Outcome)
    requires Local(parent, s, Hb(b)) && b.pc in {SaveNew, SaveOld}
    ensures Local(parent, StepSave(parent, s, b, o).0, Hb(StepSave(parent, s, b, o).1))
  {
  }

  lemma StoreMild(parent: string, s: Stores, b: Beat, o: Outcome)
    requires Local(parent, s, Hb(b)) && PointersSound(parent, s) && b.pc in {SaveNew, SaveOld}
    ensures var x := StepSave(parent, s, b, o);
            Mild(parent, s, x.0, Hb(b), Hb(x.1)) && Local(parent, x.0, Hb(x.1))
  {
    StoreStaysLocal(parent, s, b, o);
    assert b.id in Private(Hb(b)) + Held(Hb(b));
  }

  lemma BeatMild(parent: string, s: Stores, b: Beat, o: Outcome, now: Time)
    requires Local(parent, s, Hb(b)) && Issued(s.zone) && PointersSound(parent, s)
    ensures var x := StepBeat(parent, s, b, o, now);
            Mild(parent, s, x.0, Hb(b), Hb(x.1)) && Local(parent, x.0, Hb(x.1))
  {
    match b.pc
    case Touch => TouchMild(parent, s, b, o, now);
    case Create => CreateRecordMild(parent, s, b, o);
    case Update => UpdateRecordMild(parent, s, b, o);
    case SaveNew => StoreMild(parent, s, b, o);
    case SaveOld => StoreMild(parent, s, b, o);
    case _ => ReadMild(parent, s, b, o, now);
  }

  // ---------- every run ----------

  lemma HandlerIsBacked(w: World, h: nat)
    requires Conserved(w) && RowsOwned(w) && h in w.handlers && w.handlers[h].Reg?
    ensures Backed(w.s, w.handlers[h].r)
  {
    assert Holdings(w)[h] == w.handlers[h].Owned();
    if w.handlers[h].r.row {
      var x := (w.handlers[h].r.req.deviceId, w.handlers[h].r.sub);
      assert x in RowHoldings(w)[h] && x in NamedRows(w.s.devices);
    }
  }

  lemma OwnersDisjoint(w: World, g: nat, h: nat)
    requires Conserved(w) && g in w.handlers && h in w.handlers && g != h
    ensures w.handlers[g].Owned() !! w.handlers[h].Owned()
  {
    assert Holdings(w)[g] == w.handlers[g].Owned() && Holdings(w)[h] == w.handlers[h].Owned();
  }

  lemma RowsDisjoint(w: World, g: nat, h: nat)
    requires RowsOwned(w) && g in w.handlers && h in w.handlers && g != h
    requires w.handlers[g].Reg? && w.handlers[h].Reg? && w.handlers[g].r.row && w.handlers[h].r.row
    ensures w.handlers[g].r.req.deviceId != w.handlers[h].r.req.deviceId
  {
    var x := (w.handlers[g].r.req.deviceId, w.handlers[g].r.sub);
    var y := (w.handlers[h].r.req.deviceId, w.handlers[h].r.sub);
    assert x in RowHoldings(w)[g] && y in RowHoldings(w)[h];
    assert x in NamedRows(w.s.devices) && y in NamedRows(w.s.devices);
  }

  lemma SaneByStep(parent: string, w: World, h: nat, p': SoundHandler, s': Stores)
    requires Sane(parent, w) && Conserved(w) && h in w.handlers
    requires Mild(parent, w.s, s', w.handlers[h], p') && Local(parent, s', p')
    ensures Sane(parent, World(s', w.handlers[h := p']))
  {
    var w' := World(s', w.handlers[h := p']);
    var p := w.handlers[h];
    assert Local(parent, w.s, p);
    PointersStaySound(parent, w.s, s', p, p');
    forall g | g in w.handlers && g != h
      ensures Local(parent, s', w.handlers[g])
      ensures Compatible(p', w.handlers[g]) && Compatible(w.handlers[g], p')
    {
      OwnersDisjoint(w, h, g);
      OthersStayLocal(parent, w.s, s', p, p', w.handlers[g]);
      OthersStayCompatible(parent, w.s, s', p, p', w.handlers[g]);
    }
    forall f, g | f in w'.handlers && g in w'.handlers && f != g
      ensures Compatible(w'.handlers[f], w'.handlers[g])
    {
      if f != h && g != h {
        assert Compatible(w.handlers[f], w.handlers[g]);
      }
    }
  }

  lemma EveryStepMild(parent: string, w: World, h: nat, o: Outcome, now: Time)
    requires Sane(parent, w) && Conserved(w) && RowsOwned(w) && h in w.handlers
    ensures var x := w.handlers[h].Advance(parent, w.s, o, now);
            Mild(parent, w.s, x.0, w.handlers[h], x.1) && Local(parent, x.0, x.1)
  {
    match w.handlers[h] {
      case Reg(r) =>
        HandlerIsBacked(w, h);
        RegistrationMild(parent, w.s, r, o, now);
      case Hb(b) =>
        BeatMild(parent, w.s, b, o, now);
    }
  }

  lemma SaneByGo(parent: string, w: World, h: nat, o: Outcome, now: Time)
    requires Sane(parent, w) && Conserved(w) && RowsOwned(w) && h in w.handlers
    ensures Sane(parent, Next(parent, w, Go(h, o, now)))
  {
    var x := w.handlers[h].Advance(parent, w.s, o, now);
    EveryStepMild(parent, w, h, o, now);
    SaneByStep(parent, w, h, x.1, x.0);
  }

  lemma SaneByArrival(parent: string, w: World, h: nat, p: SoundHandler)
    requires Sane(parent, w) && h !in w.handlers && Local(parent, w.s, p)
    requires forall g :: g in w.handlers ==> Compatible(w.handlers[g], p) && Compatible(p, w.handlers[g])
    ensures Sane(parent, w.(handlers := w.handlers[h := p]))
  {
    var w' := w.(handlers := w.handlers[h := p]);
    forall f, g | f in w'.handlers && g in w'.handlers && f != g
      ensures Compatible(w'.handlers[f], w'.handlers[g])
    {
      if f != h && g != h {
        assert Compatible(w.handlers[f], w.handlers[g]);
      }
    }
  }

  /** The row of a device answered 201 is no one else's, so no one can take it back. */
  lemma CreatedRowIsSafe(w: World, owner: nat)
    requires Conserved(w) && RowsOwned(w) && owner in w.handlers
    requires w.handlers[owner].Reg? && w.handlers[owner].r.Created()
    ensures forall g :: g in w.handlers && Tentative(w.handlers[g]) ==>
              w.handlers[g].r.req.deviceId != w.handlers[owner].r.req.deviceId
    ensures var r := w.handlers[owner].r;
            r.req.deviceId in w.s.devices && w.s.devices[r.req.deviceId].subdomain == r.sub
  {
    HandlerIsBacked(w, owner);
    forall g | g in w.handlers && Tentative(w.handlers[g])
      ensures w.handlers[g].r.req.deviceId != w.handlers[owner].r.req.deviceId
    {
      RowsDisjoint(w, g, owner);
    }
  }

  lemma NewBeatFits(p: Handler, beat: BeatReq)
    requires Tentative(p) ==> p.r.req.deviceId != beat.deviceId
    ensures Compatible(p, Hb(StartBeat(beat))) && Compatible(Hb(StartBeat(beat)), p)
  {
  }

  lemma OwnersBeatFits(parent: string, w: World, owner: nat, beat: BeatReq)
    requires Conserved(w) && RowsOwned(w)
    requires owner in w.handlers && IssuedTo(w.handlers[owner], beat.deviceId, beat.subdomain)
    ensures Local(parent, w.s, Hb(StartBeat(beat)))
    ensures forall g :: g in w.handlers ==> Tentative(w.handlers[g]) ==> w.handlers[g].r.req.deviceId != beat.deviceId
  {
    CreatedRowIsSafe(w, owner);
  }

  lemma HonestBeatFits(parent: string, w: World, beat: BeatReq)
    requires Conserved(w) && RowsOwned(w)
    requires exists h :: h in w.handlers && IssuedTo(w.handlers[h], beat.deviceId, beat.subdomain)
    ensures Local(parent, w.s, Hb(StartBeat(beat)))
    ensures forall g :: g in w.handlers ==>
              Compatible(w.handlers[g], Hb(StartBeat(beat))) && Compatible(Hb(StartBeat(beat)), w.handlers[g])
  {
    var owner :| owner in w.handlers && IssuedTo(w.handlers[owner], beat.deviceId, beat.subdomain);
    OwnersBeatFits(parent, w, owner, beat);
    forall g | g in w.handlers
      ensures Compatible(w.handlers[g], Hb(StartBeat(beat))) && Compatible(Hb(StartBeat(beat)), w.handlers[g])
    {
      NewBeatFits(w.handlers[g], beat);
    }
  }

  lemma SaneBySweep(parent: string, w: World, now: Time)
    requires Sane(parent, w)
    ensures Sane(parent, Next(parent, w, Sweep(now)))
  {
    var w' := Next(parent, w, Sweep(now));
    forall k | k in w'.s.pointers
      ensures PointerSound(parent, w'.s, k)
    {
      assert PointerSound(parent, w.s, k);
    }
    forall h | h in w'.handlers
      ensures Local(parent, w'.s, w'.handlers[h])
    {
      assert Local(parent, w.s, w.handlers[h]);
    }
  }

  lemma SaneByOther(parent: string, w: World, w': World)
    requires Sane(parent, w)
    requires w'.handlers == w.handlers && w'.s == w.s.(tokens := w'.s.tokens)
    ensures Sane(parent, w')
  {
    forall k | k in w'.s.pointers
      ensures PointerSound(parent, w'.s, k)
    {
      assert PointerSound(parent, w.s, k);
    }
    forall h | h in w'.handlers
      ensures Local(parent, w'.s, w'.handlers[h])
    {
      assert Local(parent, w.s, w.handlers[h]);
    }
  }

  lemma SaneByReport(parent: string, w: World, h: nat, beat: BeatReq)
    requires Sane(parent, w) && h !in w.handlers
    requires Local(parent, w.s, Hb(StartBeat(beat)))
    requires forall g :: g in w.handlers ==>
               Compatible(w.handlers[g], Hb(StartBeat(beat))) && Compatible(Hb(StartBeat(beat)), w.handlers[g])
    ensures Sane(parent, Next(parent, w, Report(h, beat)))
  {
    SaneByArrival(parent, w, h, Hb(StartBeat(beat)));
  }

  lemma SaneByNext(parent: string, w: World, e: Event)
    requires Sane(parent, w) && Conserved(w) && RowsOwned(w) && Honest(w, e)
    ensures Sane(parent, Next(parent, w, e))
  {
    if e.Go? && e.h in w.handlers {
      SaneByGo(parent, w, e.h, e.o, e.now);
    } else if e.Report? && e.h !in w.handlers {
      HonestBeatFits(parent, w, e.beat);
      SaneByReport(parent, w, e.h, e.beat);
    } else if e.Arrive? && e.h !in w.handlers {
      SaneByArrival(parent, w, e.h, Reg(Enroll(e.req)));
    } else if e.Sweep? {
      SaneBySweep(parent, w, e.now);
    } else {
      SaneByOther(parent, w, Next(parent, w, e));
    }
  }

  lemma {:induction false} HonestRunsAreSane(parent: string, es: seq<Event>)
    requires HonestRun(parent, es)
    ensures Sane(parent, Run(parent, Init(), es))
  {
    if es != [] {
      var k := |es| - 1;
      HonestPrefix(parent, es);
      HonestRunsAreSane(parent, es[..k]);
      RecordsAreConserved(parent, es[..k]);
      RowsAreConserved(parent, es[..k]);
      SaneByNext(parent, Run(parent, Init(), es[..k]), es[k]);
    }
  }

  /**
   * In every interleaving of registrations and honest heartbeats, with any
   * calls refused or lost, dns_records only ever points at existing devices
   * and at live records of the device's own full name and the row's type.
   */
  lemma {:induction false} PointersNeverDangle(parent: string, es: seq<Event>)
    requires HonestRun(parent, es)
    ensures PointersSound(parent, Run(parent, Init(), es).s)
  {
    HonestRunsAreSane(parent, es);
  }

  /** What a 201 promises: the row under its name, and a live A (and AAAA) record of the full name. */
  predicate Served(parent: string, s: Stores, r: Registration) {
    && r.req.deviceId in s.devices && s.devices[r.req.deviceId].subdomain == r.sub
    && r.a.Some? && Named(s.zone, r.a.value, Subdomain.Fqdn(r.sub, parent), A)
    && (r.req.v6.Some? ==> r.aaaa.Some? && Named(s.zone, r.aaaa.value, Subdomain.Fqdn(r.sub, parent), AAAA))
  }

  predicate Finished(w: World, h: nat) {
    h in w.handlers && w.handlers[h].Reg? && w.handlers[h].r.pc == Answered
  }

  lemma FinishedByNext(parent: string, w: World, e: Event, h: nat)
    requires Finished(w, h)
    ensures h in Next(parent, w, e).handlers && Next(parent, w, e).handlers[h] == w.handlers[h]
  {
    if e.Go? && e.h == h {
      assert w.handlers[h].Advance(parent, w.s, e.o, e.now).1 == w.handlers[h];
    }
  }

  predicate HasFrame(w: World, h: nat, p: SoundHandler) {
    h in w.handlers && w.handlers[h] == p
  }

  lemma AnsweredFrameByNext(parent: string, w: World, e: Event, h: nat, p: SoundHandler)
    requires p.Reg? && p.r.pc == Answered && HasFrame(w, h, p)
    ensures HasFrame(Next(parent, w, e), h, p)
  {
    FinishedByNext(parent, w, e, h);
  }

  lemma {:induction false} AnsweredFrame(parent: string, es: seq<Event>, more: seq<Event>, h: nat, p: SoundHandler)
    requires p.Reg? && p.r.pc == Answered && HasFrame(Run(parent, Init(), es), h, p)
    ensures HasFrame(Run(parent, Init(), es + more), h, p)
  {
    if more == [] {
      assert es + more == es;
    } else {
      var k := |more| - 1;
      AnsweredFrame(parent, es, more[..k], h, p);
      AnsweredFrameByNext(parent, Run(parent, Init(), es + more[..k]), more[k], h, p);
      LastOfSum(es, more);
    }
  }

  /** An answered registration does nothing more. */
  lemma {:induction false} AnsweredStaysAnswered(parent: string, es: seq<Event>, more: seq<Event>, h: nat)
    requires Finished(Run(parent, Init(), es), h)
    ensures var w := Run(parent, Init(), es); var w' := Run(parent, Init(), es + more);
            h in w'.handlers && w'.handlers[h] == w.handlers[h]
  {
    AnsweredFrame(parent, es, more, h, Run(parent, Init(), es).handlers[h]);
  }

  /**
   * A device answered 201 keeps its row and its records through the rest of
   * any honest run, whatever other registrations roll back - also when two of
   * them picked the same free name and one lost the INSERT.
   */
  lemma {:induction false} CreatedDevicesKeepTheirRecords(parent: string, es: seq<Event>, more: seq<Event>, h: nat)
    requires HonestRun(parent, es + more)
    requires var w := Run(parent, Init(), es); h in w.handlers && w.handlers[h].Reg? && w.handlers[h].r.Created()
    ensures Served(parent, Run(parent, Init(), es + more).s, Run(parent, Init(), es).handlers[h].r)
  {
    AnsweredStaysAnswered(parent, es, more, h);
    var w' := Run(parent, Init(), es + more);
    HonestRunsAreSane(parent, es + more);
    RecordsAreConserved(parent, es + more);
    RowsAreConserved(parent, es + more);
    HandlerIsBacked(w', h);
    assert Local(parent, w'.s, w'.handlers[h]);
  }

  /** Two devices answered 201 have different full names, so neither can shadow the other's records. */
  lemma CreatedNamesDiffer(parent: string, es: seq<Event>, g: nat, h: nat)
    requires var w := Run(parent, Init(), es);
             && g in w.handlers && w.handlers[g].Reg? && w.handlers[g].r.Created()
             && h in w.handlers && w.handlers[h].Reg? && w.handlers[h].r.Created() && g != h
    ensures var w := Run(parent, Init(), es);
            && w.handlers[g].r.req.deviceId != w.handlers[h].r.req.deviceId
            && Subdomain.Fqdn(w.handlers[g].r.sub, parent) != Subdomain.Fqdn(w.handlers[h].r.sub, parent)
  {
    var w := Run(parent, Init(), es);
    RecordsAreConserved(parent, es);
    RowsAreConserved(parent, es);
    HandlerIsBacked(w, g);
    HandlerIsBacked(w, h);
    RowsDisjoint(w, g, h);
    if Subdomain.Fqdn(w.handlers[g].r.sub, parent) == Subdomain.Fqdn(w.handlers[h].r.sub, parent) {
      Subdomain.FqdnInjective(w.handlers[g].r.sub, w.handlers[h].r.sub, parent);
    }
  }
}
