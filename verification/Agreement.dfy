/**
 * How far the three copies of an address - the devices row, the dns_records
 * value and the content of the Cloudflare record - can drift apart when no
 * beat is accepted while another beat of its device may still push a
 * different address.
 */
module Agreement {
  import opened Common
  import opened Tables
  import opened Requests
  import opened Conservation
  import opened Integrity
  import opened Effects
  import opened Addresses
  import Subdomain

  // ---------- clashing beats ----------

  /** The beat may still push (d, t). */
  predicate MayPush(p: Handler, d: string, t: RecordType) {
    OnDevice(p, d) && (t in p.b.todo || (p.b.pc in {Lookup, Touch} && Reported(p.b.req, t).Some?))
  }

  /** p may still push one address for t, and the arriving beat reports another. */
  predicate Clash(p: Handler, beat: BeatReq, t: RecordType) {
    MayPush(p, beat.deviceId, t) && Reported(beat, t).Some? && Reported(p.b.req, t) != Reported(beat, t)
  }

  /**
   * An arriving beat clashes with no beat in flight. One beat at a time per
   * device is enough for this; so is a client that only repeats itself.
   */
  ghost predicate NoClash(w: World, e: Event) {
    e.Report? ==> forall h, t :: h in w.handlers ==> !Clash(w.handlers[h], e.beat, t)
  }

  /** Event i of the run clashes with nothing when it comes. */
  ghost predicate NoClashAt(parent: string, es: seq<Event>, i: nat)
    requires i < |es|
  {
    NoClash(Run(parent, Init(), es[..i]), es[i])
  }

  ghost predicate NoClashRun(parent: string, es: seq<Event>) {
    forall i :: 0 <= i < |es| ==> NoClashAt(parent, es, i)
  }

  // ---------- the latest push of each (device, type) ----------

  /** Keys whose latest push this step brings to a successful end. */
  function Gained(s: Stores, p: SoundHandler, o: Outcome): set<Key> {
    match p
    case Reg(r) =>
      if r.pc == SaveA && o == Acked then {(r.req.deviceId, A)}
      else if r.pc == SaveAAAA && o == Acked then {(r.req.deviceId, AAAA)}
      else {}
    case Hb(b) =>
      if b.pc == SaveOld || (b.pc == SaveNew && o == Acked) then {(b.req.deviceId, Head(b))} else {}
  }

  /**
   * Keys whose latest push this step makes fail: an error in any call of the
   * push, or a row update whose answer was lost, after which the handler
   * replies 500 and never gets to push what had changed.
   */
  function Dropped(s: Stores, p: SoundHandler, o: Outcome): set<Key> {
    match p
    case Reg(r) =>
      if r.pc == SaveA && o != Acked then {(r.req.deviceId, A)}
      else if r.pc == SaveAAAA && o != Acked then {(r.req.deviceId, AAAA)}
      else {}
    case Hb(b) =>
      if b.pc == Touch && o == Lost then set t | t in ToPush(b.seen.value, b.req) :: (b.req.deviceId, t)
      else if b.pc in {GetPointer, Create, SaveNew} && o != Acked then {(b.req.deviceId, Head(b))}
      else if b.pc == Update && (o != Acked || b.id !in s.zone.records) then {(b.req.deviceId, Head(b))}
      else {}
  }

  /** What this step did to the set of keys whose latest push succeeded. */
  function TrackStep(synced: set<Key>, s: Stores, p: SoundHandler, o: Outcome): set<Key> {
    synced - Dropped(s, p, o) + Gained(s, p, o)
  }

  function Track(synced: set<Key>, w: World, e: Event): set<Key> {
    if e.Go? && e.h in w.handlers then
      TrackStep(synced, w.s, w.handlers[e.h], e.o)
    else
      synced
  }

  /** The (device, type) keys whose latest push succeeded. */
  function Synced(parent: string, es: seq<Event>): set<Key> {
    if es == [] then {}
    else Track(Synced(parent, es[..|es| - 1]), Run(parent, Init(), es[..|es| - 1]), es[|es| - 1])
  }

  // ---------- the invariant ----------

  /** The record dns_records tracks for (d, t) holds the address on d's row. */
  predicate Agree(s: Stores, d: string, t: RecordType) {
    && d in s.devices && (d, t) in s.pointers
    && s.pointers[(d, t)].cloudflareId in s.zone.records
    && Stored(s.devices[d], t) == Some(s.zone.records[s.pointers[(d, t)].cloudflareId].content)
  }

  /** A beat is on its way to push (d, t). */
  predicate Pushing(p: Handler, d: string, t: RecordType) {
    OnDevice(p, d) && t in p.b.todo
  }

  ghost predicate Busy(w: World, d: string, t: RecordType) {
    exists h :: h in w.handlers && Pushing(w.handlers[h], d, t)
  }

  predicate Holds(z: Zone, id: nat, v: Addr) {
    id in z.records && z.records[id].content == v
  }

  predicate SameAddresses(d: Device, e: Device) {
    d.publicIp == e.publicIp && d.publicIpv6 == e.publicIpv6
  }

  /** The row and the unpublished records of a registration carry the reported addresses. */
  predicate Fresh(s: Stores, r: Registration) {
    && (r.pc in {CreateAAAA, Insert, Sign, SaveA} && r.a.Some? ==> Holds(s.zone, r.a.value, r.req.v4))
    && (r.pc in {Insert, Sign, SaveA, SaveAAAA} && r.aaaa.Some? && r.req.v6.Some? ==>
          Holds(s.zone, r.aaaa.value, r.req.v6.value))
    && (r.pc in {Sign, SaveA, SaveAAAA} ==>
          && r.req.deviceId in s.devices
          && s.devices[r.req.deviceId].publicIp == Some(r.req.v4)
          && s.devices[r.req.deviceId].publicIpv6 == r.req.v6)
  }

  /** The row already carries every address the beat will not push. */
  ghost predicate NothingMissed(s: Stores, b: Beat)
    requires b.seen.Some? && b.req.deviceId in s.devices
  {
    forall t :: Reported(b.req, t).Some? && Stored(b.seen.value, t) == Reported(b.req, t) ==>
      Stored(s.devices[b.req.deviceId], t) == Reported(b.req, t)
  }

  /** The tracked record is the one in the beat's hand, or holds the beat's address as well. */
  predicate Tracked(s: Stores, b: Beat)
    requires CoherentBeat(b) && b.InSync()
  {
    var k := (b.req.deviceId, Head(b));
    k in s.pointers
    && (s.pointers[k].cloudflareId == b.id || Holds(s.zone, s.pointers[k].cloudflareId, Value(b)))
  }

  /** A beat's view of its device's row and pointer is current. */
  ghost predicate Current(s: Stores, b: Beat) {
    && CoherentBeat(b)
    && (b.pc == Touch ==> b.req.deviceId in s.devices && NothingMissed(s, b))
    && (b.InSync() ==>
          && b.req.deviceId in s.devices
          && forall t :: t in b.todo ==> Stored(s.devices[b.req.deviceId], t) == Reported(b.req, t))
    && (b.pc in {Update, SaveOld} ==> Tracked(s, b))
    && (b.pc in {SaveNew, SaveOld} ==> Holds(s.zone, b.id, Value(b)))
  }

  ghost predicate Fine(s: Stores, p: Handler) {
    match p case Reg(r) => Fresh(s, r) case Hb(b) => Current(s, b)
  }

  /** Beats that may push one key report one address; and no beat on a device whose registration is under way. */
  ghost predicate Apart(p: Handler, q: Handler) {
    && (p.Hb? && q.Hb? ==>
          forall t :: MayPush(p, p.b.req.deviceId, t) && MayPush(q, p.b.req.deviceId, t) ==>
            Reported(p.b.req, t) == Reported(q.b.req, t))
    && (p.Reg? && p.r.row && !p.r.Created() && q.Hb? ==> p.r.req.deviceId != q.b.req.deviceId)
  }

  ghost predicate SyncedRowsStay(w: World, synced: set<Key>) {
    && (forall k :: k in synced ==> k.0 in w.s.devices)
    && (forall h, t :: h in w.handlers && Tentative(w.handlers[h]) ==> (w.handlers[h].r.req.deviceId, t) !in synced)
  }

  ghost predicate SyncedAgree(w: World, synced: set<Key>) {
    forall d, t :: (d, t) in synced ==> Agree(w.s, d, t) || Busy(w, d, t)
  }

  ghost predicate Consistent(w: World, synced: set<Key>) {
    && (forall h :: h in w.handlers ==> Fine(w.s, w.handlers[h]))
    && (forall g, h :: g in w.handlers && h in w.handlers && g != h ==> Apart(w.handlers[g], w.handlers[h]))
    && SyncedRowsStay(w, synced)
    && SyncedAgree(w, synced)
  }

  // ---------- what one step of p leaves of q's view ----------

  lemma OthersStayFresh(parent: string, s: Stores, s': Stores, p: SoundHandler, p': Handler, q: SoundHandler)
    requires Mild(parent, s, s', p, p') && StepEffects(s, s', p) && q.Reg? && Fine(s, q)
    requires p.Owned() !! q.Owned() && Compatible(q, p) && Apart(q, p)
    requires Distinct(q) && (Tentative(p) && q.r.row ==> p.r.req.deviceId != q.r.req.deviceId)
    ensures Fine(s', q)
  {
    PrivateIsOwned(p);
    var r := q.r;
    assert r.a.Some? ==> r.a.value in q.Owned();
    assert r.aaaa.Some? ==> r.aaaa.value in q.Owned();
    assert r.pc in {CreateAAAA, Insert, Sign, SaveA} && r.a.Some? ==> r.a.value in Private(q);
    assert r.pc in {Insert, Sign, SaveA, SaveAAAA} && r.aaaa.Some? ==> r.aaaa.value in Private(q);
    if r.pc in {Sign, SaveA, SaveAAAA} {
      RowStaysFresh(parent, s, s', p, p', r);
    }
  }

  lemma RowStaysFresh(parent: string, s: Stores, s': Stores, p: SoundHandler, p': Handler, r: Registration)
    requires KeepsDevices(s, s', p) && RowEffect(s, s', p) && r.req.deviceId in s.devices
    requires OnDevice(p, r.req.deviceId) ==> p.b.pc != Touch
    requires Tentative(p) ==> p.r.req.deviceId != r.req.deviceId
    ensures r.req.deviceId in s'.devices && SameAddresses(s'.devices[r.req.deviceId], s.devices[r.req.deviceId])
  {
    var d := r.req.deviceId;
    assert AddressEffect(s, s', p, d, A) && AddressEffect(s, s', p, d, AAAA);
  }

  /** A record keeps the content v unless p deletes it or overwrites it with something else. */
  lemma ContentStays(s: Stores, s': Stores, p: SoundHandler, id: nat, v: Addr)
    requires KeepsRecords(s.zone, s'.zone, Private(p)) && ContentEffect(s, s', p) && Holds(s.zone, id, v)
    requires id !in Private(p) && (p.Hb? && p.b.pc == Update && p.b.id == id ==> Value(p.b) == v)
    ensures Holds(s'.zone, id, v)
  {
  }

  lemma RowViewStays(s: Stores, s': Stores, p: SoundHandler, b: Beat)
    requires RowEffect(s, s', p) && Current(s, b) && Apart(p, Hb(b)) && b.req.deviceId in s'.devices
    ensures b.pc == Touch ==> NothingMissed(s', b)
    ensures b.InSync() ==> forall t :: t in b.todo ==> Stored(s'.devices[b.req.deviceId], t) == Reported(b.req, t)
  {
    var d := b.req.deviceId;
    if b.pc == Touch || b.InSync() {
      forall t | MayPush(Hb(b), d, t) && Stored(s'.devices[d], t) != Stored(s.devices[d], t)
        ensures Stored(s'.devices[d], t) == Reported(b.req, t)
      {
        assert AddressEffect(s, s', p, d, t);
        assert MayPush(p, d, t);
      }
    }
  }

  /** Two beats holding one record report one address. */
  lemma SameHeldSameValue(parent: string, s: Stores, p: SoundHandler, q: SoundHandler)
    requires NamesUnique(s.devices) && Local(parent, s, p) && Local(parent, s, q) && Apart(p, q)
    requires p.Hb? && p.b.pc in {SaveNew, Update, SaveOld} && q.Hb? && q.b.pc in {SaveNew, Update, SaveOld}
    requires p.b.id == q.b.id
    ensures Value(p.b) == Value(q.b)
  {
    HeldTogether(parent, s, p, q);
    SameKeySameValue(p, q);
  }

  lemma SameKeySameValue(p: SoundHandler, q: SoundHandler)
    requires p.Hb? && p.b.InSync() && q.Hb? && q.b.InSync() && Apart(p, q)
    requires p.b.req.deviceId == q.b.req.deviceId && Head(p.b) == Head(q.b)
    ensures Value(p.b) == Value(q.b)
  {
    assert MayPush(p, p.b.req.deviceId, Head(p.b)) && MayPush(q, p.b.req.deviceId, Head(p.b));
  }

  lemma HandStays(parent: string, s: Stores, s': Stores, p: SoundHandler, q: SoundHandler)
    requires KeepsRecords(s.zone, s'.zone, Private(p)) && ContentEffect(s, s', p)
    requires q.Hb? && q.b.pc in {SaveNew, SaveOld} && Fine(s, q)
    requires NamesUnique(s.devices) && Local(parent, s, p) && Local(parent, s, q) && Apart(p, q)
    requires p.Owned() !! q.Owned() && Compatible(p, q)
    ensures Holds(s'.zone, q.b.id, Value(q.b))
  {
    PrivateIsOwned(p);
    PrivateIsOwned(q);
    if q.b.pc == SaveNew {
      assert q.b.id in Private(q);
    } else {
      assert q.b.id in Held(q);
    }
    if p.Hb? && p.b.pc == Update && p.b.id == q.b.id {
      SameHeldSameValue(parent, s, p, q);
    }
    ContentStays(s, s', p, q.b.id, Value(q.b));
  }

  lemma TrackedStays(parent: string, s: Stores, s': Stores, p: SoundHandler, q: SoundHandler)
    requires KeepsRecords(s.zone, s'.zone, Private(p)) && StepEffects(s, s', p)
    requires q.Hb? && q.b.pc in {Update, SaveOld} && Fine(s, q) && Fine(s, p)
    requires PointersSound(parent, s) && PointersSound(parent, s') && NamesUnique(s.devices)
    requires Local(parent, s, p) && Local(parent, s, q) && Apart(p, q) && Compatible(p, q)
    ensures Tracked(s', q.b)
  {
    var k := (q.b.req.deviceId, Head(q.b));
    var id := s.pointers[k].cloudflareId;
    if SamePointer(s, s', k) {
      assert id in Targets(s.pointers);
      if id != q.b.id {
        if p.Hb? && p.b.pc == Update && p.b.id == id {
          HeldIsOwn(parent, s, p, k);
          SameKeySameValue(p, q);
        }
        ContentStays(s, s', p, id, Value(q.b));
      }
    } else {
      assert Writes(p, k);
      assert PointerSound(parent, s', k);
      SameKeySameValue(p, q);
    }
  }

  /** Whatever p does, a beat q keeps its view of the stores. */
  lemma OthersStayCurrent(parent: string, s: Stores, s': Stores, p: SoundHandler, p': Handler, q: SoundHandler)
    requires Mild(parent, s, s', p, p') && StepEffects(s, s', p) && q.Hb? && Fine(s, q) && Fine(s, p)
    requires PointersSound(parent, s) && PointersSound(parent, s') && NamesUnique(s.devices)
    requires Local(parent, s, p) && Local(parent, s, q)
    requires p.Owned() !! q.Owned() && Compatible(p, q) && Compatible(q, p) && Apart(p, q)
    ensures Fine(s', q)
  {
    assert q.b.req.deviceId in s'.devices;
    RowViewStays(s, s', p, q.b);
    if q.b.pc in {SaveNew, SaveOld} {
      HandStays(parent, s, s', p, q);
    }
    if q.b.pc in {Update, SaveOld} {
      TrackedStays(parent, s, s', p, q);
    }
  }

  // ---------- every registration step ----------

  /** What one step of p must establish for p itself. */
  ghost predicate GoodStep(s: Stores, s': Stores, p: SoundHandler, p': Handler, o: Outcome) {
    && Fine(s', p')
    && (forall k :: k in Gained(s, p, o) ==> Agree(s', k.0, k.1))
  }

  lemma RegReadGood(parent: string, s: Stores, r: Registration, o: Outcome, now: Time)
    requires Backed(s, r) && Fine(s, Reg(r))
    requires r.pc in {Consume, Resolve, Sign, Answered}
    ensures var x := StepRegistration(parent, s, r, o, now); GoodStep(s, x.0, Reg(r), Reg(x.1), o)
  {
  }

  lemma RegCreateGood(parent: string, s: Stores, r: Registration, o: Outcome)
    requires Backed(s, r) && Fine(s, Reg(r))
    requires r.pc in {CreateA, CreateAAAA}
    ensures var x := if r.pc == CreateA then StepCreateA(parent, s, r, o) else StepCreateAAAA(parent, s, r, o);
            GoodStep(s, x.0, Reg(r), Reg(x.1), o)
  {
    assert r.a.Some? ==> r.a.value in r.Owned();
  }

  lemma RegInsertGood(s: Stores, r: Registration, o: Outcome, now: Time)
    requires Backed(s, r) && Fine(s, Reg(r)) && r.pc == Insert
    ensures var x := StepInsert(s, r, o, now); GoodStep(s, x.0, Reg(r), Reg(x.1), o)
  {
  }

  lemma RegUndoDeviceGood(s: Stores, r: Registration, o: Outcome)
    requires Backed(s, r) && Fine(s, Reg(r)) && r.pc == UndoDevice
    ensures var x := StepUndoDevice(s, r, o); GoodStep(s, x.0, Reg(r), Reg(x.1), o)
  {
  }

  lemma RegUndoRecordGood(s: Stores, r: Registration, o: Outcome)
    requires Backed(s, r) && Fine(s, Reg(r)) && r.pc in {UndoA, UndoAAAA}
    ensures var x := if r.pc == UndoA then StepUndoA(s, r, o) else StepUndoAAAA(s, r, o);
            GoodStep(s, x.0, Reg(r), Reg(x.1), o)
  {
  }

  lemma RegSaveAGood(parent: string, s: Stores, r: Registration, o: Outcome)
    requires Backed(s, r) && Fine(s, Reg(r)) && Local(parent, s, Reg(r)) && r.pc == SaveA
    ensures var x := StepSaveA(parent, s, r, o); GoodStep(s, x.0, Reg(r), Reg(x.1), o)
  {
  }

  lemma RegSaveAAAAGood(parent: string, s: Stores, r: Registration, o: Outcome)
    requires Backed(s, r) && Fine(s, Reg(r)) && Local(parent, s, Reg(r)) && r.pc == SaveAAAA
    ensures var x := StepSaveAAAA(parent, s, r, o); GoodStep(s, x.0, Reg(r), Reg(x.1), o)
  {
  }

  lemma RegistrationGood(parent: string, s: Stores, r: Registration, o: Outcome, now: Time)
    requires Backed(s, r) && Fine(s, Reg(r)) && Local(parent, s, Reg(r))
    ensures var x := StepRegistration(parent, s, r, o, now); GoodStep(s, x.0, Reg(r), Reg(x.1), o)
  {
    match r.pc
    case CreateA => RegCreateGood(parent, s, r, o);
    case CreateAAAA => RegCreateGood(parent, s, r, o);
    case Insert => RegInsertGood(s, r, o, now);
    case UndoDevice => RegUndoDeviceGood(s, r, o);
    case UndoA => RegUndoRecordGood(s, r, o);
    case UndoAAAA => RegUndoRecordGood(s, r, o);
    case SaveA => RegSaveAGood(parent, s, r, o);
    case SaveAAAA => RegSaveAAAAGood(parent, s, r, o);
    case _ => RegReadGood(parent, s, r, o, now);
  }

  // ---------- every heartbeat step ----------

  lemma BeatReadGood(parent: string, s: Stores, b: Beat, o: Outcome, now: Time)
    requires Fine(s, Hb(b)) && b.pc in {Lookup, GetPointer, Replied}
    ensures var x := StepBeat(parent, s, b, o, now); GoodStep(s, x.0, Hb(b), Hb(x.1), o)
  {
  }

  /** Once a push is over, only the row matters to the rest of the beat. */
  lemma NextSyncCurrent(s: Stores, s': Stores, b: Beat)
    requires Current(s, b) && b.InSync() && s'.devices == s.devices
    ensures Current(s', b.NextSync())
  {
  }

  lemma TouchedCarries(d: Device, b: BeatReq, now: Time, t: RecordType)
    requires Reported(b, t).Some?
    ensures Stored(Touched(d, b.v4, b.v6, b.health, b.version, now), t) == Reported(b, t)
  {
  }

  lemma TouchCurrent(s: Stores, b: Beat, o: Outcome, now: Time)
    requires Current(s, b) && b.pc == Touch
    ensures var x := StepTouch(s, b, o, now); Current(x.0, x.1)
  {
    var x := StepTouch(s, b, o, now);
    forall t | t in x.1.todo
      ensures Stored(x.0.devices[b.req.deviceId], t) == Reported(b.req, t)
    {
      TouchedCarries(s.devices[b.req.deviceId], b.req, now, t);
    }
  }

  lemma BeatTouchGood(s: Stores, b: Beat, o: Outcome, now: Time)
    requires Fine(s, Hb(b)) && b.pc == Touch
    ensures var x := StepTouch(s, b, o, now); GoodStep(s, x.0, Hb(b), Hb(x.1), o)
  {
    TouchCurrent(s, b, o, now);
  }

  lemma BeatCreateGood(parent: string, s: Stores, b: Beat, o: Outcome)
    requires Fine(s, Hb(b)) && b.pc == Create && Issued(s.zone)
    ensures var x := StepCreate(parent, s, b, o); GoodStep(s, x.0, Hb(b), Hb(x.1), o)
  {
  }

  lemma BeatUpdateGood(parent: string, s: Stores, b: Beat, o: Outcome)
    requires Fine(s, Hb(b)) && b.pc == Update
    ensures var x := StepUpdate(parent, s, b, o); GoodStep(s, x.0, Hb(b), Hb(x.1), o)
  {
  }

  lemma BeatSaveNewGood(parent: string, s: Stores, b: Beat, o: Outcome)
    requires Fine(s, Hb(b)) && b.pc == SaveNew && Local(parent, s, Hb(b))
    ensures var x := StepSave(parent, s, b, o); GoodStep(s, x.0, Hb(b), Hb(x.1), o)
  {
    assert Head(b) in b.todo;
    NextSyncCurrent(s, StepSave(parent, s, b, o).0, b);
  }

  lemma BeatSaveOldGood(parent: string, s: Stores, b: Beat, o: Outcome)
    requires Fine(s, Hb(b)) && b.pc == SaveOld
    ensures var x := StepSave(parent, s, b, o); GoodStep(s, x.0, Hb(b), Hb(x.1), o)
  {
    assert Head(b) in b.todo;
    NextSyncCurrent(s, StepSave(parent, s, b, o).0, b);
  }

  lemma BeatGood(parent: string, s: Stores, b: Beat, o: Outcome, now: Time)
    requires Fine(s, Hb(b)) && Local(parent, s, Hb(b)) && Issued(s.zone)
    ensures var x := StepBeat(parent, s, b, o, now); GoodStep(s, x.0, Hb(b), Hb(x.1), o)
  {
    match b.pc
    case Touch => BeatTouchGood(s, b, o, now);
    case Create => BeatCreateGood(parent, s, b, o);
    case Update => BeatUpdateGood(parent, s, b, o);
    case SaveNew => BeatSaveNewGood(parent, s, b, o);
    case SaveOld => BeatSaveOldGood(parent, s, b, o);
    case _ => BeatReadGood(parent, s, b, o, now);
  }

  lemma EveryStepGood(parent: string, w: World, h: nat, o: Outcome, now: Time)
    requires Sane(parent, w) && Conserved(w) && RowsOwned(w) && h in w.handlers
    requires Fine(w.s, w.handlers[h])
    ensures var x := w.handlers[h].Advance(parent, w.s, o, now); GoodStep(w.s, x.0, w.handlers[h], x.1, o)
  {
    assert Local(parent, w.s, w.handlers[h]);
    match w.handlers[h]
    case Reg(r) =>
      HandlerIsBacked(w, h);
      RegistrationGood(parent, w.s, r, o, now);
    case Hb(b) =>
      BeatGood(parent, w.s, b, o, now);
  }

  // ---------- the agreement of synced keys ----------

  /** A key p was pushing is still to be pushed, or its push just ended. */
  lemma PushedKeys(parent: string, s: Stores, p: SoundHandler, o: Outcome, now: Time, d: string, t: RecordType)
    requires Pushing(p, d, t)
    ensures var x := p.Advance(parent, s, o, now);
            Pushing(x.1, d, t) || (d, t) in Dropped(s, p, o) + Gained(s, p, o)
  {
  }

  /** An address the step puts on the row is queued, unless the answer to the row update was lost. */
  lemma TouchedKeys(parent: string, s: Stores, p: SoundHandler, o: Outcome, now: Time, d: string, t: RecordType)
    requires Fine(s, p) && Touching(p, d)
    requires var s' := p.Advance(parent, s, o, now).0;
             d in s.devices && d in s'.devices && Stored(s'.devices[d], t) != Stored(s.devices[d], t)
    ensures Pushing(p.Advance(parent, s, o, now).1, d, t) || (d, t) in Dropped(s, p, o)
  {
    assert Reported(p.b.req, t).Some?;
    assert Stored(p.b.seen.value, t) != Reported(p.b.req, t);
    assert t in ToPush(p.b.seen.value, p.b.req);
  }

  /** What one step does to the pushes of its own handler. */
  ghost predicate PushStep(s: Stores, s': Stores, p: SoundHandler, p': SoundHandler, o: Outcome) {
    && (forall d, t :: Pushing(p, d, t) ==> Pushing(p', d, t) || (d, t) in Dropped(s, p, o) + Gained(s, p, o))
    && (forall d, t ::
         Touching(p, d) && d in s.devices && d in s'.devices && Stored(s'.devices[d], t) != Stored(s.devices[d], t) ==>
           Pushing(p', d, t) || (d, t) in Dropped(s, p, o))
  }

  lemma EveryStepPushes(parent: string, s: Stores, p: SoundHandler, o: Outcome, now: Time)
    requires Fine(s, p)
    ensures var x := p.Advance(parent, s, o, now); PushStep(s, x.0, p, x.1, o)
  {
    var x := p.Advance(parent, s, o, now);
    forall d, t | Pushing(p, d, t)
      ensures Pushing(x.1, d, t) || (d, t) in Dropped(s, p, o) + Gained(s, p, o)
    {
      PushedKeys(parent, s, p, o, now, d, t);
    }
    forall d, t | Touching(p, d) && d in s.devices && d in x.0.devices
                  && Stored(x.0.devices[d], t) != Stored(s.devices[d], t)
      ensures Pushing(x.1, d, t) || (d, t) in Dropped(s, p, o)
    {
      TouchedKeys(parent, s, p, o, now, d, t);
    }
  }

  /** A key p writes is being pushed by p, or its push just ended. */
  lemma WrittenKeys(s: Stores, p: SoundHandler, o: Outcome, d: string, t: RecordType)
    requires Writes(p, (d, t)) && !(Tentative(p) && p.r.req.deviceId == d)
    ensures Pushing(p, d, t) || (d, t) in Dropped(s, p, o) + Gained(s, p, o)
  {
    if p.Hb? {
      assert Head(p.b) in p.b.todo;
    }
  }

  /** A key p is not pushing keeps agreeing, or p is about to push it. */
  lemma UnpushedKeyAgrees(parent: string, s: Stores, s': Stores, p: SoundHandler, p': SoundHandler, o: Outcome,
                          d: string, t: RecordType)
    requires Mild(parent, s, s', p, p') && StepEffects(s, s', p) && PushStep(s, s', p, p', o)
    requires PointersSound(parent, s) && NamesUnique(s.devices) && Local(parent, s, p)
    requires Agree(s, d, t) && !Pushing(p, d, t) && (d, t) !in Dropped(s, p, o) + Gained(s, p, o)
    requires Tentative(p) ==> p.r.req.deviceId != d
    ensures Agree(s', d, t) || Pushing(p', d, t)
  {
    var k := (d, t);
    if Writes(p, k) {
      WrittenKeys(s, p, o, d, t);
    }
    assert SamePointer(s, s', k);
    TrackedContentStays(parent, s, s', p, p', k);
    assert d in s'.devices;
    assert AddressEffect(s, s', p, d, t);
  }

  /** The record tracked for a key p is not pushing keeps its content. */
  lemma TrackedContentStays(parent: string, s: Stores, s': Stores, p: SoundHandler, p': SoundHandler, k: Key)
    requires Mild(parent, s, s', p, p') && ContentEffect(s, s', p)
    requires PointersSound(parent, s) && NamesUnique(s.devices) && Local(parent, s, p)
    requires k in s.pointers && !Pushing(p, k.0, k.1)
    ensures var id := s.pointers[k].cloudflareId;
            id in s.zone.records && Holds(s'.zone, id, s.zone.records[id].content)
  {
    var id := s.pointers[k].cloudflareId;
    assert id in Targets(s.pointers) && PointerSound(parent, s, k);
    if p.Hb? && p.b.pc == Update && p.b.id == id {
      HeldIsOwn(parent, s, p, k);
    }
    ContentStays(s, s', p, id, s.zone.records[id].content);
  }

  lemma SyncedKeyStays(parent: string, w: World, synced: set<Key>, h: nat, o: Outcome, p': SoundHandler, s': Stores,
                       d: string, t: RecordType)
    requires h in w.handlers && SyncedRowsStay(w, synced) && SyncedAgree(w, synced)
    requires PointersSound(parent, w.s) && NamesUnique(w.s.devices) && Local(parent, w.s, w.handlers[h])
    requires Mild(parent, w.s, s', w.handlers[h], p') && StepEffects(w.s, s', w.handlers[h])
    requires PushStep(w.s, s', w.handlers[h], p', o)
    requires (d, t) in synced && (d, t) !in Dropped(w.s, w.handlers[h], o) + Gained(w.s, w.handlers[h], o)
    ensures Agree(s', d, t) || Busy(World(s', w.handlers[h := p']), d, t)
  {
    var p, w' := w.handlers[h], World(s', w.handlers[h := p']);
    if g :| g in w.handlers && g != h && Pushing(w.handlers[g], d, t) {
      assert Pushing(w'.handlers[g], d, t);
    } else {
      if !Pushing(p, d, t) {
        UnpushedKeyAgrees(parent, w.s, s', p, p', o, d, t);
      }
      assert Pushing(p', d, t) ==> Pushing(w'.handlers[h], d, t);
    }
  }

  lemma SyncedByStep(parent: string, w: World, synced: set<Key>, h: nat, o: Outcome, p': SoundHandler, s': Stores)
    requires h in w.handlers && SyncedRowsStay(w, synced) && SyncedAgree(w, synced)
    requires PointersSound(parent, w.s) && NamesUnique(w.s.devices) && Local(parent, w.s, w.handlers[h])
    requires Mild(parent, w.s, s', w.handlers[h], p') && StepEffects(w.s, s', w.handlers[h])
    requires PushStep(w.s, s', w.handlers[h], p', o)
    requires forall k :: k in Gained(w.s, w.handlers[h], o) ==> Agree(s', k.0, k.1)
    ensures SyncedAgree(World(s', w.handlers[h := p']), TrackStep(synced, w.s, w.handlers[h], o))
  {
    forall d, t | (d, t) in TrackStep(synced, w.s, w.handlers[h], o)
      ensures Agree(s', d, t) || Busy(World(s', w.handlers[h := p']), d, t)
    {
      if (d, t) !in Gained(w.s, w.handlers[h], o) {
        SyncedKeyStays(parent, w, synced, h, o, p', s', d, t);
      }
    }
  }

  /** While device d's registration can still be undone, no push for d has ended well. */
  lemma GainedNotTentative(w: World, h: nat, o: Outcome, g: nat, t: RecordType)
    requires RowsOwned(w) && h in w.handlers && g in w.handlers && g != h
    requires Apart(w.handlers[g], w.handlers[h]) && Tentative(w.handlers[g])
    ensures (w.handlers[g].r.req.deviceId, t) !in Gained(w.s, w.handlers[h], o)
  {
    assert w.handlers[g].Sound();
    if w.handlers[h].Reg? && w.handlers[h].r.row {
      RowsDisjoint(w, g, h);
    }
  }

  lemma SyncedDevicesStay(s: Stores, s': Stores, p: SoundHandler, o: Outcome, synced: set<Key>)
    requires KeepsDevices(s, s', p)
    requires forall k :: k in synced ==> k.0 in s.devices && (Tentative(p) ==> k.0 != p.r.req.deviceId)
    requires forall k :: k in Gained(s, p, o) ==> Agree(s', k.0, k.1)
    ensures forall k :: k in TrackStep(synced, s, p, o) ==> k.0 in s'.devices
  {
  }

  /** A registration on its way to being undone has no synced key. */
  lemma NewTentativeUnsynced(s: Stores, p: SoundHandler, p': Handler, o: Outcome, synced: set<Key>, t: RecordType)
    requires Tentative(p') && p.Reg? && p'.r.req == p.r.req && (Tentative(p) || p.r.pc == Insert)
    requires (p.r.req.deviceId, t) !in synced
    ensures (p'.r.req.deviceId, t) !in TrackStep(synced, s, p, o)
  {
  }

  lemma TentativeComesFromInsert(parent: string, s: Stores, p: SoundHandler, o: Outcome, now: Time)
    requires Tentative(p.Advance(parent, s, o, now).1)
    ensures p.Reg? && (Tentative(p) || (p.r.pc == Insert && p.r.req.deviceId !in s.devices))
    ensures p.Advance(parent, s, o, now).1.r.req == p.r.req
  {
  }

  lemma RowsStayByStep(w: World, synced: set<Key>, h: nat, o: Outcome, p': SoundHandler, s': Stores)
    requires SyncedRowsStay(w, synced) && h in w.handlers
    requires forall k :: k in TrackStep(synced, w.s, w.handlers[h], o) ==> k.0 in s'.devices
    requires forall g, t :: g in w.handlers && g != h && Tentative(w.handlers[g]) ==>
               (w.handlers[g].r.req.deviceId, t) !in Gained(w.s, w.handlers[h], o)
    requires forall t: RecordType :: Tentative(p') ==>
               (p'.r.req.deviceId, t) !in TrackStep(synced, w.s, w.handlers[h], o)
    ensures SyncedRowsStay(World(s', w.handlers[h := p']), TrackStep(synced, w.s, w.handlers[h], o))
  {
  }

  ghost predicate AllApart(w: World, h: nat)
    requires h in w.handlers
  {
    forall g :: g in w.handlers && g != h ==>
      Apart(w.handlers[g], w.handlers[h]) && Apart(w.handlers[h], w.handlers[g])
  }

  lemma OthersNotGained(w: World, h: nat, o: Outcome)
    requires RowsOwned(w) && h in w.handlers && AllApart(w, h)
    ensures forall g, t :: g in w.handlers && g != h && Tentative(w.handlers[g]) ==>
              (w.handlers[g].r.req.deviceId, t) !in Gained(w.s, w.handlers[h], o)
  {
    forall g, t | g in w.handlers && g != h && Tentative(w.handlers[g])
      ensures (w.handlers[g].r.req.deviceId, t) !in Gained(w.s, w.handlers[h], o)
    {
      GainedNotTentative(w, h, o, g, t);
    }
  }

  lemma OwnNotSynced(parent: string, w: World, synced: set<Key>, h: nat, o: Outcome, now: Time, t: RecordType)
    requires SyncedRowsStay(w, synced) && h in w.handlers
    requires Tentative(w.handlers[h].Advance(parent, w.s, o, now).1)
    ensures (w.handlers[h].Advance(parent, w.s, o, now).1.r.req.deviceId, t)
              !in TrackStep(synced, w.s, w.handlers[h], o)
  {
    TentativeComesFromInsert(parent, w.s, w.handlers[h], o, now);
    assert (w.handlers[h].r.req.deviceId, t) !in synced;
    NewTentativeUnsynced(w.s, w.handlers[h], w.handlers[h].Advance(parent, w.s, o, now).1, o, synced, t);
  }

  lemma OwnDevicesStay(w: World, synced: set<Key>, h: nat, o: Outcome, s': Stores)
    requires SyncedRowsStay(w, synced) && h in w.handlers && KeepsDevices(w.s, s', w.handlers[h])
    requires forall k :: k in Gained(w.s, w.handlers[h], o) ==> Agree(s', k.0, k.1)
    ensures forall k :: k in TrackStep(synced, w.s, w.handlers[h], o) ==> k.0 in s'.devices
  {
    forall k | k in synced
      ensures Tentative(w.handlers[h]) ==> k.0 != w.handlers[h].r.req.deviceId
    {
      assert (k.0, k.1) in synced;
    }
    SyncedDevicesStay(w.s, s', w.handlers[h], o, synced);
  }

  lemma OthersFineByGo(parent: string, w: World, h: nat, p': SoundHandler, s': Stores, g: nat)
    requires Conserved(w) && RowsOwned(w) && PointersSound(parent, w.s) && PointersSound(parent, s')
    requires h in w.handlers && g in w.handlers && g != h && AllApart(w, h)
    requires Fine(w.s, w.handlers[h]) && Fine(w.s, w.handlers[g])
    requires Local(parent, w.s, w.handlers[h]) && Local(parent, w.s, w.handlers[g])
    requires Compatible(w.handlers[h], w.handlers[g]) && Compatible(w.handlers[g], w.handlers[h])
    requires StepEffects(w.s, s', w.handlers[h]) && Mild(parent, w.s, s', w.handlers[h], p')
    ensures Fine(s', w.handlers[g])
  {
    var p, q := w.handlers[h], w.handlers[g];
    OwnersDisjoint(w, h, g);
    if q.Reg? {
      if Tentative(p) && q.r.row {
        RowsDisjoint(w, h, g);
      }
      OthersStayFresh(parent, w.s, s', p, p', q);
    } else {
      OthersStayCurrent(parent, w.s, s', p, p', q);
    }
  }

  /** A handler keeps its request, a new row is on a device that had none, and a beat may push no more than before. */
  ghost predicate CalmStep(s: Stores, p: Handler, p': Handler) {
    match p
    case Reg(r) =>
      && p'.Reg? && p'.r.req == r.req
      && (p'.r.row && !p'.r.Created() ==> (r.row && !r.Created()) || r.req.deviceId !in s.devices)
    case Hb(b) =>
      p'.Hb? && p'.b.req == b.req && forall t :: MayPush(p', b.req.deviceId, t) ==> MayPush(p, b.req.deviceId, t)
  }

  lemma EveryStepCalm(parent: string, s: Stores, p: SoundHandler, o: Outcome, now: Time)
    ensures CalmStep(s, p, p.Advance(parent, s, o, now).1)
  {
  }

  lemma ApartByStep(parent: string, s: Stores, p: Handler, p': Handler, q: Handler)
    requires Apart(p, q) && Apart(q, p) && CalmStep(s, p, p') && Local(parent, s, q)
    ensures Apart(p', q) && Apart(q, p')
  {
  }

  /** The facts about one step that keep the world consistent. */
  ghost predicate TidyStep(parent: string, w: World, synced: set<Key>, h: nat, o: Outcome, p': SoundHandler, s': Stores)
    requires h in w.handlers
  {
    && GoodStep(w.s, s', w.handlers[h], p', o)
    && StepEffects(w.s, s', w.handlers[h]) && PointersSound(parent, s')
    && Mild(parent, w.s, s', w.handlers[h], p')
    && PushStep(w.s, s', w.handlers[h], p', o)
    && CalmStep(w.s, w.handlers[h], p')
    && (forall t: RecordType :: Tentative(p') ==>
         (p'.r.req.deviceId, t) !in TrackStep(synced, w.s, w.handlers[h], o))
  }

  lemma OthersByStep(parent: string, w: World, synced: set<Key>, h: nat, o: Outcome, p': SoundHandler, s': Stores)
    requires Sane(parent, w) && Conserved(w) && RowsOwned(w) && Consistent(w, synced) && h in w.handlers
    requires TidyStep(parent, w, synced, h, o, p', s')
    ensures AllApart(w, h)
    ensures forall g :: g in w.handlers && g != h ==>
              Fine(s', w.handlers[g]) && Apart(p', w.handlers[g]) && Apart(w.handlers[g], p')
  {
    assert AllApart(w, h);
    forall g | g in w.handlers && g != h
      ensures Fine(s', w.handlers[g]) && Apart(p', w.handlers[g]) && Apart(w.handlers[g], p')
    {
      OthersFineByGo(parent, w, h, p', s', g);
      ApartByStep(parent, w.s, w.handlers[h], p', w.handlers[g]);
    }
  }

  /** The parts of Consistent after one handler moved from h's old state to p'. */
  lemma AssembleConsistent(w: World, h: nat, p': SoundHandler, s': Stores, synced': set<Key>)
    requires h in w.handlers && Fine(s', p')
    requires forall g :: g in w.handlers && g != h ==>
               Fine(s', w.handlers[g]) && Apart(p', w.handlers[g]) && Apart(w.handlers[g], p')
    requires forall f, g :: f in w.handlers && g in w.handlers && f != g ==> Apart(w.handlers[f], w.handlers[g])
    requires SyncedRowsStay(World(s', w.handlers[h := p']), synced')
    requires SyncedAgree(World(s', w.handlers[h := p']), synced')
    ensures Consistent(World(s', w.handlers[h := p']), synced')
  {
  }

  lemma ConsistentByStep(parent: string, w: World, synced: set<Key>, h: nat, o: Outcome, p': SoundHandler, s': Stores)
    requires Sane(parent, w) && Conserved(w) && RowsOwned(w) && Consistent(w, synced) && h in w.handlers
    requires TidyStep(parent, w, synced, h, o, p', s')
    ensures Consistent(World(s', w.handlers[h := p']), TrackStep(synced, w.s, w.handlers[h], o))
  {
    OthersByStep(parent, w, synced, h, o, p', s');
    RowsAndKeysByStep(parent, w, synced, h, o, p', s');
    AssembleConsistent(w, h, p', s', TrackStep(synced, w.s, w.handlers[h], o));
  }

  lemma RowsAndKeysByStep(parent: string, w: World, synced: set<Key>, h: nat, o: Outcome, p': SoundHandler, s': Stores)
    requires Sane(parent, w) && RowsOwned(w) && Consistent(w, synced) && h in w.handlers && AllApart(w, h)
    requires TidyStep(parent, w, synced, h, o, p', s')
    ensures SyncedRowsStay(World(s', w.handlers[h := p']), TrackStep(synced, w.s, w.handlers[h], o))
    ensures SyncedAgree(World(s', w.handlers[h := p']), TrackStep(synced, w.s, w.handlers[h], o))
  {
    assert Fine(w.s, w.handlers[h]) && Local(parent, w.s, w.handlers[h]);
    SyncedByStep(parent, w, synced, h, o, p', s');
    OwnDevicesStay(w, synced, h, o, s');
    OthersNotGained(w, h, o);
    RowsStayByStep(w, synced, h, o, p', s');
  }

  lemma EveryStepTidy(parent: string, w: World, synced: set<Key>, h: nat, o: Outcome, now: Time)
    requires Sane(parent, w) && Conserved(w) && RowsOwned(w) && Consistent(w, synced) && h in w.handlers
    ensures var x := w.handlers[h].Advance(parent, w.s, o, now); TidyStep(parent, w, synced, h, o, x.1, x.0)
  {
    var x := w.handlers[h].Advance(parent, w.s, o, now);
    EveryStepGood(parent, w, h, o, now);
    EveryStepMild(parent, w, h, o, now);
    EveryStepEffects(parent, w.s, w.handlers[h], o, now);
    PointersStaySound(parent, w.s, x.0, w.handlers[h], x.1);
    EveryStepPushes(parent, w.s, w.handlers[h], o, now);
    EveryStepCalm(parent, w.s, w.handlers[h], o, now);
    forall t: RecordType | Tentative(x.1)
      ensures (x.1.r.req.deviceId, t) !in TrackStep(synced, w.s, w.handlers[h], o)
    {
      OwnNotSynced(parent, w, synced, h, o, now, t);
    }
  }

  lemma ConsistentByGo(parent: string, w: World, synced: set<Key>, h: nat, o: Outcome, now: Time)
    requires Sane(parent, w) && Conserved(w) && RowsOwned(w) && Consistent(w, synced) && h in w.handlers
    ensures Consistent(Next(parent, w, Go(h, o, now)), TrackStep(synced, w.s, w.handlers[h], o))
  {
    var x := w.handlers[h].Advance(parent, w.s, o, now);
    EveryStepTidy(parent, w, synced, h, o, now);
    ConsistentByStep(parent, w, synced, h, o, x.1, x.0);
  }

  // ---------- the other events ----------

  /** A new handler that has done nothing disturbs nobody. */
  lemma ConsistentByArrival(w: World, synced: set<Key>, h: nat, p: SoundHandler)
    requires Consistent(w, synced) && h !in w.handlers && Fine(w.s, p) && !Tentative(p)
    requires forall d, t :: !Pushing(p, d, t)
    requires forall g :: g in w.handlers ==> Apart(w.handlers[g], p) && Apart(p, w.handlers[g])
    ensures Consistent(w.(handlers := w.handlers[h := p]), synced)
  {
    var w' := w.(handlers := w.handlers[h := p]);
    forall d, t | (d, t) in synced
      ensures Agree(w'.s, d, t) || Busy(w', d, t)
    {
      if g :| g in w.handlers && Pushing(w.handlers[g], d, t) {
        assert Pushing(w'.handlers[g], d, t);
      }
    }
    forall f, g | f in w'.handlers && g in w'.handlers && f != g
      ensures Apart(w'.handlers[f], w'.handlers[g])
    {
      if f != h && g != h {
        assert Apart(w.handlers[f], w.handlers[g]);
      }
    }
  }

  lemma NewBeatApart(p: Handler, beat: BeatReq)
    requires forall t :: !Clash(p, beat, t)
    requires p.Reg? && p.r.row && !p.r.Created() ==> p.r.req.deviceId != beat.deviceId
    ensures Apart(p, Hb(StartBeat(beat))) && Apart(Hb(StartBeat(beat)), p)
  {
    var q := Hb(StartBeat(beat));
    forall t | MayPush(p, beat.deviceId, t) && MayPush(q, beat.deviceId, t)
      ensures Reported(p.b.req, t) == Reported(beat, t)
    {
      assert !Clash(p, beat, t);
    }
  }

  /** Any other registration's row is on another device than one answered 201. */
  lemma OtherRowsElsewhere(w: World, owner: nat, g: nat)
    requires RowsOwned(w) && owner in w.handlers && g in w.handlers
    requires w.handlers[owner].Reg? && w.handlers[owner].r.Created()
    requires w.handlers[g].Reg? && w.handlers[g].r.row && !w.handlers[g].r.Created()
    ensures w.handlers[g].r.req.deviceId != w.handlers[owner].r.req.deviceId
  {
    assert w.handlers[owner].Sound();
    RowsDisjoint(w, g, owner);
  }

  lemma NewBeatApartFromAll(w: World, h: nat, beat: BeatReq)
    requires RowsOwned(w) && Honest(w, Report(h, beat)) && NoClash(w, Report(h, beat))
    ensures forall g :: g in w.handlers ==>
              Apart(w.handlers[g], Hb(StartBeat(beat))) && Apart(Hb(StartBeat(beat)), w.handlers[g])
  {
    var owner :| owner in w.handlers && IssuedTo(w.handlers[owner], beat.deviceId, beat.subdomain);
    forall g | g in w.handlers
      ensures Apart(w.handlers[g], Hb(StartBeat(beat))) && Apart(Hb(StartBeat(beat)), w.handlers[g])
    {
      if w.handlers[g].Reg? && w.handlers[g].r.row && !w.handlers[g].r.Created() {
        OtherRowsElsewhere(w, owner, g);
      }
      NewBeatApart(w.handlers[g], beat);
    }
  }

  /** Token operations and the status sweep leave every address alone. */
  lemma ConsistentByQuiet(w: World, w': World, synced: set<Key>)
    requires Consistent(w, synced) && w'.handlers == w.handlers
    requires w'.s.zone == w.s.zone && w'.s.pointers == w.s.pointers && w'.s.devices.Keys == w.s.devices.Keys
    requires forall d :: d in w.s.devices ==> SameAddresses(w'.s.devices[d], w.s.devices[d])
    ensures Consistent(w', synced)
  {
    forall d, t | (d, t) in synced
      ensures Agree(w'.s, d, t) || Busy(w', d, t)
    {
      if g :| g in w.handlers && Pushing(w.handlers[g], d, t) {
        assert Pushing(w'.handlers[g], d, t);
      } else {
        assert Agree(w.s, d, t);
      }
    }
    forall h | h in w'.handlers
      ensures Fine(w'.s, w'.handlers[h])
    {
      assert Fine(w.s, w.handlers[h]);
    }
  }

  lemma ConsistentByReport(parent: string, w: World, synced: set<Key>, h: nat, beat: BeatReq)
    requires Consistent(w, synced) && h !in w.handlers
    requires forall g :: g in w.handlers ==>
               Apart(w.handlers[g], Hb(StartBeat(beat))) && Apart(Hb(StartBeat(beat)), w.handlers[g])
    ensures Consistent(Next(parent, w, Report(h, beat)), synced)
  {
    ConsistentByArrival(w, synced, h, Hb(StartBeat(beat)));
  }

  lemma ConsistentByArrive(parent: string, w: World, synced: set<Key>, h: nat, req: EnrollReq)
    requires Consistent(w, synced) && h !in w.handlers
    ensures Consistent(Next(parent, w, Arrive(h, req)), synced)
  {
    ConsistentByArrival(w, synced, h, Reg(Enroll(req)));
  }

  lemma ConsistentByOther(parent: string, w: World, synced: set<Key>, e: Event)
    requires Consistent(w, synced)
    requires e.Mint? || e.Revoke? || e.Sweep?
    ensures Consistent(Next(parent, w, e), synced)
  {
    ConsistentByQuiet(w, Next(parent, w, e), synced);
  }

  lemma ConsistentByNewcomer(parent: string, w: World, synced: set<Key>, e: Event)
    requires RowsOwned(w) && Consistent(w, synced)
    requires Honest(w, e) && NoClash(w, e)
    requires (e.Arrive? || e.Report?) && e.h !in w.handlers
    ensures Consistent(Next(parent, w, e), synced)
  {
    if e.Report? {
      NewBeatApartFromAll(w, e.h, e.beat);
      ConsistentByReport(parent, w, synced, e.h, e.beat);
    } else {
      ConsistentByArrive(parent, w, synced, e.h, e.req);
    }
  }

  lemma ConsistentByNext(parent: string, w: World, synced: set<Key>, e: Event)
    requires Sane(parent, w) && Conserved(w) && RowsOwned(w) && Consistent(w, synced)
    requires Honest(w, e) && NoClash(w, e)
    ensures Consistent(Next(parent, w, e), Track(synced, w, e))
  {
    if e.Go? && e.h in w.handlers {
      ConsistentByGo(parent, w, synced, e.h, e.o, e.now);
    } else if (e.Arrive? || e.Report?) && e.h !in w.handlers {
      ConsistentByNewcomer(parent, w, synced, e);
    } else if e.Mint? || e.Revoke? || e.Sweep? {
      ConsistentByOther(parent, w, synced, e);
    }
  }

  lemma NoClashPrefix(parent: string, es: seq<Event>)
    requires es != [] && NoClashRun(parent, es)
    ensures NoClashRun(parent, es[..|es| - 1])
    ensures NoClash(Run(parent, Init(), es[..|es| - 1]), es[|es| - 1])
  {
    var k := |es| - 1;
    forall i | 0 <= i < k
      ensures NoClashAt(parent, es[..k], i)
    {
      assert es[..k][..i] == es[..i];
      assert NoClashAt(parent, es, i);
    }
    assert NoClashAt(parent, es, k);
  }

  lemma {:induction false} ClashFreeRunsAreConsistent(parent: string, es: seq<Event>)
    requires HonestRun(parent, es) && NoClashRun(parent, es)
    ensures Sane(parent, Run(parent, Init(), es)) && Consistent(Run(parent, Init(), es), Synced(parent, es))
  {
    HonestRunsAreSane(parent, es);
    if es != [] {
      var k := |es| - 1;
      HonestPrefix(parent, es);
      NoClashPrefix(parent, es);
      ClashFreeRunsAreConsistent(parent, es[..k]);
      RecordsAreConserved(parent, es[..k]);
      RowsAreConserved(parent, es[..k]);
      ConsistentByNext(parent, Run(parent, Init(), es[..k]), Synced(parent, es[..k]), es[k]);
    }
  }

  /** No beat for device d is in flight. */
  ghost predicate Quiet(w: World, d: string) {
    forall h :: h in w.handlers && OnDevice(w.handlers[h], d) ==> w.handlers[h].b.pc == Replied
  }

  lemma QuietNotBusy(w: World, d: string, t: RecordType)
    requires Quiet(w, d)
    ensures !Busy(w, d, t)
  {
    forall h | h in w.handlers
      ensures !Pushing(w.handlers[h], d, t)
    {
      if OnDevice(w.handlers[h], d) {
        assert w.handlers[h].Sound();
      }
    }
  }

  /**
   * Confined divergence: as long as no arriving beat clashes, whatever calls
   * fail, between beats the tracked Cloudflare record differs from the address
   * on the devices row only for a (device, type) whose latest push failed.
   * The next push that succeeds puts the key back among the synced ones.
   */
  lemma {:induction false} DivergenceIsConfined(parent: string, es: seq<Event>, d: string, t: RecordType)
    requires HonestRun(parent, es) && NoClashRun(parent, es)
    requires Quiet(Run(parent, Init(), es), d)
    ensures (d, t) in Synced(parent, es) ==> Agree(Run(parent, Init(), es).s, d, t)
  {
    ClashFreeRunsAreConsistent(parent, es);
    QuietNotBusy(Run(parent, Init(), es), d, t);
  }

  /**
   * Repair: whatever failed before, the step that brings a push of (d, t) to a
   * successful end leaves the row and the tracked record agreeing.
   */
  lemma {:induction false} SuccessfulPushRepairs(parent: string, es: seq<Event>, h: nat, o: Outcome, now: Time)
    requires HonestRun(parent, es) && NoClashRun(parent, es)
    requires h in Run(parent, Init(), es).handlers
    ensures var w := Run(parent, Init(), es);
            forall k :: k in Gained(w.s, w.handlers[h], o) ==> Agree(Next(parent, w, Go(h, o, now)).s, k.0, k.1)
  {
    ClashFreeRunsAreConsistent(parent, es);
    RecordsAreConserved(parent, es);
    RowsAreConserved(parent, es);
    EveryStepGood(parent, Run(parent, Init(), es), h, o, now);
  }

  // ---------- runs without failures ----------

  /** Every store and Cloudflare call is acknowledged; only signing may fail. */
  predicate Smooth(w: World, e: Event) {
    e.Go? && e.h in w.handlers && e.o != Acked ==> w.handlers[e.h].Reg? && w.handlers[e.h].r.pc == Sign
  }

  /** Event i of the run is a step without failure. */
  ghost predicate SmoothAt(parent: string, es: seq<Event>, i: nat)
    requires i < |es|
  {
    Smooth(Run(parent, Init(), es[..i]), es[i])
  }

  ghost predicate SmoothRun(parent: string, es: seq<Event>) {
    forall i :: 0 <= i < |es| ==> SmoothAt(parent, es, i)
  }

  lemma SmoothPrefix(parent: string, es: seq<Event>)
    requires es != [] && SmoothRun(parent, es)
    ensures SmoothRun(parent, es[..|es| - 1])
    ensures Smooth(Run(parent, Init(), es[..|es| - 1]), es[|es| - 1])
  {
    var k := |es| - 1;
    forall i | 0 <= i < k
      ensures SmoothAt(parent, es[..k], i)
    {
      assert es[..k][..i] == es[..i];
      assert SmoothAt(parent, es, i);
    }
    assert SmoothAt(parent, es, k);
  }

  /** The pushes a registration has completed by now. */
  predicate Pushed(p: Handler, t: RecordType) {
    p.Reg? && (p.r.Created() || (p.r.pc == SaveAAAA && t == A))
  }

  /** Every address on a registered device's row has been pushed or is being pushed. */
  ghost predicate AllPushed(w: World, synced: set<Key>) {
    forall h, t :: h in w.handlers && Pushed(w.handlers[h], t) && HasAddress(w.s, w.handlers[h].r.req.deviceId, t) ==>
      (w.handlers[h].r.req.deviceId, t) in synced || Busy(w, w.handlers[h].r.req.deviceId, t)
  }

  /** dns_records mirrors the record, except between a push and its mirroring. */
  predicate Mirrored(s: Stores, d: string, t: RecordType)
    requires (d, t) in s.pointers
  {
    Holds(s.zone, s.pointers[(d, t)].cloudflareId, s.pointers[(d, t)].value)
  }

  predicate Mirroring(p: SoundHandler, d: string, t: RecordType) {
    OnDevice(p, d) && p.b.pc == SaveOld && Head(p.b) == t
  }

  ghost predicate AllMirrored(w: World) {
    forall d, t :: (d, t) in w.s.pointers ==>
      Mirrored(w.s, d, t) || exists h :: h in w.handlers && Mirroring(w.handlers[h], d, t)
  }

  lemma SmoothDropsNothing(parent: string, s: Stores, p: SoundHandler, o: Outcome)
    requires Local(parent, s, p) && (o == Acked || (p.Reg? && p.r.pc == Sign))
    ensures Dropped(s, p, o) == {}
  {
  }

  /** A key that needs no push before the step and is not synced after it is being pushed. */
  lemma TouchQueues(parent: string, s: Stores, p: SoundHandler, now: Time, d: string, t: RecordType)
    requires Fine(s, p) && Touching(p, d)
    requires HasAddress(p.Advance(parent, s, Acked, now).0, d, t)
    ensures HasAddress(s, d, t) || Pushing(p.Advance(parent, s, Acked, now).1, d, t)
  {
  }

  /** The step that completes a registration's pushes gains their keys. */
  lemma SavingPushes(parent: string, s: Stores, p: SoundHandler, o: Outcome, now: Time, t: RecordType)
    requires Fine(s, p) && p.Reg? && !Pushed(p, t) && (o == Acked || p.r.pc == Sign)
    requires var x := p.Advance(parent, s, o, now); Pushed(x.1, t) && HasAddress(x.0, p.r.req.deviceId, t)
    ensures (p.r.req.deviceId, t) in Gained(s, p, o)
  {
  }

  lemma PushedHasRow(w: World, g: nat, t: RecordType)
    requires Conserved(w) && RowsOwned(w) && g in w.handlers && Pushed(w.handlers[g], t)
    ensures w.handlers[g].r.req.deviceId in w.s.devices
  {
    assert w.handlers[g].Sound();
    HandlerIsBacked(w, g);
  }

  /** One acknowledged step: new addresses are queued, and finished pushes are gained. */
  ghost predicate SmoothStep(s: Stores, s': Stores, p: SoundHandler, p': SoundHandler, o: Outcome) {
    && Dropped(s, p, o) == {}
    && (forall d, t :: Pushing(p, d, t) ==> Pushing(p', d, t) || (d, t) in Gained(s, p, o))
    && (forall d, t :: d in s.devices && HasAddress(s', d, t) ==> HasAddress(s, d, t) || Pushing(p', d, t))
    && (p.Reg? ==> p'.Reg? && p'.r.req == p.r.req)
    && (p.Hb? ==> p'.Hb?)
    && (forall t :: Pushed(p', t) && !Pushed(p, t) && HasAddress(s', p'.r.req.deviceId, t) ==>
         (p'.r.req.deviceId, t) in Gained(s, p, o))
  }

  lemma EveryStepSmooth(parent: string, s: Stores, p: SoundHandler, o: Outcome, now: Time)
    requires Fine(s, p) && Local(parent, s, p) && (o == Acked || (p.Reg? && p.r.pc == Sign))
    requires var x := p.Advance(parent, s, o, now);
             PushStep(s, x.0, p, x.1, o) && RowEffect(s, x.0, p) && CalmStep(s, p, x.1)
    ensures var x := p.Advance(parent, s, o, now); SmoothStep(s, x.0, p, x.1, o)
  {
    var x := p.Advance(parent, s, o, now);
    SmoothDropsNothing(parent, s, p, o);
    forall d, t | d in s.devices && HasAddress(x.0, d, t)
      ensures HasAddress(s, d, t) || Pushing(x.1, d, t)
    {
      if Touching(p, d) {
        TouchQueues(parent, s, p, now, d, t);
      }
    }
    forall t | Pushed(x.1, t) && !Pushed(p, t) && HasAddress(x.0, x.1.r.req.deviceId, t)
      ensures (x.1.r.req.deviceId, t) in Gained(s, p, o)
    {
      SavingPushes(parent, s, p, o, now, t);
    }
  }

  lemma StillPushed(w: World, synced: set<Key>, h: nat, o: Outcome, p': SoundHandler, s': Stores,
                    d: string, t: RecordType)
    requires h in w.handlers && SmoothStep(w.s, s', w.handlers[h], p', o)
    requires d in w.s.devices && HasAddress(s', d, t)
    requires HasAddress(w.s, d, t) ==> (d, t) in synced || Busy(w, d, t)
    ensures (d, t) in TrackStep(synced, w.s, w.handlers[h], o) || Busy(World(s', w.handlers[h := p']), d, t)
  {
    var w' := World(s', w.handlers[h := p']);
    if Pushing(p', d, t) {
      assert Pushing(w'.handlers[h], d, t);
    } else if (d, t) !in synced {
      var g :| g in w.handlers && Pushing(w.handlers[g], d, t);
      if g != h {
        assert Pushing(w'.handlers[g], d, t);
      }
    }
  }

  lemma AllPushedByStep(w: World, synced: set<Key>, h: nat, o: Outcome, p': SoundHandler, s': Stores)
    requires Conserved(w) && RowsOwned(w) && h in w.handlers && AllPushed(w, synced)
    requires SmoothStep(w.s, s', w.handlers[h], p', o)
    ensures AllPushed(World(s', w.handlers[h := p']), TrackStep(synced, w.s, w.handlers[h], o))
  {
    var w' := World(s', w.handlers[h := p']);
    forall g, t | g in w'.handlers && Pushed(w'.handlers[g], t) && HasAddress(w'.s, w'.handlers[g].r.req.deviceId, t)
      ensures var d := w'.handlers[g].r.req.deviceId;
              (d, t) in TrackStep(synced, w.s, w.handlers[h], o) || Busy(w', d, t)
    {
      if g != h || Pushed(w.handlers[h], t) {
        PushedHasRow(w, g, t);
        StillPushed(w, synced, h, o, p', s', w.handlers[g].r.req.deviceId, t);
      }
    }
  }

  /** Events other than a handler's step: at most a newcomer, and no address changes. */
  ghost predicate Idle(w: World, w': World) {
    && w'.s.zone == w.s.zone && w'.s.pointers == w.s.pointers && w'.s.devices.Keys == w.s.devices.Keys
    && (forall d :: d in w.s.devices ==> SameAddresses(w'.s.devices[d], w.s.devices[d]))
    && (forall h :: h in w.handlers ==> h in w'.handlers && w'.handlers[h] == w.handlers[h])
    && (forall h :: h in w'.handlers && h !in w.handlers && w'.handlers[h].Reg? ==> w'.handlers[h].r.pc == Consume)
  }

  lemma OtherEventsIdle(parent: string, w: World, e: Event)
    requires e.Go? ==> e.h !in w.handlers
    ensures Idle(w, Next(parent, w, e))
  {
  }

  lemma AllPushedByIdle(w: World, w': World, synced: set<Key>)
    requires Idle(w, w') && AllPushed(w, synced)
    ensures AllPushed(w', synced)
  {
    forall g, t | g in w'.handlers && Pushed(w'.handlers[g], t) && HasAddress(w'.s, w'.handlers[g].r.req.deviceId, t)
      ensures var d := w'.handlers[g].r.req.deviceId; (d, t) in synced || Busy(w', d, t)
    {
      var d := w'.handlers[g].r.req.deviceId;
      assert HasAddress(w.s, d, t);
      if k :| k in w.handlers && Pushing(w.handlers[k], d, t) {
        assert Pushing(w'.handlers[k], d, t);
      }
    }
  }

  lemma AllMirroredByIdle(w: World, w': World)
    requires Idle(w, w') && AllMirrored(w)
    ensures AllMirrored(w')
  {
    forall d, t | (d, t) in w'.s.pointers
      ensures Mirrored(w'.s, d, t) || exists g :: g in w'.handlers && Mirroring(w'.handlers[g], d, t)
    {
      if g :| g in w.handlers && Mirroring(w.handlers[g], d, t) {
        assert Mirroring(w'.handlers[g], d, t);
      } else {
        assert Mirrored(w.s, d, t);
      }
    }
  }

  /** A pointer p did not write keeps mirroring, or p just overwrote its record and will mirror it. */
  lemma OldPointerMirrored(parent: string, s: Stores, s': Stores, p: SoundHandler, o: Outcome, now: Time,
                           d: string, t: RecordType)
    requires Fine(s, p) && Local(parent, s, p) && (o == Acked || p.Reg?)
    requires PointersSound(parent, s) && NamesUnique(s.devices)
    requires s' == p.Advance(parent, s, o, now).0 && Mild(parent, s, s', p, p.Advance(parent, s, o, now).1)
    requires StepEffects(s, s', p)
    requires (d, t) in s.pointers && (d, t) in s'.pointers && s'.pointers[(d, t)] == s.pointers[(d, t)]
    requires Mirrored(s, d, t)
    ensures Mirrored(s', d, t) || Mirroring(p.Advance(parent, s, o, now).1, d, t)
  {
    var id := s.pointers[(d, t)].cloudflareId;
    assert id in Targets(s.pointers);
    if id in Held(p) {
      HeldIsOwn(parent, s, p, (d, t));
      HeldPointerMirrored(parent, s, p, o, now);
    }
  }

  /** Overwriting the record a beat holds leaves the beat about to mirror it; re-saving mirrors it. */
  lemma HeldPointerMirrored(parent: string, s: Stores, p: SoundHandler, o: Outcome, now: Time)
    requires Fine(s, p) && Local(parent, s, p) && o == Acked && p.Hb? && p.b.pc in {Update, SaveOld}
    ensures var x := p.Advance(parent, s, o, now); var k := (p.b.req.deviceId, Head(p.b));
            k in x.0.pointers && (Mirrored(x.0, k.0, k.1) || Mirroring(x.1, k.0, k.1))
  {
  }

  /** What SaveA, SaveAAAA and the beat's two saves write mirrors the record they name. */
  lemma NewPointerMirrored(parent: string, s: Stores, p: SoundHandler, o: Outcome, now: Time, d: string, t: RecordType)
    requires Fine(s, p) && (o == Acked || (p.Reg? && p.r.pc == Sign))
    requires var s' := p.Advance(parent, s, o, now).0;
             (d, t) in s'.pointers
             && (((d, t) !in s.pointers || s'.pointers[(d, t)] != s.pointers[(d, t)]) || Mirroring(p, d, t))
    requires p.Hb? ==> p.b.req.deviceId in s.devices
    ensures Mirrored(p.Advance(parent, s, o, now).0, d, t)
  {
  }

  /** Pointers and the records they name stay together through one step of p. */
  ghost predicate MirrorStep(s: Stores, s': Stores, p: SoundHandler, p': SoundHandler) {
    forall d, t :: (d, t) in s'.pointers ==>
      if (d, t) !in s.pointers || s'.pointers[(d, t)] != s.pointers[(d, t)] || Mirroring(p, d, t)
      then Mirrored(s', d, t)
      else Mirrored(s, d, t) ==> Mirrored(s', d, t) || Mirroring(p', d, t)
  }

  lemma EveryStepMirrors(parent: string, s: Stores, p: SoundHandler, o: Outcome, now: Time)
    requires PointersSound(parent, s) && NamesUnique(s.devices)
    requires Fine(s, p) && Local(parent, s, p) && (o == Acked || (p.Reg? && p.r.pc == Sign))
    requires var x := p.Advance(parent, s, o, now); Mild(parent, s, x.0, p, x.1) && StepEffects(s, x.0, p)
    ensures var x := p.Advance(parent, s, o, now); MirrorStep(s, x.0, p, x.1)
  {
    var s' := p.Advance(parent, s, o, now).0;
    var p' := p.Advance(parent, s, o, now).1;
    forall d, t | (d, t) in s'.pointers
      ensures if (d, t) !in s.pointers || s'.pointers[(d, t)] != s.pointers[(d, t)] || Mirroring(p, d, t)
              then Mirrored(s', d, t)
              else Mirrored(s, d, t) ==> Mirrored(s', d, t) || Mirroring(p', d, t)
    {
      if (d, t) !in s.pointers || s'.pointers[(d, t)] != s.pointers[(d, t)] || Mirroring(p, d, t) {
        NewPointerMirrored(parent, s, p, o, now, d, t);
      } else if Mirrored(s, d, t) {
        OldPointerMirrored(parent, s, s', p, o, now, d, t);
      }
    }
  }

  lemma AllMirroredByStep(w: World, h: nat, p': SoundHandler, s': Stores)
    requires h in w.handlers && AllMirrored(w) && MirrorStep(w.s, s', w.handlers[h], p')
    ensures AllMirrored(World(s', w.handlers[h := p']))
  {
    var w' := World(s', w.handlers[h := p']);
    forall d, t | (d, t) in s'.pointers
      ensures Mirrored(s', d, t) || exists g :: g in w'.handlers && Mirroring(w'.handlers[g], d, t)
    {
      if Mirroring(p', d, t) {
        assert Mirroring(w'.handlers[h], d, t);
      } else if g :| g in w.handlers && g != h && Mirroring(w.handlers[g], d, t) {
        assert Mirroring(w'.handlers[g], d, t);
      }
    }
  }

  lemma SmoothGo(parent: string, w: World, synced: set<Key>, h: nat, o: Outcome, now: Time)
    requires Sane(parent, w) && Conserved(w) && RowsOwned(w) && Consistent(w, synced) && h in w.handlers
    requires Smooth(w, Go(h, o, now))
    ensures var x := w.handlers[h].Advance(parent, w.s, o, now);
            SmoothStep(w.s, x.0, w.handlers[h], x.1, o) && MirrorStep(w.s, x.0, w.handlers[h], x.1)
  {
    assert Local(parent, w.s, w.handlers[h]) && Fine(w.s, w.handlers[h]);
    EveryStepTidy(parent, w, synced, h, o, now);
    EveryStepSmooth(parent, w.s, w.handlers[h], o, now);
    EveryStepMirrors(parent, w.s, w.handlers[h], o, now);
  }

  lemma PushedByGo(parent: string, w: World, synced: set<Key>, h: nat, o: Outcome, now: Time)
    requires Conserved(w) && RowsOwned(w) && h in w.handlers && AllPushed(w, synced) && AllMirrored(w)
    requires var x := w.handlers[h].Advance(parent, w.s, o, now);
             SmoothStep(w.s, x.0, w.handlers[h], x.1, o) && MirrorStep(w.s, x.0, w.handlers[h], x.1)
    ensures var w' := Next(parent, w, Go(h, o, now));
            AllPushed(w', TrackStep(synced, w.s, w.handlers[h], o)) && AllMirrored(w')
  {
    var x := w.handlers[h].Advance(parent, w.s, o, now);
    AllPushedByStep(w, synced, h, o, x.1, x.0);
    AllMirroredByStep(w, h, x.1, x.0);
  }

  lemma PushedByNext(parent: string, w: World, synced: set<Key>, e: Event)
    requires Sane(parent, w) && Conserved(w) && RowsOwned(w) && Consistent(w, synced)
    requires AllPushed(w, synced) && AllMirrored(w) && Smooth(w, e)
    ensures AllPushed(Next(parent, w, e), Track(synced, w, e)) && AllMirrored(Next(parent, w, e))
  {
    if e.Go? && e.h in w.handlers {
      SmoothGo(parent, w, synced, e.h, e.o, e.now);
      PushedByGo(parent, w, synced, e.h, e.o, e.now);
    } else {
      OtherEventsIdle(parent, w, e);
      AllPushedByIdle(w, Next(parent, w, e), synced);
      AllMirroredByIdle(w, Next(parent, w, e));
    }
  }

  lemma {:induction false} SmoothRunsPush(parent: string, es: seq<Event>)
    requires HonestRun(parent, es) && NoClashRun(parent, es) && SmoothRun(parent, es)
    ensures AllPushed(Run(parent, Init(), es), Synced(parent, es)) && AllMirrored(Run(parent, Init(), es))
  {
    if es != [] {
      var k := |es| - 1;
      HonestPrefix(parent, es);
      NoClashPrefix(parent, es);
      SmoothPrefix(parent, es);
      SmoothRunsPush(parent, es[..k]);
      ClashFreeRunsAreConsistent(parent, es[..k]);
      RecordsAreConserved(parent, es[..k]);
      RowsAreConserved(parent, es[..k]);
      PushedByNext(parent, Run(parent, Init(), es[..k]), Synced(parent, es[..k]), es[k]);
    }
  }

  /** devices address = dns_records value = content of the record dns_records names. */
  predicate ThreeWay(s: Stores, d: string, t: RecordType) {
    Agree(s, d, t) && Mirrored(s, d, t)
  }

  lemma ReportedAddressAgrees(parent: string, es: seq<Event>, h: nat, d: string, t: RecordType)
    requires HonestRun(parent, es) && NoClashRun(parent, es) && SmoothRun(parent, es)
    requires var w := Run(parent, Init(), es);
             h in w.handlers && CreatedOn(w.handlers[h], d) && Quiet(w, d) && HasAddress(w.s, d, t)
    ensures ThreeWay(Run(parent, Init(), es).s, d, t)
  {
    var w := Run(parent, Init(), es);
    SmoothRunsPush(parent, es);
    QuietNotBusy(w, d, t);
    assert Pushed(w.handlers[h], t);
    DivergenceIsConfined(parent, es, d, t);
    forall g | g in w.handlers
      ensures !Mirroring(w.handlers[g], d, t)
    {
      if OnDevice(w.handlers[g], d) {
        assert w.handlers[g].b.pc == Replied;
      }
    }
  }

  /**
   * Three-way agreement: when no call fails and no arriving beat clashes, the
   * three copies of a registered device's addresses agree between beats: the
   * IPv4 address always, and the IPv6 address once its registration or an
   * accepted beat has reported one, also when later beats leave it out.
   */
  lemma {:induction false} ThreeCopiesAgree(parent: string, es: seq<Event>, h: nat, d: string)
    requires HonestRun(parent, es) && NoClashRun(parent, es) && SmoothRun(parent, es)
    requires var w := Run(parent, Init(), es); h in w.handlers && CreatedOn(w.handlers[h], d) && Quiet(w, d)
    ensures var w := Run(parent, Init(), es);
            && ThreeWay(w.s, d, A)
            && (w.handlers[h].r.req.v6.Some? || BeatReportedIpv6(parent, es, d) ==> ThreeWay(w.s, d, AAAA))
  {
    RowAddresses(parent, es, h, d);
    ReportedAddressAgrees(parent, es, h, d, A);
    if HasAddress(Run(parent, Init(), es).s, d, AAAA) {
      ReportedAddressAgrees(parent, es, h, d, AAAA);
    }
  }
}
