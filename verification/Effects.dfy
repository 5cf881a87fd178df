/**
 * What one step of one handler does to the three copies of an address: the
 * devices row, the dns_records row and the content of a Cloudflare record.
 */
module Effects {
  import opened Common
  import opened Tables
  import opened Requests
  import opened Conservation
  import opened Integrity
  import Subdomain

  type Key = (string, RecordType)

  predicate OnDevice(p: Handler, d: string) {
    p.Hb? && p.b.req.deviceId == d
  }

  /** A beat about to update d's row. */
  predicate Touching(p: Handler, d: string) {
    OnDevice(p, d) && p.b.pc == Touch
  }

  /** The dns_records keys the next step of p may write or delete. */
  predicate Writes(p: SoundHandler, k: Key) {
    match p
    case Reg(r) =>
      k.0 == r.req.deviceId
      && (r.pc == UndoDevice || (r.pc == SaveA && k.1 == A) || (r.pc == SaveAAAA && k.1 == AAAA))
    case Hb(b) =>
      b.pc in {SaveNew, SaveOld} && k == (b.req.deviceId, Head(b))
  }

  predicate SamePointer(s: Stores, s': Stores, k: Key) {
    (k in s'.pointers <==> k in s.pointers) && (k in s.pointers ==> s'.pointers[k] == s.pointers[k])
  }

  /** A row's address changes only to the one reported by a beat that updates that row. */
  predicate AddressEffect(s: Stores, s': Stores, p: SoundHandler, d: string, t: RecordType)
    requires d in s.devices && d in s'.devices
  {
    || Stored(s'.devices[d], t) == Stored(s.devices[d], t)
    || (Touching(p, d) && Reported(p.b.req, t).Some? && Stored(s'.devices[d], t) == Reported(p.b.req, t))
  }

  ghost predicate RowEffect(s: Stores, s': Stores, p: SoundHandler) {
    forall d, t :: d in s.devices && d in s'.devices ==> AddressEffect(s, s', p, d, t)
  }

  /** A record's content changes only when a beat overwrites the record it holds. */
  ghost predicate ContentEffect(s: Stores, s': Stores, p: SoundHandler) {
    forall id :: id in s.zone.records && id in s'.zone.records ==>
      || s'.zone.records[id].content == s.zone.records[id].content
      || (p.Hb? && p.b.pc == Update && id == p.b.id && s'.zone.records[id].content == Value(p.b))
  }

  /** A pointer changes only at a key p writes, and a beat aims it at the record in its hand. */
  ghost predicate PointerEffect(s: Stores, s': Stores, p: SoundHandler) {
    forall k: Key ::
      || SamePointer(s, s', k)
      || (Writes(p, k) && (p.Hb? ==>
            k in s'.pointers && s'.pointers[k].cloudflareId == p.b.id && s'.pointers[k].value == Value(p.b)))
  }

  ghost predicate StepEffects(s: Stores, s': Stores, p: SoundHandler) {
    RowEffect(s, s', p) && ContentEffect(s, s', p) && PointerEffect(s, s', p)
  }

  lemma SaveEffects(parent: string, s: Stores, r: Registration, o: Outcome)
    requires Coherent(r) && r.pc in {SaveA, SaveAAAA}
    ensures var x := if r.pc == SaveA then StepSaveA(parent, s, r, o) else StepSaveAAAA(parent, s, r, o);
            StepEffects(s, x.0, Reg(r))
  {
  }

  lemma RowStepEffects(s: Stores, r: Registration, o: Outcome, now: Time)
    requires Coherent(r) && r.pc in {Insert, UndoDevice}
    ensures var x := if r.pc == Insert then StepInsert(s, r, o, now) else StepUndoDevice(s, r, o);
            StepEffects(s, x.0, Reg(r))
  {
  }

  /** The other steps of a registration leave rows, pointers and contents alone. */
  lemma ZoneStepEffects(parent: string, s: Stores, r: Registration, o: Outcome, now: Time)
    requires Coherent(r) && Issued(s.zone) && r.pc !in {Insert, UndoDevice, SaveA, SaveAAAA}
    ensures var s' := StepRegistration(parent, s, r, o, now).0;
            && s'.devices == s.devices && s'.pointers == s.pointers
            && forall id :: id in s.zone.records && id in s'.zone.records ==>
                 s'.zone.records[id].content == s.zone.records[id].content
  {
  }

  lemma RegistrationEffects(parent: string, s: Stores, r: Registration, o: Outcome, now: Time)
    requires Coherent(r) && Issued(s.zone)
    ensures StepEffects(s, StepRegistration(parent, s, r, o, now).0, Reg(r))
  {
    if r.pc in {SaveA, SaveAAAA} {
      SaveEffects(parent, s, r, o);
    } else if r.pc in {Insert, UndoDevice} {
      RowStepEffects(s, r, o, now);
    } else {
      ZoneStepEffects(parent, s, r, o, now);
    }
  }

  lemma TouchEffects(s: Stores, b: Beat, o: Outcome, now: Time)
    requires CoherentBeat(b) && b.pc == Touch
    ensures StepEffects(s, StepTouch(s, b, o, now).0, Hb(b))
  {
  }

  lemma PushEffects(parent: string, s: Stores, b: Beat, o: Outcome, now: Time)
    requires CoherentBeat(b) && Issued(s.zone) && b.pc != Touch
    ensures StepEffects(s, StepBeat(parent, s, b, o, now).0, Hb(b))
  {
  }

  lemma EveryStepEffects(parent: string, s: Stores, p: SoundHandler, o: Outcome, now: Time)
    requires Issued(s.zone)
    ensures StepEffects(s, p.Advance(parent, s, o, now).0, p)
  {
    match p
    case Reg(r) =>
      RegistrationEffects(parent, s, r, o, now);
    case Hb(b) =>
      if b.pc == Touch {
        TouchEffects(s, b, o, now);
      } else {
        PushEffects(parent, s, b, o, now);
      }
  }

  // ---------- a record belongs to one key ----------

  /** A record named after a device and a type is named after no other. */
  lemma NamedForOne(parent: string, s: Stores, id: nat, j: Key, k: Key)
    requires NamesUnique(s.devices) && j.0 in s.devices && k.0 in s.devices
    requires Named(s.zone, id, Subdomain.Fqdn(s.devices[j.0].subdomain, parent), j.1)
    requires Named(s.zone, id, Subdomain.Fqdn(s.devices[k.0].subdomain, parent), k.1)
    ensures j == k
  {
    Subdomain.FqdnInjective(s.devices[j.0].subdomain, s.devices[k.0].subdomain, parent);
  }

  /** No two dns_records rows name the same record. */
  lemma TargetsDiffer(parent: string, s: Stores, j: Key, k: Key)
    requires PointersSound(parent, s) && NamesUnique(s.devices)
    requires j in s.pointers && k in s.pointers && s.pointers[j].cloudflareId == s.pointers[k].cloudflareId
    ensures j == k
  {
    assert PointerSound(parent, s, j) && PointerSound(parent, s, k);
    NamedForOne(parent, s, s.pointers[j].cloudflareId, j, k);
  }

  /** The record a beat holds is tracked for nothing but the key the beat is pushing. */
  lemma HeldIsOwn(parent: string, s: Stores, p: SoundHandler, k: Key)
    requires PointersSound(parent, s) && NamesUnique(s.devices) && Local(parent, s, p)
    requires k in s.pointers && p.Hb? && p.b.pc in {SaveNew, Update, SaveOld} && s.pointers[k].cloudflareId == p.b.id
    ensures k == (p.b.req.deviceId, Head(p.b))
  {
    assert PointerSound(parent, s, k);
    NamedForOne(parent, s, p.b.id, k, (p.b.req.deviceId, Head(p.b)));
  }

  /** Two beats holding one record push the same key. */
  lemma HeldTogether(parent: string, s: Stores, p: SoundHandler, q: SoundHandler)
    requires NamesUnique(s.devices) && Local(parent, s, p) && Local(parent, s, q)
    requires p.Hb? && p.b.pc in {SaveNew, Update, SaveOld} && q.Hb? && q.b.pc in {SaveNew, Update, SaveOld}
    requires p.b.id == q.b.id
    ensures p.b.req.deviceId == q.b.req.deviceId && Head(p.b) == Head(q.b)
  {
    NamedForOne(parent, s, p.b.id, (p.b.req.deviceId, Head(p.b)), (q.b.req.deviceId, Head(q.b)));
  }
}
