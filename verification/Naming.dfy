/**
 * What names the hub gives out: every row's subdomain comes from a validated
 * name, and every record and pointer is a direct child of the parent zone.
 */
module Naming {
  import opened Common
  import opened Tables
  import opened Requests
  import opened Conservation
  import opened Integrity
  import Subdomain
  import Text

  /** registerDevice lets a request in only with the base its preferred name validates to. */
  predicate Validated(req: EnrollReq) {
    Subdomain.ValidateSubdomain(req.name) == Subdomain.Valid(req.base)
  }

  predicate ValidArrivals(es: seq<Event>) {
    forall i :: 0 <= i < |es| && es[i].Arrive? ==> Validated(es[i].req)
  }

  /** One of the 99 names of a free label: no dot, not reserved. */
  predicate GivenName(name: string) {
    '.' !in name && !Subdomain.IsListed(name) && name != ""
  }

  /** All 99 names of this base may be given. */
  predicate GoodBase(base: string) {
    forall n :: 1 <= n <= Subdomain.MAX_SUFFIX ==> GivenName(Subdomain.Candidate(base, n))
  }

  lemma ValidatedBaseIsGood(req: EnrollReq)
    requires Validated(req)
    ensures GoodBase(req.base)
  {
    Subdomain.ValidatedNameIsCanonical(req.name);
    forall n | 1 <= n <= Subdomain.MAX_SUFFIX
      ensures GivenName(Subdomain.Candidate(req.base, n))
    {
      Subdomain.CandidateKeepsRule(req.base, n);
      Subdomain.CandidateHasNoDot(req.base, n);
    }
  }

  /** The registration's name is the candidate it probed last, once it has one. */
  predicate RegNamed(r: Registration) {
    && 1 <= r.probe <= Subdomain.MAX_SUFFIX
    && (r.sub == "" ==> r.pc in {Consume, Resolve, Answered} && !r.row && !r.Created())
    && (r.sub != "" ==> r.pc !in {Consume, Resolve} && r.sub == Subdomain.Candidate(r.req.base, r.probe))
  }

  predicate HandlerNamed(p: Handler) {
    match p
    case Reg(r) => RegNamed(r) && GoodBase(r.req.base)
    case Hb(b) => GivenName(b.req.subdomain)
  }

  lemma RegNameIsGiven(r: Registration)
    requires RegNamed(r) && GoodBase(r.req.base) && r.sub != ""
    ensures GivenName(r.sub)
  {
  }

  /** A full name made of one of the hub's own names. */
  ghost predicate ChildName(parent: string, fqdn: string) {
    exists sub :: GivenName(sub) && fqdn == Subdomain.Fqdn(sub, parent)
  }

  ghost predicate ChildRecords(parent: string, z: Zone) {
    forall id :: id in z.records ==> ChildName(parent, z.records[id].fqdn)
  }

  lemma ResolveNames(s: Stores, r: Registration, o: Outcome)
    requires RegNamed(r) && r.pc == Resolve && Subdomain.Candidate(r.req.base, r.probe) != ""
    ensures RegNamed(StepResolve(s, r, o).1)
  {
  }

  lemma RegistrationNames(parent: string, s: Stores, r: Registration, o: Outcome, now: Time)
    requires Coherent(r) && RegNamed(r) && Subdomain.Candidate(r.req.base, r.probe) != ""
    ensures RegNamed(StepRegistration(parent, s, r, o, now).1)
  {
    if r.pc == Resolve {
      ResolveNames(s, r, o);
    }
  }

  lemma RegistrationRecords(parent: string, s: Stores, r: Registration, o: Outcome, now: Time)
    requires Coherent(r) && ChildRecords(parent, s.zone)
    requires r.pc in {CreateA, CreateAAAA} ==> ChildName(parent, Subdomain.Fqdn(r.sub, parent))
    ensures ChildRecords(parent, StepRegistration(parent, s, r, o, now).0.zone)
  {
  }

  lemma BeatRecords(parent: string, s: Stores, b: Beat, o: Outcome, now: Time)
    requires CoherentBeat(b) && ChildRecords(parent, s.zone) && ChildName(parent, Name(parent, b))
    ensures ChildRecords(parent, StepBeat(parent, s, b, o, now).0.zone)
  {
  }

  ghost predicate AllNamed(parent: string, w: World) {
    && ChildRecords(parent, w.s.zone)
    && forall h :: h in w.handlers ==> HandlerNamed(w.handlers[h])
  }

  lemma RegNamedByGo(parent: string, s: Stores, r: Registration, o: Outcome, now: Time)
    requires Coherent(r) && HandlerNamed(Reg(r)) && ChildRecords(parent, s.zone)
    ensures var x := StepRegistration(parent, s, r, o, now);
            HandlerNamed(Reg(x.1)) && ChildRecords(parent, x.0.zone)
  {
    assert GivenName(Subdomain.Candidate(r.req.base, r.probe));
    RegistrationNames(parent, s, r, o, now);
    RegistrationRecords(parent, s, r, o, now);
  }

  lemma NamedByGo(parent: string, s: Stores, p: SoundHandler, o: Outcome, now: Time)
    requires HandlerNamed(p) && ChildRecords(parent, s.zone)
    ensures var x := p.Advance(parent, s, o, now);
            HandlerNamed(x.1) && ChildRecords(parent, x.0.zone)
  {
    match p
    case Reg(r) => RegNamedByGo(parent, s, r, o, now);
    case Hb(b) =>
      assert GivenName(b.req.subdomain);
      BeatRecords(parent, s, b, o, now);
  }

  lemma NamedByArrival(parent: string, w: World, e: Event)
    requires AllNamed(parent, w) && Honest(w, e) && (e.Arrive? ==> Validated(e.req)) && (e.Arrive? || e.Report?)
    ensures AllNamed(parent, Next(parent, w, e))
  {
    if e.Arrive? {
      ValidatedBaseIsGood(e.req);
    } else {
      var h :| h in w.handlers && IssuedTo(w.handlers[h], e.beat.deviceId, e.beat.subdomain);
      assert HandlerNamed(w.handlers[h]);
      RegNameIsGiven(w.handlers[h].r);
    }
  }

  lemma NamedByNext(parent: string, w: World, e: Event)
    requires AllNamed(parent, w) && Honest(w, e) && (e.Arrive? ==> Validated(e.req))
    ensures AllNamed(parent, Next(parent, w, e))
  {
    if e.Go? && e.h in w.handlers {
      NamedByGo(parent, w.s, w.handlers[e.h], e.o, e.now);
    } else if e.Arrive? || e.Report? {
      NamedByArrival(parent, w, e);
    }
  }

  lemma {:induction false} HonestRunsName(parent: string, es: seq<Event>)
    requires HonestRun(parent, es) && ValidArrivals(es)
    ensures AllNamed(parent, Run(parent, Init(), es))
  {
    if es != [] {
      var k := |es| - 1;
      HonestPrefix(parent, es);
      HonestRunsName(parent, es[..k]);
      NamedByNext(parent, Run(parent, Init(), es[..k]), es[k]);
    }
  }

  /** Its first label is the given name, the others are the zone's. */
  predicate ChildOf(fqdn: string, name: string, parent: string) {
    Text.Split(fqdn, '.') == [name] + Text.Split(parent, '.')
  }

  /** Whatever fails and however requests interleave, every record the hub has is a child of its zone. */
  lemma {:induction false} EveryRecordIsAChild(parent: string, es: seq<Event>, id: nat)
    requires HonestRun(parent, es) && ValidArrivals(es) && id in Run(parent, Init(), es).s.zone.records
    ensures exists name :: GivenName(name) && ChildOf(Run(parent, Init(), es).s.zone.records[id].fqdn, name, parent)
  {
    HonestRunsName(parent, es);
    var r := Run(parent, Init(), es).s.zone.records[id];
    assert ChildName(parent, r.fqdn);
    var name :| GivenName(name) && r.fqdn == Subdomain.Fqdn(name, parent);
    Subdomain.FqdnIsChild(name, parent);
  }

  lemma RowNameIsGiven(parent: string, w: World, d: string)
    requires AllNamed(parent, w) && RowsOwned(w) && d in w.s.devices
    ensures GivenName(w.s.devices[d].subdomain)
  {
    var x := (d, w.s.devices[d].subdomain);
    assert x in NamedRows(w.s.devices);
    var h :| h in RowHoldings(w) && x in RowHoldings(w)[h];
    assert HandlerNamed(w.handlers[h]);
    RegNameIsGiven(w.handlers[h].r);
  }

  /** Every device row has a given name, and every dns_records row and its record are that child of the zone. */
  lemma {:induction false} PointersAreChildren(parent: string, es: seq<Event>, d: string, t: RecordType)
    requires HonestRun(parent, es) && ValidArrivals(es)
    ensures var s := Run(parent, Init(), es).s;
            && (d in s.devices ==> GivenName(s.devices[d].subdomain))
            && ((d, t) in s.pointers ==>
                  var p := s.pointers[(d, t)];
                  && d in s.devices && ChildOf(p.fqdn, s.devices[d].subdomain, parent)
                  && p.cloudflareId in s.zone.records && s.zone.records[p.cloudflareId].rtype == t
                  && s.zone.records[p.cloudflareId].fqdn == p.fqdn)
  {
    var w := Run(parent, Init(), es);
    HonestRunsName(parent, es);
    RowsAreConserved(parent, es);
    PointersNeverDangle(parent, es);
    if d in w.s.devices {
      RowNameIsGiven(parent, w, d);
      Subdomain.FqdnIsChild(w.s.devices[d].subdomain, parent);
    }
    if (d, t) in w.s.pointers {
      assert PointerSound(parent, w.s, (d, t));
    }
  }

  /** This id is a live record of this type, named as that child of the zone. */
  predicate LiveChild(s: Stores, id: Option<nat>, name: string, parent: string, t: RecordType) {
    && id.Some? && id.value in s.zone.records && s.zone.records[id.value].rtype == t
    && ChildOf(s.zone.records[id.value].fqdn, name, parent)
  }

  /**
   * What a 201 promises, in the words of DNS: for good, whatever others do,
   * the device's row has the name answered, and its A (and AAAA) record is
   * live as the child of the zone with exactly that first label.
   */
  lemma {:induction false} CreatedRecordsAreChildren(parent: string, es: seq<Event>, more: seq<Event>, h: nat)
    requires HonestRun(parent, es + more) && ValidArrivals(es + more)
    requires var w := Run(parent, Init(), es); h in w.handlers && w.handlers[h].Reg? && w.handlers[h].r.Created()
    ensures var r := Run(parent, Init(), es).handlers[h].r; var s := Run(parent, Init(), es + more).s;
            && GivenName(r.sub) && r.req.deviceId in s.devices && s.devices[r.req.deviceId].subdomain == r.sub
            && LiveChild(s, r.a, r.sub, parent, A)
            && (r.req.v6.Some? ==> LiveChild(s, r.aaaa, r.sub, parent, AAAA))
  {
    CreatedDevicesKeepTheirRecords(parent, es, more, h);
    var r := Run(parent, Init(), es).handlers[h].r;
    HonestRunsName(parent, es + more);
    RowsAreConserved(parent, es + more);
    RowNameIsGiven(parent, Run(parent, Init(), es + more), r.req.deviceId);
    Subdomain.FqdnIsChild(r.sub, parent);
  }
}
