/**
 * What every run keeps, whatever fails and whatever tokens the heartbeats
 * carry: records and rows are owned by exactly one request, and an enrollment
 * token lets at most one registration through.
 */
module Conservation {
  import opened Common
  import opened Tables
  import opened Requests
  import Subdomain

  // ---------- Cloudflare records ----------

  function Holdings(w: World): map<nat, set<nat>> {
    map h | h in w.handlers :: w.handlers[h].Owned()
  }

  /** The live ids are the disjoint union of what the requests own. */
  ghost predicate Conserved(w: World) {
    && Partition(Holdings(w), w.s.zone.records.Keys)
    && Issued(w.s.zone)
    && (forall h :: h in w.handlers ==> Distinct(w.handlers[h]))
  }

  ghost predicate Issued(z: Zone) {
    forall id :: id in z.records ==> id < z.next
  }

  /** One registration keeps no record in two of its fields. */
  predicate Distinct(p: Handler) {
    p.Reg? ==>
      && (p.r.a.Some? ==> p.r.a.value !in p.r.leaked && p.r.a != p.r.aaaa)
      && (p.r.aaaa.Some? ==> p.r.aaaa.value !in p.r.leaked)
  }

  /** A step moves records in and out of its own handler's hands only. */
  ghost predicate Balanced(z: Zone, z': Zone, own: set<nat>, own': set<nat>) {
    Handover(z.records.Keys, z'.records.Keys, own, own') && Issued(z')
  }

  lemma AddBalances(z: Zone, r: CfRecord, own: set<nat>)
    requires Issued(z) && own <= z.records.Keys
    ensures Balanced(z, AddRecord(z, r), own, own + {z.next})
  {
  }

  lemma RemoveBalances(z: Zone, id: nat, own: set<nat>)
    requires Issued(z) && own <= z.records.Keys && id in own
    ensures RemoveRecord(z, id).Some? && Balanced(z, RemoveRecord(z, id).value, own, own - {id})
  {
  }

  lemma SameBalances(z: Zone, z': Zone, own: set<nat>)
    requires Issued(z) && own <= z.records.Keys && z'.records.Keys == z.records.Keys && z'.next == z.next
    ensures Balanced(z, z', own, own)
  {
  }

  predicate MovesRecords(pc: RegPc) {
    pc in {CreateA, CreateAAAA, UndoA, UndoAAAA}
  }

  lemma QuietStep(parent: string, s: Stores, r: Registration, o: Outcome, now: Time)
    requires Coherent(r) && !MovesRecords(r.pc)
    ensures var x := StepRegistration(parent, s, r, o, now);
            x.0.zone == s.zone && x.1.a == r.a && x.1.aaaa == r.aaaa && x.1.leaked == r.leaked
  {
  }

  lemma CreateBalances(parent: string, s: Stores, r: Registration, o: Outcome)
    requires Issued(s.zone)
    requires Coherent(r) && r.pc in {CreateA, CreateAAAA} && Distinct(Reg(r)) && r.Owned() <= s.zone.records.Keys
    ensures var x := if r.pc == CreateA then StepCreateA(parent, s, r, o) else StepCreateAAAA(parent, s, r, o);
            Balanced(s.zone, x.0.zone, r.Owned(), x.1.Owned()) && Distinct(Reg(x.1))
  {
    var t := if r.pc == CreateA then A else AAAA;
    var v := if r.pc == CreateA then r.req.v4 else r.req.v6.value;
    if o == Refused {
      SameBalances(s.zone, s.zone, r.Owned());
    } else {
      assert s.zone.next !in s.zone.records;
      AddBalances(s.zone, CfRecord(Subdomain.Fqdn(r.sub, parent), t, v), r.Owned());
      var x := if r.pc == CreateA then StepCreateA(parent, s, r, o) else StepCreateAAAA(parent, s, r, o);
      assert x.1.Owned() == r.Owned() + {s.zone.next};
    }
  }

  lemma UndoBalances(s: Stores, r: Registration, o: Outcome)
    requires Issued(s.zone)
    requires Coherent(r) && r.pc in {UndoA, UndoAAAA} && Distinct(Reg(r)) && r.Owned() <= s.zone.records.Keys
    ensures var x := if r.pc == UndoA then StepUndoA(s, r, o) else StepUndoAAAA(s, r, o);
            Balanced(s.zone, x.0.zone, r.Owned(), x.1.Owned()) && Distinct(Reg(x.1))
  {
    var id := if r.pc == UndoA then r.a.value else r.aaaa.value;
    var x := if r.pc == UndoA then StepUndoA(s, r, o) else StepUndoAAAA(s, r, o);
    assert id in r.Owned();
    if o == Refused {
      assert x.1.Owned() == r.Owned();
      SameBalances(s.zone, s.zone, r.Owned());
    } else {
      assert x.1.Owned() == r.Owned() - {id};
      RemoveBalances(s.zone, id, r.Owned());
    }
  }

  lemma RegistrationBalances(parent: string, s: Stores, r: Registration, o: Outcome, now: Time)
    requires Issued(s.zone)
    requires Coherent(r) && Distinct(Reg(r)) && r.Owned() <= s.zone.records.Keys
    ensures var x := StepRegistration(parent, s, r, o, now);
            Balanced(s.zone, x.0.zone, r.Owned(), x.1.Owned()) && Distinct(Reg(x.1))
  {
    if r.pc in {CreateA, CreateAAAA} {
      CreateBalances(parent, s, r, o);
    } else if r.pc in {UndoA, UndoAAAA} {
      UndoBalances(s, r, o);
    } else {
      QuietStep(parent, s, r, o, now);
      SameBalances(s.zone, s.zone, r.Owned());
    }
  }

  lemma BeatBalances(parent: string, s: Stores, b: Beat, o: Outcome, now: Time)
    requires Issued(s.zone)
    requires CoherentBeat(b) && b.made <= s.zone.records.Keys
    ensures var x := StepBeat(parent, s, b, o, now); Balanced(s.zone, x.0.zone, b.made, x.1.made)
  {
    var x := StepBeat(parent, s, b, o, now);
    if b.pc == Create && o != Refused {
      AddBalances(s.zone, CfRecord(Name(parent, b), Head(b), Value(b)), b.made);
    } else {
      SameBalances(s.zone, x.0.zone, b.made);
    }
  }

  lemma StepBalances(parent: string, w: World, h: nat, o: Outcome, now: Time)
    requires Conserved(w) && h in w.handlers
    ensures var x := w.handlers[h].Advance(parent, w.s, o, now);
            Balanced(w.s.zone, x.0.zone, w.handlers[h].Owned(), x.1.Owned()) && Distinct(x.1)
  {
    var p := w.handlers[h];
    assert Holdings(w)[h] == p.Owned();
    match p {
      case Reg(r) => RegistrationBalances(parent, w.s, r, o, now);
      case Hb(b) => BeatBalances(parent, w.s, b, o, now);
    }
  }

  lemma ConservedByStep(w: World, h: nat, p': SoundHandler, s': Stores)
    requires Conserved(w) && h in w.handlers && Distinct(p')
    requires Balanced(w.s.zone, s'.zone, w.handlers[h].Owned(), p'.Owned())
    ensures Conserved(World(s', w.handlers[h := p']))
  {
    assert Holdings(w)[h] == w.handlers[h].Owned();
    PartitionKept(Holdings(w), w.s.zone.records.Keys, h, p'.Owned(), s'.zone.records.Keys);
    assert Holdings(World(s', w.handlers[h := p'])) == Holdings(w)[h := p'.Owned()];
  }

  lemma ConservedByArrival(w: World, h: nat, p': SoundHandler)
    requires Conserved(w) && h !in w.handlers && Distinct(p') && p'.Owned() == {}
    ensures Conserved(w.(handlers := w.handlers[h := p']))
  {
    PartitionKept(Holdings(w), w.s.zone.records.Keys, h, {}, w.s.zone.records.Keys);
    assert Holdings(w.(handlers := w.handlers[h := p'])) == Holdings(w)[h := {}];
  }

  lemma ConservedByNext(parent: string, w: World, e: Event)
    requires Conserved(w)
    ensures Conserved(Next(parent, w, e))
  {
    match e
    case Go(h, o, now) =>
      if h in w.handlers {
        var x := w.handlers[h].Advance(parent, w.s, o, now);
        StepBalances(parent, w, h, o, now);
        ConservedByStep(w, h, x.1, x.0);
      }
    case Arrive(h, req) =>
      if h !in w.handlers {
        ConservedByArrival(w, h, Reg(Enroll(req)));
      }
    case Report(h, beat) =>
      if h !in w.handlers {
        ConservedByArrival(w, h, Hb(StartBeat(beat)));
      }
    case _ =>
      assert Holdings(Next(parent, w, e)) == Holdings(w);
  }

  /**
   * At every reachable state the live Cloudflare ids are the disjoint union
   * of the ids owned by the requests that ever arrived: held in flight, kept
   * by a 201, made by a heartbeat, or left behind by a failed rollback or a
   * creation whose answer was lost.
   */
  lemma {:induction false} RecordsAreConserved(parent: string, es: seq<Event>)
    ensures Conserved(Run(parent, Init(), es))
  {
    if es != [] {
      RecordsAreConserved(parent, es[..|es| - 1]);
      ConservedByNext(parent, Run(parent, Init(), es[..|es| - 1]), es[|es| - 1]);
    }
  }

  // ---------- device rows ----------

  /** The (device, subdomain) row a request put there and has not taken out. */
  function RowOf(p: Handler): set<(string, string)> {
    if p.Reg? && p.r.row then {(p.r.req.deviceId, p.r.sub)} else {}
  }

  function RowHoldings(w: World): map<nat, set<(string, string)>> {
    map h | h in w.handlers :: RowOf(w.handlers[h])
  }

  function NamedRows(devices: DeviceTable): set<(string, string)> {
    set d | d in devices :: (d, devices[d].subdomain)
  }

  /** UNIQUE (subdomain). */
  ghost predicate NamesUnique(devices: DeviceTable) {
    forall d, e :: d in devices && e in devices && devices[d].subdomain == devices[e].subdomain ==> d == e
  }

  ghost predicate RowsOwned(w: World) {
    Partition(RowHoldings(w), NamedRows(w.s.devices)) && NamesUnique(w.s.devices)
  }

  /** A step moves its own row in or out, and no two rows get one name. */
  ghost predicate RowStep(p: Handler, m: DeviceTable, p': Handler, m': DeviceTable) {
    Handover(NamedRows(m), NamedRows(m'), RowOf(p), RowOf(p')) && NamesUnique(m')
  }

  lemma SameRows(m: DeviceTable, m': DeviceTable)
    requires m'.Keys == m.Keys && forall d :: d in m ==> m'[d].subdomain == m[d].subdomain
    ensures NamedRows(m') == NamedRows(m)
    ensures NamesUnique(m) ==> NamesUnique(m')
  {
    forall x | x in NamedRows(m)
      ensures x in NamedRows(m')
    {
      assert x.0 in m';
    }
  }

  lemma DropRow(m: DeviceTable, d: string)
    requires d in m
    ensures NamedRows(m - {d}) == NamedRows(m) - {(d, m[d].subdomain)}
  {
    forall x | x in NamedRows(m) - {(d, m[d].subdomain)}
      ensures x in NamedRows(m - {d})
    {
      assert x.0 in m - {d};
    }
  }

  lemma InsertMovesRow(s: Stores, r: Registration, o: Outcome, now: Time)
    requires Coherent(r) && r.pc == Insert && NamesUnique(s.devices)
    ensures var x := StepInsert(s, r, o, now); RowStep(Reg(r), s.devices, Reg(x.1), x.0.devices)
  {
    var x := StepInsert(s, r, o, now);
    if x.1.row {
      var d := r.req.deviceId;
      assert x.0.devices.Keys == s.devices.Keys + {d};
      assert NamedRows(x.0.devices) == NamedRows(s.devices) + {(d, r.sub)};
    }
  }

  lemma UndoMovesRow(s: Stores, r: Registration, o: Outcome)
    requires Coherent(r) && r.pc == UndoDevice && NamesUnique(s.devices)
    requires RowOf(Reg(r)) <= NamedRows(s.devices)
    ensures var x := StepUndoDevice(s, r, o); RowStep(Reg(r), s.devices, Reg(x.1), x.0.devices)
  {
    var x := StepUndoDevice(s, r, o);
    if TakesEffect(o) {
      assert (r.req.deviceId, r.sub) in RowOf(Reg(r));
      assert s.devices[r.req.deviceId].subdomain == r.sub;
      DropRow(s.devices, r.req.deviceId);
    }
  }

  lemma OtherStepsKeepRows(parent: string, s: Stores, r: Registration, o: Outcome, now: Time)
    requires Coherent(r) && r.pc !in {Insert, UndoDevice}
    ensures var x := StepRegistration(parent, s, r, o, now);
            x.0.devices == s.devices && RowOf(Reg(x.1)) == RowOf(Reg(r))
  {
  }

  lemma BeatKeepsRows(parent: string, s: Stores, b: Beat, o: Outcome, now: Time)
    requires CoherentBeat(b)
    ensures var m := StepBeat(parent, s, b, o, now).0.devices;
            m.Keys == s.devices.Keys && forall d :: d in s.devices ==> m[d].subdomain == s.devices[d].subdomain
  {
  }

  lemma StepMovesOwnRow(parent: string, s: Stores, p: SoundHandler, o: Outcome, now: Time)
    requires NamesUnique(s.devices) && RowOf(p) <= NamedRows(s.devices)
    ensures var x := p.Advance(parent, s, o, now); RowStep(p, s.devices, x.1, x.0.devices)
  {
    match p
    case Hb(b) =>
      BeatKeepsRows(parent, s, b, o, now);
      SameRows(s.devices, StepBeat(parent, s, b, o, now).0.devices);
    case Reg(r) =>
      if r.pc == Insert {
        InsertMovesRow(s, r, o, now);
      } else if r.pc == UndoDevice {
        UndoMovesRow(s, r, o);
      } else {
        OtherStepsKeepRows(parent, s, r, o, now);
      }
  }

  lemma RowsByGo(w: World, h: nat, p': SoundHandler, s': Stores)
    requires RowsOwned(w) && h in w.handlers
    requires RowStep(w.handlers[h], w.s.devices, p', s'.devices)
    ensures RowsOwned(World(s', w.handlers[h := p']))
  {
    assert RowHoldings(w)[h] == RowOf(w.handlers[h]);
    PartitionKept(RowHoldings(w), NamedRows(w.s.devices), h, RowOf(p'), NamedRows(s'.devices));
    assert RowHoldings(World(s', w.handlers[h := p'])) == RowHoldings(w)[h := RowOf(p')];
  }

  lemma RowsByArrival(w: World, h: nat, p': SoundHandler)
    requires RowsOwned(w) && h !in w.handlers && RowOf(p') == {}
    ensures RowsOwned(w.(handlers := w.handlers[h := p']))
  {
    PartitionKept(RowHoldings(w), NamedRows(w.s.devices), h, {}, NamedRows(w.s.devices));
    assert RowHoldings(w.(handlers := w.handlers[h := p'])) == RowHoldings(w)[h := {}];
  }

  lemma RowsByNext(parent: string, w: World, e: Event)
    requires RowsOwned(w)
    ensures RowsOwned(Next(parent, w, e))
  {
    match e
    case Go(h, o, now) =>
      if h in w.handlers {
        var x := w.handlers[h].Advance(parent, w.s, o, now);
        assert RowHoldings(w)[h] == RowOf(w.handlers[h]);
        StepMovesOwnRow(parent, w.s, w.handlers[h], o, now);
        RowsByGo(w, h, x.1, x.0);
      }
    case Arrive(h, req) =>
      if h !in w.handlers {
        RowsByArrival(w, h, Reg(Enroll(req)));
      }
    case Report(h, beat) =>
      if h !in w.handlers {
        RowsByArrival(w, h, Hb(StartBeat(beat)));
      }
    case _ =>
      SameRows(w.s.devices, Next(parent, w, e).s.devices);
  }

  /**
   * Every device row belongs to exactly one registration, under the subdomain
   * it was given, and no two rows share a subdomain, in every interleaving
   * with any calls failing.
   */
  lemma {:induction false} RowsAreConserved(parent: string, es: seq<Event>)
    ensures RowsOwned(Run(parent, Init(), es))
  {
    if es != [] {
      RowsAreConserved(parent, es[..|es| - 1]);
      RowsByNext(parent, Run(parent, Init(), es[..|es| - 1]), es[|es| - 1]);
    }
  }

  // ---------- a failed registration cleans up ----------

  predicate RollbackPc(pc: RegPc) {
    pc in {UndoDevice, UndoA, UndoAAAA}
  }

  /**
   * The event does not spoil registration h: no rollback delete is refused,
   * and no record or row is created behind an error.
   */
  predicate CleanFor(w: World, h: nat, e: Event) {
    e.Go? && e.h == h && h in w.handlers && w.handlers[h].Reg? ==> CleanStep(w.s, w.handlers[h].r, e.o)
  }

  predicate CleanStep(s: Stores, r: Registration, o: Outcome) {
    && (RollbackPc(r.pc) ==> o != Refused)
    && (r.pc in {CreateA, CreateAAAA} ==> o != Lost)
    && (r.pc == Insert && o == Lost ==> r.req.deviceId in s.devices || SubdomainTaken(s.devices, r.sub))
  }

  predicate CleanAt(parent: string, es: seq<Event>, h: nat, i: nat)
    requires i < |es|
  {
    CleanFor(Run(parent, Init(), es[..i]), h, es[i])
  }

  ghost predicate CleanRun(parent: string, h: nat, es: seq<Event>) {
    forall i :: 0 <= i < |es| ==> CleanAt(parent, es, h, i)
  }

  lemma CleanAtPrefix(parent: string, es: seq<Event>, h: nat, i: nat, k: nat)
    requires i < k <= |es|
    ensures CleanAt(parent, es[..k], h, i) == CleanAt(parent, es, h, i)
  {
    assert es[..k][..i] == es[..i];
  }

  lemma CleanPrefix(parent: string, h: nat, es: seq<Event>)
    requires es != [] && CleanRun(parent, h, es)
    ensures CleanRun(parent, h, es[..|es| - 1])
    ensures CleanFor(Run(parent, Init(), es[..|es| - 1]), h, es[|es| - 1])
  {
    var k := |es| - 1;
    forall i | 0 <= i < k
      ensures CleanAt(parent, es[..k], h, i)
    {
      CleanAtPrefix(parent, es, h, i, k);
      assert CleanAt(parent, es, h, i);
    }
    assert CleanAt(parent, es, h, k);
  }

  /** No debt so far: nothing leaked, and past the undo points nothing is left. */
  predicate NoResidue(r: Registration) {
    && r.leaked == {}
    && (r.row ==> r.pc in {Sign, SaveA, SaveAAAA, UndoDevice} || r.Created())
    && (r.pc == Answered && r.code != 201 ==> r.Owned() == {} && !r.row)
  }

  lemma NoResidueStep(parent: string, s: Stores, r: Registration, o: Outcome, now: Time)
    requires Coherent(r) && NoResidue(r) && r.Owned() <= s.zone.records.Keys
    requires CleanStep(s, r, o)
    ensures NoResidue(StepRegistration(parent, s, r, o, now).1)
  {
    assert r.a.Some? ==> r.a.value in r.Owned();
    assert r.aaaa.Some? ==> r.aaaa.value in r.Owned();
  }

  ghost predicate NoDebt(w: World, h: nat) {
    h in w.handlers && w.handlers[h].Reg? ==> NoResidue(w.handlers[h].r)
  }

  lemma NoDebtByNext(parent: string, w: World, e: Event, h: nat)
    requires NoDebt(w, h) && Conserved(w) && CleanFor(w, h, e)
    ensures NoDebt(Next(parent, w, e), h)
  {
    if e.Go? && e.h == h && h in w.handlers && w.handlers[h].Reg? {
      assert Holdings(w)[h] == w.handlers[h].r.Owned();
      NoResidueStep(parent, w.s, w.handlers[h].r, e.o, e.now);
    } else if e.Arrive? && e.h == h && h !in w.handlers {
      assert NoResidue(Enroll(e.req));
    }
  }

  lemma {:induction false} NoResidueInv(parent: string, es: seq<Event>, h: nat)
    requires CleanRun(parent, h, es)
    ensures NoDebt(Run(parent, Init(), es), h)
  {
    if es != [] {
      var k := |es| - 1;
      CleanPrefix(parent, h, es);
      NoResidueInv(parent, es[..k], h);
      RecordsAreConserved(parent, es[..k]);
      NoDebtByNext(parent, Run(parent, Init(), es[..k]), es[k], h);
    }
  }

  /** Something the rollback did not or will not take back. */
  predicate Indebted(r: Registration) {
    r.leaked != {} || (r.row && r.pc in {UndoA, UndoAAAA, Answered} && r.code != 201)
  }

  lemma SpoiledStep(parent: string, s: Stores, r: Registration, o: Outcome, now: Time)
    requires Coherent(r) && !CleanStep(s, r, o)
    ensures Indebted(StepRegistration(parent, s, r, o, now).1)
  {
    var r' := StepRegistration(parent, s, r, o, now).1;
    if r.pc == CreateA || r.pc == CreateAAAA {
      assert s.zone.next in r'.leaked;
    } else if r.pc == UndoA {
      assert r.a.value in r'.leaked;
    } else if r.pc == UndoAAAA {
      assert r.aaaa.value in r'.leaked;
    }
  }

  lemma DebtStays(parent: string, s: Stores, r: Registration, o: Outcome, now: Time)
    requires Coherent(r) && Indebted(r)
    ensures Indebted(StepRegistration(parent, s, r, o, now).1)
  {
    var r' := StepRegistration(parent, s, r, o, now).1;
    assert r.pc in {UndoA, UndoAAAA, Answered};
    assert r.leaked <= r'.leaked;
  }

  ghost predicate InDebt(w: World, h: nat) {
    h in w.handlers && w.handlers[h].Reg? && Indebted(w.handlers[h].r)
  }

  lemma InDebtByNext(parent: string, w: World, e: Event, h: nat)
    requires InDebt(w, h) || !CleanFor(w, h, e)
    ensures InDebt(Next(parent, w, e), h)
  {
    if e.Go? && e.h == h {
      assert w.handlers[h].Sound();
      if InDebt(w, h) {
        DebtStays(parent, w.s, w.handlers[h].r, e.o, e.now);
      } else {
        SpoiledStep(parent, w.s, w.handlers[h].r, e.o, e.now);
      }
    }
  }

  lemma InDebtAtEnd(parent: string, es: seq<Event>, h: nat)
    requires es != []
    requires var w := Run(parent, Init(), es[..|es| - 1]); InDebt(w, h) || !CleanFor(w, h, es[|es| - 1])
    ensures InDebt(Run(parent, Init(), es), h)
  {
    InDebtByNext(parent, Run(parent, Init(), es[..|es| - 1]), es[|es| - 1], h);
  }

  lemma {:induction false} SpoiledForGood(parent: string, es: seq<Event>, h: nat, i: nat)
    requires i < |es| && !CleanAt(parent, es, h, i)
    ensures InDebt(Run(parent, Init(), es), h)
  {
    var k := |es| - 1;
    if i < k {
      CleanAtPrefix(parent, es, h, i, k);
      SpoiledForGood(parent, es[..k], h, i);
    }
    InDebtAtEnd(parent, es, h);
  }

  /** Registration h has been answered, and not with 201. */
  predicate FailedFor(w: World, h: nat) {
    h in w.handlers && w.handlers[h].Reg? && w.handlers[h].r.pc == Answered && w.handlers[h].r.code != 201
  }

  /**
   * A registration answered with anything but 201 leaves no Cloudflare record
   * and no device row if and only if none of its rollback deletes was refused
   * and none of its creations took effect behind an error. Then every record
   * and row there is another request's.
   */
  lemma {:induction false} FailedRegistrationLeavesNothing(parent: string, es: seq<Event>, h: nat)
    requires FailedFor(Run(parent, Init(), es), h)
    ensures var w := Run(parent, Init(), es);
            CleanRun(parent, h, es) <==> w.handlers[h].Owned() == {} && RowOf(w.handlers[h]) == {}
    ensures var w := Run(parent, Init(), es);
            CleanRun(parent, h, es) ==>
              && Partition(Holdings(w) - {h}, w.s.zone.records.Keys)
              && Partition(RowHoldings(w) - {h}, NamedRows(w.s.devices))
  {
    var w := Run(parent, Init(), es);
    if CleanRun(parent, h, es) {
      NoResidueInv(parent, es, h);
      RecordsAreConserved(parent, es);
      RowsAreConserved(parent, es);
      DropEmpty(Holdings(w), w.s.zone.records.Keys, h);
      DropEmpty(RowHoldings(w), NamedRows(w.s.devices), h);
    } else {
      var i :| 0 <= i < |es| && !CleanAt(parent, es, h, i);
      SpoiledForGood(parent, es, h, i);
      DebtShows(w.handlers[h].r);
    }
  }

  lemma DebtShows(r: Registration)
    requires Indebted(r) && r.pc == Answered
    ensures r.Owned() != {} || r.row
  {
    if x :| x in r.leaked {
      assert x in r.Owned();
    }
  }

  // ---------- enrollment tokens ----------

  predicate PastConsume(p: Handler) {
    p.Reg? && p.r.consumed
  }

  ghost predicate TokensBound(w: World) {
    && (forall h :: h in w.handlers && PastConsume(w.handlers[h]) ==>
          && w.handlers[h].r.req.hash in w.s.tokens
          && w.s.tokens[w.handlers[h].r.req.hash].consumedAt.Some?
          && w.s.tokens[w.handlers[h].r.req.hash].consumedBy == Some(w.handlers[h].r.req.deviceId))
    && (forall g, h ::
         (g in w.handlers && h in w.handlers && PastConsume(w.handlers[g]) && PastConsume(w.handlers[h])
          && w.handlers[g].r.req.hash == w.handlers[h].r.req.hash) ==> g == h)
  }

  /** Tokens are never removed and a consumption is never undone or rewritten. */
  ghost predicate ConsumptionKept(t: TokenTable, t': TokenTable) {
    forall x :: x in t ==> x in t' && (t[x].consumedAt.Some? ==> t'[x] == t[x])
  }

  /** Only Consume touches tokens; getting past it takes an open token and puts the device's name on it. */
  ghost predicate TokenStep(t: TokenTable, t': TokenTable, p: Handler, p': Handler) {
    && ConsumptionKept(t, t')
    && (p.Hb? <==> p'.Hb?)
    && (p.Reg? ==> p'.r.req == p.r.req && (p.r.consumed ==> p'.r.consumed))
    && (PastConsume(p') && !PastConsume(p) ==>
          && p.r.req.hash in t && t[p.r.req.hash].consumedAt.None?
          && p.r.req.hash in t' && t'[p.r.req.hash].consumedAt.Some?
          && t'[p.r.req.hash].consumedBy == Some(p.r.req.deviceId))
  }

  lemma ConsumeMarksToken(s: Stores, r: Registration, o: Outcome, now: Time)
    requires Coherent(r) && r.pc == Consume
    ensures var x := StepConsume(s, r, o, now); TokenStep(s.tokens, x.0.tokens, Reg(r), Reg(x.1))
  {
  }

  lemma OtherStepsKeepTokens(parent: string, s: Stores, r: Registration, o: Outcome, now: Time)
    requires Coherent(r) && r.pc != Consume
    ensures var x := StepRegistration(parent, s, r, o, now);
            x.0.tokens == s.tokens && x.1.req == r.req && x.1.consumed == r.consumed
  {
  }

  lemma BeatKeepsTokens(parent: string, s: Stores, b: Beat, o: Outcome, now: Time)
    requires CoherentBeat(b)
    ensures StepBeat(parent, s, b, o, now).0.tokens == s.tokens
  {
  }

  lemma StepKeepsTokens(parent: string, s: Stores, p: SoundHandler, o: Outcome, now: Time)
    ensures var x := p.Advance(parent, s, o, now); TokenStep(s.tokens, x.0.tokens, p, x.1)
  {
    match p
    case Hb(b) => BeatKeepsTokens(parent, s, b, o, now);
    case Reg(r) =>
      if r.pc == Consume {
        ConsumeMarksToken(s, r, o, now);
      } else {
        OtherStepsKeepTokens(parent, s, r, o, now);
      }
  }

  lemma TokensByStep(w: World, h: nat, p': SoundHandler, s': Stores)
    requires TokensBound(w) && h in w.handlers
    requires TokenStep(w.s.tokens, s'.tokens, w.handlers[h], p')
    ensures TokensBound(World(s', w.handlers[h := p']))
  {
  }

  lemma TokensByNext(parent: string, w: World, e: Event)
    requires TokensBound(w)
    ensures TokensBound(Next(parent, w, e)) && ConsumptionKept(w.s.tokens, Next(parent, w, e).s.tokens)
  {
    if e.Go? {
      if e.h in w.handlers {
        var x := w.handlers[e.h].Advance(parent, w.s, e.o, e.now);
        StepKeepsTokens(parent, w.s, w.handlers[e.h], e.o, e.now);
        TokensByStep(w, e.h, x.1, x.0);
      }
    }
  }

  lemma {:induction false} TokensInv(parent: string, es: seq<Event>)
    ensures TokensBound(Run(parent, Init(), es))
  {
    if es != [] {
      TokensInv(parent, es[..|es| - 1]);
      TokensByNext(parent, Run(parent, Init(), es[..|es| - 1]), es[|es| - 1]);
    }
  }

  /**
   * Single use: two registrations that got past Consume used different
   * tokens, each token names its device for good, and every device row stems
   * from a registration whose own token bears that device's id.
   */
  lemma {:induction false} TokensAreSingleUse(parent: string, es: seq<Event>)
    ensures var w := Run(parent, Init(), es);
            && TokensBound(w)
            && (forall d :: d in w.s.devices ==>
                  exists h :: h in w.handlers && PastConsume(w.handlers[h]) && w.handlers[h].r.req.deviceId == d
                              && w.s.tokens[w.handlers[h].r.req.hash].consumedBy == Some(d))
  {
    var w := Run(parent, Init(), es);
    TokensInv(parent, es);
    RowsAreConserved(parent, es);
    forall d | d in w.s.devices
      ensures exists h :: h in w.handlers && PastConsume(w.handlers[h]) && w.handlers[h].r.req.deviceId == d
                          && w.s.tokens[w.handlers[h].r.req.hash].consumedBy == Some(d)
    {
      var x := (d, w.s.devices[d].subdomain);
      assert x in NamedRows(w.s.devices);
      var h :| h in RowHoldings(w) && x in RowHoldings(w)[h];
      assert PastConsume(w.handlers[h]);
    }
  }

  /** Once consumed or revoked, a token stays exactly as it is for the rest of any run. */
  lemma {:induction false} ConsumptionIsFinal(parent: string, es: seq<Event>, more: seq<Event>)
    ensures ConsumptionKept(Run(parent, Init(), es).s.tokens, Run(parent, Init(), es + more).s.tokens)
  {
    if more == [] {
      assert es + more == es;
    } else {
      var k := |more| - 1;
      ConsumptionIsFinal(parent, es, more[..k]);
      TokensInv(parent, es + more[..k]);
      assert (es + more)[..|es + more| - 1] == es + more[..k];
      TokensByNext(parent, Run(parent, Init(), es + more[..k]), more[k]);
    }
  }
}
