/**
 * Which addresses a devices row carries: an IPv4 address always, and an IPv6
 * address exactly when one was registered or reported by an accepted beat.
 */
module Addresses {
  import opened Common
  import opened Tables
  import opened Requests
  import opened Conservation
  import opened Integrity
  import opened Effects

  predicate HasAddress(s: Stores, d: string, t: RecordType) {
    d in s.devices && Stored(s.devices[d], t).Some?
  }

  lemma AddressStaysByStep(s: Stores, s': Stores, p: SoundHandler, d: string, t: RecordType)
    requires RowEffect(s, s', p) && HasAddress(s, d, t) && d in s'.devices
    ensures HasAddress(s', d, t)
  {
    assert AddressEffect(s, s', p, d, t);
  }

  lemma AddressStaysBySweep(d: Device, now: Time, t: RecordType)
    ensures Stored(Swept(d, now), t) == Stored(d, t)
  {
  }

  lemma AddressStaysByNext(parent: string, w: World, e: Event, d: string, t: RecordType)
    requires Conserved(w) && HasAddress(w.s, d, t) && d in Next(parent, w, e).s.devices
    ensures HasAddress(Next(parent, w, e).s, d, t)
  {
    if e.Go? && e.h in w.handlers {
      EveryStepEffects(parent, w.s, w.handlers[e.h], e.o, e.now);
      AddressStaysByStep(w.s, w.handlers[e.h].Advance(parent, w.s, e.o, e.now).0, w.handlers[e.h], d, t);
    } else if e.Sweep? {
      AddressStaysBySweep(w.s.devices[d], e.now, t);
    }
  }

  // ---------- IPv4 ----------

  predicate RowsHaveIpv4(devices: DeviceTable) {
    forall d :: d in devices ==> Stored(devices[d], A).Some?
  }

  /** A step that puts a new row there registers it with the request's addresses. */
  lemma NewRows(parent: string, s: Stores, p: SoundHandler, o: Outcome, now: Time, d: string)
    requires d !in s.devices && d in p.Advance(parent, s, o, now).0.devices
    ensures p.Reg? && p.r.pc == Insert && p.r.req.deviceId == d && p.Advance(parent, s, o, now).1.r.row
    ensures var row := p.Advance(parent, s, o, now).0.devices[d];
            Stored(row, A) == Some(p.r.req.v4) && Stored(row, AAAA) == p.r.req.v6
  {
  }

  lemma Ipv4ByNext(parent: string, w: World, e: Event)
    requires RowsHaveIpv4(w.s.devices) && Conserved(w)
    ensures RowsHaveIpv4(Next(parent, w, e).s.devices)
  {
    var s' := Next(parent, w, e).s;
    forall d | d in s'.devices
      ensures Stored(s'.devices[d], A).Some?
    {
      if d in w.s.devices {
        AddressStaysByNext(parent, w, e, d, A);
      } else if e.Go? {
        NewRows(parent, w.s, w.handlers[e.h], e.o, e.now, d);
      }
    }
  }

  /** In every run, whatever fails, every devices row carries an IPv4 address. */
  lemma {:induction false} RowsAlwaysHaveIpv4(parent: string, es: seq<Event>)
    ensures RowsHaveIpv4(Run(parent, Init(), es).s.devices)
  {
    if es != [] {
      RowsAlwaysHaveIpv4(parent, es[..|es| - 1]);
      RecordsAreConserved(parent, es[..|es| - 1]);
      Ipv4ByNext(parent, Run(parent, Init(), es[..|es| - 1]), es[|es| - 1]);
    }
  }

  // ---------- beats come after registrations ----------

  predicate CreatedOn(p: Handler, d: string) {
    p.Reg? && p.r.Created() && p.r.req.deviceId == d
  }

  /** Some registration of the device was answered 201. */
  ghost predicate Registered(w: World, d: string) {
    exists h :: h in w.handlers && CreatedOn(w.handlers[h], d)
  }

  ghost predicate BeatsHaveOwners(w: World) {
    forall g :: g in w.handlers && w.handlers[g].Hb? ==> Registered(w, w.handlers[g].b.req.deviceId)
  }

  lemma StepKeepsRequest(parent: string, s: Stores, p: SoundHandler, o: Outcome, now: Time)
    ensures var p' := p.Advance(parent, s, o, now).1;
            (p.Hb? ==> p'.Hb? && p'.b.req == p.b.req) && (p.Reg? ==> p'.Reg? && p'.r.req == p.r.req)
  {
  }

  lemma RegisteredStays(parent: string, w: World, e: Event, d: string)
    requires Registered(w, d)
    ensures Registered(Next(parent, w, e), d)
  {
    var h :| h in w.handlers && CreatedOn(w.handlers[h], d);
    FinishedByNext(parent, w, e, h);
    assert CreatedOn(Next(parent, w, e).handlers[h], d);
  }

  lemma OwnersByNext(parent: string, w: World, e: Event)
    requires BeatsHaveOwners(w) && Honest(w, e)
    ensures BeatsHaveOwners(Next(parent, w, e))
  {
    var w' := Next(parent, w, e);
    forall g | g in w'.handlers && w'.handlers[g].Hb?
      ensures Registered(w', w'.handlers[g].b.req.deviceId)
    {
      var d := w'.handlers[g].b.req.deviceId;
      if g in w.handlers {
        if e.Go? && e.h == g {
          StepKeepsRequest(parent, w.s, w.handlers[g], e.o, e.now);
        }
        assert w.handlers[g].Hb? && w.handlers[g].b.req.deviceId == d;
      } else {
        var h :| h in w.handlers && IssuedTo(w.handlers[h], e.beat.deviceId, e.beat.subdomain);
        assert CreatedOn(w.handlers[h], d);
      }
      RegisteredStays(parent, w, e, d);
    }
  }

  lemma {:induction false} HonestBeatsHaveOwners(parent: string, es: seq<Event>)
    requires HonestRun(parent, es)
    ensures BeatsHaveOwners(Run(parent, Init(), es))
  {
    if es != [] {
      HonestPrefix(parent, es);
      HonestBeatsHaveOwners(parent, es[..|es| - 1]);
      OwnersByNext(parent, Run(parent, Init(), es[..|es| - 1]), es[|es| - 1]);
    }
  }

  /** The row of a registered device is there. */
  lemma RegisteredHasRow(w: World, d: string)
    requires Conserved(w) && RowsOwned(w) && Registered(w, d)
    ensures d in w.s.devices
    ensures forall g :: g in w.handlers && Tentative(w.handlers[g]) ==> w.handlers[g].r.req.deviceId != d
  {
    var h :| h in w.handlers && CreatedOn(w.handlers[h], d);
    CreatedRowIsSafe(w, h);
  }

  // ---------- IPv6 ----------

  /** An event that updates d's row with a beat reporting an IPv6 address. */
  predicate BringsIpv6(w: World, e: Event, d: string) {
    && e.Go? && e.h in w.handlers && Touching(w.handlers[e.h], d)
    && w.handlers[e.h].b.req.v6.Some? && TakesEffect(e.o)
  }

  predicate BringsIpv6At(parent: string, es: seq<Event>, d: string, i: nat)
    requires i < |es|
  {
    BringsIpv6(Run(parent, Init(), es[..i]), es[i], d)
  }

  /** Some accepted beat of d reported an IPv6 address. */
  ghost predicate BeatReportedIpv6(parent: string, es: seq<Event>, d: string) {
    exists i :: 0 <= i < |es| && BringsIpv6At(parent, es, d, i)
  }

  lemma ReportedInPrefix(parent: string, es: seq<Event>, d: string)
    requires es != [] && BeatReportedIpv6(parent, es[..|es| - 1], d)
    ensures BeatReportedIpv6(parent, es, d)
  {
    var k := |es| - 1;
    var i :| 0 <= i < k && BringsIpv6At(parent, es[..k], d, i);
    assert es[..k][..i] == es[..i];
    assert BringsIpv6At(parent, es, d, i);
  }

  /** An address on a registered device's row is never lost again, only replaced. */
  lemma {:induction false} AddressStays(parent: string, es: seq<Event>, more: seq<Event>, d: string, t: RecordType)
    requires Registered(Run(parent, Init(), es), d) && HasAddress(Run(parent, Init(), es).s, d, t)
    ensures Registered(Run(parent, Init(), es + more), d) && HasAddress(Run(parent, Init(), es + more).s, d, t)
  {
    if more == [] {
      assert es + more == es;
    } else {
      var k := |more| - 1;
      var w := Run(parent, Init(), es + more[..k]);
      AddressStays(parent, es, more[..k], d, t);
      assert (es + more)[..|es + more| - 1] == es + more[..k];
      RegisteredStays(parent, w, more[k], d);
      RecordsAreConserved(parent, es + more[..k]);
      RecordsAreConserved(parent, es + more);
      RowsAreConserved(parent, es + more);
      RegisteredHasRow(Run(parent, Init(), es + more), d);
      AddressStaysByNext(parent, w, more[k], d, t);
    }
  }

  lemma RunTake(parent: string, es: seq<Event>, i: nat)
    requires i < |es|
    ensures Run(parent, Init(), es[..i + 1]) == Next(parent, Run(parent, Init(), es[..i]), es[i])
  {
    var es1 := es[..i + 1];
    assert es1[..|es1| - 1] == es[..i] && es1[|es1| - 1] == es[i];
  }

  lemma BroughtByNext(parent: string, w: World, e: Event, d: string)
    requires BringsIpv6(w, e, d) && Conserved(w) && RowsOwned(w) && BeatsHaveOwners(w)
    ensures Registered(Next(parent, w, e), d) && HasAddress(Next(parent, w, e).s, d, AAAA)
  {
    assert w.handlers[e.h].Hb?;
    RegisteredHasRow(w, d);
    TouchBrings(parent, w.s, w.handlers[e.h], e.o, e.now, d);
    RegisteredStays(parent, w, e, d);
  }

  lemma BroughtAt(parent: string, es: seq<Event>, d: string, i: nat)
    requires HonestRun(parent, es) && i < |es| && BringsIpv6At(parent, es, d, i)
    ensures Registered(Run(parent, Init(), es[..i + 1]), d) && HasAddress(Run(parent, Init(), es[..i + 1]).s, d, AAAA)
  {
    HonestTake(parent, es, i);
    HonestBeatsHaveOwners(parent, es[..i]);
    RecordsAreConserved(parent, es[..i]);
    RowsAreConserved(parent, es[..i]);
    BroughtByNext(parent, Run(parent, Init(), es[..i]), es[i], d);
    RunTake(parent, es, i);
  }

  /** A beat that brings an IPv6 address leaves it on the row, now and for good. */
  lemma BroughtIpv6Stays(parent: string, es: seq<Event>, d: string)
    requires HonestRun(parent, es) && BeatReportedIpv6(parent, es, d)
    ensures HasAddress(Run(parent, Init(), es).s, d, AAAA)
  {
    var i :| 0 <= i < |es| && BringsIpv6At(parent, es, d, i);
    BroughtAt(parent, es, d, i);
    AddressStaysFrom(parent, es, i + 1, d, AAAA);
  }

  lemma AddressStaysFrom(parent: string, es: seq<Event>, n: nat, d: string, t: RecordType)
    requires n <= |es|
    requires Registered(Run(parent, Init(), es[..n]), d) && HasAddress(Run(parent, Init(), es[..n]).s, d, t)
    ensures HasAddress(Run(parent, Init(), es).s, d, t)
  {
    var a, b := es[..n], es[n..];
    assert es == a + b;
    AddressStays(parent, a, b, d, t);
  }

  lemma TouchBrings(parent: string, s: Stores, p: SoundHandler, o: Outcome, now: Time, d: string)
    requires Touching(p, d) && p.b.req.v6.Some? && TakesEffect(o) && d in s.devices
    ensures HasAddress(p.Advance(parent, s, o, now).0, d, AAAA)
  {
  }

  lemma {:induction false} HonestTake(parent: string, es: seq<Event>, n: nat)
    requires HonestRun(parent, es) && n <= |es|
    ensures HonestRun(parent, es[..n])
    decreases |es|
  {
    if n < |es| {
      HonestPrefix(parent, es);
      HonestTake(parent, es[..|es| - 1], n);
      assert es[..|es| - 1][..n] == es[..n];
    } else {
      assert es[..n] == es;
    }
  }

  /** A registration that put a row with an IPv6 address there finds one on it as long as the row is its own. */
  ghost predicate OwnersKeepIpv6(w: World) {
    forall g :: g in w.handlers && w.handlers[g].Reg? && w.handlers[g].r.row && w.handlers[g].r.req.v6.Some? ==>
      HasAddress(w.s, w.handlers[g].r.req.deviceId, AAAA)
  }

  /** An IPv6 address on a row came from the row's registration or from a beat. */
  ghost predicate Ipv6Explained(w: World, d: string, reported: bool) {
    HasAddress(w.s, d, AAAA) ==>
      reported || exists g :: g in w.handlers && GaveIpv6(w.handlers[g], d)
  }

  predicate GaveIpv6(p: Handler, d: string) {
    p.Reg? && p.r.row && p.r.req.deviceId == d && p.r.req.v6.Some?
  }

  /** A row goes only by its own registration's undo, which then no longer owns it. */
  lemma RowGoes(parent: string, s: Stores, p: SoundHandler, o: Outcome, now: Time, d: string)
    requires d in s.devices && d !in p.Advance(parent, s, o, now).0.devices
    ensures p.Reg? && p.r.row && p.r.req.deviceId == d && !p.Advance(parent, s, o, now).1.r.row
  {
  }

  /** A registration comes to own a row only by inserting it. */
  lemma RowComes(parent: string, s: Stores, p: SoundHandler, o: Outcome, now: Time)
    requires p.Reg? && p.Advance(parent, s, o, now).1.r.row && !p.r.row
    ensures p.r.req.deviceId !in s.devices && p.r.req.deviceId in p.Advance(parent, s, o, now).0.devices
  {
  }

  lemma OwnersKeepByGo(parent: string, w: World, h: nat, o: Outcome, now: Time)
    requires OwnersKeepIpv6(w) && Conserved(w) && RowsOwned(w) && h in w.handlers
    ensures OwnersKeepIpv6(Next(parent, w, Go(h, o, now)))
  {
    var w' := Next(parent, w, Go(h, o, now));
    var p := w.handlers[h];
    StepKeepsRequest(parent, w.s, p, o, now);
    forall g | g in w'.handlers && w'.handlers[g].Reg? && w'.handlers[g].r.row && w'.handlers[g].r.req.v6.Some?
      ensures HasAddress(w'.s, w'.handlers[g].r.req.deviceId, AAAA)
    {
      var d := w'.handlers[g].r.req.deviceId;
      if g == h && !p.r.row {
        RowComes(parent, w.s, p, o, now);
        NewRows(parent, w.s, p, o, now, d);
      } else {
        assert HasAddress(w.s, d, AAAA);
        if d !in w'.s.devices {
          RowGoes(parent, w.s, p, o, now, d);
          RowsDisjoint(w, g, h);
        }
        AddressStaysByNext(parent, w, Go(h, o, now), d, AAAA);
      }
    }
  }

  lemma OwnersKeepByOther(parent: string, w: World, e: Event)
    requires OwnersKeepIpv6(w) && Conserved(w) && (e.Go? ==> e.h !in w.handlers)
    ensures OwnersKeepIpv6(Next(parent, w, e))
  {
    var w' := Next(parent, w, e);
    forall g | g in w'.handlers && w'.handlers[g].Reg? && w'.handlers[g].r.row && w'.handlers[g].r.req.v6.Some?
      ensures HasAddress(w'.s, w'.handlers[g].r.req.deviceId, AAAA)
    {
      assert g in w.handlers && w'.handlers[g] == w.handlers[g];
      AddressStaysByNext(parent, w, e, w.handlers[g].r.req.deviceId, AAAA);
    }
  }

  lemma {:induction false} OwnersAlwaysKeepIpv6(parent: string, es: seq<Event>)
    ensures OwnersKeepIpv6(Run(parent, Init(), es))
  {
    if es != [] {
      var k := |es| - 1;
      var w := Run(parent, Init(), es[..k]);
      OwnersAlwaysKeepIpv6(parent, es[..k]);
      RecordsAreConserved(parent, es[..k]);
      RowsAreConserved(parent, es[..k]);
      if es[k].Go? && es[k].h in w.handlers {
        OwnersKeepByGo(parent, w, es[k].h, es[k].o, es[k].now);
      } else {
        OwnersKeepByOther(parent, w, es[k]);
      }
    }
  }

  lemma ExplainedByGo(parent: string, w: World, h: nat, o: Outcome, now: Time, d: string, reported: bool)
    requires Ipv6Explained(w, d, reported) && Conserved(w) && h in w.handlers
    ensures Ipv6Explained(Next(parent, w, Go(h, o, now)), d, reported || BringsIpv6(w, Go(h, o, now), d))
  {
    var p := w.handlers[h];
    var w' := Next(parent, w, Go(h, o, now));
    StepKeepsRequest(parent, w.s, p, o, now);
    EveryStepEffects(parent, w.s, p, o, now);
    if HasAddress(w'.s, d, AAAA) && !reported && !BringsIpv6(w, Go(h, o, now), d) {
      if d !in w.s.devices {
        NewRows(parent, w.s, p, o, now, d);
        assert GaveIpv6(w'.handlers[h], d);
      } else {
        NothingBrought(parent, w.s, p, o, now, d);
        var g :| g in w.handlers && GaveIpv6(w.handlers[g], d);
        if g == h {
          RowLeft(parent, w.s, p, o, now, d);
        }
        assert GaveIpv6(w'.handlers[g], d);
      }
    }
  }

  lemma NothingBrought(parent: string, s: Stores, p: SoundHandler, o: Outcome, now: Time, d: string)
    requires RowEffect(s, p.Advance(parent, s, o, now).0, p) && d in s.devices
    requires Touching(p, d) && p.b.req.v6.Some? ==> !TakesEffect(o)
    requires HasAddress(p.Advance(parent, s, o, now).0, d, AAAA)
    ensures HasAddress(s, d, AAAA)
  {
    assert AddressEffect(s, p.Advance(parent, s, o, now).0, p, d, AAAA);
  }

  /** A registration that loses hold of its row has taken the row away. */
  lemma RowLeft(parent: string, s: Stores, p: SoundHandler, o: Outcome, now: Time, d: string)
    requires GaveIpv6(p, d) && d in p.Advance(parent, s, o, now).0.devices
    ensures p.Advance(parent, s, o, now).1.r.row
  {
  }

  lemma ExplainedByOther(parent: string, w: World, e: Event, d: string, reported: bool)
    requires Ipv6Explained(w, d, reported) && (e.Go? ==> e.h !in w.handlers)
    ensures Ipv6Explained(Next(parent, w, e), d, reported)
  {
    var w' := Next(parent, w, e);
    if HasAddress(w'.s, d, AAAA) && !reported {
      assert HasAddress(w.s, d, AAAA);
      var g :| g in w.handlers && GaveIpv6(w.handlers[g], d);
      assert GaveIpv6(w'.handlers[g], d);
    }
  }

  lemma {:induction false} Ipv6IsExplained(parent: string, es: seq<Event>, d: string)
    ensures Ipv6Explained(Run(parent, Init(), es), d, BeatReportedIpv6(parent, es, d))
  {
    if es != [] {
      var k := |es| - 1;
      var w := Run(parent, Init(), es[..k]);
      Ipv6IsExplained(parent, es[..k], d);
      RecordsAreConserved(parent, es[..k]);
      var before := BeatReportedIpv6(parent, es[..k], d);
      if before {
        ReportedInPrefix(parent, es, d);
      }
      if es[k].Go? && es[k].h in w.handlers {
        ExplainedByGo(parent, w, es[k].h, es[k].o, es[k].now, d, before);
        assert BringsIpv6(w, es[k], d) ==> BringsIpv6At(parent, es, d, k);
      } else {
        ExplainedByOther(parent, w, es[k], d, before);
      }
    }
  }

  /**
   * The addresses of a registered device: its row carries an IPv4 address, and
   * an IPv6 address if and only if its registration or an accepted beat
   * reported one. Beats that leave IPv6 out never take it away.
   */
  lemma {:induction false} RowAddresses(parent: string, es: seq<Event>, h: nat, d: string)
    requires HonestRun(parent, es)
    requires var w := Run(parent, Init(), es); h in w.handlers && CreatedOn(w.handlers[h], d)
    ensures var w := Run(parent, Init(), es);
            && HasAddress(w.s, d, A)
            && (HasAddress(w.s, d, AAAA) <==> w.handlers[h].r.req.v6.Some? || BeatReportedIpv6(parent, es, d))
  {
    var w := Run(parent, Init(), es);
    RecordsAreConserved(parent, es);
    RowsAreConserved(parent, es);
    CreatedRowIsSafe(w, h);
    RowsAlwaysHaveIpv4(parent, es);
    OwnersAlwaysKeepIpv6(parent, es);
    Ipv6IsExplained(parent, es, d);
    assert w.handlers[h].Sound();
    if BeatReportedIpv6(parent, es, d) {
      BroughtIpv6Stays(parent, es, d);
    } else if g :| g in w.handlers && GaveIpv6(w.handlers[g], d) {
      if g != h {
        RowsDisjoint(w, g, h);
      }
    }
  }
}
