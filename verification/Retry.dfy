/**
 * The comments on heartbeatDevice and syncDNS promise that a failed push is
 * retried by the next beat. The code compares the reported address with the
 * row the failed beat has already overwritten, so it is not: these lemmas say
 * exactly when a beat pushes, whatever other requests run in between.
 */
module Retry {
  import opened Common
  import opened Tables
  import opened Requests
  import opened Conservation
  import opened Integrity
  import opened Effects
  import opened Addresses
  import opened Agreement
  import Subdomain

  // ---------- when a beat pushes ----------

  /** The device sends one beat at a time. */
  ghost predicate OneAtATime(parent: string, es: seq<Event>, d: string) {
    forall i :: 0 <= i < |es| ==> AloneAt(parent, es, d, i)
  }

  /** If event i is a beat of the device, no other is in flight. */
  ghost predicate AloneAt(parent: string, es: seq<Event>, d: string, i: nat)
    requires i < |es|
  {
    es[i].Report? && es[i].beat.deviceId == d ==> Quiet(Run(parent, Init(), es[..i]), d)
  }

  predicate InFlight(p: Handler, d: string) {
    OnDevice(p, d) && p.b.pc != Replied
  }

  predicate SeesRow(s: Stores, p: Handler, d: string, t: RecordType) {
    Touching(p, d) ==> d in s.devices && p.b.seen.Some? && Stored(p.b.seen.value, t) == Stored(s.devices[d], t)
  }

  /** At most one beat of d is in flight, and its view of the row is current. */
  ghost predicate ClearView(w: World, d: string) {
    && (forall g, h ::
          g in w.handlers && h in w.handlers && InFlight(w.handlers[g], d) && InFlight(w.handlers[h], d) ==> g == h)
    && (forall h, t :: h in w.handlers ==> SeesRow(w.s, w.handlers[h], d, t))
  }

  lemma LookupSeesRow(parent: string, s: Stores, p: SoundHandler, o: Outcome, now: Time, d: string, t: RecordType)
    requires OnDevice(p, d)
    ensures var x := p.Advance(parent, s, o, now);
            SeesRow(x.0, x.1, d, t) && (InFlight(x.1, d) ==> InFlight(p, d))
  {
  }

  lemma OtherViewStays(s: Stores, s': Stores, p: SoundHandler, q: Handler, d: string, t: RecordType)
    requires RowEffect(s, s', p) && !Touching(p, d) && SeesRow(s, q, d, t) && d in s'.devices
    ensures SeesRow(s', q, d, t)
  {
    if Touching(q, d) {
      assert AddressEffect(s, s', p, d, t);
    }
  }

  lemma ClearByGo(parent: string, w: World, h: nat, o: Outcome, now: Time, d: string)
    requires ClearView(w, d) && Conserved(w) && RowsOwned(w) && BeatsHaveOwners(w) && h in w.handlers
    ensures ClearView(Next(parent, w, Go(h, o, now)), d)
  {
    var p := w.handlers[h];
    var w' := Next(parent, w, Go(h, o, now));
    StepKeepsRequest(parent, w.s, p, o, now);
    EveryStepEffects(parent, w.s, p, o, now);
    if OnDevice(p, d) {
      LookupSeesRow(parent, w.s, p, o, now, d, A);
    }
    forall g, t | g in w'.handlers
      ensures SeesRow(w'.s, w'.handlers[g], d, t)
    {
      if Touching(w'.handlers[g], d) {
        if g == h {
          LookupSeesRow(parent, w.s, p, o, now, d, t);
        } else {
          assert w.handlers[g].Hb?;
          RegisteredStays(parent, w, Go(h, o, now), d);
          RowsByNext(parent, w, Go(h, o, now));
          ConservedByNext(parent, w, Go(h, o, now));
          RegisteredHasRow(w', d);
          OtherViewStays(w.s, w'.s, p, w.handlers[g], d, t);
        }
      }
    }
  }

  lemma ClearByOther(parent: string, w: World, e: Event, d: string)
    requires ClearView(w, d) && (e.Go? ==> e.h !in w.handlers)
    requires e.Report? && e.beat.deviceId == d ==> Quiet(w, d)
    ensures ClearView(Next(parent, w, e), d)
  {
    var w' := Next(parent, w, e);
    OtherEventsIdle(parent, w, e);
    forall g, t | g in w'.handlers
      ensures SeesRow(w'.s, w'.handlers[g], d, t)
    {
      if g in w.handlers {
        assert SeesRow(w.s, w.handlers[g], d, t);
      }
    }
  }

  lemma {:induction false} OneAtATimeSeesClearly(parent: string, es: seq<Event>, d: string)
    requires HonestRun(parent, es) && OneAtATime(parent, es, d)
    ensures ClearView(Run(parent, Init(), es), d)
  {
    if es != [] {
      var k := |es| - 1;
      var w := Run(parent, Init(), es[..k]);
      HonestPrefix(parent, es);
      OneAtATimePrefix(parent, es, d);
      OneAtATimeSeesClearly(parent, es[..k], d);
      RecordsAreConserved(parent, es[..k]);
      RowsAreConserved(parent, es[..k]);
      HonestBeatsHaveOwners(parent, es[..k]);
      if es[k].Go? && es[k].h in w.handlers {
        ClearByGo(parent, w, es[k].h, es[k].o, es[k].now, d);
      } else {
        ClearByOther(parent, w, es[k], d);
      }
    }
  }

  lemma OneAtATimePrefix(parent: string, es: seq<Event>, d: string)
    requires es != [] && OneAtATime(parent, es, d)
    ensures OneAtATime(parent, es[..|es| - 1], d)
    ensures var e := es[|es| - 1];
            e.Report? && e.beat.deviceId == d ==> Quiet(Run(parent, Init(), es[..|es| - 1]), d)
  {
    var k := |es| - 1;
    forall i | 0 <= i < k
      ensures AloneAt(parent, es[..k], d, i)
    {
      assert es[..k][..i] == es[..i] && AloneAt(parent, es, d, i);
    }
    assert AloneAt(parent, es, d, k);
  }

  /** The step that follows an acknowledged row update, decided by the row as the lookup saw it. */
  lemma TouchQueuesChanges(parent: string, s: Stores, p: SoundHandler, now: Time, d: string, t: RecordType)
    requires Touching(p, d) && d in s.devices
    ensures var x := p.Advance(parent, s, Acked, now);
            && (Pushing(x.1, d, t) <==> Changed(p.b.seen.value, p.b.req, t))
            && x.0.zone == s.zone && x.0.pointers == s.pointers
            && ((forall u :: !Pushing(x.1, d, u)) ==> x.1.Hb? && x.1.b.pc == Replied && x.1.b.code == 204)
  {
    var q := ToPush(p.b.seen.value, p.b.req);
    if q != [] {
      assert q[0] in q;
      assert Pushing(p.Advance(parent, s, Acked, now).1, d, q[0]);
    }
  }

  /**
   * When a beat pushes: with other requests running in between, a beat of a
   * device that sends one at a time goes on from its row update to push
   * exactly the types whose reported address differs from the one on the row,
   * whatever Cloudflare holds; if there is none it replies 204 at once.
   */
  lemma {:induction false} BeatPushesIffAddressChanged(parent: string, es: seq<Event>, h: nat, now: Time, d: string,
                                                        t: RecordType)
    requires HonestRun(parent, es) && OneAtATime(parent, es, d)
    requires var w := Run(parent, Init(), es); h in w.handlers && Touching(w.handlers[h], d)
    ensures var w := Run(parent, Init(), es); var w' := Next(parent, w, Go(h, Acked, now));
            && d in w.s.devices
            && (Pushing(w'.handlers[h], d, t) <==>
                  Reported(w.handlers[h].b.req, t).Some?
                  && Stored(w.s.devices[d], t) != Reported(w.handlers[h].b.req, t))
            && w'.s.zone == w.s.zone && w'.s.pointers == w.s.pointers
            && ((forall u :: !Pushing(w'.handlers[h], d, u)) ==>
                  w'.handlers[h].b.pc == Replied && w'.handlers[h].b.code == 204)
  {
    var w := Run(parent, Init(), es);
    OneAtATimeSeesClearly(parent, es, d);
    assert SeesRow(w.s, w.handlers[h], d, t);
    TouchQueuesChanges(parent, w.s, w.handlers[h], now, d, t);
  }

  // ---------- repeating an address ----------

  /** The row already carries every address the beat reports. */
  ghost predicate Repeats(s: Stores, beat: BeatReq) {
    && beat.deviceId in s.devices
    && (forall t :: Reported(beat, t).Some? ==> Stored(s.devices[beat.deviceId], t) == Reported(beat, t))
  }

  /** Every beat of d that arrives in these events repeats what the row says in s. */
  ghost predicate OnlyRepeats(s: Stores, more: seq<Event>, d: string) {
    forall i :: 0 <= i < |more| && more[i].Report? && more[i].beat.deviceId == d ==> Repeats(s, more[i].beat)
  }

  /** A beat in flight that will find nothing to push. */
  predicate SeesSame(s: Stores, p: Handler, d: string, t: RecordType) {
    Touching(p, d) && d in s.devices ==>
      p.b.seen.Some? && Stored(p.b.seen.value, t) == Stored(s.devices[d], t)
  }

  ghost predicate Repeater(s: Stores, p: Handler, d: string) {
    InFlight(p, d) ==>
      && p.b.pc in {Lookup, Touch} && Repeats(s, p.b.req)
      && forall t :: SeesSame(s, p, d, t)
  }

  /** (d, t) is as it was: the row's address, the pointer, and the content of the tracked record. */
  predicate KeyUntouched(s: Stores, s': Stores, d: string, t: RecordType) {
    && d in s.devices && d in s'.devices && Stored(s'.devices[d], t) == Stored(s.devices[d], t)
    && SamePointer(s, s', (d, t))
    && ((d, t) in s.pointers ==>
          var id := s.pointers[(d, t)].cloudflareId;
          && id in s.zone.records && id in s'.zone.records
          && s'.zone.records[id].content == s.zone.records[id].content)
  }

  ghost predicate Untouched(s: Stores, s': Stores, d: string) {
    forall t :: KeyUntouched(s, s', d, t)
  }

  ghost predicate Unrepaired(w: World, w': World, d: string) {
    Untouched(w.s, w'.s, d) && forall h :: h in w'.handlers ==> Repeater(w.s, w'.handlers[h], d)
  }

  lemma UntouchedVerdict(s: Stores, s': Stores, d: string, t: RecordType)
    requires KeyUntouched(s, s', d, t)
    ensures Agree(s', d, t) <==> Agree(s, d, t)
    ensures ThreeWay(s', d, t) <==> ThreeWay(s, d, t)
    ensures HasAddress(s', d, t) <==> HasAddress(s, d, t)
  {
  }

  /** A repeating beat stays one, and leaves the addresses alone. */
  lemma RepeaterSteps(parent: string, s0: Stores, s: Stores, p: SoundHandler, o: Outcome, now: Time, d: string)
    requires OnDevice(p, d) && Repeater(s0, p, d) && Untouched(s0, s, d)
    ensures var x := p.Advance(parent, s, o, now);
            && Repeater(s0, x.1, d) && x.0.zone == s.zone && x.0.pointers == s.pointers
            && d in x.0.devices && forall t :: Stored(x.0.devices[d], t) == Stored(s.devices[d], t)
  {
    assert KeyUntouched(s0, s, d, A) && KeyUntouched(s0, s, d, AAAA);
    if p.b.pc == Touch {
      assert SeesSame(s0, p, d, A) && SeesSame(s0, p, d, AAAA);
      forall t
        ensures !Changed(p.b.seen.value, p.b.req, t)
      {
        assert SeesSame(s0, p, d, t);
      }
      assert ToPush(p.b.seen.value, p.b.req) == [];
    }
  }

  /** A step of a request that is about another device, or is done, leaves d's copies alone. */
  lemma StrangerSteps(parent: string, s0: Stores, s: Stores, s': Stores, p: SoundHandler, p': SoundHandler, d: string,
                      t: RecordType)
    requires KeyUntouched(s0, s, d, t) && Mild(parent, s, s', p, p') && StepEffects(s, s', p)
    requires PointersSound(parent, s) && NamesUnique(s.devices) && Local(parent, s, p)
    requires !OnDevice(p, d) && !Writes(p, (d, t)) && (Tentative(p) ==> p.r.req.deviceId != d)
    ensures KeyUntouched(s0, s', d, t)
  {
    assert d in s'.devices;
    assert AddressEffect(s, s', p, d, t);
    assert SamePointer(s, s', (d, t));
    if (d, t) in s.pointers {
      TrackedContentStays(parent, s, s', p, p', (d, t));
    }
  }

  /** Only d's own beats write the pointers of a registered device. */
  lemma StrangerWritesElsewhere(w: World, h: nat, d: string, t: RecordType)
    requires Conserved(w) && RowsOwned(w) && Registered(w, d) && h in w.handlers && !OnDevice(w.handlers[h], d)
    ensures !Writes(w.handlers[h], (d, t)) && (Tentative(w.handlers[h]) ==> w.handlers[h].r.req.deviceId != d)
  {
    var owner :| owner in w.handlers && CreatedOn(w.handlers[owner], d);
    assert w.handlers[owner].Sound() && w.handlers[h].Sound();
    if w.handlers[h].Reg? && w.handlers[h].r.row && h != owner {
      RowsDisjoint(w, h, owner);
    }
  }

  lemma OwnStepUnrepaired(parent: string, s0: Stores, s: Stores, p: SoundHandler, o: Outcome, now: Time, d: string)
    requires OnDevice(p, d) && Repeater(s0, p, d) && Untouched(s0, s, d)
    ensures var x := p.Advance(parent, s, o, now); Untouched(s0, x.0, d) && Repeater(s0, x.1, d)
  {
    var x := p.Advance(parent, s, o, now);
    RepeaterSteps(parent, s0, s, p, o, now, d);
    forall t
      ensures KeyUntouched(s0, x.0, d, t)
    {
      assert KeyUntouched(s0, s, d, t);
    }
  }

  lemma StrangerStepUnrepaired(parent: string, s0: Stores, w: World, h: nat, p': SoundHandler, s': Stores, d: string)
    requires PointersSound(parent, w.s) && Conserved(w) && RowsOwned(w) && Registered(w, d) && h in w.handlers
    requires Local(parent, w.s, w.handlers[h]) && !OnDevice(w.handlers[h], d)
    requires Mild(parent, w.s, s', w.handlers[h], p') && StepEffects(w.s, s', w.handlers[h])
    requires Untouched(s0, w.s, d)
    ensures Untouched(s0, s', d)
  {
    forall t
      ensures KeyUntouched(s0, s', d, t)
    {
      assert KeyUntouched(s0, w.s, d, t);
      StrangerWritesElsewhere(w, h, d, t);
      StrangerSteps(parent, s0, w.s, s', w.handlers[h], p', d, t);
    }
  }

  lemma UnrepairedByGo(parent: string, s0: Stores, w: World, h: nat, o: Outcome, now: Time, d: string)
    requires Sane(parent, w) && Conserved(w) && RowsOwned(w) && Registered(w, d) && h in w.handlers
    requires Untouched(s0, w.s, d) && Repeater(s0, w.handlers[h], d)
    ensures var x := w.handlers[h].Advance(parent, w.s, o, now); Untouched(s0, x.0, d) && Repeater(s0, x.1, d)
  {
    var p := w.handlers[h];
    var x := p.Advance(parent, w.s, o, now);
    if OnDevice(p, d) {
      OwnStepUnrepaired(parent, s0, w.s, p, o, now, d);
    } else {
      StepKeepsRequest(parent, w.s, p, o, now);
      EveryStepMild(parent, w, h, o, now);
      EveryStepEffects(parent, w.s, p, o, now);
      StrangerStepUnrepaired(parent, s0, w, h, x.1, x.0, d);
    }
  }

  lemma UnrepairedByOther(parent: string, w0: World, w: World, e: Event, d: string)
    requires Unrepaired(w0, w, d) && (e.Go? ==> e.h !in w.handlers)
    requires e.Report? && e.beat.deviceId == d ==> Repeats(w0.s, e.beat)
    ensures Unrepaired(w0, Next(parent, w, e), d)
  {
    var w' := Next(parent, w, e);
    OtherEventsIdle(parent, w, e);
    forall t
      ensures KeyUntouched(w0.s, w'.s, d, t)
    {
      assert KeyUntouched(w0.s, w.s, d, t);
    }
    forall h | h in w'.handlers
      ensures Repeater(w0.s, w'.handlers[h], d)
    {
      assert h in w.handlers ==> Repeater(w0.s, w.handlers[h], d);
    }
  }

  lemma UnrepairedByNext(parent: string, w0: World, w: World, e: Event, d: string)
    requires Sane(parent, w) && Conserved(w) && RowsOwned(w) && Registered(w, d) && Unrepaired(w0, w, d)
    requires e.Report? && e.beat.deviceId == d ==> Repeats(w0.s, e.beat)
    ensures Unrepaired(w0, Next(parent, w, e), d)
  {
    if e.Go? && e.h in w.handlers {
      UnrepairedByGo(parent, w0.s, w, e.h, e.o, e.now, d);
      var x := w.handlers[e.h].Advance(parent, w.s, e.o, e.now);
      UnrepairedByStep(w0, w, e.h, x.1, x.0, d);
    } else {
      UnrepairedByOther(parent, w0, w, e, d);
    }
  }

  lemma UnrepairedByStep(w0: World, w: World, h: nat, p': SoundHandler, s': Stores, d: string)
    requires Unrepaired(w0, w, d) && h in w.handlers && Untouched(w0.s, s', d) && Repeater(w0.s, p', d)
    ensures Unrepaired(w0, World(s', w.handlers[h := p']), d)
  {
  }

  lemma {:induction false} UntouchedAtFirst(parent: string, es: seq<Event>, d: string)
    requires HonestRun(parent, es)
    requires Registered(Run(parent, Init(), es), d) && Quiet(Run(parent, Init(), es), d)
    ensures Unrepaired(Run(parent, Init(), es), Run(parent, Init(), es), d)
  {
    var w := Run(parent, Init(), es);
    HonestRunsAreSane(parent, es);
    RecordsAreConserved(parent, es);
    RowsAreConserved(parent, es);
    RegisteredHasRow(w, d);
    forall t
      ensures KeyUntouched(w.s, w.s, d, t)
    {
      assert (d, t) in w.s.pointers ==> PointerSound(parent, w.s, (d, t));
    }
  }

  /** One more event after a run that left d unrepaired. */
  lemma {:induction false} UnrepairedByOneMore(parent: string, w0: World, es: seq<Event>, e: Event, d: string)
    requires HonestRun(parent, es)
    requires Registered(Run(parent, Init(), es), d) && Unrepaired(w0, Run(parent, Init(), es), d)
    requires e.Report? && e.beat.deviceId == d ==> Repeats(w0.s, e.beat)
    ensures var w := Next(parent, Run(parent, Init(), es), e); Registered(w, d) && Unrepaired(w0, w, d)
  {
    HonestRunsAreSane(parent, es);
    RecordsAreConserved(parent, es);
    RowsAreConserved(parent, es);
    RegisteredStays(parent, Run(parent, Init(), es), e, d);
    UnrepairedByNext(parent, w0, Run(parent, Init(), es), e, d);
  }

  /** The last event of a continuation. */
  lemma {:induction false} RunLast(parent: string, es: seq<Event>, more: seq<Event>)
    requires more != []
    ensures Run(parent, Init(), es + more) ==
            Next(parent, Run(parent, Init(), es + more[..|more| - 1]), more[|more| - 1])
  {
    LastOfSum(es, more);
  }

  lemma {:induction false} HonestSnoc(parent: string, all: seq<Event>, part: seq<Event>)
    requires all != [] && part == all[..|all| - 1] && HonestRun(parent, all)
    ensures HonestRun(parent, part)
  {
    HonestPrefix(parent, all);
  }

  lemma {:induction false} OnlyRepeatsSnoc(s: Stores, more: seq<Event>, d: string)
    requires more != [] && OnlyRepeats(s, more, d)
    ensures OnlyRepeats(s, more[..|more| - 1], d)
    ensures var e := more[|more| - 1]; e.Report? && e.beat.deviceId == d ==> Repeats(s, e.beat)
  {
  }

  lemma {:induction false} RepeatsLeaveUnrepaired(parent: string, w0: World, es: seq<Event>, more: seq<Event>,
                                                  d: string)
    requires HonestRun(parent, es + more) && w0 == Run(parent, Init(), es)
    requires Registered(w0, d) && Quiet(w0, d) && OnlyRepeats(w0.s, more, d)
    ensures var w := Run(parent, Init(), es + more); Registered(w, d) && Unrepaired(w0, w, d)
  {
    if more == [] {
      assert es + more == es;
      UntouchedAtFirst(parent, es, d);
    } else {
      var k := |more| - 1;
      LastOfSum(es, more);
      HonestSnoc(parent, es + more, es + more[..k]);
      RunLast(parent, es, more);
      OnlyRepeatsSnoc(w0.s, more, d);
      RepeatsLeaveUnrepaired(parent, w0, es, more[..k], d);
      UnrepairedByOneMore(parent, w0, es + more[..k], more[k], d);
    }
  }

  /**
   * Repeating an address never repairs anything: from a moment with no beat
   * of d in flight, through any events in which beats of d only repeat what
   * the row says - overlapping, with any outcomes, among any other requests -
   * the row's addresses, the pointers and the tracked records of d stay as
   * they are, and so does every agreement and disagreement.
   */
  lemma {:induction false} RepeatedAddressNeverRepairs(parent: string, es: seq<Event>, more: seq<Event>, d: string,
                                                        t: RecordType)
    requires HonestRun(parent, es + more)
    requires Registered(Run(parent, Init(), es), d) && Quiet(Run(parent, Init(), es), d)
    requires OnlyRepeats(Run(parent, Init(), es).s, more, d)
    ensures var s := Run(parent, Init(), es).s; var s' := Run(parent, Init(), es + more).s;
            && KeyUntouched(s, s', d, t)
            && (Agree(s', d, t) <==> Agree(s, d, t)) && (ThreeWay(s', d, t) <==> ThreeWay(s, d, t))
  {
    RepeatsLeaveUnrepaired(parent, Run(parent, Init(), es), es, more, d);
    UntouchedVerdict(Run(parent, Init(), es).s, Run(parent, Init(), es + more).s, d, t);
  }

  /** A beat with these addresses, with or without the IPv6 one. */
  predicate ReportsAtMost(beat: BeatReq, v4: Addr, v6: Addr) {
    beat.v4 == v4 && (beat.v6.None? || beat.v6 == Some(v6))
  }

  /**
   * Dropping IPv6 and reporting it again unchanged, as often as the cam
   * likes and among any other requests: both addresses stay on the row, and
   * what agreed goes on agreeing with no change at Cloudflare.
   */
  lemma {:induction false} DroppedIpv6MayComeBack(parent: string, es: seq<Event>, more: seq<Event>, d: string,
                                                   v4: Addr, v6: Addr, t: RecordType)
    requires HonestRun(parent, es + more)
    requires var w := Run(parent, Init(), es);
             Registered(w, d) && Quiet(w, d) && ThreeWay(w.s, d, t)
             && Stored(w.s.devices[d], A) == Some(v4) && Stored(w.s.devices[d], AAAA) == Some(v6)
    requires forall i :: 0 <= i < |more| && more[i].Report? && more[i].beat.deviceId == d ==>
               ReportsAtMost(more[i].beat, v4, v6)
    ensures var s := Run(parent, Init(), es).s; var s' := Run(parent, Init(), es + more).s;
            KeyUntouched(s, s', d, t) && HasAddress(s', d, t) && ThreeWay(s', d, t)
  {
    var s := Run(parent, Init(), es).s;
    forall i | 0 <= i < |more| && more[i].Report? && more[i].beat.deviceId == d
      ensures Repeats(s, more[i].beat)
    {
      assert ReportsAtMost(more[i].beat, v4, v6);
    }
    RepeatedAddressNeverRepairs(parent, es, more, d, t);
  }

  // ---------- a concrete hub ----------

  const CAM_REQ: EnrollReq := EnrollReq("hash", "cam", "porch", "porch", "kid", "192.0.2.1", None)

  function CamBeat(v4: Addr): BeatReq {
    BeatReq("cam", "porch", v4, None, "", "")
  }

  /** One token, one registration that succeeds: handler 0 is answered 201. */
  const ENROLLED: seq<Event> :=
    [Mint("hash", 1, 1, 100, 0), Arrive(0, CAM_REQ),
     Go(0, Acked, 1), Go(0, Acked, 1), Go(0, Acked, 1), Go(0, Acked, 1), Go(0, Acked, 1), Go(0, Acked, 1)]

  /** The world after ENROLLED, with the address on the row and at Cloudflare as given. */
  predicate CamStores(parent: string, s: Stores, row: Addr, cloud: Addr) {
    && s.devices.Keys == {"cam"} && s.devices["cam"].subdomain == "porch"
    && s.devices["cam"].publicIp == Some(row) && s.devices["cam"].publicIpv6 == None
    && s.pointers.Keys == {("cam", A)} && s.pointers[("cam", A)].cloudflareId == 0
    && s.zone.records.Keys == {0} && s.zone.records[0].content == cloud
  }

  /** Peels the first event off a run. */
  lemma Peel(parent: string, w: World, es: seq<Event>)
    requires es != []
    ensures Run(parent, w, es) == Run(parent, Next(parent, w, es[0]), es[1..])
  {
    RunCons(parent, w, es[0], es[1..]);
    assert es == [es[0]] + es[1..];
  }

  /** Handler 0 alone, at program point pc, on its way to enrolling the cam. */
  predicate Enrolling(w: World, pc: RegPc) {
    && w.handlers.Keys == {0} && w.handlers[0].Reg?
    && w.handlers[0].r.req == CAM_REQ && w.handlers[0].r.pc == pc
    && w.s.pointers == map[]
  }

  lemma EnrollFirstHalf(parent: string, w1: World, w2: World, w3: World, w4: World)
    requires w1 == Next(parent, Init(), ENROLLED[0]) && w2 == Next(parent, w1, ENROLLED[1])
    requires w3 == Next(parent, w2, ENROLLED[2]) && w4 == Next(parent, w3, ENROLLED[3])
    ensures Enrolling(w4, CreateA) && w4.handlers[0].r.sub == "porch"
    ensures w4.s.devices == map[] && w4.s.zone == Zone(map[], 0)
  {
    assert w1.s.tokens == map["hash" := Token(1, 1, 0, 100, None, None)];
    assert w2.handlers == map[0 := Reg(Enroll(CAM_REQ))];
    assert Enrolling(w3, Resolve) && w3.s.devices == map[];
    assert Subdomain.Candidate("porch", 1) == "porch";
  }

  /** An acknowledged step of the only handler. */
  lemma StepOfZero(parent: string, w: World)
    requires w.handlers.Keys == {0} && w.handlers[0].Reg?
    ensures var x := StepRegistration(parent, w.s, w.handlers[0].r, Acked, 1);
            Next(parent, w, Go(0, Acked, 1)) == World(x.0, map[0 := Reg(x.1)])
  {
    var x := StepRegistration(parent, w.s, w.handlers[0].r, Acked, 1);
    assert w.handlers[0 := Reg(x.1)] == map[0 := Reg(x.1)];
  }

  lemma CamRecordCreated(parent: string, w: World)
    requires Enrolling(w, CreateA) && w.s.devices == map[] && w.s.zone == Zone(map[], 0)
    ensures var w' := Next(parent, w, Go(0, Acked, 1));
            && Enrolling(w', Insert) && w'.handlers[0].r.a == Some(0) && w'.handlers[0].r.sub == w.handlers[0].r.sub
            && w'.s.devices == map[] && w'.s.zone.records.Keys == {0} && w'.s.zone.records[0].content == "192.0.2.1"
  {
    StepOfZero(parent, w);
    assert StepRegistration(parent, w.s, w.handlers[0].r, Acked, 1) == StepCreateA(parent, w.s, w.handlers[0].r, Acked);
  }

  lemma CamRowInserted(parent: string, w: World)
    requires Enrolling(w, Insert) && w.s.devices == map[] && w.handlers[0].r.a == Some(0)
    ensures var w' := Next(parent, w, Go(0, Acked, 1));
            && Enrolling(w', Sign) && w'.handlers[0].r.a == Some(0) && w'.handlers[0].r.sub == w.handlers[0].r.sub
            && w'.s.zone == w.s.zone && w'.s.devices.Keys == {"cam"}
            && w'.s.devices["cam"].subdomain == w.handlers[0].r.sub
            && w'.s.devices["cam"].publicIp == Some("192.0.2.1") && w'.s.devices["cam"].publicIpv6 == None
  {
    StepOfZero(parent, w);
    assert StepRegistration(parent, w.s, w.handlers[0].r, Acked, 1) == StepInsert(w.s, w.handlers[0].r, Acked, 1);
  }

  lemma CamTokenSigned(parent: string, w: World)
    requires Enrolling(w, Sign)
    ensures var w' := Next(parent, w, Go(0, Acked, 1));
            Enrolling(w', SaveA) && w'.s == w.s && w'.handlers[0].r.a == w.handlers[0].r.a
            && w'.handlers[0].r.sub == w.handlers[0].r.sub
  {
    StepOfZero(parent, w);
    assert StepRegistration(parent, w.s, w.handlers[0].r, Acked, 1) == StepSign(w.s, w.handlers[0].r, Acked);
  }

  lemma CamPointerSaved(parent: string, w: World)
    requires Enrolling(w, SaveA) && w.handlers[0].r.a == Some(0) && "cam" in w.s.devices
    ensures var w' := Next(parent, w, Go(0, Acked, 1));
            && w'.handlers.Keys == {0} && IssuedTo(w'.handlers[0], "cam", w.handlers[0].r.sub)
            && w'.s.devices == w.s.devices && w'.s.zone == w.s.zone
            && w'.s.pointers.Keys == {("cam", A)} && w'.s.pointers[("cam", A)].cloudflareId == 0
  {
    StepOfZero(parent, w);
    assert StepRegistration(parent, w.s, w.handlers[0].r, Acked, 1) == StepSaveA(parent, w.s, w.handlers[0].r, Acked);
  }

  lemma EnrollSecondHalf(parent: string, w4: World, w5: World, w6: World, w7: World, w8: World)
    requires Enrolling(w4, CreateA) && w4.handlers[0].r.sub == "porch"
    requires w4.s.devices == map[] && w4.s.zone == Zone(map[], 0)
    requires w5 == Next(parent, w4, ENROLLED[4]) && w6 == Next(parent, w5, ENROLLED[5])
    requires w7 == Next(parent, w6, ENROLLED[6]) && w8 == Next(parent, w7, ENROLLED[7])
    ensures CamStores(parent, w8.s, "192.0.2.1", "192.0.2.1")
    ensures w8.handlers.Keys == {0} && IssuedTo(w8.handlers[0], "cam", "porch")
  {
    CamRecordCreated(parent, w4);
    CamRowInserted(parent, w5);
    CamTokenSigned(parent, w6);
    CamPointerSaved(parent, w7);
  }

  lemma EnrolledWorld(parent: string)
    ensures var w := Run(parent, Init(), ENROLLED);
            && CamStores(parent, w.s, "192.0.2.1", "192.0.2.1")
            && w.handlers.Keys == {0} && IssuedTo(w.handlers[0], "cam", "porch")
  {
    var w1 := Next(parent, Init(), ENROLLED[0]);
    var w2 := Next(parent, w1, ENROLLED[1]);
    var w3 := Next(parent, w2, ENROLLED[2]);
    var w4 := Next(parent, w3, ENROLLED[3]);
    var w5 := Next(parent, w4, ENROLLED[4]);
    var w6 := Next(parent, w5, ENROLLED[5]);
    var w7 := Next(parent, w6, ENROLLED[6]);
    var w8 := Next(parent, w7, ENROLLED[7]);
    EnrollFirstHalf(parent, w1, w2, w3, w4);
    EnrollSecondHalf(parent, w4, w5, w6, w7, w8);
    EnrolledRun(parent, w1, w2, w3, w4, w5, w6, w7, w8);
  }

  lemma EnrolledRun(parent: string, w1: World, w2: World, w3: World, w4: World,
                    w5: World, w6: World, w7: World, w8: World)
    requires w1 == Next(parent, Init(), ENROLLED[0]) && w2 == Next(parent, w1, ENROLLED[1])
    requires w3 == Next(parent, w2, ENROLLED[2]) && w4 == Next(parent, w3, ENROLLED[3])
    requires w5 == Next(parent, w4, ENROLLED[4]) && w6 == Next(parent, w5, ENROLLED[5])
    requires w7 == Next(parent, w6, ENROLLED[6]) && w8 == Next(parent, w7, ENROLLED[7])
    ensures Run(parent, Init(), ENROLLED) == w8
  {
    Peel(parent, Init(), ENROLLED);
    Peel(parent, w1, ENROLLED[1..]);
    Peel(parent, w2, ENROLLED[1..][1..]);
    Peel(parent, w3, ENROLLED[1..][1..][1..]);
    Peel(parent, w4, ENROLLED[1..][1..][1..][1..]);
    Peel(parent, w5, ENROLLED[1..][1..][1..][1..][1..]);
    Peel(parent, w6, ENROLLED[1..][1..][1..][1..][1..][1..]);
    Peel(parent, w7, ENROLLED[1..][1..][1..][1..][1..][1..][1..]);
  }

  // ---------- one beat of the cam ----------

  /** A beat arrives and gets through its lookup and its row update. */
  function LookupAndTouch(h: nat, beat: BeatReq, o1: Outcome, t1: Time, o2: Outcome, t2: Time): seq<Event> {
    [Report(h, beat), Go(h, o1, t1), Go(h, o2, t2)]
  }

  lemma RunThree(parent: string, w: World, e1: Event, e2: Event, e3: Event)
    ensures Run(parent, w, [e1, e2, e3]) == Next(parent, Next(parent, Next(parent, w, e1), e2), e3)
  {
    var es := [e1, e2, e3];
    assert es[..2] == [e1, e2] && es[..2][..1] == [e1] && es[..2][..1][..0] == [];
    assert Run(parent, w, es[..2][..1][..0]) == w;
    assert Run(parent, w, es[..2][..1]) == Next(parent, w, e1);
    assert Run(parent, w, es[..2]) == Next(parent, Next(parent, w, e1), e2);
  }

  /** Beat h is at pc, about to push the IPv4 address v to the cam's record. */
  predicate PushingV4(w: World, h: nat, pc: BeatPc, v: Addr) {
    && h in w.handlers && w.handlers[h].Hb? && w.handlers[h].b.req == CamBeat(v)
    && w.handlers[h].b.pc == pc && w.handlers[h].b.todo == [A]
    && (pc in {Update, SaveOld} ==> w.handlers[h].b.id == 0)
  }

  lemma BeatReachesPush(parent: string, w: World, h: nat, v: Addr, row: Addr, cloud: Addr, now: Time)
    requires CamStores(parent, w.s, row, cloud) && h !in w.handlers && v != row
    ensures var w' := Run(parent, w, LookupAndTouch(h, CamBeat(v), Acked, now, Acked, now));
            && PushingV4(w', h, GetPointer, v) && CamStores(parent, w'.s, v, cloud)
            && w'.handlers.Keys == w.handlers.Keys + {h}
            && forall g :: g in w.handlers ==> w'.handlers[g] == w.handlers[g]
  {
    RunThree(parent, w, Report(h, CamBeat(v)), Go(h, Acked, now), Go(h, Acked, now));
    var w1 := Next(parent, w, Report(h, CamBeat(v)));
    var w2 := Next(parent, w1, Go(h, Acked, now));
    assert w2.s == w.s && w2.handlers[h].b.pc == Touch;
    assert ToPush(w.s.devices["cam"], CamBeat(v)) == [A];
  }

  /** One acknowledged step of a pushing beat: lookup of the pointer, update of the record, mirroring. */
  lemma PushStepV4(parent: string, w: World, h: nat, v: Addr, row: Addr, cloud: Addr, now: Time, pc: BeatPc)
    requires CamStores(parent, w.s, row, cloud) && PushingV4(w, h, pc, v) && pc in {GetPointer, Update, SaveOld}
    ensures var w' := Next(parent, w, Go(h, Acked, now));
            && w'.handlers.Keys == w.handlers.Keys
            && (forall g :: g in w.handlers && g != h ==> w'.handlers[g] == w.handlers[g])
            && CamStores(parent, w'.s, row, if pc == Update then v else cloud)
            && (pc == GetPointer ==> PushingV4(w', h, Update, v))
            && (pc == Update ==> PushingV4(w', h, SaveOld, v))
            && (pc == SaveOld ==> w'.handlers[h].Hb? && w'.handlers[h].b.pc == Replied)
  {
    var x := StepBeat(parent, w.s, w.handlers[h].b, Acked, now);
    assert Next(parent, w, Go(h, Acked, now)) == World(x.0, w.handlers[h := Hb(x.1)]);
  }

  // ---------- a failed push is not retried ----------

  /** A beat reports a new address and Cloudflare refuses the update. */
  const FAILED_PUSH: seq<Event> :=
    LookupAndTouch(1, CamBeat("192.0.2.2"), Acked, 2, Acked, 2) + [Go(1, Acked, 2), Go(1, Refused, 2)]

  lemma RefusedUpdate(parent: string, w: World, h: nat, v: Addr, now: Time)
    requires PushingV4(w, h, Update, v)
    ensures var w' := Next(parent, w, Go(h, Refused, now));
            && w'.s == w.s && w'.handlers.Keys == w.handlers.Keys
            && w'.handlers[h].Hb? && w'.handlers[h].b.pc == Replied && w'.handlers[h].b.code == 204
  {
  }

  lemma RunTwo(parent: string, w: World, e1: Event, e2: Event)
    ensures Run(parent, w, [e1, e2]) == Next(parent, Next(parent, w, e1), e2)
  {
    Peel(parent, w, [e1, e2]);
    Peel(parent, Next(parent, w, e1), [e2]);
    assert [e1, e2][1..] == [e2] && [e2][1..] == [];
  }

  lemma FailedPushDiverges(parent: string, w: World)
    requires CamStores(parent, w.s, "192.0.2.1", "192.0.2.1") && w.handlers.Keys == {0}
    ensures var w' := Run(parent, w, FAILED_PUSH);
            && CamStores(parent, w'.s, "192.0.2.2", "192.0.2.1") && w'.handlers.Keys == {0, 1}
            && w'.handlers[1].Hb? && w'.handlers[1].b.pc == Replied && w'.handlers[1].b.code == 204
  {
    var v, p := "192.0.2.2", LookupAndTouch(1, CamBeat("192.0.2.2"), Acked, 2, Acked, 2);
    RunAppend(parent, w, p, [Go(1, Acked, 2), Go(1, Refused, 2)]);
    assert "192.0.2.2"[8] != "192.0.2.1"[8];
    BeatReachesPush(parent, w, 1, v, "192.0.2.1", "192.0.2.1", 2);
    var w1 := Run(parent, w, p);
    RunTwo(parent, w1, Go(1, Acked, 2), Go(1, Refused, 2));
    PushStepV4(parent, w1, 1, v, v, "192.0.2.1", 2, GetPointer);
    RefusedUpdate(parent, Next(parent, w1, Go(1, Acked, 2)), 1, v, 2);
  }

  /** The row says one address, the tracked record serves another. */
  predicate Diverged(s: Stores, d: string, row: Addr, cloud: Addr) {
    && d in s.devices && Stored(s.devices[d], A) == Some(row)
    && (d, A) in s.pointers && Holds(s.zone, s.pointers[(d, A)].cloudflareId, cloud)
    && row != cloud
  }

  lemma UntouchedStoresDiverge(parent: string, s: Stores, s': Stores)
    requires CamStores(parent, s, "192.0.2.2", "192.0.2.1") && KeyUntouched(s, s', "cam", A)
    ensures Diverged(s', "cam", "192.0.2.2", "192.0.2.1")
  {
    assert ("cam", A) in s.pointers;
    assert "192.0.2.2"[8] != "192.0.2.1"[8];
  }

  lemma AfterFailedPush(parent: string)
    ensures var w := Run(parent, Init(), ENROLLED + FAILED_PUSH);
            CamStores(parent, w.s, "192.0.2.2", "192.0.2.1") && Registered(w, "cam") && Quiet(w, "cam")
  {
    var w0 := Run(parent, Init(), ENROLLED);
    EnrolledWorld(parent);
    FailedPushDiverges(parent, w0);
    RunAppend(parent, Init(), ENROLLED, FAILED_PUSH);
    AnsweredStaysAnswered(parent, ENROLLED, FAILED_PUSH, 0);
    assert CreatedOn(Run(parent, Init(), ENROLLED + FAILED_PUSH).handlers[0], "cam");
  }

  /**
   * The documented retry does not happen: after one refused update, the cam
   * may repeat its new address as often as it likes, among any other requests
   * and with any outcomes; the row says the new address and Cloudflare keeps
   * serving the old one.
   */
  lemma {:induction false} FailedPushIsNotRetried(parent: string, more: seq<Event>)
    requires HonestRun(parent, ENROLLED + FAILED_PUSH + more)
    requires forall i :: 0 <= i < |more| && more[i].Report? && more[i].beat.deviceId == "cam" ==>
               more[i].beat.v4 == "192.0.2.2" && more[i].beat.v6.None?
    ensures Diverged(Run(parent, Init(), ENROLLED + FAILED_PUSH + more).s, "cam", "192.0.2.2", "192.0.2.1")
  {
    var es := ENROLLED + FAILED_PUSH;
    AfterFailedPush(parent);
    RepeatedAddressNeverRepairs(parent, es, more, "cam", A);
    UntouchedStoresDiverge(parent, Run(parent, Init(), es).s, Run(parent, Init(), es + more).s);
  }
}
