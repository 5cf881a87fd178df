/**
 * Why an arriving beat must not clash: accepting it while another beat of its
 * device may still push a different address can leave the three copies apart
 * although no call fails, and only then.
 */
module Overlap {
  import opened Common
  import opened Tables
  import opened Requests
  import opened Conservation
  import opened Integrity
  import opened Effects
  import opened Addresses
  import opened Agreement
  import Retry

  /** Steps of handlers, every call acknowledged, and nothing new arriving. */
  predicate Finishing(more: seq<Event>) {
    forall e :: e in more ==> e.Go? && e.o == Acked
  }

  // ---------- one beat running alone to its reply ----------

  /** k acknowledged steps of one beat and nothing else. */
  function Solo(parent: string, s: Stores, b: Beat, k: nat, now: Time): (x: (Stores, Beat))
    requires CoherentBeat(b)
    ensures CoherentBeat(x.1) && x.1.req == b.req
    decreases k
  {
    if k == 0 then (s, b)
    else var x := StepBeat(parent, s, b, Acked, now); Solo(parent, x.0, x.1, k - 1, now)
  }

  lemma NextOfBeat(parent: string, w: World, h: nat, b: Beat, now: Time)
    requires h in w.handlers && w.handlers[h] == Hb(b)
    ensures CoherentBeat(b)
    ensures var x := StepBeat(parent, w.s, b, Acked, now);
            Next(parent, w, Go(h, Acked, now)) == World(x.0, w.handlers[h := Hb(x.1)])
  {
    assert w.handlers[h].Sound();
  }

  lemma SetTwice(m: map<nat, SoundHandler>, h: nat, p: SoundHandler, q: SoundHandler)
    ensures m[h := p][h := q] == m[h := q]
  {
  }

  lemma FirstStep(parent: string, w: World, h: nat, b: Beat, k: nat, now: Time)
    requires h in w.handlers && w.handlers[h] == Hb(b)
    ensures CoherentBeat(b)
    ensures var x := StepBeat(parent, w.s, b, Acked, now);
            Run(parent, w, Steps(h, k + 1, now)) == Run(parent, World(x.0, w.handlers[h := Hb(x.1)]), Steps(h, k, now))
  {
    NextOfBeat(parent, w, h, b, now);
    RunCons(parent, w, Go(h, Acked, now), Steps(h, k, now));
  }

  lemma {:induction false} SoloRuns(parent: string, w: World, h: nat, b: Beat, k: nat, now: Time)
    requires h in w.handlers && w.handlers[h] == Hb(b) && CoherentBeat(b)
    ensures var x := Solo(parent, w.s, b, k, now);
            Run(parent, w, Steps(h, k, now)) == World(x.0, w.handlers[h := Hb(x.1)])
    decreases k
  {
    if k == 0 {
      assert w.handlers[h := Hb(b)] == w.handlers;
    } else {
      var x := StepBeat(parent, w.s, b, Acked, now);
      FirstStep(parent, w, h, b, k - 1, now);
      SoloRuns(parent, World(x.0, w.handlers[h := Hb(x.1)]), h, x.1, k - 1, now);
      SetTwice(w.handlers, h, Hb(x.1), Hb(Solo(parent, x.0, x.1, k - 1, now).1));
    }
  }

  /** The beat and the stores are as an honest run leaves them. */
  ghost predicate Ready(parent: string, s: Stores, b: Beat) {
    Local(parent, s, Hb(b)) && PointersSound(parent, s) && Issued(s.zone) && b.made <= s.zone.records.Keys
  }

  lemma ReadyStep(parent: string, s: Stores, b: Beat, now: Time)
    requires Ready(parent, s, b)
    ensures var x := StepBeat(parent, s, b, Acked, now); Ready(parent, x.0, x.1)
  {
    var x := StepBeat(parent, s, b, Acked, now);
    BeatMild(parent, s, b, Acked, now);
    PointersStaySound(parent, s, x.0, Hb(b), Hb(x.1));
    BeatBalances(parent, s, b, Acked, now);
  }

  /** An upper bound on the calls a pushing beat still makes. */
  function CallsLeft(b: Beat): nat
    requires CoherentBeat(b) && b.InSync()
  {
    3 * |b.todo| - (if b.pc == GetPointer then 0 else if b.pc in {Create, Update} then 1 else 2)
  }

  /** The stores after a beat saved the pointer of its head type. */
  predicate SavedHead(s: Stores, s': Stores, b: Beat)
    requires CoherentBeat(b) && b.InSync()
  {
    var k := (b.req.deviceId, Head(b));
    k in s'.pointers && s'.pointers[k].value == Value(b) && s'.pointers == s.pointers[k := s'.pointers[k]]
  }

  /** One call of a pushing beat: the head is published and done, or still to do. */
  ghost predicate Pushes(s: Stores, s1: Stores, b: Beat, b1: Beat)
    requires CoherentBeat(b) && b.InSync() && CoherentBeat(b1)
  {
    && s1.devices == s.devices && b1.req == b.req
    && (if b.pc in {SaveNew, SaveOld} then SavedHead(s, s1, b) && b1.todo == b.todo[1..]
        else s1.pointers == s.pointers && b1.todo == b.todo)
    && (b1.pc == Replied || (b1.InSync() && CallsLeft(b1) < CallsLeft(b)))
  }

  lemma SavePushes(parent: string, s: Stores, b: Beat)
    requires CoherentBeat(b) && b.pc in {SaveNew, SaveOld} && b.req.deviceId in s.devices
    ensures var x := StepSave(parent, s, b, Acked); CoherentBeat(x.1) && Pushes(s, x.0, b, x.1)
  {
  }

  lemma CallPushes(parent: string, s: Stores, b: Beat)
    requires BeatSound(parent, s, b) && b.pc in {GetPointer, Create, Update}
    ensures var x := if b.pc == GetPointer then StepGetPointer(s, b, Acked)
                     else if b.pc == Create then StepCreate(parent, s, b, Acked)
                     else StepUpdate(parent, s, b, Acked);
            CoherentBeat(x.1) && Pushes(s, x.0, b, x.1)
  {
  }

  lemma EveryCallPushes(parent: string, s: Stores, b: Beat, now: Time)
    requires BeatSound(parent, s, b) && b.InSync()
    ensures var x := StepBeat(parent, s, b, Acked, now); Pushes(s, x.0, b, x.1)
  {
    if b.pc in {SaveNew, SaveOld} {
      SavePushes(parent, s, b);
    } else {
      CallPushes(parent, s, b);
    }
  }

  /** Every type still to do has been published with the reported address, and no other key was touched. */
  ghost predicate Published(s: Stores, s': Stores, b: Beat) {
    && s'.devices == s.devices
    && (forall t :: t in b.todo ==>
          (b.req.deviceId, t) in s'.pointers && Some(s'.pointers[(b.req.deviceId, t)].value) == Reported(b.req, t))
    && (forall k: Key :: !(k.0 == b.req.deviceId && k.1 in b.todo) ==> SamePointer(s, s', k))
  }

  lemma PublishedOnward(s: Stores, s1: Stores, s2: Stores, b: Beat, b1: Beat)
    requires CoherentBeat(b) && b.InSync() && CoherentBeat(b1) && Pushes(s, s1, b, b1) && Published(s1, s2, b1)
    ensures Published(s, s2, b)
  {
    assert forall t :: t in b.todo ==> t == b.todo[0] || t in b.todo[1..];
    assert forall t :: t in b.todo[1..] ==> t in b.todo && t != b.todo[0];
  }

  /** Left alone and with no failure, a pushing beat publishes everything it has to do and replies. */
  lemma {:induction false} FinishPushing(parent: string, s: Stores, b: Beat, now: Time) returns (k: nat)
    requires Ready(parent, s, b) && b.InSync()
    ensures var x := Solo(parent, s, b, k, now); x.1.pc == Replied && Published(s, x.0, b)
    decreases CallsLeft(b)
  {
    var x := StepBeat(parent, s, b, Acked, now);
    EveryCallPushes(parent, s, b, now);
    k := 0;
    if x.1.pc != Replied {
      ReadyStep(parent, s, b, now);
      k := FinishPushing(parent, x.0, x.1, now);
    }
    PublishedOnward(s, x.0, Solo(parent, x.0, x.1, k, now).0, b, x.1);
    k := k + 1;
  }

  /** What a beat that saw this row and runs alone from there on leaves of (d, t). */
  ghost predicate Leaves(s: Stores, s': Stores, b: BeatReq, seen: Device, t: RecordType) {
    var d := b.deviceId;
    && d in s'.devices
    && (Reported(b, t).Some? ==> Stored(s'.devices[d], t) == Reported(b, t))
    && if Changed(seen, b, t)
       then (d, t) in s'.pointers && Some(s'.pointers[(d, t)].value) == Reported(b, t)
       else SamePointer(s, s', (d, t))
  }

  lemma TouchUpdates(s: Stores, b: Beat, now: Time, t: RecordType)
    requires CoherentBeat(b) && b.pc == Touch && b.req.deviceId in s.devices
    ensures var x := StepTouch(s, b, Acked, now); var d := b.req.deviceId;
            && x.1.todo == ToPush(b.seen.value, b.req) && (x.1.pc == Replied || x.1.InSync())
            && x.0.pointers == s.pointers && d in x.0.devices
            && (Reported(b.req, t).Some? ==> Stored(x.0.devices[d], t) == Reported(b.req, t))
  {
    if Reported(b.req, t).Some? {
      TouchedCarries(s.devices[b.req.deviceId], b.req, now, t);
    }
  }

  lemma {:induction false} FinishFromTouch(parent: string, s: Stores, b: Beat, now: Time, t: RecordType)
    returns (k: nat)
    requires Ready(parent, s, b) && b.pc == Touch
    ensures var x := Solo(parent, s, b, k, now); x.1.pc == Replied && Leaves(s, x.0, b.req, b.seen.value, t)
  {
    var x := StepBeat(parent, s, b, Acked, now);
    TouchUpdates(s, b, now, t);
    k := 0;
    if x.1.pc != Replied {
      ReadyStep(parent, s, b, now);
      k := FinishPushing(parent, x.0, x.1, now);
    }
    var y := Solo(parent, x.0, x.1, k, now);
    assert Published(x.0, y.0, x.1);
    assert t in x.1.todo <==> Changed(b.seen.value, b.req, t);
    k := k + 1;
  }

  lemma {:induction false} FinishFromLookup(parent: string, s: Stores, b: Beat, now: Time, t: RecordType)
    returns (k: nat)
    requires Ready(parent, s, b) && b.pc == Lookup
    ensures b.req.deviceId in s.devices
    ensures var x := Solo(parent, s, b, k, now);
            x.1.pc == Replied && Leaves(s, x.0, b.req, s.devices[b.req.deviceId], t)
  {
    var x := StepBeat(parent, s, b, Acked, now);
    assert x == StepLookup(s, b, Acked);
    ReadyStep(parent, s, b, now);
    k := FinishFromTouch(parent, x.0, x.1, now, t);
    k := k + 1;
  }

  lemma FinishBeat(parent: string, s: Stores, b: Beat, now: Time) returns (k: nat)
    requires Ready(parent, s, b)
    ensures Solo(parent, s, b, k, now).1.pc == Replied
  {
    match b.pc {
      case Replied => k := 0;
      case Lookup => k := FinishFromLookup(parent, s, b, now, A);
      case Touch => k := FinishFromTouch(parent, s, b, now, A);
      case _ => k := FinishPushing(parent, s, b, now);
    }
  }

  // ---------- extending a run ----------

  lemma {:induction false} StepsFinish(h: nat, k: nat, now: Time)
    ensures Finishing(Steps(h, k, now)) && forall e :: e in Steps(h, k, now) ==> e == Go(h, Acked, now)
  {
    if k > 0 {
      StepsFinish(h, k - 1, now);
    }
  }

  lemma {:induction false} FinishingIsHonest(parent: string, es: seq<Event>, more: seq<Event>)
    requires HonestRun(parent, es) && Finishing(more)
    ensures HonestRun(parent, es + more)
  {
    var all := es + more;
    forall i | 0 <= i < |all|
      ensures HonestAt(parent, all, i)
    {
      if i < |es| {
        assert all[..i] == es[..i] && HonestAt(parent, es, i);
      } else {
        assert all[i] in more;
      }
    }
  }

  lemma {:induction false} FinishingIsClashFree(parent: string, es: seq<Event>, more: seq<Event>)
    requires NoClashRun(parent, es) && Finishing(more)
    ensures NoClashRun(parent, es + more)
  {
    var all := es + more;
    forall i | 0 <= i < |all|
      ensures NoClashAt(parent, all, i)
    {
      if i < |es| {
        assert all[..i] == es[..i] && NoClashAt(parent, es, i);
      } else {
        assert all[i] in more;
      }
    }
  }

  lemma {:induction false} FinishingIsSmooth(parent: string, es: seq<Event>, more: seq<Event>)
    requires SmoothRun(parent, es) && Finishing(more)
    ensures SmoothRun(parent, es + more)
  {
    var all := es + more;
    forall i | 0 <= i < |all|
      ensures SmoothAt(parent, all, i)
    {
      if i < |es| {
        assert all[..i] == es[..i] && SmoothAt(parent, es, i);
      } else {
        assert all[i] in more;
      }
    }
  }

  /** A run that goes on with k steps of one beat. */
  lemma {:induction false} RunThenSolo(parent: string, es: seq<Event>, h: nat, b: Beat, k: nat, now: Time)
    requires var w := Run(parent, Init(), es); h in w.handlers && w.handlers[h] == Hb(b)
    ensures CoherentBeat(b)
    ensures var w := Run(parent, Init(), es); var x := Solo(parent, w.s, b, k, now);
            Run(parent, Init(), es + Steps(h, k, now)) == World(x.0, w.handlers[h := Hb(x.1)])
  {
    assert Run(parent, Init(), es).handlers[h].Sound();
    SoloRuns(parent, Run(parent, Init(), es), h, b, k, now);
    RunAppend(parent, Init(), es, Steps(h, k, now));
  }

  lemma {:induction false} ReadyInRun(parent: string, es: seq<Event>, h: nat, b: Beat)
    requires HonestRun(parent, es)
    requires var w := Run(parent, Init(), es); h in w.handlers && w.handlers[h] == Hb(b)
    ensures Ready(parent, Run(parent, Init(), es).s, b)
  {
    var w := Run(parent, Init(), es);
    HonestRunsAreSane(parent, es);
    RecordsAreConserved(parent, es);
    assert Local(parent, w.s, w.handlers[h]);
    assert Holdings(w)[h] == w.handlers[h].Owned();
  }

  // ---------- the other beats finish ----------

  function OthersInFlight(w: World, g: nat, d: string): set<nat> {
    set x | x in w.handlers && x != g && Retry.InFlight(w.handlers[x], d)
  }

  /** Only request x moved, and it has replied. */
  ghost predicate Finished1(w: World, w': World, x: nat) {
    x in w'.handlers && w'.handlers == w.handlers[x := w'.handlers[x]]
    && w'.handlers[x].Hb? && w'.handlers[x].b.pc == Replied
  }

  /** g's frame is as it was, and no request came or went. */
  predicate Spared(w: World, w': World, g: nat) {
    w'.handlers.Keys == w.handlers.Keys && (g in w.handlers ==> w'.handlers[g] == w.handlers[g])
  }

  predicate Among(more: seq<Event>, w: World) {
    forall e :: e in more ==> e.Go? && e.h in w.handlers
  }

  /** Any one beat of the run can be finished with nothing else moving. */
  lemma {:induction false} FinishOne(parent: string, es: seq<Event>, x: nat, now: Time) returns (more: seq<Event>)
    requires HonestRun(parent, es)
    requires x in Run(parent, Init(), es).handlers && Run(parent, Init(), es).handlers[x].Hb?
    ensures Finishing(more) && Among(more, Run(parent, Init(), es))
    ensures Finished1(Run(parent, Init(), es), Run(parent, Init(), es + more), x)
  {
    var w := Run(parent, Init(), es);
    var b := w.handlers[x].b;
    ReadyInRun(parent, es, x, b);
    var k := FinishBeat(parent, w.s, b, now);
    more := Steps(x, k, now);
    StepsFinish(x, k, now);
    RunThenSolo(parent, es, x, b, k, now);
  }

  lemma OthersShrink(w: World, w1: World, x: nat, g: nat, d: string)
    requires Finished1(w, w1, x) && x in OthersInFlight(w, g, d)
    ensures OthersInFlight(w1, g, d) == OthersInFlight(w, g, d) - {x} && Spared(w, w1, g)
  {
  }

  /** The events move only requests of w, spare g, and lead to w'. */
  ghost predicate Leads(more: seq<Event>, w: World, w': World, g: nat) {
    Finishing(more) && Among(more, w) && Spared(w, w', g)
  }

  lemma LeadsOn(first: seq<Event>, rest: seq<Event>, w: World, w1: World, w2: World, g: nat)
    requires Leads(first, w, w1, g) && Leads(rest, w1, w2, g)
    ensures Leads(first + rest, w, w2, g)
  {
  }

  lemma Regrouped(es: seq<Event>, a: seq<Event>, b: seq<Event>)
    ensures es + a + b == es + (a + b)
  {
  }

  lemma {:induction false} FinishOthers(parent: string, es: seq<Event>, w: World, g: nat, d: string, now: Time,
                                        todo: set<nat>) returns (more: seq<Event>, w': World)
    requires HonestRun(parent, es) && w == Run(parent, Init(), es) && todo == OthersInFlight(w, g, d)
    ensures w' == Run(parent, Init(), es + more) && Leads(more, w, w', g) && OthersInFlight(w', g, d) == {}
    decreases todo
  {
    if todo == {} {
      more, w' := [], w;
      assert es + more == es;
    } else {
      var x :| x in todo;
      var first := FinishOne(parent, es, x, now);
      var w1 := Run(parent, Init(), es + first);
      OthersShrink(w, w1, x, g, d);
      FinishingIsHonest(parent, es, first);
      var rest;
      rest, w' := FinishOthers(parent, es + first, w1, g, d, now, todo - {x});
      more := first + rest;
      LeadsOn(first, rest, w, w1, w', g);
      Regrouped(es, first, rest);
    }
  }

  // ---------- the beat that may still push reaches its decision ----------

  /** g carries v to push for (d, t), or has seen it on the row; either way the row says v. */
  ghost predicate Poised(w: World, g: nat, d: string, t: RecordType) {
    && g in w.handlers && OnDevice(w.handlers[g], d) && w.handlers[g].Sound()
    && d in w.s.devices && Reported(w.handlers[g].b.req, t).Some?
    && Stored(w.s.devices[d], t) == Reported(w.handlers[g].b.req, t)
    && ((w.handlers[g].b.pc == Touch && !Changed(w.handlers[g].b.seen.value, w.handlers[g].b.req, t))
        || (w.handlers[g].b.InSync() && t in w.handlers[g].b.todo))
  }

  /** The steps g takes until it is poised. */
  lemma PoisedSoon(parent: string, s: Stores, b: Beat, now: Time, t: RecordType) returns (k: nat)
    requires Ready(parent, s, b) && MayPush(Hb(b), b.req.deviceId, t)
    ensures var x := Solo(parent, s, b, k, now);
            && x.1.pc in {Touch, GetPointer, Create, SaveNew, Update, SaveOld}
            && (x.1.pc == Touch ==> !Changed(x.1.seen.value, b.req, t)) && (x.1.pc != Touch ==> t in x.1.todo)
  {
    k := 0;
    var b1 := b;
    if b.pc == Lookup {
      assert StepBeat(parent, s, b, Acked, now) == StepLookup(s, b, Acked);
      b1 := StepLookup(s, b, Acked).1;
      k := 1;
    }
    if b1.pc == Touch && Changed(b1.seen.value, b.req, t) {
      var x := Solo(parent, s, b, k, now);
      if k == 1 {
        assert x == StepLookup(s, b, Acked);
      }
      TouchUpdates(x.0, b1, now, t);
      assert t in StepTouch(x.0, b1, Acked, now).1.todo;
      k := k + 1;
    }
  }

  lemma {:induction false} BecomesPoised(parent: string, es: seq<Event>, g: nat, d: string, t: RecordType, now: Time)
    returns (more: seq<Event>)
    requires HonestRun(parent, es) && NoClashRun(parent, es)
    requires var w := Run(parent, Init(), es); g in w.handlers && MayPush(w.handlers[g], d, t)
    ensures Finishing(more) && Among(more, Run(parent, Init(), es))
    ensures Moved1(Run(parent, Init(), es), Run(parent, Init(), es + more), g)
    ensures Poised(Run(parent, Init(), es + more), g, d, t)
  {
    var w := Run(parent, Init(), es);
    var b := w.handlers[g].b;
    ReadyInRun(parent, es, g, b);
    var k := PoisedSoon(parent, w.s, b, now, t);
    more := Steps(g, k, now);
    StepsFinish(g, k, now);
    RunThenSolo(parent, es, g, b, k, now);
    FineLater(parent, es, more, g);
    CurrentIsPoised(Run(parent, Init(), es + more), g, d, t);
  }

  lemma {:induction false} FineLater(parent: string, es: seq<Event>, more: seq<Event>, g: nat)
    requires HonestRun(parent, es) && NoClashRun(parent, es) && Finishing(more)
    requires g in Run(parent, Init(), es + more).handlers
    ensures Fine(Run(parent, Init(), es + more).s, Run(parent, Init(), es + more).handlers[g])
  {
    FinishingIsHonest(parent, es, more);
    FinishingIsClashFree(parent, es, more);
    ClashFreeRunsAreConsistent(parent, es + more);
  }

  /** Only beat g moved, and it is the same beat. */
  ghost predicate Moved1(w: World, w': World, g: nat) {
    g in w.handlers && g in w'.handlers && w'.handlers == w.handlers[g := w'.handlers[g]]
    && w.handlers[g].Hb? && w'.handlers[g].Hb? && w'.handlers[g].b.req == w.handlers[g].b.req
  }

  lemma CurrentIsPoised(w: World, g: nat, d: string, t: RecordType)
    requires g in w.handlers && OnDevice(w.handlers[g], d) && Fine(w.s, w.handlers[g])
    requires var b := w.handlers[g].b;
             && b.pc in {Touch, GetPointer, Create, SaveNew, Update, SaveOld}
             && (b.pc == Touch ==> Reported(b.req, t).Some? && !Changed(b.seen.value, b.req, t))
             && (b.pc != Touch ==> t in b.todo)
    ensures Poised(w, g, d, t)
  {
    assert w.handlers[g].Sound();
  }

  // ---------- the clash plays out ----------

  /** The row has an address for (d, t), and the three copies do not agree. */
  predicate Parted(s: Stores, d: string, t: RecordType) {
    HasAddress(s, d, t) && !ThreeWay(s, d, t)
  }

  /** The second beat has published u, then the first updates the row without pushing: the row says v again. */
  lemma RowMovesOn(s0: Stores, s1: Stores, s2: Stores, beat: BeatReq, g: BeatReq, seen: Device, t: RecordType)
    requires beat.deviceId in s0.devices && g.deviceId == beat.deviceId
    requires Leaves(s0, s1, beat, s0.devices[beat.deviceId], t) && Changed(s0.devices[beat.deviceId], beat, t)
    requires Leaves(s1, s2, g, seen, t) && !Changed(seen, g, t)
    requires Reported(g, t).Some? && Reported(g, t) != Reported(beat, t)
    ensures Parted(s2, beat.deviceId, t)
  {
  }

  /** The second beat has published u, then the first publishes v: the row still says u. */
  lemma RecordMovesBack(s0: Stores, s1: Stores, s2: Stores, beat: BeatReq, b: Beat, t: RecordType)
    requires beat.deviceId in s0.devices && b.req.deviceId == beat.deviceId
    requires Leaves(s0, s1, beat, s0.devices[beat.deviceId], t) && Changed(s0.devices[beat.deviceId], beat, t)
    requires Published(s1, s2, b) && t in b.todo
    requires Reported(b.req, t).Some? && Reported(b.req, t) != Reported(beat, t)
    ensures Parted(s2, beat.deviceId, t)
  {
  }

  /** The first beat's steps after the second has finished. */
  lemma FirstBeatParts(parent: string, s0: Stores, s1: Stores, beat: BeatReq, b: Beat, t: RecordType, now: Time)
    returns (k: nat)
    requires beat.deviceId in s0.devices && b.req.deviceId == beat.deviceId && Ready(parent, s1, b)
    requires Leaves(s0, s1, beat, s0.devices[beat.deviceId], t) && Changed(s0.devices[beat.deviceId], beat, t)
    requires Reported(b.req, t).Some? && Reported(b.req, t) != Reported(beat, t)
    requires (b.pc == Touch && !Changed(b.seen.value, b.req, t)) || (b.InSync() && t in b.todo)
    ensures var x := Solo(parent, s1, b, k, now); x.1.pc == Replied && Parted(x.0, beat.deviceId, t)
  {
    if b.pc == Touch {
      k := FinishFromTouch(parent, s1, b, now, t);
      RowMovesOn(s0, s1, Solo(parent, s1, b, k, now).0, beat, b.req, b.seen.value, t);
    } else {
      k := FinishPushing(parent, s1, b, now);
      RecordMovesBack(s0, s1, Solo(parent, s1, b, k, now).0, beat, b, t);
    }
  }

  /** The second beat has arrived, the first is poised, and the device's other beats have replied. */
  ghost predicate Facing(w: World, g: nat, h: nat, beat: BeatReq, t: RecordType) {
    && h != g && h in w.handlers && w.handlers[h] == Hb(StartBeat(beat))
    && Poised(w, g, beat.deviceId, t)
    && Reported(beat, t).Some? && Reported(w.handlers[g].b.req, t) != Reported(beat, t)
    && OthersInFlight(w, g, beat.deviceId) == {h}
  }

  lemma AllReplied(w: World, x: World, y: World, g: nat, h: nat, d: string)
    requires OthersInFlight(w, g, d) == {h} && h != g && Finished1(w, x, h) && Finished1(x, y, g)
    ensures Quiet(y, d)
  {
    forall z | z in y.handlers && OnDevice(y.handlers[z], d)
      ensures y.handlers[z].b.pc == Replied
    {
      assert z != g && z != h ==> z !in OthersInFlight(w, g, d);
    }
  }

  lemma {:induction false} FacingParts(parent: string, es: seq<Event>, g: nat, h: nat, beat: BeatReq, t: RecordType,
                                       now: Time) returns (more: seq<Event>)
    requires HonestRun(parent, es) && Facing(Run(parent, Init(), es), g, h, beat, t)
    ensures Finishing(more)
    ensures var w' := Run(parent, Init(), es + more); Quiet(w', beat.deviceId) && Parted(w'.s, beat.deviceId, t)
  {
    var w := Run(parent, Init(), es);
    var first, second := w.handlers[g].b, StartBeat(beat);
    ReadyInRun(parent, es, h, second);
    var kh := FinishFromLookup(parent, w.s, second, now, t);
    var m1 := Steps(h, kh, now);
    StepsFinish(h, kh, now);
    RunThenSolo(parent, es, h, second, kh, now);
    FinishingIsHonest(parent, es, m1);
    var w1 := Run(parent, Init(), es + m1);
    ReadyInRun(parent, es + m1, g, first);
    var kg := FirstBeatParts(parent, w.s, w1.s, beat, first, t, now);
    var m2 := Steps(g, kg, now);
    StepsFinish(g, kg, now);
    RunThenSolo(parent, es + m1, g, first, kg, now);
    AllReplied(w, w1, Run(parent, Init(), es + m1 + m2), g, h, beat.deviceId);
    Regrouped(es, m1, m2);
    more := m1 + m2;
  }

  // ---------- the arriving beat waits while the others move ----------

  /** w with one more request that has not moved yet. */
  function With(w: World, h: nat, p: SoundHandler): World {
    w.(handlers := w.handlers[h := p])
  }

  lemma {:induction false} FrameWaits(parent: string, w: World, h: nat, p: SoundHandler, more: seq<Event>)
    requires h !in w.handlers && forall e :: e in more ==> e.Go? && e.h != h
    ensures h !in Run(parent, w, more).handlers
    ensures Run(parent, With(w, h, p), more) == With(Run(parent, w, more), h, p)
  {
    if more != [] {
      var k := |more| - 1;
      FrameWaits(parent, w, h, p, more[..k]);
      GoWaits(parent, Run(parent, w, more[..k]), h, p, more[k]);
    }
  }

  lemma GoWaits(parent: string, w: World, h: nat, p: SoundHandler, e: Event)
    requires h !in w.handlers && e.Go? && e.h != h
    ensures h !in Next(parent, w, e).handlers
    ensures Next(parent, With(w, h, p), e) == With(Next(parent, w, e), h, p)
  {
    if e.h in w.handlers {
      var q := w.handlers[e.h].Advance(parent, w.s, e.o, e.now).1;
      assert w.handlers[h := p][e.h := q] == w.handlers[e.h := q][h := p];
    }
  }

  /** The other beats of the device finish and g becomes poised, before the new beat is looked at. */
  lemma {:induction false} Prepare(parent: string, es: seq<Event>, w: World, g: nat, d: string, t: RecordType,
                                   now: Time)
    returns (more: seq<Event>, w': World)
    requires HonestRun(parent, es) && NoClashRun(parent, es) && w == Run(parent, Init(), es)
    requires g in w.handlers && MayPush(w.handlers[g], d, t)
    ensures w' == Run(parent, Init(), es + more) && Finishing(more) && Among(more, w)
    ensures w'.handlers.Keys == w.handlers.Keys && OthersInFlight(w', g, d) == {}
    ensures Poised(w', g, d, t) && w'.handlers[g].b.req == w.handlers[g].b.req
  {
    var m1, w1 := FinishOthers(parent, es, w, g, d, now, OthersInFlight(w, g, d));
    FinishingIsHonest(parent, es, m1);
    FinishingIsClashFree(parent, es, m1);
    var m2 := BecomesPoised(parent, es + m1, g, d, t, now);
    w' := Run(parent, Init(), es + m1 + m2);
    StillOthersDone(w1, w', g, d);
    Regrouped(es, m1, m2);
    more := m1 + m2;
  }

  lemma StillOthersDone(w: World, w': World, g: nat, d: string)
    requires Moved1(w, w', g) && OthersInFlight(w, g, d) == {}
    ensures OthersInFlight(w', g, d) == {}
  {
    forall x | x in w'.handlers && x != g
      ensures !Retry.InFlight(w'.handlers[x], d)
    {
      assert x !in OthersInFlight(w, g, d);
    }
  }

  lemma NowFacing(w: World, g: nat, h: nat, beat: BeatReq, t: RecordType)
    requires h !in w.handlers && Poised(w, g, beat.deviceId, t) && OthersInFlight(w, g, beat.deviceId) == {}
    requires Reported(beat, t).Some? && Reported(w.handlers[g].b.req, t) != Reported(beat, t)
    ensures Facing(With(w, h, Hb(StartBeat(beat))), g, h, beat, t)
  {
    var w' := With(w, h, Hb(StartBeat(beat)));
    forall x
      ensures x in OthersInFlight(w', g, beat.deviceId) <==> x == h
    {
      if x in w.handlers && x != g {
        assert x !in OthersInFlight(w, g, beat.deviceId);
      }
    }
  }

  lemma {:induction false} ReportIsHonest(parent: string, es: seq<Event>, h: nat, beat: BeatReq)
    requires HonestRun(parent, es) && Honest(Run(parent, Init(), es), Report(h, beat))
    ensures HonestRun(parent, es + [Report(h, beat)])
  {
    var all := es + [Report(h, beat)];
    forall i | 0 <= i < |all|
      ensures HonestAt(parent, all, i)
    {
      assert all[..i] == es[..i];
      assert i < |es| ==> HonestAt(parent, es, i);
    }
  }

  /** The run in which the beat arrives and waits while the others move. */
  lemma {:induction false} WaitingRun(parent: string, es: seq<Event>, h: nat, beat: BeatReq, more: seq<Event>)
    requires h !in Run(parent, Init(), es).handlers && Finishing(more) && Among(more, Run(parent, Init(), es))
    ensures Run(parent, Init(), es + [Report(h, beat)] + more) ==
            With(Run(parent, Init(), es + more), h, Hb(StartBeat(beat)))
  {
    var w := Run(parent, Init(), es);
    FrameWaits(parent, w, h, Hb(StartBeat(beat)), more);
    RunAppend(parent, Init(), es, more);
    RunAppend(parent, Init(), es + [Report(h, beat)], more);
    assert (es + [Report(h, beat)])[..|es|] == es;
  }

  /** An arriving beat that clashes can be served so that the copies end apart, although no call fails. */
  lemma {:induction false} ClashCanPart(parent: string, es: seq<Event>, g: nat, h: nat, beat: BeatReq, t: RecordType,
                                        now: Time) returns (more: seq<Event>)
    requires HonestRun(parent, es) && NoClashRun(parent, es)
    requires var w := Run(parent, Init(), es);
             g in w.handlers && Clash(w.handlers[g], beat, t) && h !in w.handlers && Honest(w, Report(h, beat))
    ensures Finishing(more)
    ensures var w' := Run(parent, Init(), es + [Report(h, beat)] + more);
            Quiet(w', beat.deviceId) && Parted(w'.s, beat.deviceId, t)
  {
    var w := Run(parent, Init(), es);
    var m1, w1 := Prepare(parent, es, w, g, beat.deviceId, t, now);
    NowFacing(w1, g, h, beat, t);
    WaitingRun(parent, es, h, beat, m1);
    ReportIsHonest(parent, es, h, beat);
    var arrived := es + [Report(h, beat)];
    FinishingIsHonest(parent, arrived, m1);
    var m2 := FacingParts(parent, arrived + m1, g, h, beat, t, now);
    Regrouped(arrived, m1, m2);
    more := m1 + m2;
  }

  // ---------- exactly when an overlap is safe ----------

  lemma {:induction false} ReportIsClashFree(parent: string, es: seq<Event>, h: nat, beat: BeatReq)
    requires NoClashRun(parent, es) && NoClash(Run(parent, Init(), es), Report(h, beat))
    ensures NoClashRun(parent, es + [Report(h, beat)])
  {
    var all := es + [Report(h, beat)];
    forall i | 0 <= i < |all|
      ensures NoClashAt(parent, all, i)
    {
      assert all[..i] == es[..i];
      assert i < |es| ==> NoClashAt(parent, es, i);
    }
  }

  lemma {:induction false} ReportIsSmooth(parent: string, es: seq<Event>, h: nat, beat: BeatReq)
    requires SmoothRun(parent, es)
    ensures SmoothRun(parent, es + [Report(h, beat)])
  {
    var all := es + [Report(h, beat)];
    forall i | 0 <= i < |all|
      ensures SmoothAt(parent, all, i)
    {
      assert all[..i] == es[..i];
      assert i < |es| ==> SmoothAt(parent, es, i);
    }
  }

  /** Every way of finishing after the beat's arrival ends with the copies together. */
  ghost predicate AlwaysTogether(parent: string, arrived: seq<Event>, d: string) {
    forall more, t :: Finishing(more) && Quiet(Run(parent, Init(), arrived + more), d) ==>
      !Parted(Run(parent, Init(), arrived + more).s, d, t)
  }

  lemma {:induction false} NoClashStaysTogether(parent: string, es: seq<Event>, h: nat, beat: BeatReq, more: seq<Event>,
                                                t: RecordType)
    requires HonestRun(parent, es) && NoClashRun(parent, es) && SmoothRun(parent, es)
    requires Honest(Run(parent, Init(), es), Report(h, beat)) && NoClash(Run(parent, Init(), es), Report(h, beat))
    requires Finishing(more) && Quiet(Run(parent, Init(), es + [Report(h, beat)] + more), beat.deviceId)
    ensures !Parted(Run(parent, Init(), es + [Report(h, beat)] + more).s, beat.deviceId, t)
  {
    var arrived := es + [Report(h, beat)];
    var w := Run(parent, Init(), es);
    var owner :| owner in w.handlers && IssuedTo(w.handlers[owner], beat.deviceId, beat.subdomain);
    AnsweredStaysAnswered(parent, es, [Report(h, beat)] + more, owner);
    Regrouped(es, [Report(h, beat)], more);
    ReportIsHonest(parent, es, h, beat);
    ReportIsClashFree(parent, es, h, beat);
    ReportIsSmooth(parent, es, h, beat);
    FinishingIsHonest(parent, arrived, more);
    FinishingIsClashFree(parent, arrived, more);
    FinishingIsSmooth(parent, arrived, more);
    var w' := Run(parent, Init(), arrived + more);
    assert CreatedOn(w'.handlers[owner], beat.deviceId);
    if HasAddress(w'.s, beat.deviceId, t) {
      ReportedAddressAgrees(parent, arrived + more, owner, beat.deviceId, t);
    }
  }

  /**
   * Overlapping beats, exactly: after a run in which no call failed, a beat
   * may be accepted - every way of serving it and the requests in flight
   * without failure ends, between beats, with the device's three copies
   * together - if and only if no beat of the device in flight may still push
   * an address for some type other than the one it reports.
   */
  lemma {:induction false} OverlapSafeIffNoClash(parent: string, es: seq<Event>, h: nat, beat: BeatReq)
    requires HonestRun(parent, es) && NoClashRun(parent, es) && SmoothRun(parent, es)
    requires h !in Run(parent, Init(), es).handlers && Honest(Run(parent, Init(), es), Report(h, beat))
    ensures NoClash(Run(parent, Init(), es), Report(h, beat)) <==>
            AlwaysTogether(parent, es + [Report(h, beat)], beat.deviceId)
  {
    var w := Run(parent, Init(), es);
    if NoClash(w, Report(h, beat)) {
      forall more, t | Finishing(more) && Quiet(Run(parent, Init(), es + [Report(h, beat)] + more), beat.deviceId)
        ensures !Parted(Run(parent, Init(), es + [Report(h, beat)] + more).s, beat.deviceId, t)
      {
        NoClashStaysTogether(parent, es, h, beat, more, t);
      }
    } else {
      var g, t :| g in w.handlers && Clash(w.handlers[g], beat, t);
      var more := ClashCanPart(parent, es, g, h, beat, t, 0);
      assert Finishing(more);
    }
  }

  // ---------- the concrete overlap ----------

  lemma EnrollmentIsHonest(parent: string)
    ensures HonestRun(parent, Retry.ENROLLED) && NoClashRun(parent, Retry.ENROLLED)
  {
    assert forall i :: 0 <= i < |Retry.ENROLLED| ==> !Retry.ENROLLED[i].Report?;
  }

  /** The enrolled cam's first beat has arrived: handler 0 is the registration, handler 1 the beat. */
  lemma FirstBeatArrives(parent: string, v: Addr)
    ensures var es := Retry.ENROLLED + [Report(1, Retry.CamBeat(v))]; var w := Run(parent, Init(), es);
            && HonestRun(parent, es) && NoClashRun(parent, es) && w.handlers.Keys == {0, 1}
            && IssuedTo(w.handlers[0], "cam", "porch") && w.handlers[1] == Hb(StartBeat(Retry.CamBeat(v)))
  {
    var es := Retry.ENROLLED;
    Retry.EnrolledWorld(parent);
    EnrollmentIsHonest(parent);
    assert IssuedTo(Run(parent, Init(), es).handlers[0], "cam", "porch");
    ReportIsHonest(parent, es, 1, Retry.CamBeat(v));
    ReportIsClashFree(parent, es, 1, Retry.CamBeat(v));
    assert (es + [Report(1, Retry.CamBeat(v))])[..|es|] == es;
  }

  /**
   * Two beats of one enrolled cam with different addresses, the second
   * accepted before the first is served: the copies can end apart although no
   * call fails.
   */
  lemma OverlappingBeatsDiverge(parent: string, v: Addr, u: Addr) returns (more: seq<Event>)
    requires u != v
    ensures Finishing(more)
    ensures var w := Run(parent, Init(), Retry.ENROLLED + [Report(1, Retry.CamBeat(v))]
                                         + [Report(2, Retry.CamBeat(u))] + more);
            Quiet(w, "cam") && Parted(w.s, "cam", A)
  {
    FirstBeatArrives(parent, v);
    var es := Retry.ENROLLED + [Report(1, Retry.CamBeat(v))];
    assert Clash(Run(parent, Init(), es).handlers[1], Retry.CamBeat(u), A);
    more := ClashCanPart(parent, es, 1, 2, Retry.CamBeat(u), A, 0);
  }
}
