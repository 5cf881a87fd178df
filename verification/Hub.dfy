/**
 * registerDevice, heartbeatDevice and syncDNS as the sequential code they
 * are, over the database and Cloudflare objects, while other requests run
 * between any two of their calls. Their contracts say that what they do is a
 * run of the step machine, so everything proved of all runs holds of them.
 */
module Hub {
  import opened Common
  import opened Tables
  import opened Db
  import opened Requests
  import Subdomain

  /** What happens around one call: the other requests' events before it, its outcome, and its time. */
  datatype Turn = Turn(others: seq<Event>, o: Outcome, now: Time)

  predicate Touches(e: Event, h: nat) {
    (e.Arrive? || e.Report? || e.Go?) && e.h == h
  }

  ghost predicate Foreign(h: nat, t: Turn) {
    forall e :: e in t.others ==> !Touches(e, h)
  }

  lemma RunSnoc(parent: string, w: World, es: seq<Event>, e: Event)
    ensures Run(parent, w, es + [e]) == Next(parent, Run(parent, w, es), e)
  {
    assert (es + [e])[..|es|] == es;
  }

  predicate SameFrame(w: World, w': World, h: nat) {
    (h in w'.handlers <==> h in w.handlers) && (h in w.handlers ==> w'.handlers[h] == w.handlers[h])
  }

  lemma OtherKeepsFrame(parent: string, w: World, e: Event, h: nat)
    requires !Touches(e, h)
    ensures SameFrame(w, Next(parent, w, e), h)
  {
  }

  lemma {:induction false} OthersKeepFrame(parent: string, w: World, es: seq<Event>, h: nat)
    requires forall e :: e in es ==> !Touches(e, h)
    ensures SameFrame(w, Run(parent, w, es), h)
  {
    if es != [] {
      OthersKeepFrame(parent, w, es[..|es| - 1], h);
      OtherKeepsFrame(parent, Run(parent, w, es[..|es| - 1]), es[|es| - 1], h);
    }
  }

  /** The run so far, then one turn: the others' events and request h's own call. */
  ghost function After(es: seq<Event>, h: nat, t: Turn): seq<Event> {
    es + t.others + [Go(h, t.o, t.now)]
  }

  /** Request h arrives, then takes these turns. */
  ghost function Taken(first: Event, h: nat, ts: seq<Turn>): seq<Event> {
    if ts == [] then [first] else After(Taken(first, h, ts[..|ts| - 1]), h, ts[|ts| - 1])
  }

  /** ts are the first k turns of the schedule, and es the run they make. */
  ghost predicate OnSchedule(es: seq<Event>, first: Event, h: nat, sched: nat -> Turn, ts: seq<Turn>, k: nat) {
    es == Taken(first, h, ts) && |ts| == k && forall i :: 0 <= i < k ==> ts[i] == sched(i)
  }

  lemma NextTurn(es: seq<Event>, first: Event, h: nat, sched: nat -> Turn, ts: seq<Turn>, k: nat)
    returns (es': seq<Event>, ts': seq<Turn>)
    requires OnSchedule(es, first, h, sched, ts, k)
    ensures es' == After(es, h, sched(k)) && OnSchedule(es', first, h, sched, ts', k + 1) && ts' == ts + [sched(k)]
  {
    ts' := ts + [sched(k)];
    es' := After(es, h, sched(k));
    assert ts'[..k] == ts;
  }

  /** Request h arrives, then takes the first n turns of its schedule. */
  ghost function Turns(first: Event, h: nat, sched: nat -> Turn, n: nat): seq<Event> {
    if n == 0 then [first] else After(Turns(first, h, sched, n - 1), h, sched(n - 1))
  }

  lemma {:induction false} TakenIsTurns(first: Event, h: nat, sched: nat -> Turn, ts: seq<Turn>)
    requires forall i :: 0 <= i < |ts| ==> ts[i] == sched(i)
    ensures Taken(first, h, ts) == Turns(first, h, sched, |ts|)
  {
    if ts != [] {
      TakenIsTurns(first, h, sched, ts[..|ts| - 1]);
    }
  }

  datatype Probe = Free | InUse | Failed

  /** The names in use when the call of turn i runs. */
  ghost function NamesAt(parent: string, w0: World, first: Event, h: nat, ts: seq<Turn>, i: nat): set<string>
    requires i < |ts|
  {
    Names(Run(parent, w0, Taken(first, h, ts[..i]) + ts[i].others).s.devices)
  }

  /** Candidate m was taken when probed, one probe a turn from turn k0 on. */
  ghost predicate TakenAt(parent: string, w0: World, first: Event, h: nat, ts: seq<Turn>, k0: nat,
                          base: string, m: nat)
    requires 1 <= m && k0 + m <= |ts|
  {
    Subdomain.Candidate(base, m) in NamesAt(parent, w0, first, h, ts, k0 + m - 1)
  }

  /** So was every candidate before n. */
  ghost predicate TakenWhenProbed(parent: string, w0: World, first: Event, h: nat, ts: seq<Turn>, k0: nat,
                                  base: string, n: nat)
  {
    1 <= n && k0 + n - 1 <= |ts| && forall m :: 1 <= m < n ==> TakenAt(parent, w0, first, h, ts, k0, base, m)
  }

  /**
   * What a search of the turns k0 to k - 1 found: a name free at its own probe
   * after earlier candidates taken at theirs, or all 99 taken at theirs.
   */
  ghost predicate Searched(parent: string, w0: World, first: Event, h: nat, ts: seq<Turn>, k0: nat, k: nat,
                           base: string, probe: Probe, name: string)
  {
    && k0 < k == |ts| && k - k0 <= Subdomain.MAX_SUFFIX
    && (probe == Free ==>
          && name == Subdomain.Candidate(base, k - k0)
          && TakenWhenProbed(parent, w0, first, h, ts, k0, base, k - k0)
          && !TakenAt(parent, w0, first, h, ts, k0, base, k - k0))
    && (probe == InUse ==>
          k - k0 == Subdomain.MAX_SUFFIX && TakenWhenProbed(parent, w0, first, h, ts, k0, base, k - k0 + 1))
  }

  lemma TakenAtKept(parent: string, w0: World, first: Event, h: nat, ts: seq<Turn>, t: Turn, k0: nat,
                    base: string, m: nat)
    requires 1 <= m && k0 + m <= |ts|
    ensures TakenAt(parent, w0, first, h, ts + [t], k0, base, m) == TakenAt(parent, w0, first, h, ts, k0, base, m)
  {
    assert (ts + [t])[..k0 + m - 1] == ts[..k0 + m - 1];
  }

  lemma TakenAtLast(parent: string, w0: World, first: Event, h: nat, ts: seq<Turn>, t: Turn, k0: nat,
                    base: string, m: nat)
    requires 1 <= m && k0 + m == |ts| + 1
    ensures TakenAt(parent, w0, first, h, ts + [t], k0, base, m) <==>
            Subdomain.Candidate(base, m) in Names(Run(parent, w0, Taken(first, h, ts) + t.others).s.devices)
  {
    assert (ts + [t])[..|ts|] == ts;
  }

  lemma StillTaken(parent: string, w0: World, first: Event, h: nat, ts: seq<Turn>, t: Turn, k0: nat,
                   base: string, n: nat)
    requires TakenWhenProbed(parent, w0, first, h, ts, k0, base, n)
    ensures TakenWhenProbed(parent, w0, first, h, ts + [t], k0, base, n)
  {
    forall m | 1 <= m < n
      ensures TakenAt(parent, w0, first, h, ts + [t], k0, base, m)
    {
      TakenAtKept(parent, w0, first, h, ts, t, k0, base, m);
    }
  }

  /** One probe more, of candidate n: it ends the search or moves it on. */
  lemma OneMoreProbe(parent: string, w0: World, first: Event, h: nat, ts: seq<Turn>, t: Turn, k0: nat,
                     base: string, n: nat, probe: Probe)
    requires n <= Subdomain.MAX_SUFFIX && k0 + n - 1 == |ts| && TakenWhenProbed(parent, w0, first, h, ts, k0, base, n)
    requires probe != Failed ==>
               (probe == InUse <==>
                Subdomain.Candidate(base, n) in Names(Run(parent, w0, Taken(first, h, ts) + t.others).s.devices))
    ensures probe == InUse ==> TakenWhenProbed(parent, w0, first, h, ts + [t], k0, base, n + 1)
    ensures probe != InUse || n == Subdomain.MAX_SUFFIX ==>
              Searched(parent, w0, first, h, ts + [t], k0, k0 + n, base, probe, Subdomain.Candidate(base, n))
  {
    TakenAtLast(parent, w0, first, h, ts, t, k0, base, n);
    StillTaken(parent, w0, first, h, ts, t, k0, base, n);
  }

  lemma FirstEvent(parent: string, w: World, first: Event) returns (es: seq<Event>)
    ensures es == [first] && Run(parent, w, es) == Next(parent, w, first)
  {
    es := [first];
    RunSnoc(parent, w, [], first);
    assert [] + [first] == es;
  }

  /** What the scheduler's event does to a beat about to save its pointer. */
  lemma SaveStep(parent: string, w: World, h: nat, o: Outcome, now: Time)
    requires h in w.handlers && w.handlers[h].Hb? && w.handlers[h].b.pc in {SaveNew, SaveOld}
    ensures var b := w.handlers[h].b;
            && w.handlers[h].Sound() && Hb(b.NextSync()).Sound()
            && Next(parent, w, Go(h, o, now)) ==
               World(SavePointer(w.s, b.req.deviceId, Head(b), Pointer(Name(parent, b), Value(b), b.id), o),
                     w.handlers[h := Hb(b.NextSync())])
  {
    assert w.handlers[h].Sound();
  }

  class Server {
    const parent: string
    const db: Database
    const cf: Cloudflare
    /** The frames of the requests in flight or answered, as the scheduler sees them. */
    var inFlight: map<nat, SoundHandler>

    constructor (parent: string, db: Database, cf: Cloudflare)
      ensures this.parent == parent && this.db == db && this.cf == cf && inFlight == map[]
    {
      this.parent, this.db, this.cf, this.inFlight := parent, db, cf, map[];
    }

    function Snapshot(): World
      reads this, db, cf
    {
      World(Stores(db.tokens, db.devices, db.pointers, cf.zone), inFlight)
    }

    /** The stores and frames have reached the end of the run es from w0. */
    ghost predicate Reached(w0: World, es: seq<Event>)
      reads this, db, cf
    {
      Snapshot() == Run(parent, w0, es)
    }

    predicate RegPoint(h: nat, req: EnrollReq, pc: RegPc)
      reads this
    {
      h in inFlight && inFlight[h].Reg? && inFlight[h].r.req == req && inFlight[h].r.pc == pc
    }

    /** The frame of h is at pc with these values of assigned, aRecordID and aaaaRecordID. */
    predicate RegAt(h: nat, req: EnrollReq, pc: RegPc, name: string, a: Option<nat>, aaaa: Option<nat>)
      reads this
    {
      RegPoint(h, req, pc) && inFlight[h].r.sub == name && inFlight[h].r.a == a && inFlight[h].r.aaaa == aaaa
    }

    /** The frame of h is at rollback point pc, with these records left and this answer to give. */
    predicate Undoing(h: nat, req: EnrollReq, pc: RegPc, a: Option<nat>, aaaa: Option<nat>, code: nat)
      reads this
    {
      RegPoint(h, req, pc) && inFlight[h].r.a == a && inFlight[h].r.aaaa == aaaa && inFlight[h].r.code == code
    }

    predicate RegAnswered(h: nat, req: EnrollReq, code: nat)
      reads this
    {
      RegPoint(h, req, Answered) && inFlight[h].r.code == code
    }

    predicate RegCreated(h: nat, req: EnrollReq, name: string)
      reads this
    {
      RegAnswered(h, req, 201) && inFlight[h].r.sub == name
    }

    /** The other requests take their steps; request h's frame waits. */
    method Others(h: nat, t: Turn, ghost w0: World, ghost es: seq<Event>)
      requires Reached(w0, es) && Foreign(h, t)
      modifies this`inFlight, db, cf
      ensures Reached(w0, es + t.others)
      ensures (h in inFlight <==> h in old(inFlight)) && (h in old(inFlight) ==> inFlight[h] == old(inFlight[h]))
    {
      var w := Run(parent, Snapshot(), t.others);
      OthersKeepFrame(parent, Snapshot(), t.others, h);
      RunAppend(parent, w0, es, t.others);
      db.tokens, db.devices, db.pointers, cf.zone := w.s.tokens, w.s.devices, w.s.pointers, w.s.zone;
      inFlight := w.handlers;
    }

    // ---------- the calls of registerDevice ----------

    method CallConsume(h: nat, req: EnrollReq, t: Turn, ghost w0: World, ghost es: seq<Event>) returns (err: Error)
      requires Reached(w0, es) && Foreign(h, t) && RegPoint(h, req, Consume)
      modifies this`inFlight, db, cf
      ensures Reached(w0, After(es, h, t))
      ensures if err == NoError then RegPoint(h, req, Resolve) && inFlight[h].r.probe == old(inFlight[h].r.probe)
              else RegAnswered(h, req, if err == NotFound then 401 else 500)
    {
      Others(h, t, w0, es);
      var r := inFlight[h].r;
      RunSnoc(parent, w0, es + t.others, Go(h, t.o, t.now));
      err := db.ConsumeToken(req.hash, req.deviceId, t.now, t.o);
      if err == NotFound {
        r := r.Answer(401);
      } else if err != NoError {
        r := r.Answer(500);
      } else {
        r := r.(pc := Resolve, consumed := true);
      }
      inFlight := inFlight[h := Reg(r)];
    }

    /** isSubdomainFree for candidate n: ErrNotFound means free. */
    method CallProbe(h: nat, req: EnrollReq, n: nat, t: Turn, ghost w0: World, ghost es: seq<Event>)
      returns (probe: Probe)
      requires Reached(w0, es) && Foreign(h, t) && RegPoint(h, req, Resolve) && inFlight[h].r.probe == n
      modifies this`inFlight, db, cf
      ensures Reached(w0, After(es, h, t))
      ensures probe != Failed ==>
                (probe == InUse <==>
                 Subdomain.Candidate(req.base, n) in Names(Run(parent, w0, es + t.others).s.devices))
      ensures match probe
              case Free => RegAt(h, req, CreateA, Subdomain.Candidate(req.base, n), None, None)
              case InUse =>
                if n < Subdomain.MAX_SUFFIX then RegPoint(h, req, Resolve) && inFlight[h].r.probe == n + 1
                else RegAnswered(h, req, 409)
              case Failed => RegAnswered(h, req, 500)
    {
      Others(h, t, w0, es);
      var r := inFlight[h].r;
      RunSnoc(parent, w0, es + t.others, Go(h, t.o, t.now));
      assert db.devices == Run(parent, w0, es + t.others).s.devices;
      var name := Subdomain.Candidate(req.base, n);
      TakenIsNamed(db.devices, name);
      var err := db.BySubdomain(name, t.o);
      if err == NotFound {
        probe, r := Free, r.(pc := CreateA, sub := name);
      } else if err != NoError {
        probe, r := Failed, r.Answer(500);
      } else if n < Subdomain.MAX_SUFFIX {
        probe, r := InUse, r.(probe := n + 1);
      } else {
        probe, r := InUse, r.Answer(409);
      }
      inFlight := inFlight[h := Reg(r)];
    }

    method CallCreateA(h: nat, req: EnrollReq, name: string, t: Turn, ghost w0: World, ghost es: seq<Event>)
      returns (err: Error, id: nat)
      requires Reached(w0, es) && Foreign(h, t) && RegAt(h, req, CreateA, name, None, None)
      modifies this`inFlight, db, cf
      ensures Reached(w0, After(es, h, t))
      ensures if err == NoError
              then RegAt(h, req, if req.v6.Some? then CreateAAAA else Insert, name, Some(id), None)
              else RegAnswered(h, req, 502)
    {
      Others(h, t, w0, es);
      var r := inFlight[h].r;
      RunSnoc(parent, w0, es + t.others, Go(h, t.o, t.now));
      err, id := cf.CreateRecord(CfRecord(Subdomain.Fqdn(name, parent), A, req.v4), t.o);
      if err != NoError {
        r := r.Answer(502).(leaked := if TakesEffect(t.o) then r.leaked + {id} else r.leaked);
      } else {
        r := r.(a := Some(id), pc := if req.v6.Some? then CreateAAAA else Insert);
      }
      inFlight := inFlight[h := Reg(r)];
    }

    method CallCreateAAAA(h: nat, req: EnrollReq, name: string, v6: Addr, ghost a: nat, t: Turn,
                          ghost w0: World, ghost es: seq<Event>)
      returns (err: Error, id: nat)
      requires Reached(w0, es) && Foreign(h, t) && req.v6 == Some(v6)
      requires RegAt(h, req, CreateAAAA, name, Some(a), None)
      modifies this`inFlight, db, cf
      ensures Reached(w0, After(es, h, t))
      ensures if err == NoError then RegAt(h, req, Insert, name, Some(a), Some(id))
              else Undoing(h, req, UndoA, Some(a), None, 502)
    {
      Others(h, t, w0, es);
      var r := inFlight[h].r;
      RunSnoc(parent, w0, es + t.others, Go(h, t.o, t.now));
      err, id := cf.CreateRecord(CfRecord(Subdomain.Fqdn(name, parent), AAAA, v6), t.o);
      if err != NoError {
        r := r.(pc := UndoA, code := 502, leaked := if TakesEffect(t.o) then r.leaked + {id} else r.leaked);
      } else {
        r := r.(aaaa := Some(id), pc := Insert);
      }
      inFlight := inFlight[h := Reg(r)];
    }

    method CallInsert(h: nat, req: EnrollReq, name: string, ghost a: nat, ghost aaaa: Option<nat>, t: Turn,
                      ghost w0: World, ghost es: seq<Event>)
      returns (err: Error)
      requires Reached(w0, es) && Foreign(h, t) && RegAt(h, req, Insert, name, Some(a), aaaa)
      modifies this`inFlight, db, cf
      ensures Reached(w0, After(es, h, t))
      ensures if err == NoError then RegAt(h, req, Sign, name, Some(a), aaaa)
              else Undoing(h, req, UndoA, Some(a), aaaa, 500)
    {
      Others(h, t, w0, es);
      var r := inFlight[h].r;
      RunSnoc(parent, w0, es + t.others, Go(h, t.o, t.now));
      var before := db.devices;
      err := db.CreateDevice(req.deviceId, NewDevice(req.name, name, req.kid, req.v4, req.v6, t.now), t.o);
      if err != NoError {
        r := r.(pc := UndoA, code := 500, row := req.deviceId !in before && req.deviceId in db.devices);
      } else {
        r := r.(pc := Sign, row := true);
      }
      inFlight := inFlight[h := Reg(r)];
    }

    /** Signing is local: no store is called, and an error is all that can go wrong. */
    method CallSign(h: nat, req: EnrollReq, ghost name: string, ghost a: nat, ghost aaaa: Option<nat>, t: Turn,
                    ghost w0: World, ghost es: seq<Event>)
      returns (ok: bool)
      requires Reached(w0, es) && Foreign(h, t) && RegAt(h, req, Sign, name, Some(a), aaaa)
      modifies this`inFlight, db, cf
      ensures Reached(w0, After(es, h, t))
      ensures ok == (t.o == Acked)
      ensures if ok then RegAt(h, req, SaveA, name, Some(a), aaaa)
              else Undoing(h, req, UndoDevice, Some(a), aaaa, 500)
    {
      Others(h, t, w0, es);
      var r := inFlight[h].r;
      RunSnoc(parent, w0, es + t.others, Go(h, t.o, t.now));
      ok := t.o == Acked;
      r := if ok then r.(pc := SaveA) else r.(pc := UndoDevice, code := 500);
      inFlight := inFlight[h := Reg(r)];
    }

    /** bestEffortDeviceDelete: the error is logged, never returned. */
    method CallUndoDevice(h: nat, req: EnrollReq, ghost a: nat, ghost aaaa: Option<nat>, t: Turn,
                          ghost w0: World, ghost es: seq<Event>)
      requires Reached(w0, es) && Foreign(h, t) && Undoing(h, req, UndoDevice, Some(a), aaaa, 500)
      modifies this`inFlight, db, cf
      ensures Reached(w0, After(es, h, t)) && Undoing(h, req, UndoA, Some(a), aaaa, 500)
    {
      Others(h, t, w0, es);
      var r := inFlight[h].r;
      RunSnoc(parent, w0, es + t.others, Go(h, t.o, t.now));
      var err := db.DeleteDevice(req.deviceId, t.o);
      r := r.(pc := UndoA, row := !TakesEffect(t.o));
      inFlight := inFlight[h := Reg(r)];
    }

    /** bestEffortCFDelete on the A record, then on the AAAA record if there is one. */
    method CallUndoA(h: nat, req: EnrollReq, a: nat, ghost aaaa: Option<nat>, ghost code: nat, t: Turn,
                     ghost w0: World, ghost es: seq<Event>)
      requires Reached(w0, es) && Foreign(h, t) && Undoing(h, req, UndoA, Some(a), aaaa, code)
      modifies this`inFlight, db, cf
      ensures Reached(w0, After(es, h, t))
      ensures Undoing(h, req, if aaaa.Some? then UndoAAAA else Answered, None, aaaa, code)
    {
      Others(h, t, w0, es);
      var r := inFlight[h].r;
      RunSnoc(parent, w0, es + t.others, Go(h, t.o, t.now));
      var live := a in cf.zone.records;
      var err := cf.DeleteRecord(a, t.o);
      r := r.(a := None, leaked := if live && a !in cf.zone.records then r.leaked else r.leaked + {a},
              pc := if r.aaaa.Some? then UndoAAAA else Answered);
      inFlight := inFlight[h := Reg(r)];
    }

    method CallUndoAAAA(h: nat, req: EnrollReq, aaaa: nat, ghost code: nat, t: Turn,
                        ghost w0: World, ghost es: seq<Event>)
      requires Reached(w0, es) && Foreign(h, t) && Undoing(h, req, UndoAAAA, None, Some(aaaa), code)
      modifies this`inFlight, db, cf
      ensures Reached(w0, After(es, h, t)) && RegAnswered(h, req, code)
    {
      Others(h, t, w0, es);
      var r := inFlight[h].r;
      RunSnoc(parent, w0, es + t.others, Go(h, t.o, t.now));
      var live := aaaa in cf.zone.records;
      var err := cf.DeleteRecord(aaaa, t.o);
      r := r.(aaaa := None, leaked := if live && aaaa !in cf.zone.records then r.leaked else r.leaked + {aaaa},
              pc := Answered);
      inFlight := inFlight[h := Reg(r)];
    }

    /** The pointer upsert's error is logged and does not fail the request. */
    method CallSaveA(h: nat, req: EnrollReq, name: string, a: nat, ghost aaaa: Option<nat>, t: Turn,
                     ghost w0: World, ghost es: seq<Event>)
      requires Reached(w0, es) && Foreign(h, t) && RegAt(h, req, SaveA, name, Some(a), aaaa)
      modifies this`inFlight, db, cf
      ensures Reached(w0, After(es, h, t))
      ensures if req.v6.Some? then RegAt(h, req, SaveAAAA, name, Some(a), aaaa) else RegCreated(h, req, name)
    {
      Others(h, t, w0, es);
      var r := inFlight[h].r;
      RunSnoc(parent, w0, es + t.others, Go(h, t.o, t.now));
      var err := db.UpsertPointer(req.deviceId, A, Pointer(Subdomain.Fqdn(name, parent), req.v4, a), t.o);
      r := if req.v6.Some? then r.(pc := SaveAAAA) else r.Answer(201);
      inFlight := inFlight[h := Reg(r)];
    }

    method CallSaveAAAA(h: nat, req: EnrollReq, name: string, v6: Addr, ghost a: Option<nat>, aaaa: nat, t: Turn,
                        ghost w0: World, ghost es: seq<Event>)
      requires Reached(w0, es) && Foreign(h, t) && req.v6 == Some(v6)
      requires RegAt(h, req, SaveAAAA, name, a, Some(aaaa))
      modifies this`inFlight, db, cf
      ensures Reached(w0, After(es, h, t)) && RegCreated(h, req, name)
    {
      Others(h, t, w0, es);
      var r := inFlight[h].r;
      RunSnoc(parent, w0, es + t.others, Go(h, t.o, t.now));
      var err := db.UpsertPointer(req.deviceId, AAAA, Pointer(Subdomain.Fqdn(name, parent), v6, aaaa), t.o);
      r := r.Answer(201);
      inFlight := inFlight[h := Reg(r)];
    }

    // ---------- registerDevice ----------

    /** The Cloudflare half of a rollback: both best-effort deletes may fail. */
    method DeleteRecords(h: nat, req: EnrollReq, a: nat, aaaa: Option<nat>, ghost code: nat,
                         sched: nat -> Turn, k0: nat,
                         ghost w0: World, ghost first: Event, ghost es0: seq<Event>, ghost ts0: seq<Turn>)
      returns (k: nat, ghost es: seq<Event>, ghost ts: seq<Turn>)
      requires Reached(w0, es0) && OnSchedule(es0, first, h, sched, ts0, k0)
      requires Undoing(h, req, UndoA, Some(a), aaaa, code)
      requires forall i :: Foreign(h, sched(i))
      modifies this`inFlight, db, cf
      ensures Reached(w0, es) && OnSchedule(es, first, h, sched, ts, k)
      ensures RegAnswered(h, req, code)
    {
      k, es, ts := k0, es0, ts0;
      CallUndoA(h, req, a, aaaa, code, sched(k), w0, es);
      es, ts := NextTurn(es, first, h, sched, ts, k);
      k := k + 1;
      if aaaa.Some? {
        CallUndoAAAA(h, req, aaaa.value, code, sched(k), w0, es);
        es, ts := NextTurn(es, first, h, sched, ts, k);
        k := k + 1;
      }
    }

    /** One round of the loop in resolveSubdomain. */
    method ProbeCandidate(h: nat, req: EnrollReq, n: nat, sched: nat -> Turn, ghost k0: nat, k: nat,
                          ghost w0: World, ghost first: Event, ghost es0: seq<Event>, ghost ts0: seq<Turn>)
      returns (probe: Probe, ghost es: seq<Event>, ghost ts: seq<Turn>)
      requires Reached(w0, es0) && OnSchedule(es0, first, h, sched, ts0, k) && k == k0 + n - 1
      requires RegPoint(h, req, Resolve) && inFlight[h].r.probe == n <= Subdomain.MAX_SUFFIX
      requires TakenWhenProbed(parent, w0, first, h, ts0, k0, req.base, n)
      requires forall i :: Foreign(h, sched(i))
      modifies this`inFlight, db, cf
      ensures Reached(w0, es) && OnSchedule(es, first, h, sched, ts, k + 1)
      ensures probe == InUse ==> TakenWhenProbed(parent, w0, first, h, ts, k0, req.base, n + 1)
      ensures probe != InUse || n == Subdomain.MAX_SUFFIX ==>
                Searched(parent, w0, first, h, ts, k0, k + 1, req.base, probe, Subdomain.Candidate(req.base, n))
      ensures match probe
              case Free => RegAt(h, req, CreateA, Subdomain.Candidate(req.base, n), None, None)
              case InUse =>
                if n < Subdomain.MAX_SUFFIX then RegPoint(h, req, Resolve) && inFlight[h].r.probe == n + 1
                else RegAnswered(h, req, 409)
              case Failed => RegAnswered(h, req, 500)
    {
      probe := CallProbe(h, req, n, sched(k), w0, es0);
      OneMoreProbe(parent, w0, first, h, ts0, sched(k), k0, req.base, n, probe);
      es, ts := NextTurn(es0, first, h, sched, ts0, k);
    }

    /**
     * resolveSubdomain: probe base, base-2, ... base-99, other requests
     * running between the probes. The name it assigns was free at its own
     * probe and every earlier candidate taken at its own; it gives up only
     * when all 99 were.
     */
    method ResolveSubdomain(h: nat, req: EnrollReq, sched: nat -> Turn, k0: nat,
                            ghost w0: World, ghost first: Event, ghost es0: seq<Event>, ghost ts0: seq<Turn>)
      returns (probe: Probe, name: string, k: nat, ghost es: seq<Event>, ghost ts: seq<Turn>)
      requires Reached(w0, es0) && OnSchedule(es0, first, h, sched, ts0, k0)
      requires RegPoint(h, req, Resolve) && inFlight[h].r.probe == 1
      requires forall i :: Foreign(h, sched(i))
      modifies this`inFlight, db, cf
      ensures Reached(w0, es) && OnSchedule(es, first, h, sched, ts, k)
      ensures Searched(parent, w0, first, h, ts, k0, k, req.base, probe, name)
      ensures match probe
              case Free => RegAt(h, req, CreateA, name, None, None)
              case InUse => RegAnswered(h, req, 409)
              case Failed => RegAnswered(h, req, 500)
    {
      k, es, ts := k0, es0, ts0;
      name := req.base;
      for n := 1 to Subdomain.MAX_SUFFIX + 1
        invariant k == k0 + n - 1 && Reached(w0, es) && OnSchedule(es, first, h, sched, ts, k)
        invariant TakenWhenProbed(parent, w0, first, h, ts, k0, req.base, n)
        invariant if n <= Subdomain.MAX_SUFFIX then RegPoint(h, req, Resolve) && inFlight[h].r.probe == n
                  else RegAnswered(h, req, 409) && Searched(parent, w0, first, h, ts, k0, k, req.base, InUse, name)
      {
        probe, es, ts := ProbeCandidate(h, req, n, sched, k0, k, w0, first, es, ts);
        name := Subdomain.Candidate(req.base, n);
        k := k + 1;
        if probe != InUse {
          return;
        }
      }
      probe := InUse;
    }

    /** The end of registerDevice: one dns_records row per record. */
    method Publish(h: nat, req: EnrollReq, name: string, a: nat, aaaa: Option<nat>,
                   sched: nat -> Turn, k0: nat,
                   ghost w0: World, ghost first: Event, ghost es0: seq<Event>, ghost ts0: seq<Turn>)
      returns (k: nat, ghost es: seq<Event>, ghost ts: seq<Turn>)
      requires Reached(w0, es0) && OnSchedule(es0, first, h, sched, ts0, k0)
      requires RegAt(h, req, SaveA, name, Some(a), aaaa)
      requires forall i :: Foreign(h, sched(i))
      modifies this`inFlight, db, cf
      ensures Reached(w0, es) && OnSchedule(es, first, h, sched, ts, k)
      ensures RegCreated(h, req, name)
    {
      k, es, ts := k0, es0, ts0;
      CallSaveA(h, req, name, a, aaaa, sched(k), w0, es);
      es, ts := NextTurn(es, first, h, sched, ts, k);
      k := k + 1;
      if req.v6.Some? {
        CallSaveAAAA(h, req, name, req.v6.value, Some(a), aaaa.value, sched(k), w0, es);
        es, ts := NextTurn(es, first, h, sched, ts, k);
        k := k + 1;
      }
    }

    /** From the inserted row on: sign, or take row and records back. */
    method SignAndPublish(h: nat, req: EnrollReq, name: string, a: nat, aaaa: Option<nat>,
                          sched: nat -> Turn, k0: nat,
                          ghost w0: World, ghost first: Event, ghost es0: seq<Event>, ghost ts0: seq<Turn>)
      returns (code: nat, k: nat, ghost es: seq<Event>, ghost ts: seq<Turn>)
      requires Reached(w0, es0) && OnSchedule(es0, first, h, sched, ts0, k0)
      requires RegAt(h, req, Sign, name, Some(a), aaaa)
      requires forall i :: Foreign(h, sched(i))
      modifies this`inFlight, db, cf
      ensures Reached(w0, es) && OnSchedule(es, first, h, sched, ts, k)
      ensures if code == 201 then RegCreated(h, req, name) else code == 500 && RegAnswered(h, req, code)
    {
      k, es, ts := k0, es0, ts0;
      var ok := CallSign(h, req, name, a, aaaa, sched(k), w0, es);
      es, ts := NextTurn(es, first, h, sched, ts, k);
      k := k + 1;
      if ok {
        code := 201;
        k, es, ts := Publish(h, req, name, a, aaaa, sched, k, w0, first, es, ts);
      } else {
        code := 500;
        CallUndoDevice(h, req, a, aaaa, sched(k), w0, es);
        es, ts := NextTurn(es, first, h, sched, ts, k);
        k := k + 1;
        k, es, ts := DeleteRecords(h, req, a, aaaa, 500, sched, k, w0, first, es, ts);
      }
    }

    /** From the created records on: insert the row, or take the records back. */
    method InsertAndPublish(h: nat, req: EnrollReq, name: string, a: nat, aaaa: Option<nat>,
                            sched: nat -> Turn, k0: nat,
                            ghost w0: World, ghost first: Event, ghost es0: seq<Event>, ghost ts0: seq<Turn>)
      returns (code: nat, k: nat, ghost es: seq<Event>, ghost ts: seq<Turn>)
      requires Reached(w0, es0) && OnSchedule(es0, first, h, sched, ts0, k0)
      requires RegAt(h, req, Insert, name, Some(a), aaaa)
      requires forall i :: Foreign(h, sched(i))
      modifies this`inFlight, db, cf
      ensures Reached(w0, es) && OnSchedule(es, first, h, sched, ts, k)
      ensures if code == 201 then RegCreated(h, req, name) else code == 500 && RegAnswered(h, req, code)
    {
      k, es, ts := k0, es0, ts0;
      var err := CallInsert(h, req, name, a, aaaa, sched(k), w0, es);
      es, ts := NextTurn(es, first, h, sched, ts, k);
      k := k + 1;
      if err != NoError {
        code := 500;
        k, es, ts := DeleteRecords(h, req, a, aaaa, 500, sched, k, w0, first, es, ts);
      } else {
        code, k, es, ts := SignAndPublish(h, req, name, a, aaaa, sched, k, w0, first, es, ts);
      }
    }

    /** From the assigned name on: create the records, then the row, the token and the pointers. */
    method CreateAndPublish(h: nat, req: EnrollReq, name: string, sched: nat -> Turn, k0: nat,
                            ghost w0: World, ghost first: Event, ghost es0: seq<Event>, ghost ts0: seq<Turn>)
      returns (code: nat, k: nat, ghost es: seq<Event>, ghost ts: seq<Turn>)
      requires Reached(w0, es0) && OnSchedule(es0, first, h, sched, ts0, k0)
      requires RegAt(h, req, CreateA, name, None, None)
      requires forall i :: Foreign(h, sched(i))
      modifies this`inFlight, db, cf
      ensures Reached(w0, es) && OnSchedule(es, first, h, sched, ts, k)
      ensures if code == 201 then RegCreated(h, req, name) else code in {500, 502} && RegAnswered(h, req, code)
    {
      k, es, ts := k0, es0, ts0;
      var err, a := CallCreateA(h, req, name, sched(k), w0, es);
      es, ts := NextTurn(es, first, h, sched, ts, k);
      k := k + 1;
      if err != NoError {
        code := 502;
        return;
      }
      var aaaa := None;
      if req.v6.Some? {
        var id;
        err, id := CallCreateAAAA(h, req, name, req.v6.value, a, sched(k), w0, es);
        es, ts := NextTurn(es, first, h, sched, ts, k);
        k := k + 1;
        if err != NoError {
          code := 502;
          k, es, ts := DeleteRecords(h, req, a, None, 502, sched, k, w0, first, es, ts);
          return;
        }
        aaaa := Some(id);
      }
      code, k, es, ts := InsertAndPublish(h, req, name, a, aaaa, sched, k, w0, first, es, ts);
    }

    /** From the consumed token on: find a name, create and publish. */
    method AssignAndPublish(h: nat, req: EnrollReq, sched: nat -> Turn, k0: nat,
                            ghost w0: World, ghost first: Event, ghost es0: seq<Event>, ghost ts0: seq<Turn>)
      returns (code: nat, name: string, k: nat, ghost es: seq<Event>, ghost ts: seq<Turn>)
      requires Reached(w0, es0) && OnSchedule(es0, first, h, sched, ts0, k0)
      requires RegPoint(h, req, Resolve) && inFlight[h].r.probe == 1
      requires forall i :: Foreign(h, sched(i))
      modifies this`inFlight, db, cf
      ensures Reached(w0, es) && OnSchedule(es, first, h, sched, ts, k)
      ensures if code == 201 then RegCreated(h, req, name) else code in {409, 500, 502} && RegAnswered(h, req, code)
    {
      var probe;
      probe, name, k, es, ts := ResolveSubdomain(h, req, sched, k0, w0, first, es0, ts0);
      match probe {
        case InUse => code := 409;
        case Failed => code := 500;
        case Free => code, k, es, ts := CreateAndPublish(h, req, name, sched, k, w0, first, es, ts);
      }
    }

    /** The body of registerDevice from the token on. */
    method Register(h: nat, req: EnrollReq, sched: nat -> Turn,
                    ghost w0: World, ghost first: Event, ghost es0: seq<Event>)
      returns (code: nat, name: string, k: nat, ghost es: seq<Event>, ghost ts: seq<Turn>)
      requires Reached(w0, es0) && OnSchedule(es0, first, h, sched, [], 0)
      requires RegPoint(h, req, Consume) && inFlight[h].r.probe == 1
      requires forall i :: Foreign(h, sched(i))
      modifies this`inFlight, db, cf
      ensures Reached(w0, es) && OnSchedule(es, first, h, sched, ts, k)
      ensures if code == 201 then RegCreated(h, req, name)
              else code in {401, 409, 500, 502} && RegAnswered(h, req, code)
    {
      name := "";
      var err := CallConsume(h, req, sched(0), w0, es0);
      es, ts := NextTurn(es0, first, h, sched, [], 0);
      k := 1;
      if err == NotFound {
        code := 401;
      } else if err != NoError {
        code := 500;
      } else {
        code, name, k, es, ts := AssignAndPublish(h, req, sched, k, w0, first, es, ts);
      }
    }

    /**
     * registerDevice from the token on: whatever other requests run in
     * between and however its calls end, the stores end where the step
     * machine ends after the request's arrival and as many turns of the
     * schedule as it took, and the answer is the machine's. The code decides
     * by its own locals - errors, ids and the name - never by the machine's
     * frame, so every theorem about runs applies to it.
     */
    method RegisterDevice(h: nat, req: EnrollReq, sched: nat -> Turn)
      returns (code: nat, subdomain: string, turns: nat)
      requires h !in inFlight
      requires forall i :: Foreign(h, sched(i))
      modifies this`inFlight, db, cf
      ensures Reached(old(Snapshot()), Turns(Arrive(h, req), h, sched, turns))
      ensures RegAnswered(h, req, code) && code in {201, 401, 409, 500, 502}
      ensures subdomain == if code == 201 then inFlight[h].r.sub else ""
    {
      ghost var w0, first, ts := Snapshot(), Arrive(h, req), [];
      inFlight := inFlight[h := Reg(Enroll(req))];
      ghost var es := FirstEvent(parent, w0, first);
      code, subdomain, turns, es, ts := Register(h, req, sched, w0, first, es);
      if code != 201 {
        subdomain := "";
      }
      TakenIsTurns(first, h, sched, ts);
    }

    // ---------- the calls of heartbeatDevice and syncDNS ----------

    predicate BeatAt(h: nat, beat: BeatReq, pc: BeatPc)
      reads this
    {
      h in inFlight && inFlight[h].Hb? && inFlight[h].b.req == beat && inFlight[h].b.pc == pc
    }

    predicate BeatReplied(h: nat, beat: BeatReq, code: nat)
      reads this
    {
      BeatAt(h, beat, Replied) && inFlight[h].b.code == code
    }

    /** The frame of h is at pc of syncDNS for type t, with these types after it. */
    predicate Pushing(h: nat, beat: BeatReq, pc: BeatPc, t: RecordType, rest: seq<RecordType>)
      reads this
    {
      BeatAt(h, beat, pc) && inFlight[h].b.todo == [t] + rest
    }

    /** The same with this Cloudflare id in hand. */
    predicate Holding(h: nat, beat: BeatReq, pc: BeatPc, t: RecordType, rest: seq<RecordType>, id: nat)
      reads this
    {
      Pushing(h, beat, pc, t, rest) && inFlight[h].b.id == id
    }

    /** The pushes of all but these types are over. */
    predicate StillToPush(h: nat, beat: BeatReq, rest: seq<RecordType>)
      reads this
    {
      if rest == [] then BeatReplied(h, beat, 204) else BeatAt(h, beat, GetPointer) && inFlight[h].b.todo == rest
    }

    /** What syncDNS is called with: the device's full name and the reported address. */
    predicate Target(beat: BeatReq, fqdn: string, t: RecordType, value: Addr) {
      fqdn == Subdomain.Fqdn(beat.subdomain, parent) && Reported(beat, t) == Some(value)
    }

    method CallLookup(h: nat, beat: BeatReq, t: Turn, ghost w0: World, ghost es: seq<Event>)
      returns (err: Error, row: Option<Device>)
      requires Reached(w0, es) && Foreign(h, t) && BeatAt(h, beat, Lookup)
      modifies this`inFlight, db, cf
      ensures Reached(w0, After(es, h, t)) && (err == NoError ==> row.Some?)
      ensures if err == NotFound then BeatReplied(h, beat, 401)
              else if err != NoError then BeatReplied(h, beat, 500)
              else if row.value.subdomain != beat.subdomain then BeatReplied(h, beat, 401)
              else BeatAt(h, beat, Touch) && inFlight[h].b.seen == row
    {
      Others(h, t, w0, es);
      var b := inFlight[h].b;
      RunSnoc(parent, w0, es + t.others, Go(h, t.o, t.now));
      err, row := db.GetDevice(beat.deviceId, t.o);
      if err == NotFound {
        b := b.Reply(401);
      } else if err != NoError {
        b := b.Reply(500);
      } else if row.value.subdomain != beat.subdomain {
        b := b.Reply(401);
      } else {
        b := b.(pc := Touch, seen := row);
      }
      inFlight := inFlight[h := Hb(b)];
    }

    method CallTouch(h: nat, beat: BeatReq, ghost row: Device, t: Turn, ghost w0: World, ghost es: seq<Event>)
      returns (err: Error)
      requires Reached(w0, es) && Foreign(h, t) && BeatAt(h, beat, Touch) && inFlight[h].b.seen == Some(row)
      modifies this`inFlight, db, cf
      ensures Reached(w0, After(es, h, t))
      ensures if err != NoError then BeatReplied(h, beat, 500) else StillToPush(h, beat, ToPush(row, beat))
    {
      Others(h, t, w0, es);
      var b := inFlight[h].b;
      RunSnoc(parent, w0, es + t.others, Go(h, t.o, t.now));
      var lastSeen;
      err, lastSeen := db.UpdateHeartbeat(beat.deviceId, beat.v4, beat.v6, beat.health, beat.version, t.now, t.o);
      if err != NoError {
        b := b.Reply(500);
      } else {
        var todo := ToPush(b.seen.value, beat);
        b := if todo == [] then b.Reply(204) else b.(pc := GetPointer, todo := todo);
      }
      inFlight := inFlight[h := Hb(b)];
    }

    method CallGetPointer(h: nat, beat: BeatReq, t: RecordType, ghost rest: seq<RecordType>, turn: Turn,
                          ghost w0: World, ghost es: seq<Event>)
      returns (err: Error, p: Option<Pointer>)
      requires Reached(w0, es) && Foreign(h, turn) && Pushing(h, beat, GetPointer, t, rest)
      modifies this`inFlight, db, cf
      ensures Reached(w0, After(es, h, turn)) && (err == NoError ==> p.Some?)
      ensures if err == NotFound then Pushing(h, beat, Create, t, rest)
              else if err == NoError then Holding(h, beat, Update, t, rest, p.value.cloudflareId)
              else StillToPush(h, beat, rest)
    {
      Others(h, turn, w0, es);
      var b := inFlight[h].b;
      RunSnoc(parent, w0, es + turn.others, Go(h, turn.o, turn.now));
      err, p := db.GetPointer(beat.deviceId, t, turn.o);
      if err == NotFound {
        b := b.(pc := Create);
      } else if err != NoError {
        b := b.NextSync();
      } else {
        b := b.(pc := Update, id := p.value.cloudflareId);
      }
      inFlight := inFlight[h := Hb(b)];
    }

    method CallCreateRecord(h: nat, beat: BeatReq, fqdn: string, t: RecordType, value: Addr,
                            ghost rest: seq<RecordType>, turn: Turn, ghost w0: World, ghost es: seq<Event>)
      returns (err: Error, id: nat)
      requires Reached(w0, es) && Foreign(h, turn) && Pushing(h, beat, Create, t, rest)
      requires Target(beat, fqdn, t, value)
      modifies this`inFlight, db, cf
      ensures Reached(w0, After(es, h, turn))
      ensures if err == NoError then Holding(h, beat, SaveNew, t, rest, id) else StillToPush(h, beat, rest)
    {
      Others(h, turn, w0, es);
      var b := inFlight[h].b;
      RunSnoc(parent, w0, es + turn.others, Go(h, turn.o, turn.now));
      err, id := cf.CreateRecord(CfRecord(fqdn, t, value), turn.o);
      if TakesEffect(turn.o) {
        b := b.(made := b.made + {id});
      }
      b := if err != NoError then b.NextSync() else b.(pc := SaveNew, id := id);
      inFlight := inFlight[h := Hb(b)];
    }

    method CallUpdateRecord(h: nat, beat: BeatReq, id: nat, fqdn: string, t: RecordType, value: Addr,
                            ghost rest: seq<RecordType>, turn: Turn, ghost w0: World, ghost es: seq<Event>)
      returns (err: Error)
      requires Reached(w0, es) && Foreign(h, turn) && Holding(h, beat, Update, t, rest, id)
      requires Target(beat, fqdn, t, value)
      modifies this`inFlight, db, cf
      ensures Reached(w0, After(es, h, turn))
      ensures if err == NoError then Holding(h, beat, SaveOld, t, rest, id) else StillToPush(h, beat, rest)
    {
      Others(h, turn, w0, es);
      var b := inFlight[h].b;
      RunSnoc(parent, w0, es + turn.others, Go(h, turn.o, turn.now));
      err := cf.UpdateRecord(id, CfRecord(fqdn, t, value), turn.o);
      b := if err != NoError then b.NextSync() else b.(pc := SaveOld);
      inFlight := inFlight[h := Hb(b)];
    }

    /** The upsert after a create or an update; its error is logged only. */
    method CallSavePointer(h: nat, beat: BeatReq, id: nat, fqdn: string, t: RecordType, value: Addr,
                           ghost rest: seq<RecordType>, turn: Turn, ghost w0: World, ghost es: seq<Event>)
      requires Reached(w0, es) && Foreign(h, turn) && Target(beat, fqdn, t, value)
      requires Holding(h, beat, SaveNew, t, rest, id) || Holding(h, beat, SaveOld, t, rest, id)
      modifies this`inFlight, db, cf
      ensures Reached(w0, After(es, h, turn)) && StillToPush(h, beat, rest)
    {
      Others(h, turn, w0, es);
      var b := inFlight[h].b;
      SaveStep(parent, Snapshot(), h, turn.o, turn.now);
      RunSnoc(parent, w0, es + turn.others, Go(h, turn.o, turn.now));
      var err := db.UpsertPointer(beat.deviceId, t, Pointer(fqdn, value, id), turn.o);
      inFlight := inFlight[h := Hb(b.NextSync())];
    }

    /** syncDNS: push one address of one type; it never reports an error. */
    method SyncDns(h: nat, beat: BeatReq, fqdn: string, t: RecordType, value: Addr, ghost rest: seq<RecordType>,
                   sched: nat -> Turn, k0: nat,
                   ghost w0: World, ghost first: Event, ghost es0: seq<Event>, ghost ts0: seq<Turn>)
      returns (k: nat, ghost es: seq<Event>, ghost ts: seq<Turn>)
      requires Reached(w0, es0) && OnSchedule(es0, first, h, sched, ts0, k0)
      requires Pushing(h, beat, GetPointer, t, rest) && Target(beat, fqdn, t, value)
      requires forall i :: Foreign(h, sched(i))
      modifies this`inFlight, db, cf
      ensures Reached(w0, es) && OnSchedule(es, first, h, sched, ts, k)
      ensures StillToPush(h, beat, rest)
    {
      k, es, ts := k0, es0, ts0;
      var id;
      var err, existing := CallGetPointer(h, beat, t, rest, sched(k), w0, es);
      es, ts := NextTurn(es, first, h, sched, ts, k);
      k := k + 1;
      if err == NotFound {
        err, id := CallCreateRecord(h, beat, fqdn, t, value, rest, sched(k), w0, es);
        es, ts := NextTurn(es, first, h, sched, ts, k);
        k := k + 1;
        if err != NoError {
          return;
        }
      } else if err != NoError {
        return;
      } else {
        id := existing.value.cloudflareId;
        err := CallUpdateRecord(h, beat, id, fqdn, t, value, rest, sched(k), w0, es);
        es, ts := NextTurn(es, first, h, sched, ts, k);
        k := k + 1;
        if err != NoError {
          return;
        }
      }
      CallSavePointer(h, beat, id, fqdn, t, value, rest, sched(k), w0, es);
      es, ts := NextTurn(es, first, h, sched, ts, k);
      k := k + 1;
    }

    /** The DNS reconciliation: each reported address that differs from the row as the lookup read it. */
    method Reconcile(h: nat, beat: BeatReq, row: Device, sched: nat -> Turn, k0: nat,
                     ghost w0: World, ghost first: Event, ghost es0: seq<Event>, ghost ts0: seq<Turn>)
      returns (k: nat, ghost es: seq<Event>, ghost ts: seq<Turn>)
      requires Reached(w0, es0) && OnSchedule(es0, first, h, sched, ts0, k0)
      requires StillToPush(h, beat, ToPush(row, beat)) && row.subdomain == beat.subdomain
      requires forall i :: Foreign(h, sched(i))
      modifies this`inFlight, db, cf
      ensures Reached(w0, es) && OnSchedule(es, first, h, sched, ts, k)
      ensures BeatReplied(h, beat, 204)
    {
      k, es, ts := k0, es0, ts0;
      var fqdn := Subdomain.Fqdn(row.subdomain, parent);
      ghost var later := if Changed(row, beat, AAAA) then [AAAA] else [];
      if row.publicIp != Some(beat.v4) {
        assert ToPush(row, beat) == [A] + later;
        k, es, ts := SyncDns(h, beat, fqdn, A, beat.v4, later, sched, k, w0, first, es, ts);
      }
      if beat.v6.Some? && row.publicIpv6 != beat.v6 {
        assert later == [AAAA] + [];
        k, es, ts := SyncDns(h, beat, fqdn, AAAA, beat.v6.value, [], sched, k, w0, first, es, ts);
      }
    }

    /** The body of heartbeatDevice from the verified token on. */
    method Serve(h: nat, beat: BeatReq, sched: nat -> Turn, ghost w0: World, ghost first: Event, ghost es0: seq<Event>)
      returns (code: nat, k: nat, ghost es: seq<Event>, ghost ts: seq<Turn>)
      requires Reached(w0, es0) && OnSchedule(es0, first, h, sched, [], 0) && BeatAt(h, beat, Lookup)
      requires forall i :: Foreign(h, sched(i))
      modifies this`inFlight, db, cf
      ensures Reached(w0, es) && OnSchedule(es, first, h, sched, ts, k)
      ensures BeatReplied(h, beat, code) && code in {204, 401, 500}
    {
      var err, row := CallLookup(h, beat, sched(0), w0, es0);
      es, ts := NextTurn(es0, first, h, sched, [], 0);
      k := 1;
      if err == NotFound {
        code := 401;
      } else if err != NoError {
        code := 500;
      } else if beat.subdomain != row.value.subdomain {
        code := 401;
      } else {
        err := CallTouch(h, beat, row.value, sched(k), w0, es);
        es, ts := NextTurn(es, first, h, sched, ts, k);
        k := k + 1;
        if err != NoError {
          code := 500;
        } else {
          code := 204;
          k, es, ts := Reconcile(h, beat, row.value, sched, k, w0, first, es, ts);
        }
      }
    }

    /**
     * heartbeatDevice from the verified token on: like RegisterDevice, it
     * ends where the step machine ends after as many turns as it took, and
     * decides by the errors and the row it was given. DNS trouble never fails
     * the beat: past the row update the reply is 204.
     */
    method HeartbeatDevice(h: nat, beat: BeatReq, sched: nat -> Turn)
      returns (code: nat, turns: nat)
      requires h !in inFlight
      requires forall i :: Foreign(h, sched(i))
      modifies this`inFlight, db, cf
      ensures Reached(old(Snapshot()), Turns(Report(h, beat), h, sched, turns))
      ensures BeatReplied(h, beat, code) && code in {204, 401, 500}
    {
      ghost var w0, first, ts := Snapshot(), Report(h, beat), [];
      inFlight := inFlight[h := Hb(StartBeat(beat))];
      ghost var es := FirstEvent(parent, w0, first);
      code, turns, es, ts := Serve(h, beat, sched, w0, first, es);
      TakenIsTurns(first, h, sched, ts);
    }
  }
}
