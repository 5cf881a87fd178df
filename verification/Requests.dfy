/**
 * internal/httpapi/devices_register.go and devices_heartbeat.go as a step
 * machine. A handler makes one store or Cloudflare call per step; any number
 * of handlers interleave, and each call ends Acked, Refused or Lost.
 */
module Requests {
  import opened Common
  import opened Tables
  import Subdomain

  // ---------- registerDevice ----------

  /** A request that passed the body checks; base is the validated preferred name. */
  datatype EnrollReq = EnrollReq(
    hash: string, deviceId: string, name: string, base: string, kid: string, v4: Addr, v6: Option<Addr>)

  /** The call a registration makes next. */
  datatype RegPc =
    | Consume | Resolve | CreateA | CreateAAAA | Insert | Sign | SaveA | SaveAAAA
    | UndoDevice | UndoA | UndoAAAA | Answered

  /**
   * The locals of registerDevice, and three facts about what it left in the
   * stores: whether it got past Consume, whether its device row is there, and
   * the records it created but neither holds nor managed to delete.
   */
  datatype Registration = Registration(
    req: EnrollReq, pc: RegPc, probe: nat, sub: string, a: Option<nat>, aaaa: Option<nat>, code: nat,
    consumed: bool, row: bool, leaked: set<nat>)
  {
    function Answer(c: nat): Registration {
      this.(pc := Answered, code := c)
    }

    /** Every live record this registration is responsible for. */
    function Owned(): set<nat> {
      ToSet(a) + ToSet(aaaa) + leaked
    }

    predicate Created() {
      pc == Answered && code == 201
    }
  }

  function Enroll(req: EnrollReq): Registration {
    Registration(req, Consume, 1, "", None, None, 0, false, false, {})
  }

  function StepConsume(s: Stores, r: Registration, o: Outcome, now: Time): (Stores, Registration) {
    var t := ConsumeToken(s.tokens, r.req.hash, r.req.deviceId, now);
    var s' := if TakesEffect(o) && t.Some? then s.(tokens := t.value) else s;
    (s', if o != Acked then r.Answer(500)
         else if t.None? then r.Answer(401)
         else r.(pc := Resolve, consumed := true))
  }

  function StepResolve(s: Stores, r: Registration, o: Outcome): (Stores, Registration) {
    var name := Subdomain.Candidate(r.req.base, r.probe);
    (s, if o != Acked then r.Answer(500)
        else if !SubdomainTaken(s.devices, name) then r.(pc := CreateA, sub := name)
        else if r.probe < Subdomain.MAX_SUFFIX then r.(probe := r.probe + 1)
        else r.Answer(409))
  }

  function StepCreateA(parent: string, s: Stores, r: Registration, o: Outcome): (Stores, Registration) {
    var z := AddRecord(s.zone, CfRecord(Subdomain.Fqdn(r.sub, parent), A, r.req.v4));
    match o
    case Acked =>
      (s.(zone := z), r.(a := Some(s.zone.next), pc := if r.req.v6.Some? then CreateAAAA else Insert))
    case Refused => (s, r.Answer(502))
    case Lost => (s.(zone := z), r.Answer(502).(leaked := r.leaked + {s.zone.next}))
  }

  function StepCreateAAAA(parent: string, s: Stores, r: Registration, o: Outcome): (Stores, Registration)
    requires r.req.v6.Some?
  {
    var z := AddRecord(s.zone, CfRecord(Subdomain.Fqdn(r.sub, parent), AAAA, r.req.v6.value));
    match o
    case Acked => (s.(zone := z), r.(aaaa := Some(s.zone.next), pc := Insert))
    case Refused => (s, r.(pc := UndoA, code := 502))
    case Lost => (s.(zone := z), r.(pc := UndoA, code := 502, leaked := r.leaked + {s.zone.next}))
  }

  function StepInsert(s: Stores, r: Registration, o: Outcome, now: Time): (Stores, Registration) {
    var t := InsertDevice(s.devices, r.req.deviceId,
                          NewDevice(r.req.name, r.sub, r.req.kid, r.req.v4, r.req.v6, now));
    var done := TakesEffect(o) && t.Some?;
    (if done then s.(devices := t.value) else s,
     if o == Acked && t.Some? then r.(pc := Sign, row := true)
     else r.(pc := UndoA, code := 500, row := done))
  }

  function StepSign(s: Stores, r: Registration, o: Outcome): (Stores, Registration) {
    (s, if o == Acked then r.(pc := SaveA) else r.(pc := UndoDevice, code := 500))
  }

  function StepUndoDevice(s: Stores, r: Registration, o: Outcome): (Stores, Registration) {
    if TakesEffect(o) then
      (s.(devices := s.devices - {r.req.deviceId}, pointers := CascadePointers(s.pointers, r.req.deviceId)),
       r.(pc := UndoA, row := false))
    else
      (s, r.(pc := UndoA))
  }

  function StepUndoA(s: Stores, r: Registration, o: Outcome): (Stores, Registration)
    requires r.a.Some?
  {
    var z := RemoveRecord(s.zone, r.a.value);
    var gone := TakesEffect(o) && z.Some?;
    (if gone then s.(zone := z.value) else s,
     r.(a := None, leaked := if gone then r.leaked else r.leaked + {r.a.value},
        pc := if r.aaaa.Some? then UndoAAAA else Answered))
  }

  function StepUndoAAAA(s: Stores, r: Registration, o: Outcome): (Stores, Registration)
    requires r.aaaa.Some?
  {
    var z := RemoveRecord(s.zone, r.aaaa.value);
    var gone := TakesEffect(o) && z.Some?;
    (if gone then s.(zone := z.value) else s,
     r.(aaaa := None, leaked := if gone then r.leaked else r.leaked + {r.aaaa.value}, pc := Answered))
  }

  function SavePointer(s: Stores, id: string, t: RecordType, p: Pointer, o: Outcome): Stores {
    var m := UpsertPointer(s.devices, s.pointers, id, t, p);
    if TakesEffect(o) && m.Some? then s.(pointers := m.value) else s
  }

  /** A failed pointer upsert is logged and the registration goes on. */
  function StepSaveA(parent: string, s: Stores, r: Registration, o: Outcome): (Stores, Registration)
    requires r.a.Some?
  {
    (SavePointer(s, r.req.deviceId, A, Pointer(Subdomain.Fqdn(r.sub, parent), r.req.v4, r.a.value), o),
     if r.req.v6.Some? then r.(pc := SaveAAAA) else r.Answer(201))
  }

  function StepSaveAAAA(parent: string, s: Stores, r: Registration, o: Outcome): (Stores, Registration)
    requires r.aaaa.Some? && r.req.v6.Some?
  {
    (SavePointer(s, r.req.deviceId, AAAA,
                 Pointer(Subdomain.Fqdn(r.sub, parent), r.req.v6.value, r.aaaa.value), o),
     r.Answer(201))
  }

  /** The locals each program point needs; every step keeps it. */
  predicate Coherent(r: Registration) {
    && (r.pc in {Insert, Sign, SaveA, UndoDevice} ==> r.a.Some? && (r.aaaa.Some? <==> r.req.v6.Some?))
    && (r.pc == CreateAAAA ==> r.a.Some? && r.aaaa.None? && r.req.v6.Some?)
    && (r.pc == SaveAAAA ==> r.a.Some? && r.aaaa.Some? && r.req.v6.Some?)
    && (r.pc == UndoA ==> r.a.Some?)
    && (r.pc == UndoAAAA ==> r.a.None? && r.aaaa.Some?)
    && (r.pc in {Consume, Resolve, CreateA} ==> r.a.None? && r.aaaa.None? && r.leaked == {})
    && (r.pc in {CreateAAAA, Insert, Sign, SaveA, SaveAAAA, UndoDevice} ==> r.leaked == {})
    && (r.pc in {Consume, Resolve, CreateA, CreateAAAA, Insert} ==> !r.row)
    && (r.pc in {Sign, SaveA, SaveAAAA, UndoDevice} ==> r.row)
    && (r.pc == Consume ==> !r.consumed)
    && (r.pc !in {Consume, Answered} ==> r.consumed)
    && (r.row ==> r.consumed)
    && (r.pc in {Consume, Resolve} ==> 1 <= r.probe <= Subdomain.MAX_SUFFIX)
    && (r.pc in {UndoDevice, UndoA, UndoAAAA} ==> r.code != 201)
    && (r.Created() ==> r.a.Some? && r.row && r.consumed && r.leaked == {} && (r.aaaa.Some? <==> r.req.v6.Some?))
    && (r.pc == Answered && r.code != 201 ==> r.a.None? && r.aaaa.None?)
  }

  function StepRegistration(parent: string, s: Stores, r: Registration, o: Outcome, now: Time)
    : (res: (Stores, Registration))
    requires Coherent(r)
    ensures Coherent(res.1) && res.1.req == r.req
  {
    match r.pc
    case Consume => StepConsume(s, r, o, now)
    case Resolve => StepResolve(s, r, o)
    case CreateA => StepCreateA(parent, s, r, o)
    case CreateAAAA => StepCreateAAAA(parent, s, r, o)
    case Insert => StepInsert(s, r, o, now)
    case Sign => StepSign(s, r, o)
    case SaveA => StepSaveA(parent, s, r, o)
    case SaveAAAA => StepSaveAAAA(parent, s, r, o)
    case UndoDevice => StepUndoDevice(s, r, o)
    case UndoA => StepUndoA(s, r, o)
    case UndoAAAA => StepUndoAAAA(s, r, o)
    case Answered => (s, r)
  }

  // ---------- heartbeatDevice ----------

  /** A parsed beat; deviceId and subdomain are the verified token's claims. */
  datatype BeatReq = BeatReq(
    deviceId: string, subdomain: string, v4: Addr, v6: Option<Addr>, health: string, version: string)

  datatype BeatPc = Lookup | Touch | GetPointer | Create | SaveNew | Update | SaveOld | Replied

  /**
   * The locals of heartbeatDevice and syncDNS: the row read before the
   * update, the record types still to be pushed (the head is in progress),
   * the Cloudflare id in hand, and the ids this beat created.
   */
  datatype Beat = Beat(
    req: BeatReq, pc: BeatPc, seen: Option<Device>, todo: seq<RecordType>, id: nat, code: nat, made: set<nat>)
  {
    function Reply(c: nat): Beat {
      this.(pc := Replied, code := c, todo := [])
    }

    /** The push of the head type is over, well or badly; go to the next. */
    function NextSync(): Beat {
      if |todo| <= 1 then Reply(204) else this.(todo := todo[1..], pc := GetPointer)
    }

    predicate InSync() {
      pc in {GetPointer, Create, SaveNew, Update, SaveOld}
    }
  }

  function StartBeat(req: BeatReq): Beat {
    Beat(req, Lookup, None, [], 0, 0, {})
  }

  function Stored(d: Device, t: RecordType): Option<Addr> {
    if t == A then d.publicIp else d.publicIpv6
  }

  function Reported(b: BeatReq, t: RecordType): Option<Addr> {
    if t == A then Some(b.v4) else b.v6
  }

  /** The comparison with the row as it was before this beat's update. */
  predicate Changed(seen: Device, b: BeatReq, t: RecordType) {
    Reported(b, t).Some? && Stored(seen, t) != Reported(b, t)
  }

  function ToPush(seen: Device, b: BeatReq): (q: seq<RecordType>)
    ensures forall t :: t in q <==> Changed(seen, b, t)
  {
    (if Changed(seen, b, A) then [A] else []) + (if Changed(seen, b, AAAA) then [AAAA] else [])
  }

  predicate CoherentBeat(b: Beat) {
    && (b.pc == Touch ==> b.seen.Some?)
    && (b.InSync() ==> 1 <= |b.todo| <= 2 && (|b.todo| == 2 ==> b.todo == [A, AAAA]))
    && (!b.InSync() ==> b.todo == [])
    && (forall t :: t in b.todo ==> Reported(b.req, t).Some?)
    && (b.pc == SaveNew ==> b.id in b.made)
    && (b.pc in {Lookup, Touch} ==> b.made == {})
  }

  function Head(b: Beat): RecordType
    requires CoherentBeat(b) && b.InSync()
  {
    b.todo[0]
  }

  function Value(b: Beat): Addr
    requires CoherentBeat(b) && b.InSync()
  {
    assert b.todo[0] in b.todo;
    Reported(b.req, b.todo[0]).value
  }

  function Name(parent: string, b: Beat): string {
    Subdomain.Fqdn(b.req.subdomain, parent)
  }

  function StepLookup(s: Stores, b: Beat, o: Outcome): (Stores, Beat) {
    (s, if o != Acked then b.Reply(500)
        else if b.req.deviceId !in s.devices then b.Reply(401)
        else if s.devices[b.req.deviceId].subdomain != b.req.subdomain then b.Reply(401)
        else b.(pc := Touch, seen := Some(s.devices[b.req.deviceId])))
  }

  function StepTouch(s: Stores, b: Beat, o: Outcome, now: Time): (Stores, Beat)
    requires b.seen.Some?
  {
    var m := UpdateHeartbeat(s.devices, b.req.deviceId, b.req.v4, b.req.v6, b.req.health, b.req.version, now);
    var q := ToPush(b.seen.value, b.req);
    (if TakesEffect(o) && m.Some? then s.(devices := m.value) else s,
     if o != Acked || m.None? then b.Reply(500)
     else if q == [] then b.Reply(204)
     else b.(pc := GetPointer, todo := q))
  }

  function StepGetPointer(s: Stores, b: Beat, o: Outcome): (Stores, Beat)
    requires CoherentBeat(b) && b.InSync()
  {
    var k := (b.req.deviceId, Head(b));
    (s, if o != Acked then b.NextSync()
        else if k in s.pointers then b.(pc := Update, id := s.pointers[k].cloudflareId)
        else b.(pc := Create))
  }

  function StepCreate(parent: string, s: Stores, b: Beat, o: Outcome): (Stores, Beat)
    requires CoherentBeat(b) && b.InSync()
  {
    var z := AddRecord(s.zone, CfRecord(Name(parent, b), Head(b), Value(b)));
    var b' := b.(made := b.made + {s.zone.next});
    match o
    case Acked => (s.(zone := z), b'.(pc := SaveNew, id := s.zone.next))
    case Refused => (s, b.NextSync())
    case Lost => (s.(zone := z), b'.NextSync())
  }

  function StepUpdate(parent: string, s: Stores, b: Beat, o: Outcome): (Stores, Beat)
    requires CoherentBeat(b) && b.InSync()
  {
    var z := OverwriteRecord(s.zone, b.id, CfRecord(Name(parent, b), Head(b), Value(b)));
    (if TakesEffect(o) && z.Some? then s.(zone := z.value) else s,
     if o == Acked && z.Some? then b.(pc := SaveOld) else b.NextSync())
  }

  function StepSave(parent: string, s: Stores, b: Beat, o: Outcome): (Stores, Beat)
    requires CoherentBeat(b) && b.InSync()
  {
    (SavePointer(s, b.req.deviceId, Head(b), Pointer(Name(parent, b), Value(b), b.id), o), b.NextSync())
  }

  function StepBeat(parent: string, s: Stores, b: Beat, o: Outcome, now: Time): (res: (Stores, Beat))
    requires CoherentBeat(b)
    ensures CoherentBeat(res.1) && res.1.req == b.req
  {
    match b.pc
    case Lookup => StepLookup(s, b, o)
    case Touch => StepTouch(s, b, o, now)
    case GetPointer => StepGetPointer(s, b, o)
    case Create => StepCreate(parent, s, b, o)
    case SaveNew => StepSave(parent, s, b, o)
    case Update => StepUpdate(parent, s, b, o)
    case SaveOld => StepSave(parent, s, b, o)
    case Replied => (s, b)
  }

  // ---------- the whole hub ----------

  datatype Handler = Reg(r: Registration) | Hb(b: Beat)
  {
    predicate Sound() {
      match this case Reg(r) => Coherent(r) case Hb(b) => CoherentBeat(b)
    }

    function Owned(): set<nat> {
      match this case Reg(r) => r.Owned() case Hb(b) => b.made
    }

    function Advance(parent: string, s: Stores, o: Outcome, now: Time): (res: (Stores, Handler))
      requires Sound()
      ensures res.1.Sound() && (res.1.Reg? <==> Reg?)
    {
      match this
      case Reg(r) => var x := StepRegistration(parent, s, r, o, now); (x.0, Reg(x.1))
      case Hb(b) => var x := StepBeat(parent, s, b, o, now); (x.0, Hb(x.1))
    }
  }

  type SoundHandler = p: Handler | p.Sound() witness Reg(Enroll(EnrollReq("", "", "", "", "", "", None)))

  datatype World = World(s: Stores, handlers: map<nat, SoundHandler>)

  datatype Event =
    | Arrive(h: nat, req: EnrollReq)
    | Report(h: nat, beat: BeatReq)
    | Go(h: nat, o: Outcome, now: Time)
    | Mint(hash: string, id: nat, creator: nat, ttl: int, now: Time)
    | Revoke(id: nat, now: Time)
    | Sweep(now: Time)

  function Init(): World {
    World(Stores(map[], map[], map[], Zone(map[], 0)), map[])
  }

  function Next(parent: string, w: World, e: Event): World {
    match e
    case Arrive(h, req) =>
      if h in w.handlers then w else w.(handlers := w.handlers[h := Reg(Enroll(req))])
    case Report(h, beat) =>
      if h in w.handlers then w else w.(handlers := w.handlers[h := Hb(StartBeat(beat))])
    case Go(h, o, now) =>
      if h !in w.handlers then w
      else var x := w.handlers[h].Advance(parent, w.s, o, now); World(x.0, w.handlers[h := x.1])
    case Mint(hash, id, creator, ttl, now) =>
      var t := InsertToken(w.s.tokens, hash, id, creator, now, ttl);
      if t.Some? then w.(s := w.s.(tokens := t.value)) else w
    case Revoke(id, now) =>
      var t := RevokeToken(w.s.tokens, id, now);
      if t.Some? then w.(s := w.s.(tokens := t.value)) else w
    case Sweep(now) =>
      w.(s := w.s.(devices := MarkStale(w.s.devices, now)))
  }

  function Run(parent: string, w: World, es: seq<Event>): World {
    if es == [] then w else Next(parent, Run(parent, w, es[..|es| - 1]), es[|es| - 1])
  }

  lemma {:induction false} RunAppend(parent: string, w: World, xs: seq<Event>, ys: seq<Event>)
    ensures Run(parent, w, xs + ys) == Run(parent, Run(parent, w, xs), ys)
  {
    if ys == [] {
      assert xs + ys == xs;
    } else {
      RunAppend(parent, w, xs, ys[..|ys| - 1]);
      assert (xs + ys)[..|xs + ys| - 1] == xs + ys[..|ys| - 1];
    }
  }

  lemma RunCons(parent: string, w: World, e: Event, es: seq<Event>)
    ensures Run(parent, w, [e] + es) == Run(parent, Next(parent, w, e), es)
  {
    RunAppend(parent, w, [e], es);
    assert [e][..0] == [];
    assert Run(parent, w, [e]) == Next(parent, Run(parent, w, []), e);
  }

  // ---------- the name search, undisturbed ----------

  function Names(devices: DeviceTable): set<string> {
    set d | d in devices :: devices[d].subdomain
  }

  lemma TakenIsNamed(devices: DeviceTable, name: string)
    ensures SubdomainTaken(devices, name) <==> name in Names(devices)
  {
  }

  /** k acknowledged steps of handler h and nothing else. */
  function Steps(h: nat, k: nat, now: Time): seq<Event> {
    if k == 0 then [] else [Go(h, Acked, now)] + Steps(h, k - 1, now)
  }

  /** One acknowledged probe: a free name is taken, a taken one moves the search on or ends it. */
  function Probed(names: set<string>, r: Registration): Registration {
    var name := Subdomain.Candidate(r.req.base, r.probe);
    if name !in names then r.(pc := CreateA, sub := name)
    else if r.probe < Subdomain.MAX_SUFFIX then r.(probe := r.probe + 1)
    else r.Answer(409)
  }

  lemma OneProbe(parent: string, w: World, h: nat, now: Time)
    requires h in w.handlers && w.handlers[h].Reg? && w.handlers[h].r.pc == Resolve
    ensures var r := Probed(Names(w.s.devices), w.handlers[h].r);
            Coherent(r) && Next(parent, w, Go(h, Acked, now)) == World(w.s, w.handlers[h := Reg(r)])
  {
    var r := w.handlers[h].r;
    assert w.handlers[h].Sound();
    TakenIsNamed(w.s.devices, Subdomain.Candidate(r.req.base, r.probe));
  }

  /** A run of k + 1 steps is one probe, then a run of k. */
  lemma FirstProbe(parent: string, w: World, h: nat, k: nat, now: Time)
    requires h in w.handlers && w.handlers[h].Reg? && w.handlers[h].r.pc == Resolve
    ensures var r := Probed(Names(w.s.devices), w.handlers[h].r);
            && Coherent(r) && r.req == w.handlers[h].r.req
            && Run(parent, w, Steps(h, k + 1, now)) ==
               Run(parent, World(w.s, w.handlers[h := Reg(r)]), Steps(h, k, now))
  {
    OneProbe(parent, w, h, now);
    RunCons(parent, w, Go(h, Acked, now), Steps(h, k, now));
  }

  /** The search is over: with the first free name, or with 409 if there is none. */
  predicate SearchEnded(r: Registration, found: Option<string>) {
    match found
    case Some(name) => r.pc == CreateA && r.sub == name
    case None => r.pc == Answered && r.code == 409
  }

  lemma ProbeIsOneStepOfTheSearch(names: set<string>, r: Registration)
    requires r.pc == Resolve && 1 <= r.probe <= Subdomain.MAX_SUFFIX
    ensures var r' := Probed(names, r); var found := Subdomain.FirstFree(names, r.req.base, r.probe);
            if r'.pc == Resolve then
              r' == r.(probe := r.probe + 1) && r'.probe <= Subdomain.MAX_SUFFIX
              && found == Subdomain.FirstFree(names, r.req.base, r'.probe)
            else SearchEnded(r', found)
  {
  }

  /**
   * When no call fails and no other request interferes, the handler's probes
   * find the first free candidate from the current one on, and leave the
   * stores alone.
   */
  lemma {:induction false} UndisturbedSearch(parent: string, w: World, h: nat, r: Registration, now: Time)
    returns (k: nat, r': Registration)
    requires h in w.handlers && w.handlers[h] == Reg(r) && r.pc == Resolve
    ensures 1 <= r.probe <= Subdomain.MAX_SUFFIX
    ensures SearchEnded(r', Subdomain.FirstFree(Names(w.s.devices), r.req.base, r.probe))
    ensures var w' := Run(parent, w, Steps(h, k, now));
            w'.s == w.s && h in w'.handlers && w'.handlers[h] == Reg(r')
    decreases Subdomain.MAX_SUFFIX - r.probe
  {
    assert w.handlers[h].Sound();
    ProbeIsOneStepOfTheSearch(Names(w.s.devices), r);
    FirstProbe(parent, w, h, 0, now);
    k, r' := 0, Probed(Names(w.s.devices), r);
    if r'.pc == Resolve {
      k, r' := UndisturbedSearch(parent, World(w.s, w.handlers[h := Reg(r')]), h, r', now);
    }
    FirstProbe(parent, w, h, k, now);
    k := k + 1;
  }
}
