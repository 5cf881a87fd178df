/**
 * What one request does when no call fails and no other request interferes:
 * the rows, records and pointers it leaves, written out.
 */
module Undisturbed {
  import opened Common
  import opened Tables
  import opened Requests
  import Subdomain

  // ---------- a request on its own ----------

  /** k acknowledged steps of one handler. */
  function Solo(parent: string, s: Stores, p: SoundHandler, k: nat, now: Time): (Stores, SoundHandler)
    decreases k
  {
    if k == 0 then (s, p)
    else var x := p.Advance(parent, s, Acked, now); Solo(parent, x.0, x.1, k - 1, now)
  }

  lemma GoAdvances(parent: string, w: World, h: nat, now: Time, s1: Stores, p1: SoundHandler)
    requires h in w.handlers && w.handlers[h].Advance(parent, w.s, Acked, now) == (s1, p1)
    ensures Next(parent, w, Go(h, Acked, now)) == World(s1, w.handlers[h := p1])
  {
  }

  /** k more steps take the handler from one state to another. */
  ghost predicate Leads(parent: string, s: Stores, p: SoundHandler, k: nat, now: Time, s': Stores, p': SoundHandler) {
    Solo(parent, s, p, k, now) == (s', p')
  }

  /** Taken in the hub, these steps bring stores and frame there and leave the others alone. */
  ghost predicate Lands(parent: string, w: World, h: nat, k: nat, now: Time, s': Stores, p': SoundHandler) {
    Run(parent, w, Steps(h, k, now)) == World(s', w.handlers[h := p'])
  }

  lemma LandsAtOnce(parent: string, w: World, h: nat, now: Time)
    requires h in w.handlers
    ensures Lands(parent, w, h, 0, now, w.s, w.handlers[h])
  {
    assert w.handlers[h := w.handlers[h]] == w.handlers;
  }

  lemma LandsOneLater(parent: string, w: World, h: nat, k: nat, now: Time, s1: Stores, p1: SoundHandler,
                      s': Stores, p': SoundHandler)
    requires h in w.handlers && w.handlers[h].Advance(parent, w.s, Acked, now) == (s1, p1)
    requires Lands(parent, World(s1, w.handlers[h := p1]), h, k, now, s', p')
    ensures Lands(parent, w, h, k + 1, now, s', p')
  {
    GoAdvances(parent, w, h, now, s1, p1);
    RunCons(parent, w, Go(h, Acked, now), Steps(h, k, now));
    assert w.handlers[h := p1][h := p'] == w.handlers[h := p'];
  }

  lemma {:induction false} SoloIsRun(parent: string, w: World, h: nat, p: SoundHandler, k: nat, now: Time,
                                     s': Stores, p': SoundHandler)
    requires h in w.handlers && w.handlers[h] == p && Leads(parent, w.s, p, k, now, s', p')
    ensures Lands(parent, w, h, k, now, s', p')
    decreases k
  {
    if k == 0 {
      LandsAtOnce(parent, w, h, now);
    } else {
      var x := p.Advance(parent, w.s, Acked, now);
      SoloIsRun(parent, World(x.0, w.handlers[h := x.1]), h, x.1, k - 1, now, s', p');
      LandsOneLater(parent, w, h, k - 1, now, x.0, x.1, s', p');
    }
  }

  lemma OneStep(parent: string, s: Stores, p: SoundHandler, now: Time, s1: Stores, p1: SoundHandler,
                k: nat, s2: Stores, p2: SoundHandler)
    requires p.Advance(parent, s, Acked, now) == (s1, p1) && Leads(parent, s1, p1, k, now, s2, p2)
    ensures Leads(parent, s, p, k + 1, now, s2, p2)
  {
  }

  // ---------- the search ----------

  lemma SearchStep(parent: string, s: Stores, r: Registration, now: Time)
    requires Coherent(r) && r.pc == Resolve
    ensures Coherent(Probed(Names(s.devices), r))
    ensures Reg(r).Advance(parent, s, Acked, now) == (s, Reg(Probed(Names(s.devices), r)))
  {
    TakenIsNamed(s.devices, Subdomain.Candidate(r.req.base, r.probe));
  }

  /** The search ends at the first free candidate, having touched nothing but its own counter. */
  lemma {:induction false} SearchLeads(parent: string, s: Stores, r: Registration, name: string, now: Time)
    returns (k: nat, r': Registration)
    requires Coherent(r) && r.pc == Resolve
    requires Subdomain.FirstFree(Names(s.devices), r.req.base, r.probe) == Some(name)
    ensures Coherent(r') && r' == r.(pc := CreateA, sub := name, probe := r'.probe)
    ensures Leads(parent, s, Reg(r), k, now, s, Reg(r'))
    decreases Subdomain.MAX_SUFFIX - r.probe
  {
    SearchStep(parent, s, r, now);
    var r1 := Probed(Names(s.devices), r);
    if r1.pc == Resolve {
      k, r' := SearchLeads(parent, s, r1, name, now);
    } else {
      k, r' := 0, r1;
    }
    OneStep(parent, s, Reg(r), now, s, Reg(r1), k, s, Reg(r'));
    k := k + 1;
  }

  // ---------- registerDevice ----------

  /** The row of a device that has just enrolled. */
  function EnrolledRow(req: EnrollReq, name: string, now: Time): Device {
    Device(req.name, name, req.kid, Some(req.v4), req.v6, Enrolled, "", "", None, now, now)
  }

  /** The zone with one record more, under the next id. */
  function WithRecord(z: Zone, name: string, parent: string, t: RecordType, a: Addr): Zone {
    Zone(z.records[z.next := CfRecord(name + "." + parent, t, a)], z.next + 1)
  }

  /** The two records of a registration, or the one. */
  function WithRecords(z: Zone, req: EnrollReq, name: string, parent: string): Zone {
    var z1 := WithRecord(z, name, parent, A, req.v4);
    if req.v6.Some? then WithRecord(z1, name, parent, AAAA, req.v6.value) else z1
  }

  function WithPointers(m: PointerTable, req: EnrollReq, name: string, parent: string, id: nat): PointerTable {
    var m1 := m[(req.deviceId, A) := Pointer(name + "." + parent, req.v4, id)];
    if req.v6.Some?
    then m1[(req.deviceId, AAAA) := Pointer(name + "." + parent, req.v6.value, id + 1)]
    else m1
  }

  lemma ConsumeStep(parent: string, s: Stores, r: Registration, now: Time)
    requires Coherent(r) && r.pc == Consume && r.req.hash in s.tokens
    requires s.tokens[r.req.hash].consumedAt.None? && now < s.tokens[r.req.hash].expiresAt
    ensures var t := s.tokens[r.req.hash];
            var used := Token(t.id, t.createdBy, t.createdAt, t.expiresAt, Some(now), Some(r.req.deviceId));
            Coherent(r.(pc := Resolve, consumed := true)) &&
            Reg(r).Advance(parent, s, Acked, now) ==
            (s.(tokens := s.tokens[r.req.hash := used]), Reg(r.(pc := Resolve, consumed := true)))
  {
  }

  lemma CreateAStep(parent: string, s: Stores, r: Registration, now: Time)
    requires Coherent(r) && r.pc == CreateA
    ensures var r' := r.(a := Some(s.zone.next), pc := if r.req.v6.Some? then CreateAAAA else Insert);
            Coherent(r') && Reg(r).Advance(parent, s, Acked, now) ==
                            (s.(zone := WithRecord(s.zone, r.sub, parent, A, r.req.v4)), Reg(r'))
  {
  }

  lemma CreateAAAAStep(parent: string, s: Stores, r: Registration, now: Time)
    requires Coherent(r) && r.pc == CreateAAAA
    ensures var r' := r.(aaaa := Some(s.zone.next), pc := Insert);
            Coherent(r') && Reg(r).Advance(parent, s, Acked, now) ==
                            (s.(zone := WithRecord(s.zone, r.sub, parent, AAAA, r.req.v6.value)), Reg(r'))
  {
  }

  lemma InsertStep(parent: string, s: Stores, r: Registration, now: Time)
    requires Coherent(r) && r.pc == Insert && r.req.deviceId !in s.devices && r.sub !in Names(s.devices)
    ensures var r' := r.(pc := Sign, row := true);
            Coherent(r') && Reg(r).Advance(parent, s, Acked, now) ==
                            (s.(devices := s.devices[r.req.deviceId := EnrolledRow(r.req, r.sub, now)]), Reg(r'))
  {
    TakenIsNamed(s.devices, r.sub);
  }

  lemma SignStep(parent: string, s: Stores, r: Registration, now: Time)
    requires Coherent(r) && r.pc == Sign
    ensures Coherent(r.(pc := SaveA)) && Reg(r).Advance(parent, s, Acked, now) == (s, Reg(r.(pc := SaveA)))
  {
  }

  lemma SaveAStep(parent: string, s: Stores, r: Registration, now: Time)
    requires Coherent(r) && r.pc == SaveA && r.req.deviceId in s.devices
    ensures var r' := if r.req.v6.Some? then r.(pc := SaveAAAA) else r.(pc := Answered, code := 201);
            var p := Pointer(r.sub + "." + parent, r.req.v4, r.a.value);
            Coherent(r') && Reg(r).Advance(parent, s, Acked, now) ==
                            (s.(pointers := s.pointers[(r.req.deviceId, A) := p]), Reg(r'))
  {
  }

  lemma SaveAAAAStep(parent: string, s: Stores, r: Registration, now: Time)
    requires Coherent(r) && r.pc == SaveAAAA && r.req.deviceId in s.devices
    ensures var r' := r.(pc := Answered, code := 201);
            var p := Pointer(r.sub + "." + parent, r.req.v6.value, r.aaaa.value);
            Coherent(r') && Reg(r).Advance(parent, s, Acked, now) ==
                            (s.(pointers := s.pointers[(r.req.deviceId, AAAA) := p]), Reg(r'))
  {
  }

  /** From the inserted row on: sign, save the pointers, answer 201. */
  lemma PublishLeads(parent: string, s: Stores, r: Registration, now: Time) returns (k: nat, r': Registration)
    requires Coherent(r) && r.pc == Sign && r.req.deviceId in s.devices
    requires r.req.v6.Some? ==> r.aaaa == Some(r.a.value + 1)
    ensures Coherent(r') && r'.Created() && r'.sub == r.sub && r'.req == r.req
    ensures Leads(parent, s, Reg(r), k, now,
                  s.(pointers := WithPointers(s.pointers, r.req, r.sub, parent, r.a.value)), Reg(r'))
  {
    SignStep(parent, s, r, now);
    var r1 := r.(pc := SaveA);
    SaveAStep(parent, s, r1, now);
    var p := Pointer(r.sub + "." + parent, r.req.v4, r.a.value);
    var s2 := s.(pointers := s.pointers[(r.req.deviceId, A) := p]);
    var s3 := s.(pointers := WithPointers(s.pointers, r.req, r.sub, parent, r.a.value));
    if r.req.v6.Some? {
      var r2 := r1.(pc := SaveAAAA);
      r' := r2.(pc := Answered, code := 201);
      SaveAAAAStep(parent, s2, r2, now);
      OneStep(parent, s2, Reg(r2), now, s3, Reg(r'), 0, s3, Reg(r'));
      OneStep(parent, s, Reg(r1), now, s2, Reg(r2), 1, s3, Reg(r'));
      k := 3;
    } else {
      r' := r1.(pc := Answered, code := 201);
      OneStep(parent, s, Reg(r1), now, s3, Reg(r'), 0, s3, Reg(r'));
      k := 2;
    }
    OneStep(parent, s, Reg(r), now, s, Reg(r1), k - 1, s3, Reg(r'));
  }

  /** From the created records on. */
  lemma InsertLeads(parent: string, s: Stores, r: Registration, now: Time) returns (k: nat, r': Registration)
    requires Coherent(r) && r.pc == Insert && r.req.deviceId !in s.devices && r.sub !in Names(s.devices)
    requires r.req.v6.Some? ==> r.aaaa == Some(r.a.value + 1)
    ensures Coherent(r') && r'.Created() && r'.sub == r.sub && r'.req == r.req
    ensures Leads(parent, s, Reg(r), k, now,
                  s.(devices := s.devices[r.req.deviceId := EnrolledRow(r.req, r.sub, now)],
                     pointers := WithPointers(s.pointers, r.req, r.sub, parent, r.a.value)), Reg(r'))
  {
    InsertStep(parent, s, r, now);
    var s1 := s.(devices := s.devices[r.req.deviceId := EnrolledRow(r.req, r.sub, now)]);
    var r1 := r.(pc := Sign, row := true);
    k, r' := PublishLeads(parent, s1, r1, now);
    var s2 := s1.(pointers := WithPointers(s.pointers, r.req, r.sub, parent, r.a.value));
    OneStep(parent, s, Reg(r), now, s1, Reg(r1), k, s2, Reg(r'));
    k := k + 1;
  }

  /** The stores after a registration under this name. */
  function Registered(parent: string, s: Stores, req: EnrollReq, name: string, now: Time): Stores {
    s.(devices := s.devices[req.deviceId := EnrolledRow(req, name, now)],
       zone := WithRecords(s.zone, req, name, parent),
       pointers := WithPointers(s.pointers, req, name, parent, s.zone.next))
  }

  lemma CreateLeads(parent: string, s: Stores, r: Registration, now: Time) returns (k: nat, r': Registration)
    requires Coherent(r) && r.pc == CreateA && r.req.deviceId !in s.devices && r.sub !in Names(s.devices)
    ensures Coherent(r') && r'.Created() && r'.sub == r.sub && r'.req == r.req
    ensures Leads(parent, s, Reg(r), k, now, Registered(parent, s, r.req, r.sub, now), Reg(r'))
  {
    CreateAStep(parent, s, r, now);
    var s1 := s.(zone := WithRecord(s.zone, r.sub, parent, A, r.req.v4));
    var r1 := r.(a := Some(s.zone.next), pc := if r.req.v6.Some? then CreateAAAA else Insert);
    var s3 := Registered(parent, s, r.req, r.sub, now);
    if r.req.v6.Some? {
      CreateAAAAStep(parent, s1, r1, now);
      var s2 := s.(zone := WithRecords(s.zone, r.req, r.sub, parent));
      var r2 := r1.(aaaa := Some(s1.zone.next), pc := Insert);
      k, r' := InsertLeads(parent, s2, r2, now);
      OneStep(parent, s1, Reg(r1), now, s2, Reg(r2), k, s3, Reg(r'));
      k := k + 1;
    } else {
      k, r' := InsertLeads(parent, s1, r1, now);
    }
    OneStep(parent, s, Reg(r), now, s1, Reg(r1), k, s3, Reg(r'));
    k := k + 1;
  }

  lemma FirstFreeIsFree(s: Stores, base: string, n: nat, name: string)
    requires 1 <= n && Subdomain.FirstFree(Names(s.devices), base, n) == Some(name)
    ensures name !in Names(s.devices)
  {
    Subdomain.FirstFreeIsFirst(Names(s.devices), base, n);
  }

  lemma {:induction false} LeadsOn(parent: string, s: Stores, p: SoundHandler, k: nat, now: Time,
                                   s1: Stores, p1: SoundHandler, l: nat, s2: Stores, p2: SoundHandler)
    requires Leads(parent, s, p, k, now, s1, p1) && Leads(parent, s1, p1, l, now, s2, p2)
    ensures Leads(parent, s, p, k + l, now, s2, p2)
    decreases k
  {
    if k > 0 {
      var x := p.Advance(parent, s, Acked, now);
      LeadsOn(parent, x.0, x.1, k - 1, now, s1, p1, l, s2, p2);
    }
  }

  /** The token, once used. */
  function Used(t: Token, deviceId: string, now: Time): Token {
    Token(t.id, t.createdBy, t.createdAt, t.expiresAt, Some(now), Some(deviceId))
  }

  lemma EnrollLeads(parent: string, s: Stores, req: EnrollReq, name: string, now: Time)
    returns (k: nat, r': Registration)
    requires req.hash in s.tokens && s.tokens[req.hash].consumedAt.None? && now < s.tokens[req.hash].expiresAt
    requires Subdomain.Resolve(Names(s.devices), req.base) == Some(name) && req.deviceId !in s.devices
    ensures Coherent(r') && r'.Created() && r'.sub == name && r'.req == req
    ensures Leads(parent, s, Reg(Enroll(req)), k, now,
                  Registered(parent, s.(tokens := s.tokens[req.hash := Used(s.tokens[req.hash], req.deviceId, now)]),
                             req, name, now), Reg(r'))
  {
    var r := Enroll(req);
    var s1 := s.(tokens := s.tokens[req.hash := Used(s.tokens[req.hash], req.deviceId, now)]);
    ConsumeStep(parent, s, r, now);
    var r1 := r.(pc := Resolve, consumed := true);
    FirstFreeIsFree(s1, req.base, 1, name);
    var j, r2 := SearchLeads(parent, s1, r1, name, now);
    var l;
    l, r' := CreateLeads(parent, s1, r2, now);
    var s2 := Registered(parent, s1, req, name, now);
    LeadsOn(parent, s1, Reg(r1), j, now, s1, Reg(r2), l, s2, Reg(r'));
    OneStep(parent, s, Reg(r), now, s1, Reg(r1), j + l, s2, Reg(r'));
    k := j + l + 1;
  }

  /**
   * A registration that nothing disturbs, with an open token, a new device id
   * and a free name among its 99, answers 201 under the first free name. It
   * marks the token with the device, and leaves one row, a record of the full
   * name per address, and the pointers to these records - all written out.
   */
  lemma {:induction false} RegistrationLeaves(parent: string, w: World, h: nat, req: EnrollReq, name: string, now: Time)
    returns (k: nat)
    requires h !in w.handlers && req.deviceId !in w.s.devices
    requires req.hash in w.s.tokens && w.s.tokens[req.hash].consumedAt.None? && now < w.s.tokens[req.hash].expiresAt
    requires Subdomain.Resolve(Names(w.s.devices), req.base) == Some(name)
    ensures var w' := Run(parent, w, [Arrive(h, req)] + Steps(h, k, now));
            && h in w'.handlers && w'.handlers[h].Reg? && w'.handlers[h].r.Created() && w'.handlers[h].r.sub == name
            && w'.s == Stores(w.s.tokens[req.hash := Used(w.s.tokens[req.hash], req.deviceId, now)],
                              w.s.devices[req.deviceId := EnrolledRow(req, name, now)],
                              WithPointers(w.s.pointers, req, name, parent, w.s.zone.next),
                              WithRecords(w.s.zone, req, name, parent))
  {
    var r';
    k, r' := EnrollLeads(parent, w.s, req, name, now);
    RunCons(parent, w, Arrive(h, req), Steps(h, k, now));
    var s' := Registered(parent, w.s.(tokens := w.s.tokens[req.hash := Used(w.s.tokens[req.hash], req.deviceId, now)]),
                         req, name, now);
    SoloIsRun(parent, w.(handlers := w.handlers[h := Reg(Enroll(req))]), h, Reg(Enroll(req)), k, now, s', Reg(r'));
  }

  // ---------- heartbeatDevice ----------

  /** The row after a beat; a missing IPv6 address keeps the stored one. */
  function BeatenRow(d: Device, beat: BeatReq, now: Time): Device {
    Device(d.name, d.subdomain, d.kid, Some(beat.v4), if beat.v6.Some? then beat.v6 else d.publicIpv6, Online,
           beat.health, beat.version, Some(now), d.enrolledAt, now)
  }

  /** The stores after one push: onto the record known from dns_records, or onto a new one. */
  function Pushed(parent: string, s: Stores, beat: BeatReq, t: RecordType, a: Addr): Stores {
    var k, fqdn := (beat.deviceId, t), beat.subdomain + "." + parent;
    if k in s.pointers then
      var id := s.pointers[k].cloudflareId;
      s.(zone := s.zone.(records := s.zone.records[id := CfRecord(fqdn, t, a)]),
         pointers := s.pointers[k := Pointer(fqdn, a, id)])
    else
      s.(zone := Zone(s.zone.records[s.zone.next := CfRecord(fqdn, t, a)], s.zone.next + 1),
         pointers := s.pointers[k := Pointer(fqdn, a, s.zone.next)])
  }

  /** Each reported address that differs from the row is pushed, A before AAAA. */
  function Reconciled(parent: string, s: Stores, row: Device, beat: BeatReq): Stores {
    var s1 := if row.publicIp != Some(beat.v4) then Pushed(parent, s, beat, A, beat.v4) else s;
    if beat.v6.Some? && row.publicIpv6 != beat.v6 then Pushed(parent, s1, beat, AAAA, beat.v6.value) else s1
  }

  /** The pointer of this type, if there is one, names a live record. */
  predicate PointerLives(s: Stores, d: string, t: RecordType) {
    (d, t) in s.pointers ==> s.pointers[(d, t)].cloudflareId in s.zone.records
  }

  lemma LookupStep(parent: string, s: Stores, b: Beat, now: Time)
    requires CoherentBeat(b) && b.pc == Lookup && b.req.deviceId in s.devices
    requires s.devices[b.req.deviceId].subdomain == b.req.subdomain
    ensures var b' := b.(pc := Touch, seen := Some(s.devices[b.req.deviceId]));
            CoherentBeat(b') && Hb(b).Advance(parent, s, Acked, now) == (s, Hb(b'))
  {
  }

  /** The reply, or the first push. */
  function AfterTouch(b: Beat): Beat
    requires b.seen.Some?
  {
    var q := ToPush(b.seen.value, b.req);
    if q == [] then b.(pc := Replied, code := 204, todo := []) else b.(pc := GetPointer, todo := q)
  }

  lemma TouchStep(parent: string, s: Stores, b: Beat, now: Time)
    requires CoherentBeat(b) && b.pc == Touch && b.req.deviceId in s.devices
    ensures var d := b.req.deviceId;
            CoherentBeat(AfterTouch(b)) && Hb(b).Advance(parent, s, Acked, now) ==
            (s.(devices := s.devices[d := BeatenRow(s.devices[d], b.req, now)]), Hb(AfterTouch(b)))
  {
  }

  /** One push, three calls: lookup, create or update, upsert. */
  lemma PushLeads(parent: string, s: Stores, b: Beat, now: Time) returns (b': Beat)
    requires CoherentBeat(b) && b.pc == GetPointer && b.req.deviceId in s.devices
    requires PointerLives(s, b.req.deviceId, Head(b))
    ensures CoherentBeat(b') && b'.req == b.req
    ensures if |b.todo| == 1 then b'.pc == Replied && b'.code == 204 else b'.pc == GetPointer && b'.todo == b.todo[1..]
    ensures Leads(parent, s, Hb(b), 3, now, Pushed(parent, s, b.req, Head(b), Value(b)), Hb(b'))
  {
    var k, fqdn := (b.req.deviceId, Head(b)), b.req.subdomain + "." + parent;
    var s2 := Pushed(parent, s, b.req, Head(b), Value(b));
    if k in s.pointers {
      var b1 := b.(pc := Update, id := s.pointers[k].cloudflareId);
      var b2 := b1.(pc := SaveOld);
      var s1 := s.(zone := s2.zone);
      b' := b2.NextSync();
      LastCall(parent, s1, b2, now, s2);
      OneStep(parent, s1, Hb(b2), now, s2, Hb(b'), 0, s2, Hb(b'));
      OneStep(parent, s, Hb(b1), now, s1, Hb(b2), 1, s2, Hb(b'));
      OneStep(parent, s, Hb(b), now, s, Hb(b1), 2, s2, Hb(b'));
    } else {
      var b1 := b.(pc := Create);
      var b2 := b1.(pc := SaveNew, id := s.zone.next, made := b.made + {s.zone.next});
      var s1 := s.(zone := s2.zone);
      b' := b2.NextSync();
      LastCall(parent, s1, b2, now, s2);
      OneStep(parent, s1, Hb(b2), now, s2, Hb(b'), 0, s2, Hb(b'));
      OneStep(parent, s, Hb(b1), now, s1, Hb(b2), 1, s2, Hb(b'));
      OneStep(parent, s, Hb(b), now, s, Hb(b1), 2, s2, Hb(b'));
    }
  }

  lemma LastCall(parent: string, s: Stores, b: Beat, now: Time, s': Stores)
    requires CoherentBeat(b) && b.pc in {SaveNew, SaveOld} && b.req.deviceId in s.devices
    requires s' == s.(pointers := s.pointers[(b.req.deviceId, Head(b)) :=
                                    Pointer(b.req.subdomain + "." + parent, Value(b), b.id)])
    ensures CoherentBeat(b.NextSync()) && Hb(b).Advance(parent, s, Acked, now) == (s', Hb(b.NextSync()))
  {
  }

  /** All pushes, from the first on. */
  lemma PushesLead(parent: string, s: Stores, row: Device, b: Beat, now: Time) returns (k: nat, b': Beat)
    requires CoherentBeat(b) && b.req.deviceId in s.devices
    requires PointerLives(s, b.req.deviceId, A) && PointerLives(s, b.req.deviceId, AAAA)
    requires var q := ToPush(row, b.req);
             if q == [] then b.pc == Replied && b.code == 204 else b.pc == GetPointer && b.todo == q
    ensures CoherentBeat(b') && b'.pc == Replied && b'.code == 204
    ensures Leads(parent, s, Hb(b), k, now, Reconciled(parent, s, row, b.req), Hb(b'))
  {
    var q := ToPush(row, b.req);
    if q == [] {
      k, b' := 0, b;
    } else {
      var b1 := PushLeads(parent, s, b, now);
      var s1 := Pushed(parent, s, b.req, Head(b), Value(b));
      if |q| == 1 {
        k, b' := 3, b1;
      } else {
        b' := PushLeads(parent, s1, b1, now);
        LeadsOn(parent, s, Hb(b), 3, now, s1, Hb(b1), 3, Pushed(parent, s1, b.req, Head(b1), Value(b1)), Hb(b'));
        k := 6;
      }
    }
  }

  /** A beat past its row update. */
  function TouchedBeat(beat: BeatReq, row: Device): (b: Beat)
    ensures CoherentBeat(b) && b.req == beat
    ensures var q := ToPush(row, beat);
            if q == [] then b.pc == Replied && b.code == 204 else b.pc == GetPointer && b.todo == q
  {
    AfterTouch(StartBeat(beat).(pc := Touch, seen := Some(row)))
  }

  lemma FirstTwoCalls(parent: string, s: Stores, beat: BeatReq, now: Time)
    requires beat.deviceId in s.devices && s.devices[beat.deviceId].subdomain == beat.subdomain
    ensures var row := s.devices[beat.deviceId];
            Leads(parent, s, Hb(StartBeat(beat)), 2, now,
                  s.(devices := s.devices[beat.deviceId := BeatenRow(row, beat, now)]), Hb(TouchedBeat(beat, row)))
  {
    var b, row := StartBeat(beat), s.devices[beat.deviceId];
    LookupStep(parent, s, b, now);
    var b1 := b.(pc := Touch, seen := Some(row));
    TouchStep(parent, s, b1, now);
    var s1 := s.(devices := s.devices[beat.deviceId := BeatenRow(row, beat, now)]);
    OneStep(parent, s, Hb(b1), now, s1, Hb(AfterTouch(b1)), 0, s1, Hb(AfterTouch(b1)));
    OneStep(parent, s, Hb(b), now, s, Hb(b1), 1, s1, Hb(AfterTouch(b1)));
  }

  lemma ThenPushes(parent: string, s: Stores, s1: Stores, row: Device, beat: BeatReq, now: Time)
    returns (k: nat, b': Beat)
    requires Leads(parent, s, Hb(StartBeat(beat)), 2, now, s1, Hb(TouchedBeat(beat, row)))
    requires beat.deviceId in s1.devices && PointerLives(s1, beat.deviceId, A) && PointerLives(s1, beat.deviceId, AAAA)
    ensures CoherentBeat(b') && b'.pc == Replied && b'.code == 204
    ensures Leads(parent, s, Hb(StartBeat(beat)), k, now, Reconciled(parent, s1, row, beat), Hb(b'))
  {
    var b := TouchedBeat(beat, row);
    k, b' := PushesLead(parent, s1, row, b, now);
    LeadsOn(parent, s, Hb(StartBeat(beat)), 2, now, s1, Hb(b), k, Reconciled(parent, s1, row, beat), Hb(b'));
    k := 2 + k;
  }

  lemma BeatLeads(parent: string, s: Stores, beat: BeatReq, now: Time) returns (k: nat, b': Beat)
    requires beat.deviceId in s.devices && s.devices[beat.deviceId].subdomain == beat.subdomain
    requires PointerLives(s, beat.deviceId, A) && PointerLives(s, beat.deviceId, AAAA)
    ensures CoherentBeat(b') && b'.pc == Replied && b'.code == 204
    ensures var row := s.devices[beat.deviceId];
            Leads(parent, s, Hb(StartBeat(beat)), k, now,
                  Reconciled(parent, s.(devices := s.devices[beat.deviceId := BeatenRow(row, beat, now)]), row, beat),
                  Hb(b'))
  {
    var row := s.devices[beat.deviceId];
    var s1 := s.(devices := s.devices[beat.deviceId := BeatenRow(row, beat, now)]);
    FirstTwoCalls(parent, s, beat, now);
    k, b' := ThenPushes(parent, s, s1, row, beat, now);
  }

  /**
   * A beat that nothing disturbs, of a device with a row under its name and
   * pointers at live records, replies 204. It writes its report on the row and
   * pushes exactly the reported addresses that differ from the row as it was.
   */
  lemma {:induction false} BeatLeaves(parent: string, w: World, h: nat, beat: BeatReq, now: Time) returns (k: nat)
    requires h !in w.handlers && beat.deviceId in w.s.devices
    requires w.s.devices[beat.deviceId].subdomain == beat.subdomain
    requires PointerLives(w.s, beat.deviceId, A) && PointerLives(w.s, beat.deviceId, AAAA)
    ensures var w' := Run(parent, w, [Report(h, beat)] + Steps(h, k, now)); var row := w.s.devices[beat.deviceId];
            && h in w'.handlers && w'.handlers[h].Hb? && w'.handlers[h].b.pc == Replied && w'.handlers[h].b.code == 204
            && w'.s == Reconciled(parent, w.s.(devices := w.s.devices[beat.deviceId := BeatenRow(row, beat, now)]),
                                  row, beat)
  {
    var b';
    k, b' := BeatLeads(parent, w.s, beat, now);
    RunCons(parent, w, Report(h, beat), Steps(h, k, now));
    var row := w.s.devices[beat.deviceId];
    var s1 := w.s.(devices := w.s.devices[beat.deviceId := BeatenRow(row, beat, now)]);
    SoloIsRun(parent, w.(handlers := w.handlers[h := Hb(StartBeat(beat))]), h, Hb(StartBeat(beat)), k, now,
              Reconciled(parent, s1, row, beat), Hb(b'));
  }
}
