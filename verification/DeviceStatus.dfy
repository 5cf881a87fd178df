/** internal/db/devices.go: the status machine enrolled -> online -> stale -> offline. */
module DeviceStatus {
  import opened Common
  import opened Tables

  datatype Op =
    | Enroll(id: string, name: string, subdomain: string, kid: string, v4: Addr, v6: Option<Addr>, now: Time)
    | Heartbeat(id: string, v4: Addr, v6: Option<Addr>, health: string, version: string, now: Time)
    | Remove(id: string, now: Time)
    | Sweep(now: Time)

  function Apply(devices: DeviceTable, op: Op): DeviceTable {
    match op
    case Enroll(id, name, subdomain, kid, v4, v6, now) =>
      var r := InsertDevice(devices, id, NewDevice(name, subdomain, kid, v4, v6, now));
      if r.Some? then r.value else devices
    case Heartbeat(id, v4, v6, health, version, now) =>
      var r := UpdateHeartbeat(devices, id, v4, v6, health, version, now);
      if r.Some? then r.value else devices
    case Remove(id, _) => devices - {id}
    case Sweep(now) => MarkStale(devices, now)
  }

  function After(ops: seq<Op>): DeviceTable {
    if ops == [] then map[] else Apply(After(ops[..|ops| - 1]), ops[|ops| - 1])
  }

  /** One clock: operations are stamped in order. */
  predicate Ordered(ops: seq<Op>) {
    forall i, j :: 0 <= i < j < |ops| ==> ops[i].now <= ops[j].now
  }

  /** What the status would be if the sweep ran exactly at t. */
  function StatusAt(lastSeen: Option<Time>, t: Time): Status {
    match lastSeen
    case None => Enrolled
    case Some(last) =>
      if last < t - OFFLINE_AFTER then Offline
      else if last < t - STALE_AFTER then Stale
      else Online
  }

  /** The status is the one some moment between the last beat and t would give. */
  predicate Plausible(d: Device, t: Time) {
    match d.lastSeen
    case None => d.status == Enrolled
    case Some(last) =>
      && last <= t
      && d.status != Enrolled
      && (d.status == Stale ==> last < t - STALE_AFTER)
      && (d.status == Offline ==> last < t - OFFLINE_AFTER)
  }

  /** A sweep at t makes a plausible status the exact one, whatever sweeps ran before. */
  lemma SweptIsExact(d: Device, t: Time)
    requires Plausible(d, t)
    ensures Swept(d, t).status == StatusAt(d.lastSeen, t)
    ensures Swept(d, t).lastSeen == d.lastSeen
  {
  }

  lemma {:induction false} StatusesPlausible(ops: seq<Op>, t: Time)
    requires Ordered(ops) && (ops != [] ==> ops[|ops| - 1].now <= t)
    ensures forall d :: d in After(ops) ==> Plausible(After(ops)[d], t)
  {
    if ops != [] {
      var k := |ops| - 1;
      StatusesPlausible(ops[..k], ops[k].now);
      var m := After(ops[..k]);
      forall d | d in After(ops)
        ensures Plausible(After(ops)[d], t)
      {
        if ops[k].Sweep? {
          SweptIsExact(m[d], ops[k].now);
        }
      }
    }
  }

  /**
   * After a sweep at t, whatever heartbeats, enrollments, removals and sweeps
   * came before, every device's status is a function of its last_seen and t
   * alone; a device never seen is still enrolled.
   */
  lemma {:induction false} SweepSettlesStatus(ops: seq<Op>, t: Time)
    requires Ordered(ops) && (ops != [] ==> ops[|ops| - 1].now <= t)
    ensures var m := After(ops); var m' := MarkStale(m, t);
            m'.Keys == m.Keys &&
            forall d :: d in m ==> m'[d].lastSeen == m[d].lastSeen && m'[d].status == StatusAt(m[d].lastSeen, t)
  {
    StatusesPlausible(ops, t);
    var m := After(ops);
    forall d | d in m
      ensures Swept(m[d], t).status == StatusAt(m[d].lastSeen, t)
    {
      SweptIsExact(m[d], t);
    }
  }

  // ---------- what a row remembers ----------

  /** id has a row after the first n operations. */
  predicate HasRow(ops: seq<Op>, id: string, n: nat)
    requires n <= |ops|
  {
    id in After(ops[..n])
  }

  /** Operation e put the row of id there, and it has stayed. */
  ghost predicate MadeRow(ops: seq<Op>, id: string, e: nat) {
    && e < |ops| && ops[e].Enroll? && ops[e].id == id && !HasRow(ops, id, e)
    && forall n :: e < n <= |ops| ==> HasRow(ops, id, n)
  }

  /** The last heartbeat on id after operation e. */
  function LastBeat(ops: seq<Op>, id: string, e: nat): (b: Option<Op>)
    ensures b.Some? ==> b.value.Heartbeat?
  {
    if |ops| <= e + 1 then None
    else
      var op := ops[|ops| - 1];
      if op.Heartbeat? && op.id == id then Some(op) else LastBeat(ops[..|ops| - 1], id, e)
  }

  /** The IPv6 address the last heartbeat that brought one reported. */
  function LastIpv6(ops: seq<Op>, id: string, e: nat): Option<Addr> {
    if |ops| <= e + 1 then None
    else
      var op := ops[|ops| - 1];
      if op.Heartbeat? && op.id == id && op.v6.Some? then op.v6 else LastIpv6(ops[..|ops| - 1], id, e)
  }

  /** When the last sweep since operation e and since the last heartbeat on id ran. */
  function LastSweep(ops: seq<Op>, id: string, e: nat): Option<Time> {
    if |ops| <= e + 1 then None
    else
      var op := ops[|ops| - 1];
      if op.Sweep? then Some(op.now)
      else if op.Heartbeat? && op.id == id then None
      else LastSweep(ops[..|ops| - 1], id, e)
  }

  /** The status for a silence of this many nanoseconds: five minutes and a quarter of an hour are the limits. */
  function StatusFor(silence: int): Status {
    if silence > 900_000_000_000 then Offline else if silence > 300_000_000_000 then Stale else Online
  }

  /** What the operations say about a row: who enrolled it, what the last beats reported, how the last sweep left it. */
  predicate Remembers(d: Device, made: Op, beat: Option<Op>, v6: Option<Addr>, sweep: Option<Time>)
    requires made.Enroll? && (beat.Some? ==> beat.value.Heartbeat?)
  {
    && d.name == made.name && d.subdomain == made.subdomain && d.kid == made.kid && d.enrolledAt == made.now
    && d.publicIpv6 == (if v6.Some? then v6 else made.v6)
    && match beat
       case None =>
         && d.lastSeen == None && d.status == Enrolled && d.publicIp == Some(made.v4)
         && d.streamHealth == "" && d.camVersion == "" && d.updatedAt == made.now
       case Some(b) =>
         && d.lastSeen == Some(b.now) && d.publicIp == Some(b.v4)
         && d.streamHealth == b.health && d.camVersion == b.version
         && d.status == (if sweep.Some? then StatusFor(sweep.value - b.now) else Online)
  }

  lemma MadeEarlier(ops: seq<Op>, id: string, e: nat)
    requires MadeRow(ops, id, e) && e + 1 < |ops|
    ensures MadeRow(ops[..|ops| - 1], id, e)
  {
    var front := ops[..|ops| - 1];
    assert front[..e] == ops[..e];
    forall n | e < n <= |front|
      ensures HasRow(front, id, n)
    {
      assert front[..n] == ops[..n] && HasRow(ops, id, n);
    }
  }

  /** A row that is there was made by some operation. */
  lemma {:induction false} RowWasMade(ops: seq<Op>, id: string) returns (e: nat)
    requires id in After(ops)
    ensures MadeRow(ops, id, e)
  {
    var k := |ops| - 1;
    assert ops[..|ops|] == ops;
    if id in After(ops[..k]) {
      e := RowWasMade(ops[..k], id);
      assert ops[..k][..e] == ops[..e];
      forall n | e < n <= |ops|
        ensures HasRow(ops, id, n)
      {
        if n <= k {
          assert ops[..k][..n] == ops[..n] && HasRow(ops[..k], id, n);
        }
      }
    } else {
      e := k;
    }
  }

  /** The last heartbeat and the last sweep are not later than the last operation. */
  ghost predicate InOrder(ops: seq<Op>, id: string, e: nat) {
    && (LastBeat(ops, id, e).Some? ==> LastBeat(ops, id, e).value.now <= ops[|ops| - 1].now)
    && (LastSweep(ops, id, e).Some? ==> LastSweep(ops, id, e).value <= ops[|ops| - 1].now)
  }

  lemma {:induction false} HistoryInOrder(ops: seq<Op>, id: string, e: nat)
    requires Ordered(ops) && ops != []
    ensures InOrder(ops, id, e)
  {
    if |ops| > e + 1 {
      var k := |ops| - 1;
      HistoryInOrder(ops[..k], id, e);
      assert ops[k - 1].now <= ops[k].now;
    }
  }

  /** One operation more, on a row that stays. */
  lemma RemembersByOp(m: DeviceTable, op: Op, id: string, made: Op, beat: Option<Op>, v6: Option<Addr>,
                      sweep: Option<Time>)
    requires made.Enroll? && (beat.Some? ==> beat.value.Heartbeat? && beat.value.now <= op.now)
    requires sweep.Some? ==> sweep.value <= op.now
    requires id in m && id in Apply(m, op) && Remembers(m[id], made, beat, v6, sweep)
    ensures var hit := op.Heartbeat? && op.id == id;
            Remembers(Apply(m, op)[id], made, if hit then Some(op) else beat,
                      if hit && op.v6.Some? then op.v6 else v6,
                      if op.Sweep? then Some(op.now) else if hit then None else sweep)
  {
  }

  /**
   * The history of a row, for every run: whichever enrollments were refused
   * and whatever other devices did, the row of a device is what its own
   * enrollment, its last heartbeat and the last sweep after it make it.
   */
  lemma {:induction false} RowsRememberTheirHistory(ops: seq<Op>, id: string, e: nat)
    requires Ordered(ops) && MadeRow(ops, id, e)
    ensures id in After(ops)
    ensures Remembers(After(ops)[id], ops[e], LastBeat(ops, id, e), LastIpv6(ops, id, e), LastSweep(ops, id, e))
    decreases |ops|
  {
    var k := |ops| - 1;
    assert ops[..|ops|] == ops && HasRow(ops, id, |ops|);
    if k > e {
      MadeEarlier(ops, id, e);
      RowsRememberTheirHistory(ops[..k], id, e);
      HistoryInOrder(ops[..k], id, e);
      assert ops[k - 1].now <= ops[k].now;
      assert ops[..k][e] == ops[e];
      RemembersByOp(After(ops[..k]), ops[k], id, ops[e], LastBeat(ops[..k], id, e), LastIpv6(ops[..k], id, e),
                    LastSweep(ops[..k], id, e));
    }
  }

  /**
   * Liveness, told from the operations alone: after a sweep at t a device that
   * never beat is enrolled, one whose last beat is at most five minutes old is
   * online, at most fifteen stale, older offline - however many sweeps ran or
   * were missed before.
   */
  lemma {:induction false} SweepTellsSilence(ops: seq<Op>, id: string, t: Time) returns (e: nat)
    requires Ordered(ops) && id in After(ops) && ops[|ops| - 1].now <= t
    ensures MadeRow(ops, id, e) && id in MarkStale(After(ops), t)
    ensures var beat := LastBeat(ops, id, e); var d := MarkStale(After(ops), t)[id];
            && d.lastSeen == (if beat.Some? then Some(beat.value.now) else None)
            && d.status == (if beat.None? then Enrolled
                            else if t - beat.value.now > 15 * 60 * 1_000_000_000 then Offline
                            else if t - beat.value.now > 5 * 60 * 1_000_000_000 then Stale
                            else Online)
  {
    e := RowWasMade(ops, id);
    RowsRememberTheirHistory(ops, id, e);
    HistoryInOrder(ops, id, e);
    RemembersByOp(After(ops), Sweep(t), id, ops[e], LastBeat(ops, id, e), LastIpv6(ops, id, e),
                  LastSweep(ops, id, e));
  }

  /** updated_at is the time of the last change: whatever changes a row stamps it, and a heartbeat always does. */
  lemma ChangesAreStamped(m: DeviceTable, op: Op, id: string)
    requires id in m && id in Apply(m, op)
    ensures Apply(m, op)[id] == m[id] || Apply(m, op)[id].updatedAt == op.now
    ensures op.Heartbeat? && op.id == id ==> Apply(m, op)[id].updatedAt == op.now
  {
  }

  // ---------- sweeps that do not run ----------

  function WithoutSweeps(ops: seq<Op>): seq<Op> {
    if ops == [] then []
    else WithoutSweeps(ops[..|ops| - 1]) + (if ops[|ops| - 1].Sweep? then [] else [ops[|ops| - 1]])
  }

  /** Two tables with the same devices, names and sightings. */
  predicate SameSightings(m: DeviceTable, m': DeviceTable) {
    && m.Keys == m'.Keys
    && forall d :: d in m ==> m[d].lastSeen == m'[d].lastSeen && m[d].subdomain == m'[d].subdomain
  }

  lemma ApplyKeepsSightings(m: DeviceTable, m': DeviceTable, op: Op)
    requires SameSightings(m, m')
    ensures if op.Sweep? then SameSightings(Apply(m, op), m') else SameSightings(Apply(m, op), Apply(m', op))
  {
    if op.Enroll? {
      assert SubdomainTaken(m, op.subdomain) <==> SubdomainTaken(m', op.subdomain) by {
        if d :| d in m && m[d].subdomain == op.subdomain {
          assert d in m' && m'[d].subdomain == op.subdomain;
        }
        if d :| d in m' && m'[d].subdomain == op.subdomain {
          assert d in m && m[d].subdomain == op.subdomain;
        }
      }
    }
  }

  lemma {:induction false} SweepsKeepSightings(ops: seq<Op>)
    ensures SameSightings(After(ops), After(WithoutSweeps(ops)))
  {
    if ops != [] {
      var k := |ops| - 1;
      SweepsKeepSightings(ops[..k]);
      ApplyKeepsSightings(After(ops[..k]), After(WithoutSweeps(ops[..k])), ops[k]);
      if ops[k].Sweep? {
        assert WithoutSweeps(ops) == WithoutSweeps(ops[..k]);
      } else {
        var w := WithoutSweeps(ops[..k]) + [ops[k]];
        assert w[..|w| - 1] == WithoutSweeps(ops[..k]);
      }
    }
  }

  lemma {:induction false} WithoutSweepsIn(ops: seq<Op>, i: nat)
    requires i < |WithoutSweeps(ops)|
    ensures WithoutSweeps(ops)[i] in ops
  {
    var k := |ops| - 1;
    if i < |WithoutSweeps(ops[..k])| {
      WithoutSweepsIn(ops[..k], i);
    } else {
      assert WithoutSweeps(ops)[i] == ops[k];
    }
  }

  lemma {:induction false} WithoutSweepsOrdered(ops: seq<Op>)
    requires Ordered(ops)
    ensures Ordered(WithoutSweeps(ops))
  {
    if ops != [] {
      var k := |ops| - 1;
      WithoutSweepsOrdered(ops[..k]);
      var p := WithoutSweeps(ops[..k]);
      forall i | 0 <= i < |p|
        ensures p[i].now <= ops[k].now
      {
        WithoutSweepsIn(ops[..k], i);
        var j :| 0 <= j < k && ops[..k][j] == p[i];
        assert ops[j].now <= ops[k].now;
      }
    }
  }

  /**
   * Missed sweeps are harmless: drop every sweep from a run and sweep once at
   * the end; the statuses are those of the run with all its sweeps, swept at
   * the same instant.
   */
  lemma {:induction false} MissedSweepsAreHarmless(ops: seq<Op>, t: Time)
    requires Ordered(ops) && (ops != [] ==> ops[|ops| - 1].now <= t)
    ensures var m := MarkStale(After(ops), t); var m' := MarkStale(After(WithoutSweeps(ops)), t);
            m.Keys == m'.Keys && forall d :: d in m ==> m[d].status == m'[d].status
  {
    SweepSettlesStatus(ops, t);
    WithoutSweepsOrdered(ops);
    var q := WithoutSweeps(ops);
    if q != [] {
      WithoutSweepsIn(ops, |q| - 1);
      var i :| 0 <= i < |ops| && ops[i] == q[|q| - 1];
      assert ops[i].now <= ops[|ops| - 1].now <= t;
    }
    SweepSettlesStatus(q, t);
    SweepsKeepSightings(ops);
  }

  /** The special case with nothing in between: sweeping at t1 and then t2 is sweeping at t2. */
  lemma SweepTwiceIsSweepLater(d: Device, t1: Time, t2: Time)
    requires Plausible(d, t1) && t1 <= t2
    ensures Swept(Swept(d, t1), t2).status == Swept(d, t2).status
  {
    SweptIsExact(d, t1);
    assert Plausible(Swept(d, t1), t2) && Plausible(d, t2);
    SweptIsExact(Swept(d, t1), t2);
    SweptIsExact(d, t2);
  }
}
