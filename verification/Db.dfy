/**
 * internal/db and internal/cloudflare as objects: a database whose tables the
 * stores' methods update in place, and the zone behind the Cloudflare client.
 * Each method is one statement or API call; its outcome is a parameter.
 */
module Db {
  import opened Common
  import opened Tables

  datatype Error = NoError | NotFound | Conflict | Unavailable

  /** The error a caller sees: infrastructure first, then what the statement itself reports. */
  function Seen(o: Outcome, done: bool, miss: Error): Error {
    if o != Acked then Unavailable else if done then NoError else miss
  }

  /** The rows whose status became st. */
  function Entering(before: DeviceTable, after: DeviceTable, st: Status): set<string> {
    set d | d in before && d in after && before[d].status != st && after[d].status == st
  }

  class Database {
    var tokens: TokenTable
    var nextTokenId: nat
    var devices: DeviceTable
    var pointers: PointerTable

    constructor ()
      ensures tokens == map[] && devices == map[] && pointers == map[] && nextTokenId == 1
    {
      tokens, devices, pointers, nextTokenId := map[], map[], map[], 1;
    }

    // ---------- enrollment_tokens.go ----------

    /** The serial advances on every attempt, also on one that violates UNIQUE (hash). */
    method CreateToken(hash: string, creator: nat, now: Time, ttl: int, o: Outcome) returns (err: Error, id: nat)
      modifies this`tokens, this`nextTokenId
      ensures var t := InsertToken(old(tokens), hash, old(nextTokenId), creator, now, ttl);
              && tokens == (if TakesEffect(o) && t.Some? then t.value else old(tokens))
              && err == Seen(o, t.Some?, Conflict)
      ensures id == old(nextTokenId)
      ensures nextTokenId == (if TakesEffect(o) then old(nextTokenId) + 1 else old(nextTokenId))
    {
      id := nextTokenId;
      var taken := hash in tokens;
      if TakesEffect(o) {
        nextTokenId := nextTokenId + 1;
        if !taken {
          tokens := tokens[hash := Token(id, creator, now, now + ttl, None, None)];
        }
      }
      err := Seen(o, !taken, Conflict);
    }

    method ConsumeToken(hash: string, deviceId: string, now: Time, o: Outcome) returns (err: Error)
      modifies this`tokens
      ensures var t := Tables.ConsumeToken(old(tokens), hash, deviceId, now);
              && tokens == (if TakesEffect(o) && t.Some? then t.value else old(tokens))
              && err == Seen(o, t.Some?, NotFound)
    {
      var hit := hash in tokens && Usable(tokens[hash], now);
      if hit && TakesEffect(o) {
        tokens := tokens[hash := tokens[hash].(consumedAt := Some(now), consumedBy := Some(deviceId))];
      }
      err := Seen(o, hit, NotFound);
    }

    method RevokeToken(id: nat, now: Time, o: Outcome) returns (err: Error)
      modifies this`tokens
      ensures var t := Tables.RevokeToken(old(tokens), id, now);
              && tokens == (if TakesEffect(o) && t.Some? then t.value else old(tokens))
              && err == Seen(o, t.Some?, NotFound)
    {
      var hit := exists h :: h in tokens && Revocable(tokens[h], id);
      if hit && TakesEffect(o) {
        tokens := map h | h in tokens ::
          if Revocable(tokens[h], id) then tokens[h].(consumedAt := Some(now)) else tokens[h];
      }
      err := Seen(o, hit, NotFound);
    }

    // ---------- devices.go ----------

    method CreateDevice(id: string, row: Device, o: Outcome) returns (err: Error)
      modifies this`devices
      ensures var t := InsertDevice(old(devices), id, row);
              && devices == (if TakesEffect(o) && t.Some? then t.value else old(devices))
              && err == Seen(o, t.Some?, Conflict)
    {
      var clash := id in devices || SubdomainTaken(devices, row.subdomain);
      if !clash && TakesEffect(o) {
        devices := devices[id := row];
      }
      err := Seen(o, !clash, Conflict);
    }

    method GetDevice(id: string, o: Outcome) returns (err: Error, row: Option<Device>)
      ensures err == Seen(o, id in devices, NotFound)
      ensures row == if err == NoError then Some(devices[id]) else None
    {
      err := Seen(o, id in devices, NotFound);
      row := if err == NoError then Some(devices[id]) else None;
    }

    method BySubdomain(subdomain: string, o: Outcome) returns (err: Error)
      ensures err == Seen(o, SubdomainTaken(devices, subdomain), NotFound)
    {
      err := Seen(o, SubdomainTaken(devices, subdomain), NotFound);
    }

    /** RETURNING last_seen_at: on success the caller gets the new timestamp. */
    method UpdateHeartbeat(id: string, v4: Addr, v6: Option<Addr>, health: string, version: string,
                           now: Time, o: Outcome) returns (err: Error, lastSeen: Option<Time>)
      modifies this`devices
      ensures var t := Tables.UpdateHeartbeat(old(devices), id, v4, v6, health, version, now);
              && devices == (if TakesEffect(o) && t.Some? then t.value else old(devices))
              && err == Seen(o, t.Some?, NotFound)
      ensures lastSeen == if err == NoError then Some(now) else None
      ensures err == NoError ==> devices[id].lastSeen == Some(now)
    {
      var hit := id in devices;
      if hit && TakesEffect(o) {
        devices := devices[id := Touched(devices[id], v4, v6, health, version, now)];
      }
      err := Seen(o, hit, NotFound);
      lastSeen := if err == NoError then Some(now) else None;
    }

    /** The two UPDATE statements in one transaction, and the rows each affected. */
    method MarkStale(now: Time, o: Outcome) returns (err: Error, stale: nat, offline: nat)
      modifies this`devices
      ensures devices == (if TakesEffect(o) then Tables.MarkStale(old(devices), now) else old(devices))
      ensures err == Seen(o, true, NotFound)
      ensures stale == if err == NoError then |Entering(old(devices), devices, Stale)| else 0
      ensures offline == if err == NoError then |Entering(old(devices), devices, Offline)| else 0
    {
      var silent := set d | d in devices && devices[d].status in {Online, Stale}
                            && SilentSince(devices[d], now - OFFLINE_AFTER);
      var quiet := set d | d in devices && d !in silent && devices[d].status == Online
                           && SilentSince(devices[d], now - STALE_AFTER);
      if TakesEffect(o) {
        var before := devices;
        devices := map d | d in devices ::
          if d in silent then devices[d].(status := Offline, updatedAt := now)
          else if d in quiet then devices[d].(status := Stale, updatedAt := now)
          else devices[d];
        assert devices == Tables.MarkStale(before, now);
        assert Entering(before, devices, Offline) == silent;
        assert Entering(before, devices, Stale) == quiet;
      }
      err := Seen(o, true, NotFound);
      stale, offline := if err == NoError then |quiet| else 0, if err == NoError then |silent| else 0;
    }

    method DeleteDevice(id: string, o: Outcome) returns (err: Error)
      modifies this`devices, this`pointers
      ensures devices == (if TakesEffect(o) then old(devices) - {id} else old(devices))
      ensures pointers == (if TakesEffect(o) then CascadePointers(old(pointers), id) else old(pointers))
      ensures err == Seen(o, id in old(devices), NotFound)
    {
      var hit := id in devices;
      if TakesEffect(o) {
        devices := devices - {id};
        pointers := CascadePointers(pointers, id);
      }
      err := Seen(o, hit, NotFound);
    }

    // ---------- dns_records.go ----------

    method UpsertPointer(id: string, t: RecordType, p: Pointer, o: Outcome) returns (err: Error)
      modifies this`pointers
      ensures var m := Tables.UpsertPointer(devices, old(pointers), id, t, p);
              && pointers == (if TakesEffect(o) && m.Some? then m.value else old(pointers))
              && err == Seen(o, m.Some?, Conflict)
    {
      var parentRow := id in devices;
      if parentRow && TakesEffect(o) {
        pointers := pointers[(id, t) := p];
      }
      err := Seen(o, parentRow, Conflict);
    }

    method GetPointer(id: string, t: RecordType, o: Outcome) returns (err: Error, p: Option<Pointer>)
      ensures err == Seen(o, (id, t) in pointers, NotFound)
      ensures p == if err == NoError then Some(pointers[(id, t)]) else None
    {
      err := Seen(o, (id, t) in pointers, NotFound);
      p := if err == NoError then Some(pointers[(id, t)]) else None;
    }
  }

  class Cloudflare {
    var zone: Zone

    constructor ()
      ensures zone == Zone(map[], 0)
    {
      zone := Zone(map[], 0);
    }

    method CreateRecord(r: CfRecord, o: Outcome) returns (err: Error, id: nat)
      modifies this
      ensures zone == (if TakesEffect(o) then AddRecord(old(zone), r) else old(zone))
      ensures err == Seen(o, true, NotFound) && id == old(zone).next
    {
      id := zone.next;
      if TakesEffect(o) {
        zone := AddRecord(zone, r);
      }
      err := Seen(o, true, NotFound);
    }

    method UpdateRecord(id: nat, r: CfRecord, o: Outcome) returns (err: Error)
      modifies this
      ensures var z := OverwriteRecord(old(zone), id, r);
              && zone == (if TakesEffect(o) && z.Some? then z.value else old(zone))
              && err == Seen(o, z.Some?, NotFound)
    {
      var z := OverwriteRecord(zone, id, r);
      if TakesEffect(o) && z.Some? {
        zone := z.value;
      }
      err := Seen(o, z.Some?, NotFound);
    }

    method DeleteRecord(id: nat, o: Outcome) returns (err: Error)
      modifies this
      ensures var z := RemoveRecord(old(zone), id);
              && zone == (if TakesEffect(o) && z.Some? then z.value else old(zone))
              && err == Seen(o, z.Some?, NotFound)
    {
      var z := RemoveRecord(zone, id);
      if TakesEffect(o) && z.Some? {
        zone := z.value;
      }
      err := Seen(o, z.Some?, NotFound);
    }
  }
}
