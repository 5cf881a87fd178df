/**
 * The rows of enrollment_tokens, devices and dns_records, the DNS records
 * held by Cloudflare, and one function per SQL statement or API call.
 * A statement that violates a constraint or matches no row yields None.
 */
module Tables {
  import opened Common

  type Addr = string  // canonical text of a netip.Addr

  datatype RecordType = A | AAAA

  datatype Status = Enrolled | Online | Stale | Offline

  datatype Token = Token(
    id: nat, createdBy: nat, createdAt: Time, expiresAt: Time,
    consumedAt: Option<Time>, consumedBy: Option<string>)

  datatype Device = Device(
    name: string, subdomain: string, kid: string,
    publicIp: Option<Addr>, publicIpv6: Option<Addr>,
    status: Status, streamHealth: string, camVersion: string,
    lastSeen: Option<Time>, enrolledAt: Time, updatedAt: Time)

  datatype Pointer = Pointer(fqdn: string, value: Addr, cloudflareId: nat)

  datatype CfRecord = CfRecord(fqdn: string, rtype: RecordType, content: Addr)

  type TokenTable = map<string, Token>               // keyed by the UNIQUE hash
  type DeviceTable = map<string, Device>             // keyed by id
  type PointerTable = map<(string, RecordType), Pointer>  // keyed by UNIQUE (device_id, type)

  /** Cloudflare's zone: live records by id, and the next id it will hand out. */
  datatype Zone = Zone(records: map<nat, CfRecord>, next: nat)

  datatype Stores = Stores(
    tokens: TokenTable, devices: DeviceTable, pointers: PointerTable, zone: Zone)

  // ---------- enrollment_tokens ----------

  function InsertToken(tokens: TokenTable, hash: string, id: nat, creator: nat, now: Time, ttl: int)
    : Option<TokenTable>
  {
    if hash in tokens then None
    else Some(tokens[hash := Token(id, creator, now, now + ttl, None, None)])
  }

  predicate Usable(t: Token, now: Time) {
    t.consumedAt.None? && t.expiresAt > now
  }

  function ConsumeToken(tokens: TokenTable, hash: string, deviceId: string, now: Time): Option<TokenTable> {
    if hash in tokens && Usable(tokens[hash], now) then
      Some(tokens[hash := tokens[hash].(consumedAt := Some(now), consumedBy := Some(deviceId))])
    else
      None
  }

  predicate Revocable(t: Token, id: nat) {
    t.id == id && t.consumedAt.None?
  }

  function RevokeToken(tokens: TokenTable, id: nat, now: Time): Option<TokenTable> {
    if exists h :: h in tokens && Revocable(tokens[h], id) then
      Some(map h | h in tokens ::
             if Revocable(tokens[h], id) then tokens[h].(consumedAt := Some(now)) else tokens[h])
    else
      None
  }

  // ---------- devices ----------

  predicate SubdomainTaken(devices: DeviceTable, subdomain: string) {
    exists d :: d in devices && devices[d].subdomain == subdomain
  }

  function NewDevice(name: string, subdomain: string, kid: string, v4: Addr, v6: Option<Addr>, now: Time): Device {
    Device(name, subdomain, kid, Some(v4), v6, Enrolled, "", "", None, now, now)
  }

  function InsertDevice(devices: DeviceTable, id: string, row: Device): Option<DeviceTable> {
    if id in devices || SubdomainTaken(devices, row.subdomain) then None
    else Some(devices[id := row])
  }

  /** COALESCE($2, public_ip): a missing address keeps the stored one. */
  function Coalesce(reported: Option<Addr>, stored: Option<Addr>): Option<Addr> {
    if reported.Some? then reported else stored
  }

  function Touched(d: Device, v4: Addr, v6: Option<Addr>, health: string, version: string, now: Time): Device {
    d.(publicIp := Some(v4), publicIpv6 := Coalesce(v6, d.publicIpv6),
       streamHealth := health, camVersion := version,
       status := Online, lastSeen := Some(now), updatedAt := now)
  }

  function UpdateHeartbeat(devices: DeviceTable, id: string, v4: Addr, v6: Option<Addr>,
                           health: string, version: string, now: Time): Option<DeviceTable> {
    if id in devices then Some(devices[id := Touched(devices[id], v4, v6, health, version, now)])
    else None
  }

  const STALE_AFTER: int := 5 * MINUTE
  const OFFLINE_AFTER: int := 15 * MINUTE

  predicate SilentSince(d: Device, cutoff: Time) {
    d.lastSeen.Some? && d.lastSeen.value < cutoff
  }

  /** The two UPDATE statements of MarkStale, offline first, applied to one row. */
  function Swept(d: Device, now: Time): Device {
    var d1 := if d.status in {Online, Stale} && SilentSince(d, now - OFFLINE_AFTER)
              then d.(status := Offline, updatedAt := now) else d;
    if d1.status == Online && SilentSince(d1, now - STALE_AFTER)
    then d1.(status := Stale, updatedAt := now) else d1
  }

  function MarkStale(devices: DeviceTable, now: Time): DeviceTable {
    map d | d in devices :: Swept(devices[d], now)
  }

  /** ON DELETE CASCADE: the device's pointers go with its row. */
  function CascadePointers(pointers: PointerTable, id: string): PointerTable {
    map k | k in pointers && k.0 != id :: pointers[k]
  }

  // ---------- dns_records ----------

  /** INSERT ... ON CONFLICT DO UPDATE; None is a foreign-key violation. */
  function UpsertPointer(devices: DeviceTable, pointers: PointerTable, id: string, t: RecordType, p: Pointer)
    : Option<PointerTable>
  {
    if id in devices then Some(pointers[(id, t) := p]) else None
  }

  // ---------- Cloudflare ----------

  function AddRecord(z: Zone, r: CfRecord): Zone {
    Zone(z.records[z.next := r], z.next + 1)
  }

  function OverwriteRecord(z: Zone, id: nat, r: CfRecord): Option<Zone> {
    if id in z.records then Some(z.(records := z.records[id := r])) else None
  }

  function RemoveRecord(z: Zone, id: nat): Option<Zone> {
    if id in z.records then Some(z.(records := z.records - {id})) else None
  }
}
