# CamHub control plane: a verified model

CamHub enrolls cameras, gives each one a name under a parent zone, and keeps the
camera's address in step in three places: the `devices` row, the `dns_records`
row and the Cloudflare record. Around that sit a login rate limiter, a session
table, a device-status sweep, a hand-rolled device token and the resolution of
the client address behind proxies. This project models those parts in Dafny and
proves what they promise.

## How the model is built

* `Tables` has one function per SQL statement or Cloudflare call; `Db` has the
  stores as objects whose methods change their tables in place, proved against
  those functions.
* `Requests` is a step machine: any number of registrations and heartbeats, each
  at one of its program points, interleave call by call with minting, revoking
  and the status sweep. Every call ends `Acked`, `Refused` (an error, no effect)
  or `Lost` (the effect happened, the caller saw an error).
* `Hub` has `registerDevice`, `heartbeatDevice` and `syncDNS` as the sequential
  code they are, deciding by their own locals: errors, ids, names and rows. A
  schedule says what other requests do before each call and how the call ends. The
  contracts say that the stores end exactly where the step machine ends after the
  same turns, so the theorems about runs hold of the code.
* `Conservation` (no hypotheses), `Integrity` (heartbeats carry tokens the hub
  issued), `Addresses` (which addresses a row has), `Agreement` (overlapping beats
  of a device report the same addresses), `Retry` (what is not retried) and
  `Overlap` (exactly which overlaps are safe) are the theorems about runs;
  `Effects` says what single steps change. `Authentic` derives the hypothesis about
  tokens from `Verify`.
* `Undisturbed` writes out every row, record and pointer that one registration and
  one heartbeat leave when nothing interferes; `Naming` says that whatever happens
  every record is a child of the zone, under a name that passed validation.
* `RateBound` has the limiter's bound for timestamps in any order, and exactly when
  it holds; timestamps in order (`OrderedDoesNotLeak`) and timestamps too close for
  any sweep (`UnsweptDoesNotLeak`) always meet the condition.
* `EnrollmentTokens`, `DeviceStatus`, `Sessions`, `Limiter`, `TrustedIp`,
  `Codec`, `DeviceJwt` and `RingFile` are the other components, each with its own
  runs or round trips. `Text` and `Common` hold what they share.

## Where the comments and the code disagree

The model follows the code.

* `internal/httpapi/devices_heartbeat.go:150-153` and `:182-183` say the next
  beat retries a failed push. The beat compares with the row that the failed beat
  already overwrote, so it does not: `Retry.FailedPushIsNotRetried` gives the run
  and `Retry.BeatPushesIffAddressChanged` says exactly when a beat pushes.
* `internal/httpapi/subdomain.go:60-64` says the handler re-runs the suffixer on a
  unique violation. `internal/httpapi/devices_register.go:229-237` rolls back and
  answers 500.
* `internal/db/devices.go:61-63` says a cam cannot claim itself online;
  `UpdateHeartbeat` sets the status to online (`:183`).
* `internal/httpapi/trusted_ip.go:28-31` says X-Real-IP is the fallback for an empty
  X-Forwarded-For. The code falls back to it also when every hop is trusted or a
  malformed hop ends the walk: `TrustedIp.ChargedAddress`.
* `internal/migrations/00002_devices.sql:55-57` says `DeviceStore.Delete` enforces
  that Cloudflare records go first; it deletes the row only.

## Model

| member | source | states |
|---|---|---|
| Subdomain.ValidatedNameIsCanonical | internal/httpapi/subdomain.go:43-52 | a name that passes is a DNS label outside the reserved list, and passes again unchanged |
| Subdomain.LabelAlphabet | internal/httpapi/subdomain.go:14-38 | a label is 1 to 63 letters, digits and hyphens with no hyphen at either end |
| Subdomain.AnySpellingPasses | internal/httpapi/subdomain.go:43-52 | a free label passes in any mix of capitals and with any blanks around it, and comes out as the label |
| Subdomain.ReservedLabel | internal/cloudflare/reserved.go:73-87 | on a label, the reserved check is exactly membership in the list |
| Subdomain.ReservedInAnySpelling | internal/cloudflare/reserved.go:63-87 | the reserved check reads through capitals, blanks and one final dot |
| Subdomain.SeveralLabelsAreReserved | internal/cloudflare/reserved.go:70-85 | a name in several labels is reserved, and so is none |
| Subdomain.CandidatesDiffer | internal/httpapi/subdomain.go:65-83 | the 99 names tried for one base are pairwise different |
| Subdomain.CandidateIsNumbered | internal/httpapi/subdomain.go:65-83 | the n-th name is the base, a hyphen and n in decimal digits; the first is the base |
| Subdomain.ResolveFindsFirstFree | internal/httpapi/subdomain.go:54-83 | the search answers the first free name of base, base-2, ..., base-99, and exhaustion exactly when all are taken |
| Subdomain.CandidateKeepsRule | internal/httpapi/subdomain.go:14-38 | a suffixed name is never reserved, and is a label if and only if it fits in 63 characters |
| Subdomain.SixtyIsTight | internal/httpapi/subdomain.go:14-38 | all 99 candidates are labels if and only if the base has at most 60 characters |
| Subdomain.FqdnInjective | internal/httpapi/subdomain.go:96-101 | different subdomains of one zone have different full names |
| Subdomain.FqdnIsChild | internal/httpapi/subdomain.go:96-101 | the labels of a full name are the subdomain and then those of the zone |
| Requests.UndisturbedSearch | internal/httpapi/subdomain.go:65-94 | with no failure and no interference the handler's probes end with the first free name, or 409 if there is none, and change nothing |
| Undisturbed.RegistrationLeaves | internal/httpapi/devices_register.go:161-288 | undisturbed, with an open token, a new id and a free name, a registration answers 201 under the first free name, and the token, the row, the records and the pointers it leaves are these, field by field |
| Undisturbed.BeatLeaves | internal/httpapi/devices_heartbeat.go:103-225 | undisturbed, a beat replies 204, the row gets these fields, and exactly the reported addresses that differ from the old row are pushed, onto the known record or a new one |
| Db.Database.CreateToken | internal/db/enrollment_tokens.go:37-49 | inserts the row unless the hash is taken, under every way the call can end |
| Db.Database.ConsumeToken | internal/db/enrollment_tokens.go:58-72 | marks an unconsumed, unexpired token with time and device; anything else is one "not found" and changes nothing |
| Db.Database.RevokeToken | internal/db/enrollment_tokens.go:103-115 | marks an unconsumed token consumed and binds no device |
| Db.Database.CreateDevice | internal/db/devices.go:82-110 | inserts unless the id or the subdomain is taken |
| Db.Database.GetDevice | internal/db/devices.go:117-126 | the row, not found, or an infrastructure error |
| Db.Database.BySubdomain | internal/db/devices.go:130-139 | not found exactly when no row has the subdomain |
| Db.Database.UpdateHeartbeat | internal/db/devices.go:176-200 | overwrites the addresses given, keeps a missing one, sets online and last seen, and returns the time of this beat as last_seen_at |
| Db.Database.MarkStale | internal/db/devices.go:209-246 | offline sweep, then stale sweep, in one transaction; returns how many rows became stale and how many became offline |
| Db.Database.DeleteDevice | internal/db/devices.go:252-261 | removes the row and, by cascade, its dns_records rows |
| Db.Database.UpsertPointer | internal/db/dns_records.go:47-59 | one row per (device, type), refused without the device row |
| Db.Database.GetPointer | internal/db/dns_records.go:87-101 | the row, not found, or an infrastructure error |
| Db.Cloudflare.CreateRecord | internal/cloudflare/client.go:149-159 | a fresh id holds the record if the call takes effect |
| Db.Cloudflare.UpdateRecord | internal/cloudflare/client.go:161-165 | overwrites a live record, fails on a missing one |
| Db.Cloudflare.DeleteRecord | internal/cloudflare/client.go:167-174 | removes a live record, fails on a missing one |
| Requests.StepRegistration | internal/httpapi/devices_register.go:161-288 | one call of a registration; every step keeps the facts its program points need (records in hand, row inserted, token consumed) |
| Requests.StepBeat | internal/httpapi/devices_heartbeat.go:103-225 | one call of a heartbeat; every step keeps the facts its program points need |
| Requests.ToPush | internal/httpapi/devices_heartbeat.go:150-168 | the types pushed are exactly those reported and different from the row before the update |
| Hub.Server.CallConsume | internal/httpapi/devices_register.go:161-171 | is the machine's consume step; 401 for an unusable token, 500 for an error |
| Hub.Server.CallProbe | internal/httpapi/subdomain.go:85-94 | is one probe of the machine; an answer says whether the name is in use at that moment |
| Hub.Server.CallCreateA | internal/httpapi/devices_register.go:197-202 | is the machine's step; a failure answers 502 with nothing to undo |
| Hub.Server.CallCreateAAAA | internal/httpapi/devices_register.go:205-213 | is the machine's step; a failure leads to the rollback of the A record |
| Hub.Server.CallInsert | internal/httpapi/devices_register.go:219-237 | is the machine's step; a failure, also a lost race for the name, leads to the rollback of the records |
| Hub.Server.CallSign | internal/httpapi/devices_register.go:242-255 | is the machine's step; a failure leads to the rollback of row and records |
| Hub.Server.CallUndoDevice | internal/httpapi/devices_register.go:324-331 | is the machine's step and never fails the caller |
| Hub.Server.CallUndoA | internal/httpapi/devices_register.go:310-317 | is the machine's step and never fails the caller |
| Hub.Server.CallUndoAAAA | internal/httpapi/devices_register.go:310-317 | is the machine's step and never fails the caller |
| Hub.Server.CallSaveA | internal/httpapi/devices_register.go:262-270 | is the machine's step; an error does not change the 201 |
| Hub.Server.CallSaveAAAA | internal/httpapi/devices_register.go:271-281 | is the machine's step; an error does not change the 201 |
| Hub.Server.DeleteRecords | internal/httpapi/devices_register.go:229-255 | the best-effort deletes of the records in hand are the undo steps of the machine, and the answer is the code of the failure that caused them |
| Hub.Server.ResolveSubdomain | internal/httpapi/subdomain.go:65-83 | the counting loop, with other requests between the probes, is the machine's search: the name found was free at its own probe and every earlier candidate taken at its own, and exhaustion means all 99 were |
| Hub.Server.Publish | internal/httpapi/devices_register.go:257-287 | the two upserts and the 201 |
| Hub.Server.CreateAndPublish | internal/httpapi/devices_register.go:197-287 | from the assigned name to the answer: exactly the machine's run under the same schedule |
| Hub.Server.InsertAndPublish | internal/httpapi/devices_register.go:219-287 | from the created records on: the row, or the rollback of the records in hand |
| Hub.Server.SignAndPublish | internal/httpapi/devices_register.go:242-287 | from the inserted row on: the token and the pointers, or the rollback of row and records |
| Hub.Server.RegisterDevice | internal/httpapi/devices_register.go:161-288 | the whole handler, branching on its own locals, under arbitrary interference and failures: the stores end where the step machine ends after the same turns, with its answer |
| Hub.Server.CallLookup | internal/httpapi/devices_heartbeat.go:103-125 | is the machine's step and hands out the row it read; 401 for an unknown device or another subdomain |
| Hub.Server.CallTouch | internal/httpapi/devices_heartbeat.go:139-168 | is the machine's step; what is pushed next is decided by the row as the lookup saw it |
| Hub.Server.CallGetPointer | internal/httpapi/devices_heartbeat.go:185-208 | is the machine's step; a missing row leads to a create, an error ends the push |
| Hub.Server.CallCreateRecord | internal/httpapi/devices_heartbeat.go:187-193 | is the machine's step; an error ends the push |
| Hub.Server.CallUpdateRecord | internal/httpapi/devices_heartbeat.go:210-214 | is the machine's step; an error ends the push and leaves dns_records alone |
| Hub.Server.CallSavePointer | internal/httpapi/devices_heartbeat.go:194-224 | is the machine's step; its error is only logged |
| Hub.Server.SyncDns | internal/httpapi/devices_heartbeat.go:184-225 | one push of a given type, name and address: exactly the machine's run under the same schedule, then the next type or the reply |
| Hub.Server.Reconcile | internal/httpapi/devices_heartbeat.go:150-168 | comparing the reported addresses with the row read by the lookup pushes exactly the types the machine has to push, in its order |
| Hub.Server.HeartbeatDevice | internal/httpapi/devices_heartbeat.go:100-171 | the whole handler, branching on its own locals, under arbitrary interference and failures: the stores end where the step machine ends after the same turns, with its reply |
| Conservation.RecordsAreConserved | internal/httpapi/devices_register.go:197-255 | in every run, whatever fails, the live Cloudflare ids are the disjoint union of the ids the requests own (in flight, answered, made by beats, or left by failed or lost calls) |
| Conservation.RowsAreConserved | internal/httpapi/devices_register.go:219-255 | in every run each device row belongs to exactly one registration under its assigned name, and no two rows share a name |
| Conservation.FailedRegistrationLeavesNothing | internal/httpapi/devices_register.go:204-255 | a registration not answered 201 leaves no record and no row if and only if none of its rollback deletes was refused and none of its creations took effect behind an error |
| Conservation.TokensAreSingleUse | internal/db/enrollment_tokens.go:51-72 | in every run at most one registration gets past a token, and each device row stems from a consumed token bearing that device's id |
| Conservation.ConsumptionIsFinal | internal/db/enrollment_tokens.go:55-72 | a consumed or revoked token never changes again in any continuation |
| Integrity.HonestRunsAreSane | internal/httpapi/devices_register.go:161-288 | the invariant of all runs with issued tokens: unpublished records are private, pointers sound, beats match their device |
| Integrity.PointersNeverDangle | internal/httpapi/devices_heartbeat.go:184-225 | every dns_records row names an existing device, carries its full name, and names a live record of that name and type |
| Integrity.AnsweredStaysAnswered | internal/httpapi/devices_register.go:283-288 | an answered registration does nothing more |
| Integrity.CreatedDevicesKeepTheirRecords | internal/httpapi/devices_register.go:219-288 | a device answered 201 keeps its row and its live A (and AAAA) record for good, whatever other requests roll back |
| Integrity.CreatedNamesDiffer | internal/httpapi/subdomain.go:54-64 | two devices answered 201 have different ids and different full names, also after racing for one name |
| Addresses.RowsAlwaysHaveIpv4 | internal/db/devices.go:82-200 | in every run every device row has an IPv4 address |
| Addresses.AddressStays | internal/db/devices.go:176-200 | an address of a registered device stays on its row in every continuation: later beats replace it, never drop it |
| Addresses.RowAddresses | internal/httpapi/devices_heartbeat.go:85-147 | a registered device's row always has an IPv4 address, and has an IPv6 one if and only if the registration or an accepted beat brought one |
| Agreement.ClashFreeRunsAreConsistent | internal/httpapi/devices_heartbeat.go:139-225 | the invariant of runs whose overlapping beats of one device report the same addresses for what is still to be pushed: targets differ, every synced key agrees or is being pushed |
| Agreement.DivergenceIsConfined | internal/httpapi/devices_heartbeat.go:150-225 | between beats the tracked record differs from the row's address only for a key whose latest push failed or whose change was saved by a row update with a lost answer, whatever calls fail |
| Agreement.SuccessfulPushRepairs | internal/httpapi/devices_heartbeat.go:184-225 | the step that ends a push well leaves row and tracked record agreeing, whatever failed before |
| Agreement.SmoothRunsPush | internal/httpapi/devices_register.go:257-281 | without failures every address on a registered row has been pushed or is being pushed, and pointers mirror their records |
| Agreement.ThreeCopiesAgree | internal/httpapi/devices_heartbeat.go:139-225 | without failures and between beats, row address, dns_records value and record content are there and agree, for A always and for AAAA once a registration or an accepted beat reported one |
| Retry.BeatPushesIffAddressChanged | internal/httpapi/devices_heartbeat.go:139-168 | among any other requests, one beat of the device at a time: an acknowledged row update starts a push of a type if and only if the reported address differs from the one on the row at that moment, and replies 204 at once if none does |
| Retry.RepeatedAddressNeverRepairs | internal/httpapi/devices_heartbeat.go:139-168 | in any continuation, with any requests, failures and overlaps, in which the device's beats report stored addresses only, its record, pointer and addresses stay, so every agreement and disagreement does |
| Retry.DroppedIpv6MayComeBack | internal/httpapi/devices_heartbeat.go:158-168 | beats that leave IPv6 out or report it again unchanged, among any other requests, keep the three copies as they were and agreeing |
| Retry.FailedPushIsNotRetried | internal/httpapi/devices_heartbeat.go:150-168 | one refused update, then anything at all as long as the cam repeats its address: the old address stays at Cloudflare |
| Overlap.ClashCanPart | internal/httpapi/devices_heartbeat.go:139-225 | accepting a beat that clashes with one in flight: some completion of the pending beats, no call failing, ends quiet with row and record apart |
| Overlap.OverlapSafeIffNoClash | internal/httpapi/devices_heartbeat.go:139-225 | after a failure-free run, every quiet completion of the beats in flight leaves row and record together if and only if the beat accepted last reports, for each type still to be pushed, the same address as the others in flight |
| Overlap.OverlappingBeatsDiverge | internal/httpapi/devices_heartbeat.go:139-225 | the concrete run: two overlapping beats of one cam with two addresses part the copies although no call fails |
| EnrollmentTokens.TokenEndsOnce | internal/db/enrollment_tokens.go:51-115 | over all runs a token ends at most once; the row says how, and a consumed token without device id is exactly a revoked one |
| EnrollmentTokens.RowsTellTheirMint | internal/db/enrollment_tokens.go:37-49 | a row is there if and only if its hash was minted, with the id and maker then given, and expires its time to live later |
| EnrollmentTokens.ConsumeAcceptedIff | internal/db/enrollment_tokens.go:51-72 | a consumption is accepted if and only if the token was minted, has not ended and is younger than its time to live |
| EnrollmentTokens.RevokeMarksItsId | internal/db/enrollment_tokens.go:103-115 | on every table a revocation marks the open rows with its id and leaves the others alone |
| EnrollmentTokens.RevokeEndsItsToken | internal/db/enrollment_tokens.go:99-115 | over all runs with distinct ids a revocation ends the token minted with its id and no other, and is accepted if and only if that token has not ended |
| EnrollmentTokens.UnknownIdRevokesNothing | internal/db/enrollment_tokens.go:103-115 | an id never minted is refused |
| EnrollmentTokens.EndIsFinal | internal/db/enrollment_tokens.go:58-115 | once ended the row never changes and no later operation on it is accepted |
| EnrollmentTokens.SecondConsumeFails | internal/db/enrollment_tokens.go:55-72 | of two consumptions of one token at most one succeeds, whatever runs in between |
| DeviceStatus.RowsRememberTheirHistory | internal/db/devices.go:82-246 | over all runs a row has the name, subdomain, key id and time of its enrollment, the time, address and report of its last heartbeat, the last IPv6 address reported, and the status the last sweep since gives that silence |
| DeviceStatus.SweepTellsSilence | internal/db/devices.go:168-246 | after a sweep a device is enrolled, online, stale or offline by the time since its last heartbeat alone, with limits of 5 and 15 minutes in nanoseconds |
| DeviceStatus.ChangesAreStamped | internal/db/devices.go:176-246 | whatever changes a row stamps updated_at, and a heartbeat always does |
| DeviceStatus.SweptIsExact | internal/db/devices.go:209-246 | a sweep turns any plausible status into the exact one for last_seen and now |
| DeviceStatus.SweepSettlesStatus | internal/db/devices.go:168-246 | after a sweep every status is a function of last_seen and the time alone; a device never seen stays enrolled |
| DeviceStatus.MissedSweepsAreHarmless | internal/db/devices.go:202-246 | dropping all sweeps of a run and sweeping once at the end gives the same statuses |
| DeviceStatus.SweepTwiceIsSweepLater | internal/db/devices.go:209-246 | sweeping at t1 and then t2 is sweeping at t2 |
| Sessions.SessionStore.Create | internal/db/sessions.go:37-46 | inserts the session unless the id exists or the user does not |
| Sessions.SessionStore.GetActive | internal/db/sessions.go:50-69 | the row with its user's email and role, exactly when the row exists and has not expired: the join loses nothing |
| Sessions.SessionStore.Delete | internal/db/sessions.go:85-88 | removes exactly that row |
| Sessions.SessionStore.PurgeExpired | internal/db/sessions.go:90-96 | removes exactly the expired rows and counts them |
| Sessions.SessionStore.Rotate | internal/db/sessions.go:98-163 | swaps the id and renews the expiry inside the refresh window, one answer for unknown and too old, nothing changed otherwise |
| Sessions.EachLoginOwnsOneRow | internal/db/sessions.go:37-163 | in every interleaving each login owns at most one row, with its user and creation time, within both lifetimes |
| Sessions.RowTellsItsDraw | internal/db/sessions.go:37-163 | a row carries the time of the login or refresh that drew its id, and expires 15 minutes after it |
| Sessions.RefreshRenews | internal/db/sessions.go:98-163 | a refresh is accepted if and only if the old id has a row and its login is at most seven days old; it keeps user, creation time and user agent and gives 15 minutes from now |
| Sessions.RefreshOutcome | internal/db/sessions.go:115-163 | the same of every table, also when the new id is taken |
| Sessions.LoginOutcome | internal/db/sessions.go:37-46 | a login is refused only for a taken id, and its row starts now for 15 minutes |
| Sessions.ActiveForFifteenMinutes | internal/db/sessions.go:50-69 | an id is good if and only if it was drawn less than 15 minutes ago and since neither logged out nor refreshed |
| Sessions.PurgeTakesTheExpired | internal/db/sessions.go:90-96 | a purge takes exactly the rows whose 15 minutes were over before it |
| Sessions.ExpiryIsCapped | internal/db/sessions.go:102-143 | expires_at never exceeds created_at plus refresh window plus access TTL |
| Sessions.RetiredStaysRetired | internal/db/sessions.go:98-163 | an id once drawn and gone is never accepted again |
| Sessions.SecondRefreshFails | internal/db/sessions.go:115-163 | of two refreshes with one id at most one succeeds, whatever runs in between |
| Sessions.PurgesOnlyRemove | internal/db/sessions.go:50-163 | with purges inserted no session is active that is not active without them |
| Sessions.PromptRunsHidePurges | internal/db/sessions.go:50-163 | when refreshes reach their rows before expiry, purges change no session's standing |
| Sessions.LateRefreshShowsPurge | internal/db/sessions.go:90-111 | a late refresh that would have succeeded loses its row to a purge just before it |
| Sessions.PurgesInvisibleIffPrompt | internal/db/sessions.go:50-163 | purges inserted into a run can never be noticed if and only if every successful refresh comes before expires_at |
| Limiter.IpLimiter.constructor | internal/httpapi/rate_limit.go:67-74 | no buckets, last collection now |
| Limiter.IpLimiter.CollectGarbage | internal/httpapi/rate_limit.go:81-85 | the loop deletes exactly the buckets idle for a full window and touches no other |
| Limiter.IpLimiter.SweepIfDue | internal/httpapi/rate_limit.go:80-87 | collects when a window has passed since the last collection |
| Limiter.IpLimiter.Fetch | internal/httpapi/rate_limit.go:89-93 | the bucket of the address, a full one if there was none |
| Limiter.IpLimiter.Spend | internal/httpapi/rate_limit.go:94-104 | refill with a clamp, then one token if there is one |
| Limiter.IpLimiter.Allow | internal/httpapi/rate_limit.go:76-105 | the whole call on shared mutable buckets equals the limiter function the laws below are about |
| Limiter.GcIsInvisible | internal/httpapi/rate_limit.go:76-105 | for non-decreasing times the verdicts are those of a limiter that never deletes a bucket |
| Limiter.AddressesAreIsolated | internal/httpapi/rate_limit.go:76-105 | for non-decreasing times the verdict on a call is that of a limiter that never saw another address |
| Limiter.BucketsAreRecent | internal/httpapi/rate_limit.go:80-98 | after each call every bucket left was touched within two windows |
| Limiter.DeniedCallsAreErasable | internal/httpapi/rate_limit.go:95-104 | deleting a denied call changes no later verdict |
| Limiter.WaitingOutADenial | internal/httpapi/rate_limit.go:95-104 | an address denied once is admitted window over max seconds later |
| RateBound.RateBound | internal/httpapi/rate_limit.go:76-105 | for timestamps in any order whose sweeps cannot collect a bucket early, at most max plus max times (t2 - t1) over window calls of an address stamped in [t1, t2] are admitted |
| RateBound.LeakBreaksBound | internal/httpapi/rate_limit.go:37-105 | for any timestamps where a due sweep at j finds call l a window old while calls i before and k after are stamped less than a window apart, some calls at these times admit too many |
| RateBound.RateBoundIff | internal/httpapi/rate_limit.go:37-105 | the bound holds for every assignment of addresses and every repetition of a sequence of timestamps if and only if the sequence has no such i, l, j, k |
| RateBound.LateTimestampBreaksBound | internal/httpapi/rate_limit.go:37-104 | an example: three calls, one late timestamp, two admissions of an address limited to one |
| TrustedIp.IsTrusted | internal/httpapi/trusted_ip.go:77-87 | true exactly for a valid address inside some prefix |
| TrustedIp.CollectHops | internal/httpapi/trusted_ip.go:57-64 | the hops are the non-blank comma parts of all lines in order |
| TrustedIp.SplitLine | internal/httpapi/trusted_ip.go:59-63 | the non-blank trimmed parts of one line |
| TrustedIp.WalkHops | internal/httpapi/trusted_ip.go:65-74 | from the right: skip trusted hops, stop at the first untrusted one, give up at a malformed one |
| TrustedIp.WalkXff | internal/httpapi/trusted_ip.go:54-75 | the walk over all header lines |
| TrustedIp.TrustedProxyIp | internal/httpapi/trusted_ip.go:34-52 | the peer unless trusted, then the walk, then X-Real-IP, then the peer |
| TrustedIp.WalkFindsTheStop | internal/httpapi/trusted_ip.go:65-74 | the walk finds an address if and only if some hop reads as untrusted and all later hops as trusted, and then that one |
| TrustedIp.ChargedAddress | internal/httpapi/trusted_ip.go:34-52 | whom a request is charged to, case by case, without walking |
| TrustedIp.MalformedHopFallsBack | internal/httpapi/trusted_ip.go:39-46 | a malformed last hop leads to X-Real-IP, or to the peer if that is malformed too |
| TrustedIp.PeerAddrReadsHost | internal/httpapi/trusted_ip.go:89-101 | host:port and [host]:port both give the host's address |
| TrustedIp.PrependedHopsDoNotMatter | internal/httpapi/trusted_ip.go:65-74 | prepending hops never changes a successful walk |
| TrustedIp.PrependedLinesDoNotMatter | internal/httpapi/trusted_ip.go:54-75 | prepending header lines never changes a successful walk |
| TrustedIp.HonestChainIsCharged | internal/httpapi/trusted_ip.go:20-75 | if the direct peer and every trusted proxy append their peer, the request is charged to the first untrusted peer whatever the client sent |
| TrustedIp.ChargesOthersIffTrusted | internal/httpapi/trusted_ip.go:20-52 | a request can be charged to an address other than its peer if and only if the peer is trusted, and then to any address |
| Codec.Base64RoundTrip | internal/devicejwt/devicejwt.go:263-264 | base64url decoding inverts encoding, and the encoding has no dot |
| Codec.Base64IsStandard | internal/devicejwt/devicejwt.go:263-264 | character i is the one RFC 4648 has for bits 6i to 6i + 5, without padding |
| Codec.DecodesIff | internal/devicejwt/devicejwt.go:152-178 | decoding takes the characters of the table and line breaks, and fails on any other and on one left over |
| Codec.HexRoundTrip | internal/devicejwt/file.go:29-69 | hex decoding inverts encoding, at two characters a byte |
| Codec.HexIsStandard | internal/devicejwt/file.go:60-70 | two lower-case digits a byte, the high half first |
| Codec.UnhexIff | internal/devicejwt/file.go:27-42 | decoding takes digits of either case in pairs and nothing else |
| Codec.Utf8RoundTrip | internal/devicejwt/devicejwt.go:116-131 | UTF-8 decoding inverts encoding for every string |
| Codec.Utf8IsStandard | internal/devicejwt/devicejwt.go:116-131 | lead byte and continuation bytes of each character as the Unicode Standard lays them out |
| Codec.DecodedUtf8IsCanonical | internal/devicejwt/devicejwt.go:152-160 | what decodes is the encoding of what it decodes to: nothing overlong |
| Codec.StringRoundTrip | internal/devicejwt/devicejwt.go:116-131 | a JSON string printed with escapes reads back, followed by exactly the rest |
| Codec.QuotedIsStandard | internal/devicejwt/devicejwt.go:116-131 | which characters of a JSON string are escaped, and how |
| Codec.IntRoundTrip | internal/devicejwt/devicejwt.go:214-218 | every int64 printed reads back |
| Codec.IntIsStandard | internal/devicejwt/devicejwt.go:214-218 | decimal digits with the right value and no leading zero, a minus sign in front |
| DeviceJwt.FindKeyIndex | internal/devicejwt/devicejwt.go:234-241 | the index loop finds the first key with the kid, or none |
| DeviceJwt.SignsIffCurrent | internal/devicejwt/devicejwt.go:102-139 | signing succeeds if and only if the first key with the current kid has a 32-byte seed |
| DeviceJwt.SignedTokenParts | internal/devicejwt/devicejwt.go:131-151 | a signed token splits at its dots into exactly three parts that decode to what was put in |
| DeviceJwt.VerifyInvertsSign | internal/devicejwt/devicejwt.go:35-206 | a signed token verifies exactly when both claims are non-empty and the key is not retired or was retired at most 30 days ago, counted in nanoseconds, and then gives back the claims, the issue time in whole seconds - now for claims without one - and the current kid |
| DeviceJwt.VerifiesElsewhere | internal/devicejwt/devicejwt.go:100-206 | the same under any other ring: exactly when that ring still accepts the signer's public key by its kid |
| DeviceJwt.RetiredKeysVerifyThirtyDays | internal/devicejwt/devicejwt.go:161-176 | after a rotation a token of the old key verifies while the key stays in the ring, and for exactly 30 days once it is retired |
| DeviceJwt.RemovedKeysVerifyNothing | internal/devicejwt/devicejwt.go:165-171 | without a key of its kid no token verifies |
| DeviceJwt.VerifyAcceptsIff | internal/devicejwt/devicejwt.go:147-206 | a token is accepted if and only if it has three parts that decode and obey every rule - algorithm, kid, first key of that kid, 32 bytes, 30 days, signature, both claims - and for the claims in its payload |
| DeviceJwt.SignedTokenIsAJwt | internal/devicejwt/devicejwt.go:102-139 | the two JSON objects of a signed token, letter by letter, and where the signature goes |
| DeviceJwt.OnlySignedClaimsVerify | internal/devicejwt/devicejwt.go:141-206 | an accepted token whose signature is no forgery carries the kid and claims of some Sign call |
| DeviceJwt.SignedTokensAreUnforged | internal/devicejwt/devicejwt.go:100-139 | every token Sign made meets that hypothesis, whatever the scheme and whichever ring verifies it |
| DeviceJwt.AcceptedTokensExist | internal/devicejwt/devicejwt.go:100-206 | there is a correct scheme and a ring whose signed tokens verify and meet all hypotheses, for any claims |
| DeviceJwt.AcceptanceIsMonotone | internal/devicejwt/devicejwt.go:168-174 | a token accepted at t2 was accepted with the same claims at every earlier time |
| Authentic.CreatedByAnswer | internal/httpapi/devices_register.go:257-287 | registrations become answered 201 by the upsert of their last pointer alone, and stay so |
| Authentic.AuthenticRunsAreHonest | internal/httpapi/devices_heartbeat.go:59-125 | runs whose beats carry the claims of verified, unforged bearer tokens, with every token handed out by a 201, are the honest runs of the other theorems |
| Authentic.AuthenticRunsAreSafe | internal/httpapi/devices_heartbeat.go:59-225 | so in such runs pointers never dangle and a 201's row and records stay |
| Authentic.TokenHoldersGetIn | internal/httpapi/devices_heartbeat.go:59-68 | after any such run the token of any 201 lets its device report any address while the ring accepts its key |
| Naming.EveryRecordIsAChild | internal/httpapi/subdomain.go:96-101 | in every run whatever fails, every live record is named as a child of the zone by a validated name |
| Naming.PointersAreChildren | internal/httpapi/devices_heartbeat.go:154-225 | every dns_records row and its live record have the subdomain of their device as first label and the zone behind it |
| Naming.CreatedRecordsAreChildren | internal/httpapi/devices_register.go:192-288 | for good after a 201 the A (and AAAA) record is live as the child of the zone with exactly the assigned first label |
| RingFile.SaveRing | internal/devicejwt/file.go:60-70 | the loop mirrors the byte slices of every key into the hex columns |
| RingFile.FillKeys | internal/devicejwt/file.go:25-46 | the loop decodes the columns in place, and fails exactly when some column is malformed or of the wrong size |
| RingFile.LoadRing | internal/devicejwt/file.go:16-54 | the loaded ring, or an error for a bad column, a missing or an unknown current kid |
| RingFile.SavedColumnsAreHex | internal/devicejwt/file.go:60-70 | what is on disk of a key: kid and times as they are, keys as pairs of lower-case digits |
| RingFile.LoadsIff | internal/devicejwt/file.go:16-54 | a file loads if and only if every key column is 64 hexadecimal digits, a private one may be absent, and the current kid is the kid of some key |
| RingFile.SaveLoadRoundTrip | internal/devicejwt/file.go:16-87 | loading what was saved gives the ring back if and only if key sizes are right, absent seeds have no hex column, and the current kid is present |
| RingFile.SameKeysBehaveTheSame | internal/devicejwt/devicejwt.go:102-241 | rings that differ only in hex columns sign and verify the same |
| RingFile.ReloadedRingBehavesTheSame | internal/devicejwt/file.go:16-87 | a well-formed ring signs the same tokens and gives the same verdicts after a restart, at every time |

## Left out

- HTTP plumbing: body limits, JSON decoding and length checks of requests, error
  envelopes, cookies, CORS, CSRF and role middleware; the misconfiguration check at
  `internal/httpapi/devices_register.go:186-191`; the 503 and the Retry-After header
  of `LoginRateLimiter`.
- Listings and plain reads (`List`, `ByDevice`, session `Get`), and
  `DNSRecordStore.Delete`, which no handler calls. Of users only the id, email and
  role are modelled.
- Columns nothing decides on: capabilities, ports, the token note, the id and
  timestamps of dns_records, the session ip.
- Postgres and pgx: a statement or a transaction is one atomic step. The Cloudflare
  client is a map of records with fallible calls; ids it returns are never reused.
- Session and token randomness: ids are fresh, and a token is its hash.
- Clocks: one clock for hub and database, read once per operation. In `Requests` the
  times of calls are arbitrary.
- A session operation that fails for infrastructure reasons is no step of `Sessions`.
- Ed25519: `sign`, `verify` and the public key of a seed are parameters; the
  hypotheses are that a signature verifies (`Correct`) and, for
  `OnlySignedClaimsVerify`, that the token presented is no forgery (`Unforged`).
  Key generation is not part of this model.
- netip: the parser, the printer and the prefix test are parameters of `TrustedIp`.
- Float rounding in the limiter: tokens and times are reals.
- The file system under the key ring, and the JSON text around its columns.
- Agreement.DivergenceIsConfined: a row update that took effect but whose answer was
  lost counts as a failed push of the types whose address it changed, since the
  handler replies 500 before pushing.
- Agreement.ThreeCopiesAgree: overlapping beats of a device must report the same
  address for what is still to be pushed; `Overlap.OverlapSafeIffNoClash` shows that
  nothing weaker will do.
- Integrity.PointersNeverDangle: beats carry claims of tokens issued with a 201
  answer; `Authentic.AuthenticRunsAreHonest` derives this from `Verify`.
- RateBound.RateBoundIff: times are real numbers, and the repetition of a timestamp
  stands for calls that read the clock at one instant.
- DeviceJwt.OnlySignedClaimsVerify: Verify is modelled on JSON of the shape Sign
  prints; other spellings of the same objects, invalid UTF-8 and surrogate pairs in
  escapes, which the original's reader accepts, are rejected or read differently here.
- DeviceJwt.VerifyInvertsSign: the issue time is an int64 number of seconds.
- Subdomain.ValidatedNameIsCanonical: lower-casing is exact for characters whose
  lower-case form is ASCII; every other character stays outside the label alphabet.
- Subdomain.AnySpellingPasses: the blanks are space, tab and the two line breaks; the
  other white space of Unicode is trimmed as well.
- Naming.EveryRecordIsAChild: requests arrive with the base their preferred name
  validates to, as the handler makes sure before its first call, and beats are those of
  `Integrity.PointersNeverDangle`.
- Undisturbed.BeatLeaves: a pointer at a record that is gone ends its push with an
  error; the lemma is about pointers at live records.
- Limiter.AddressesAreIsolated: for non-decreasing times; `RateBound` has the others.
- TrustedIp.PeerAddrReadsHost: the host carries no bracket of its own.
