# Verified model of the VPN management backend

The backend keeps a PostgreSQL control plane (users, devices, servers, access keys) in step with a
remote data plane, an Outline server, without any transaction spanning the two. This project models
that protocol and the smaller algorithms around it in Dafny and proves what they guarantee.

## How the model is built

* `Model` holds the rows, the data plane and the three ways an external call can end: `Good`, `Bad`
  (failed without effect) and `Lost` (took effect, reported as failed). Every database write and every
  provider call can end in each of the three ways.
* `Protocol` is the interleaved state machine. A request reads its rows once and then makes one
  external call per step, so any number of requests, cascades and sweeps are in flight at once. A whole-row
  save updates the row or inserts it when it is gone, as GORM's `Save` does.
* A provider is *strict* if it answers the deletion of an unknown key with an error, and *tolerant* if it
  accepts it. `doJSON` turns every non-2xx answer into an error; that Outline answers non-2xx for an unknown
  key is an assumption about Outline. The in-memory provider of the Go tests is tolerant.
* `Services` gives each service call as a function of the tables, the provider and the outcomes of its
  external calls; `ServiceClasses` holds the repositories, the provider client and the services as
  classes with the Go code's loops and early exits, proved to compute those functions. `ServiceRuns` and
  `ServiceHistories` prove that every service call, and every history of them, is a run of `Protocol`.
* The order in which a query without ORDER BY returns rows is an arbitrary rank, so every order is covered.
* `KeyCalls`, `Cascades`, `Disabling`, `Sweeping`, `InterruptedSweeps` and `SweepResults` say what those service
  calls achieve, complete or interrupted.
* `Base64`, `SecretBox` and `ShadowsocksUri` are the configuration codec, joined to the protocol in
  `ClientConfig`. `Pagination`, `Migrations`, `RateLimiting`, `SigningKeys`, `UsageReports` and `CpuUsage`
  stand beside it.

Assumed contracts: the AEAD opens exactly what it sealed (`Aead.Lawful`); the provider never reuses a
reference; row identifiers are generated once; a rate limiter's bucket starts full, refills at its rate up to
its burst, and a request takes one whole token or is refused without a trace. Percent-encoding follows
section 2.1 of RFC 3986 with the escape sets of Go's `net/url`; base64 follows sections 3.2, 4 and 5 of
RFC 4648. Time is a parameter.

Where the code and its comments differ, the model follows the code. The cascade's device listing asks for a
page of 1000 and gets at most 200 devices. The user sweep stores EXPIRED before it revokes anything, so later
sweeps do not resume it for a user it stored and did not finish, although its comment says that it mirrors Disable.

## Model

| member | source | states |
|---|---|---|
| ProtocolInvariant.DeadRowsStayDead | internal/services/access_key_service.go:123-275 | with either provider, any interleaving and any faults, a row stored as REVOKED or EXPIRED never refers to a key that works |
| ProtocolInvariant.ReferencesAreOwned | internal/services/access_key_service.go:50-102 | no two rows ever share a secret reference |
| ProtocolInvariant.RunKeeps | internal/services/access_key_service.go:41-275 | the inductive invariant of every run: ownership of references, dead keys of terminal rows and of snapshots in flight, row fields that describe the issued credential |
| StrictRuns.RunsAreLocked | internal/vpn/outline_provider.go:119-136 | with a strict provider every request that may write a row read exactly the stored row, and no two may write the same one |
| StrictRuns.WritesAreNeverLost | internal/repositories/access_key_repository.go:59-65 | strict provider, any faults: a row is only overwritten or deleted by a request that read exactly that row |
| StrictRuns.TerminalRowsNeverChange | internal/services/access_key_service.go:141-186 | strict provider: REVOKED and EXPIRED are absorbing over whole runs |
| StrictRuns.StaleRowsStayAndBlock | internal/services/user_service.go:135-152 | strict provider: an ACTIVE row whose key is gone stays as it is for ever, and every later revocation, rotation, deletion, sweep or cascade that has to delete its key fails |
| QuiescentRuns.EachKeyIsRevokedOnce | internal/vpn/outline_provider.go:119-125 | strict provider, any faults: no key is successfully revoked twice, and a revoked key never works again |
| QuiescentRuns.QuiescentStoresAgree | internal/services/access_key_service.go:41-275 | strict provider without faults: with nothing in flight the working keys are exactly those of the ACTIVE rows, and all other keys ever issued were revoked once each |
| Conservation.KeysAreConserved | internal/services/access_key_service.go:41-275 | working keys plus ACTIVE rows without a key equal ACTIVE rows plus working keys without a row, in every reachable state |
| Conservation.OrphanedExactlyBy | internal/services/access_key_service.go:50-102 | a step orphans a key if and only if it fails after provisioning it without undoing that, or overwrites a row that was rotated meanwhile |
| Conservation.StrictOrphansFollowFaults | internal/services/access_key_service.go:147-184 | with a strict provider only a failed call orphans a key |
| Conservation.MadeStaleExactlyBy | internal/services/access_key_service.go:147-184 | a row becomes stale if and only if its key was deleted unconfirmed or by the undoing of an insert, or the request that deleted it gives up |
| Conservation.StaleMeansStuck | internal/services/access_key_service.go:141-186 | strict provider: the stale rows are exactly those of `StrictRuns.StaleRowsStayAndBlock`, which stay and block for ever |
| StrictSuccess.SuccessIsFinal | internal/services/user_service.go:135-152 | strict provider, any interleaving and faults: once a revocation, cascade, sweep or deletion has succeeded, every row it had to retire when it began is terminal or gone from then on, and a deleted row is gone for good |
| TolerantRuns.RotationIsLost | internal/testutil/fake_provider.go:40-46 | with a tolerant provider a fault-free Revoke beside a Rotate ends with a REVOKED row, its old key deleted twice, and the new key working unowned |
| TolerantRuns.RevokedRowReturns | internal/services/access_key_service.go:141-186 | with a tolerant provider REVOKED is not absorbing: a later Rotate makes the row ACTIVE again |
| TolerantRuns.TerminalIsAbsorbingIfStrict | internal/services/access_key_service.go:141-186 | REVOKED and EXPIRED are absorbing in all runs if and only if the provider is strict |
| TolerantRuns.WritesAreKeptIfStrict | internal/repositories/access_key_repository.go:59-65 | no key-row write is lost in any run if and only if the provider is strict |
| TolerantRuns.KeysAreRevokedOnceIfStrict | internal/vpn/outline_provider.go:119-125 | every key is revoked at most once in all runs if and only if the provider is strict |
| TolerantRuns.StoresAgreeIfStrict | internal/services/access_key_service.go:41-275 | the two stores agree in every quiescent state of every fault-free run if and only if the provider is strict |
| ClientConfig.HandedOutConfig | internal/services/access_key_service.go:196-231 | in every reachable state the configuration of any row exists and offers the credential issued under its current reference on every transport: first wss://domain/path/tcp, then the plain address, and wss://domain/udpPath/udp exactly if the key has one; its URI decodes to that credential with the server's address and the key's name exactly when the cipher has no colon |
| KeyCalls.CreateAchieves | internal/services/access_key_service.go:41-106 | without faults Create succeeds exactly for a known server; the stored row has each field as asked for, the one credential issued, and paths of its own |
| KeyCalls.CreateInterrupted | internal/services/access_key_service.go:97-102 | what every combination of outcomes leaves: the row, the new key, and the cleanup that takes it away again |
| KeyCalls.RevokeAchieves | internal/services/access_key_service.go:123-136 | without faults Revoke succeeds exactly when the key can be deleted; the row is REVOKED, its key gone, all else as before |
| KeyCalls.RevokeInterrupted | internal/services/access_key_service.go:123-136 | what every combination of outcomes leaves |
| KeyCalls.RotateAchieves | internal/services/access_key_service.go:141-186 | without faults Rotate succeeds exactly when the old key can be deleted; the row keeps its settings and is ACTIVE with a newly issued credential, secret and paths under a new reference, the old key gone and the new one working |
| KeyCalls.RotateInterrupted | internal/services/access_key_service.go:147-184 | what every combination of outcomes leaves of the old key, the new key and the row |
| KeyCalls.DeleteAchieves | internal/services/access_key_service.go:241-252 | without faults Delete takes the row away, and the key of an ACTIVE one, and fails exactly when that key cannot be deleted |
| KeyCalls.DeleteInterrupted | internal/services/access_key_service.go:241-252 | what every combination of outcomes leaves; a row that is not ACTIVE goes without a call to the provider |
| KeyCalls.ProvisionInterrupted | internal/vpn/outline_provider.go:85-117 | provisioning leaves a key behind if the POST took effect, and gives a credential only if every call succeeded |
| ServiceHistories.HistoryIsRun | internal/services/access_key_service.go:41-275 | every history of service calls, under any faults, is a run of the interleaved protocol |
| ServiceHistories.HistoriesAreSafe | internal/services/user_service.go:98-191 | after any such history references are unique, terminal rows have no working key, and rows describe their credentials |
| ServiceRuns.CreateIsRun | internal/services/access_key_service.go:41-106 | Create with any faults is a protocol run that begins with its own request, compensation included |
| ServiceRuns.RotateIsRun | internal/services/access_key_service.go:141-186 | Rotate with any faults is a protocol run that begins with its own request |
| ServiceRuns.RevokeIsRun | internal/services/access_key_service.go:123-136 | Revoke with any faults is a protocol run that begins with its own request |
| ServiceRuns.DeleteIsRun | internal/services/access_key_service.go:241-252 | Delete with any faults is a protocol run that begins with its own request |
| ServiceRuns.SweepKeysIsRun | internal/services/access_key_service.go:259-275 | the key sweep with any faults is a protocol run that begins with its own request |
| ServiceRuns.CascadeIsRun | internal/services/user_service.go:135-170 | the cascade's work on keys and provider is a protocol run that begins with its own request |
| ServiceClasses.OutlineProvider.CreateAccessKey | internal/vpn/outline_provider.go:85-117 | POST, naming and limiting with early exit: the exact new provider state, the reference handed out, and success exactly when every call made succeeded |
| ServiceClasses.OutlineProvider.RevokeAccessKey | internal/vpn/outline_provider.go:119-125 | one deletion: the exact new provider state and what the caller sees, strict or tolerant |
| ServiceClasses.FakeVPNProvider.CreateAccessKey | internal/testutil/fake_provider.go:26-38 | the in-memory provider issues the next unused reference, as a tolerant provider whose calls succeed |
| ServiceClasses.FakeVPNProvider.RevokeAccessKey | internal/testutil/fake_provider.go:40-46 | it accepts the deletion of an absent key |
| ServiceClasses.FakeVPNProvider.RotateAccessKey | internal/testutil/fake_provider.go:48-57 | its rotation is a deletion followed by a creation under a new reference |
| ServiceClasses.AccessKeyService.Create | internal/services/access_key_service.go:41-106 | computes the specification of Create on the tables and the provider, best-effort cleanup included |
| ServiceClasses.AccessKeyService.Revoke | internal/services/access_key_service.go:123-136 | computes the specification of Revoke |
| ServiceClasses.AccessKeyService.Rotate | internal/services/access_key_service.go:141-186 | computes the specification of Rotate |
| ServiceClasses.AccessKeyService.Delete | internal/services/access_key_service.go:241-252 | computes the specification of Delete, which skips the provider for rows that are not ACTIVE |
| ServiceClasses.AccessKeyService.GetConfig | internal/services/access_key_service.go:196-231 | returns the configuration that `ClientConfig.HandedOutConfig` speaks of, or nothing when a lookup fails |
| ServiceClasses.AccessKeyService.SweepExpired | internal/services/access_key_service.go:259-275 | the sweep's loop computes the specification of the key sweep, error count included |
| ServiceClasses.UserService.RevokeAllAccess | internal/services/user_service.go:135-170 | the two loops of the cascade compute its specification |
| ServiceClasses.UserService.Disable | internal/services/user_service.go:98-111 | computes the specification of Disable |
| ServiceClasses.UserService.Delete | internal/services/user_service.go:125-133 | computes the specification of user deletion |
| ServiceClasses.UserService.SweepExpired | internal/services/user_service.go:175-191 | the sweep's loop computes the specification of the user sweep |
| ServiceClasses.ExpirationTicker.Tick | cmd/server/main.go:120-142 | one tick runs the user sweep and then the key sweep, whatever came of the first |
| ServiceClasses.AccessKeyRepository.Update | internal/repositories/access_key_repository.go:59-61 | the whole-row save |
| ServiceClasses.AccessKeyRepository.FindByUser | internal/repositories/access_key_repository.go:73-77 | a user's rows in the order of that query |
| ServiceClasses.AccessKeyRepository.FindExpired | internal/repositories/access_key_repository.go:79-84 | the overdue rows in the order of that query |
| ServiceClasses.VPNUserRepository.FindExpired | internal/repositories/vpn_user_repository.go:80-85 | the ACTIVE users, not deleted, whose expiry has passed |
| ServiceClasses.VPNUserRepository.Delete | internal/repositories/vpn_user_repository.go:62-64 | the soft deletion |
| ServiceClasses.DeviceRepository.ListOfUser | internal/repositories/device_repository.go:20-43 | one clamped page of a user's devices, newest first |
| Model.QueryReads | internal/repositories/access_key_repository.go:73-84 | a query returns exactly the matching rows, whatever its order |
| Model.SecretPathsAreUrlSafe | internal/vpn/config.go:15-21 | a WebSocket path has 22 URL-safe characters, and different randomness gives different paths |
| Cascades.RetireAllProgress | internal/services/user_service.go:140-152 | however a batch is interrupted, a prefix of its rows is recorded and the keys deleted are those of that prefix and at most one more |
| Cascades.RetireAllCompletes | internal/services/user_service.go:140-152 | without faults a batch succeeds exactly when each key can be deleted, and then deletes each once, in order |
| Cascades.RevokeDevicesProgress | internal/services/user_service.go:154-167 | however the device loop is interrupted, exactly the newest ones of the listing are revoked |
| Cascades.CascadeListing | internal/repositories/repositories.go:44-47 | the cascade's request for 1000 devices yields the 200 newest |
| Disabling.CascadeCompletes | internal/services/user_service.go:135-170 | without faults the cascade succeeds exactly when every ACTIVE key of the user can be deleted, and deletes each of them once |
| Disabling.DisableCompletes | internal/services/user_service.go:98-111 | without faults Disable succeeds under exactly that condition, and then the user is DISABLED with every ACTIVE key REVOKED and gone and the 200 newest devices REVOKED |
| Disabling.DisableProgress | internal/services/user_service.go:98-111 | an attempt that fails anywhere stays on the way to that state; success means the state is reached |
| Disabling.RetriesConverge | internal/services/user_service.go:98-170 | tolerant provider: any number of interrupted attempts and then one fault-free Disable reach the same tables and working keys as that Disable alone, in any row order |
| Disabling.RepeatingReachesNoMore | internal/services/user_service.go:154-167 | a successful Disable, after any attempts, leaves all devices REVOKED if and only if those beyond the 200 newest were so already, hence always with at most 200; no attempt changes a device beyond them |
| Disabling.OldestDeviceKeepsAccess | internal/repositories/device_repository.go:20-43 | with 201 ACTIVE devices the oldest is still ACTIVE after any number of calls to Disable |
| Disabling.OthersKeepAccess | internal/services/user_service.go:135-170 | however often Disable is tried and however it ends, other users keep their row, keys and devices, and their keys keep working |
| Disabling.DeleteUserProgress | internal/services/user_service.go:125-133 | user deletion hides the row only after a complete cascade |
| Disabling.DeleteUserCompletes | internal/services/user_service.go:125-133 | without faults user deletion succeeds exactly when each ACTIVE key of the user can be deleted |
| Disabling.UnknownUserIsRefused | internal/services/user_service.go:98-133 | a user who is not there, or is deleted, is refused and nothing changes |
| Sweeping.SweepKeysProgress | internal/services/access_key_service.go:259-275 | an interrupted key sweep leaves a processed prefix and at most one key deleted but not recorded; a successful one is complete and reports the exact count |
| Sweeping.SweepKeysCompletes | internal/services/access_key_service.go:259-275 | without faults the key sweep succeeds exactly when every overdue key can be deleted |
| Sweeping.SweepsDrain | internal/services/access_key_service.go:259-275 | the overdue ACTIVE rows never grow in a sweep, and one fault-free sweep with a tolerant provider leaves none |
| Sweeping.SweepUsersCompletes | internal/services/user_service.go:175-191 | without faults the user sweep succeeds exactly when every ACTIVE key of a lapsed user can be deleted |
| Sweeping.TickIsExact | cmd/server/main.go:128-138 | one fault-free tick is an exact function of the prior state: statuses, devices, working keys and both counts, under an exact success condition |
| SweepResults.SweepKeysRows | internal/repositories/access_key_repository.go:79-84 | row by row, however a key sweep ends: only ACTIVE rows with an expiry before the query's time become EXPIRED, each after its key is gone, all of them on success, with the exact count |
| SweepResults.NotDueIsSpared | internal/services/access_key_service.go:259-275 | a row that is not ACTIVE, or has no expiry before that time, keeps its row and its key in every key sweep |
| SweepResults.NotLapsedIsSpared | internal/repositories/vpn_user_repository.go:80-85 | a user who is not ACTIVE, is deleted, or has no expiry before that time loses nothing in any user sweep |
| SweepResults.TickSucceeds | cmd/server/main.go:128-138 | a fault-free tick succeeds exactly when every key it has to take can be deleted |
| SweepResults.TickRows | cmd/server/main.go:128-138 | row by row after a successful tick: users, keys, devices, working keys and counts, with the conditions of both queries written out |
| SweepResults.KeysExpireAnyway | cmd/server/main.go:128-138 | the key sweep of a tick expires every key due although the user sweep failed |
| InterruptedSweeps.SweepUsersStops | internal/services/user_service.go:175-191 | however a user sweep ends, the users of a prefix of its listing are EXPIRED and cut off, and at most the next one is left on the way |
| InterruptedSweeps.SweptSparesOthers | internal/services/user_service.go:175-191 | after such a sweep everybody else keeps row, keys, devices and working keys |
| InterruptedSweeps.SweepsForget | internal/repositories/vpn_user_repository.go:80-85 | later user sweeps never revisit a user who is no longer ACTIVE: row, keys, devices and working keys stay as they are |
| InterruptedSweeps.CompletedExactlyWhen | internal/services/user_service.go:175-191 | either provider: a sweep that succeeds after any number of interrupted ones completes a lapsed user if and only if that user is still ACTIVE or already has no access left |
| InterruptedSweeps.ResumedExactlyWhen | internal/services/user_service.go:175-191 | tolerant provider: the same condition decides whether one fault-free sweep completes what any interrupted sweep left |
| InterruptedSweeps.AtMostOneIsForgotten | internal/services/user_service.go:175-191 | an interrupted sweep followed by a successful one misses at most one user |
| InterruptedSweeps.InterruptedCascadeIsForgotten | internal/services/user_service.go:175-191 | the failing input: if the first key query fails, that user is EXPIRED with keys, working keys and devices intact, for any number of later user sweeps |
| SecretBox.DecryptEncrypt | internal/crypto/secretbox.go:38-62 | decryption undoes encryption under any nonce |
| SecretBox.DecryptsExactly | internal/crypto/secretbox.go:47-62 | a stored secret opens to a text if and only if it frames a sealing of that text |
| Base64.DecodeEncode | internal/vpn/config.go:28-29 | unpadded base64 decodes back, and uses only its alphabet |
| Base64.DecodeEncodePadded | internal/crypto/secretbox.go:44-48 | padded base64 decodes back |
| Base64.DigitsAreTheAlphabets | internal/vpn/config.go:20-29 | the characters of Tables 1 and 2 of RFC 4648 |
| Base64.GroupsArePositional | internal/crypto/secretbox.go:44 | each block of three bytes is one 24-bit number in four groups, the last one filled with zero bits |
| ShadowsocksUri.RoundTrip | internal/vpn/config.go:27-37 | parsing the printed URI returns all five parts if and only if the cipher name has no colon |
| ShadowsocksUri.PrintedForm | internal/vpn/config.go:27-37 | for an ordinary host name the text is ss://base64(cipher:password)@host:port#name |
| ShadowsocksUri.OthersAreEscaped | internal/vpn/config.go:30-36 | a byte that must be escaped becomes a percent sign and two upper-case hexadecimal digits |
| ShadowsocksUri.PrintIsInjective | internal/vpn/config.go:27-37 | different endpoints have different URIs |
| ShadowsocksUri.ColonIsAmbiguous | internal/vpn/config.go:28-29 | with a colon in the cipher name two endpoints share a URI |
| Pagination.SizesDiffer | internal/handlers/helpers.go:20-31 | both sides take 20 for a size that is not positive, and only the repository stops at 200 |
| Pagination.OffsetIsExact | internal/repositories/repositories.go:35-49 | the 64-bit offset is the intended one exactly up to a given page |
| Pagination.OverflowReturnsTheFirstPage | internal/repositories/repositories.go:47 | beyond it a late page can be the first page again |
| Pagination.WrapsAround | internal/repositories/repositories.go:47 | a 64-bit result is the one number in range that differs from the true one by a multiple of 2^64 |
| Pagination.TotalPagesIsExact | internal/handlers/helpers.go:20-31 | the reported page count is the rounded-up quotient exactly when its sum does not overflow |
| Pagination.WalkIsPrefix | internal/repositories/repositories.go:35-49 | k pages hold exactly the first k times the clamped size items, without gap or overlap |
| Pagination.FullWalk | internal/handlers/helpers.go:20-31 | the reported pages cover the whole list for sizes up to 200, and exactly min(n, 200 times the page count) items beyond |
| Pagination.LaterPagesAreEmpty | internal/repositories/repositories.go:35-49 | pages after the last reported one are empty while the offset does not overflow |
| Pagination.PageIsEmptyExactlyWhen | internal/repositories/repositories.go:35-49 | any page, its offset overflowing or not, is empty if and only if there are no items or the 64-bit offset is past them |
| Migrations.MigrationRunner.Migrate | internal/database/migrate.go:30-86 | the runner computes the specification of one run, for any outcome of every step |
| Migrations.SortSorts | internal/database/migrate.go:50 | the scripts are put in file-name order and none is lost |
| Migrations.AtMostIsBytewise | internal/database/migrate.go:50 | the order is Go's order on strings |
| Migrations.VersionsAreStems | internal/database/migrate.go:44-49 | a script is a name ending in .up.sql, its version the rest |
| Migrations.RunsProgress | internal/database/migrate.go:44-83 | over any number of interrupted runs, what was committed is a prefix of what was pending at first |
| Migrations.ResumingIsUninterrupted | internal/database/migrate.go:44-83 | crashing and resuming any number of times and then succeeding equals one uninterrupted run: every script once, in order, every version recorded |
| RateLimiting.RateLimiter.Handle | internal/middleware/ratelimit.go:31-52 | one request: the bucket is created on demand and loses a token exactly when the request is admitted |
| RateLimiting.RateLimiter.CleanUp | internal/middleware/ratelimit.go:56-66 | the periodic cleanup drops every bucket |
| RateLimiting.AdmissionsAreBounded | internal/middleware/ratelimit.go:31-66 | in any window of length T with R cleanups a client is admitted at most (R + 1) times the burst plus rate times T |
| RateLimiting.KeepingToTheRateIsEnough | internal/middleware/ratelimit.go:31-66 | a client that keeps to the rate is never refused, whatever other clients and cleanups do |
| RateLimiting.CleanupDoublesTheBurst | internal/middleware/ratelimit.go:56-66 | the bound is attained around a cleanup |
| RateLimiting.ClientsAreIsolated | internal/middleware/ratelimit.go:31-52 | requests of other clients never change a client's answers |
| SigningKeys.GoogleVerifier.KeyFunc | internal/auth/google.go:110-130 | look up, on a miss refresh, and look up once more |
| SigningKeys.GoogleVerifier.BuildKeys | internal/auth/google.go:158-168 | the map holds, for each kid, the last usable RSA entry |
| SigningKeys.AnswersAreGenuine | internal/auth/google.go:110-183 | in any interleaving a returned key is that of the newest stored set's last usable entry for the kid, looked up before the set expired, and a first hit made no request |
| SigningKeys.CallsFetchOnce | internal/auth/google.go:110-130 | every call, answered or not, makes at most one request |
| SigningKeys.LookupsAnswerExactlyWhen | internal/auth/google.go:132-139 | in any run a lookup answers if and only if the newest stored set is unexpired and publishes the kid |
| SigningKeys.KeyFuncAnswers | internal/auth/google.go:110-130 | what a call alone answers and stores, from the sets published |
| SigningKeys.PublishedKeysAreRead | internal/auth/google.go:185-213 | modulus and exponent of a published RSA key are read back; other types are not used |
| SigningKeys.LifetimeIsExact | internal/auth/google.go:170-175 | max-age seconds if usable, an hour otherwise |
| SigningKeys.WithdrawnKeysAreNotReturned | internal/auth/google.go:132-139 | a key absent from the newest stored set is not returned until another set is stored |
| SigningKeys.KeyFuncIsRun | internal/auth/google.go:110-130 | a call alone is a run of the interleaved model |
| UsageReports.ByServer | internal/services/usage_service.go:113-132 | the loop computes one row per server, and there is a report exactly when every query succeeds |
| UsageReports.ServersAccountForKeys | internal/services/usage_service.go:113-132 | given the foreign key, the per-server totals add up to the traffic of all access keys |
| UsageReports.ByUser | internal/services/usage_service.go:88-105 | the loop computes one row per user of the page, beside the count of all users, exactly when both queries succeed |
| UsageReports.UsersAccountForSummary | internal/services/usage_service.go:33-53 | the totals of all pages up to size 200 add up to the summary's total |
| UsageReports.BandwidthSince | internal/services/usage_service.go:55-78 | the nested loops compute the points of the window, server by server, exactly when every query succeeds |
| UsageReports.SinceIsExact | internal/services/usage_service.go:61-65 | a server's samples from the cut-off on, no others |
| UsageReports.Summarize | internal/services/usage_service.go:33-53 | the total, the last 24 hours and the last 30 days, exactly when every query succeeds |
| UsageReports.DailyIsPartOfMonthly | internal/services/usage_service.go:39-46 | on one snapshot the daily points are the monthly points from the daily cut-off on, even if the monthly window is taken up to 29 days later |
| CpuUsage.Usage | internal/vpn/system_metrics.go:90-105 | the loops compute the percentage from 64-bit sums that may wrap |
| CpuUsage.UsageIsAPercentage | internal/vpn/system_metrics.go:90-105 | counters that never decrease give the true utilisation, in [0, 100], although the sums wrap, if they advanced by less than 2^64 in total |
| CpuUsage.InRange | internal/vpn/system_metrics.go:99-105 | for any samples the result lies in [0, 100] exactly when the idle difference does not exceed the total difference |

## Left out

- HTTP routing, request binding, headers, logging, error texts and the response envelope.
- GORM's preloading and association upserts: saving a user writes only the user row.
- Outline's listener ports, its transfer metrics and server status calls, TLS pinning and JSON encoding.
- The AES-GCM cipher, random generation, JWT parsing and claim checks, and RSA signature verification.
- Reading a `Cache-Control` header: the scanned max-age is a parameter of the signing-key cache.
- Newlines that Go's base64 decoder skips inside a text.
- Database constraint errors and concurrent migration runs; a migration directory lists each name once.
- Rows locked or read inside database transactions, since the services use none.
- Administrators, sessions, roles, audit records, device and server edits, user edits and Enable: finite or one-branch behaviour.
- Integer overflow in traffic sums, which the database computes.
- Rounding in floating point: token buckets and CPU percentages are computed over the reals.
- The rate limiter's window between fetching a bucket and asking it: the two are one step.
- ServiceClasses.DeviceRepository.ListOfUser: the status and platform filters and the total count are not modelled, because the cascade filters by user only and ignores the count; count and page are one call, because either failing ends the request the same way.
- ServiceClasses.DeviceRepository.Update: a device row that is not in the table is not inserted, because the cascade only saves rows it has just listed.
- ServiceClasses.AccessKeyService.Provision: a failure while reading randomness for the nonce and for the paths is one step, because it ends the request the same way.
- Services.LapsedUsers: the in-flight user rows of concurrent user sweeps are not part of the interleaved protocol, which covers keys and provider only.
