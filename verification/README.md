# botwork: a verified model

Dafny 4.11 models of the four parts of the repository whose correctness spans several functions, and proofs
of what those parts keep:

1. **The auth-broker** (`BrokerState`, `BrokerMachine`, `BrokerSafety`, `BrokerTheorems`, `BrokerWitnesses`,
   `BrokerSerial`, `BrokerLaws`, `SerialTheorems`, `AppState`, `Base64`). A check validates a bearer against its lease,
   caches the tenant's unlocked master and mints a 60-second cap; a fetch trades the cap for the secrets its
   plugin may see; sweeps, logouts and revocations tear state down. `BrokerMachine` gives this as a step
   machine: one step is one region under a lock, one database call or one vault access, each request carries
   the time it captured when it began, and requests interleave freely. `BrokerSerial` gives the effect of each
   request as a whole and shows that its steps have it; `AppState` has the handlers as methods that change the
   shared maps in place, tied to those effects.
2. **The secret-store writers** (`Secrets`, `SecretStore`). Broker requests under the tenant lock, and outside
   writers without it, over one vault file, its generation counter and its file lock, one step per access.
3. **Bootstrap** (`PluginSpec`, `PluginLaws`, `Package`, `BootstrapConfig`, `BootstrapTables`, `BootstrapApply`,
   `BootstrapRunner`). A configuration tree is validated, upserted into four related tables and read back by
   the resolve join.
4. **The api writers** (`ApiTables`, `ApiTheorems`, `ApiLaws`, `LiveGate`, `ApiService`, `LiveSessions`). Twelve writes over the same
   tables, each a serial transaction, with lock tokens, delete guards, cascades and the live-session gate.

Three smaller parts: lifetime floors (`TtlConfig`), the `WWW-Authenticate` printer (`ErrorResponse`) and the
request-path classifier (`Grammar`).

`dafny verify dfyconfig.toml` checks the whole project. Many proofs `hide` the definitions they do not need, to
keep them out of the solver's way.

## How to read the model

- There is one clock. Digests are taken as collision-free: a cache key is the string that would be hashed, and
  a lease is found by its bearer. Cap ids are taken as never drawn twice, vault keys as derived by an arbitrary
  function of export key, salt and suite. Database calls, vault accesses and control-plane calls may fail at
  every point; the failure is a parameter of the step.
- `revokedWhen` notes the clock at the moment a revocation is written; a release is dated by the time its fetch
  captured.
- The log, the positions of mintings and insertions and the count of entries dropped by fetches belong to the
  model, not to the broker; nothing the broker does depends on them.
- A live session is known by the tenant, workspace and plugin names it was started under, which at that moment are
  those of its binding; starting one is a single step. `startedFor` notes which binding it was.
- Transactions are serial, ids come from a counter, and one apply or one write reads the time once.
- Environment and resources of a plugin and its egress are typed instead of JSON; what the YAML and JSON
  libraries contribute to a binding's config and to sizes is a parameter (`Serde`).

## Where the code and its documentation differ

- `vault/README.md:51-66` presents the generation check as ruling out lost writes. The handle reads the file
  and then, without a lock, the generation (`vault/src/vault.rs:408` and `:462`). `Secrets.IntactIffUntorn` says
  which schedules are safe, `Secrets.WriteIsAtomicIff` when a single write is, and `Secrets.OutsideWriteIsLost`
  gives a run in which one is lost. Requests of the broker alone are safe (`Secrets.BrokerAloneIsAtomic`), and so
  is every schedule in which opening a vault is undisturbed (`Secrets.UndisturbedIsUntorn`).
- A logout is final for its bearer only while no live cap of the lease dates from before a rename of the
  tenant (`SerialTheorems.LogoutIsFinalIff`), because the key is rebuilt from the present name
  (`auth-broker/src/handler.rs:851-855`).
- `api/src/write.rs:1124-1128` says that a binding update without `config` changes nothing; the code clears the
  stored config (`:1277-1287`). The model follows the code: `ApiTheorems.AbsentConfigIsLost` has the input and
  `ApiTheorems.AbsentConfigClears` the exact condition.
- `from_raw` compares names as written but emits them trimmed (`api-core/src/config.rs:181-253`), so an accepted
  tree may repeat a name. `BootstrapConfig.NamesDistinctIff` says when it does not,
  `BootstrapApply.WrittenTreeResolvesIff` exactly when every binding still resolves as written, and
  `BootstrapApply.SpacedTenantLosesBinding` has a tree in which one does not.
- Workspace writes look the workspace up under the tenant of the path (`api/src/write.rs:698-711`); binding writes
  go by the binding's key alone (`:1170-1386`). `ApiTheorems.StaysUnderIff` says what follows.
- `api/src/control_plane.rs:16-24` has a binding's delete end the live sessions associated with it. They are looked
  up by the binding's present names, and a session keeps those of its start: `LiveSessions.GatedWriteIsFinalIff`
  says exactly when none is left, `LiveSessions.RenamedSessionIsLeft` has a run that leaves one, and without renames
  the gate is exact (`LiveSessions.UnrenamedGateIsExact`).
- `auth-broker/src/config.rs:273-284` recovers a tenant from a variable's name by lowercasing it and turning
  `_` into `-`, so that two variables can recover to one tenant; `TtlConfig.OrderIrrelevantIff` says when the order
  in which they are visited then matters.

## Model

| member | source | states |
|---|---|---|
| BrokerSafety.StepKeeps | auth-broker/src/handler.rs:1006-1195 | every lock region, database call and vault access, in any order and for any number of requests in flight, keeps the whole invariant (caps traced to their minting, entries to their insertion, releases sound, revocations terminal, counts conserved) and never undoes a lease, a revocation, a vault header or a logged event |
| BrokerTheorems.RevokedLeaseFallsSilent | auth-broker/src/admin.rs:140-149 | over every run from start-up: once a revocation has taken effect at time r, no fetch whose captured time is r + CAP_TTL or later releases anything for a cap of that lease, even for a cap an in-flight check inserts after the revocation has cleared the lease's caps |
| BrokerWitnesses.SixtySecondsIsTight | auth-broker/src/handler.rs:1151-1154 | the bound above is the best possible: a run from start-up in which the revocation has returned and a fetch at r + CAP_TTL - 1 still releases |
| BrokerTheorems.ReleaseTracesToOneMint | auth-broker/src/handler.rs:374-397 | every release in every run goes back to exactly one earlier minting of its cap, for the same lease, tenant, plugin and bearer, and to an insertion and a last use of its cache entry by that bearer's checks |
| BrokerTheorems.ReleaseIsInTimeAndExact | auth-broker/src/handler.rs:399-485 | a release falls within the cap's 60 seconds, within the tenant's configured idle lifetime of the recorded last use and its configured absolute lifetime of the recorded insertion, and its secrets are exactly the vault entries the plugin may consume and the master decrypts, none missing or repeated |
| BrokerTheorems.UsableWithinKnobs | auth-broker/src/cache.rs:437-439 | in every reachable state an entry serves exactly while the tenant's configured lifetimes, override or default raised to the floor, have not passed since its creation and its last use |
| BrokerTheorems.SweepLeavesWithinKnobs | auth-broker/src/cache.rs:546-566 | over every run a sweep leaves exactly the entries for which they have not passed at the time it captured, and leaves those untouched |
| BrokerState.LifetimesAreTheKnobs | auth-broker/src/config.rs:147-168 | a tenant's idle window comes from the idle knob and its absolute window from the absolute knob, in seconds |
| BrokerState.VaultsDiffer | auth-broker/src/handler.rs:1081 | every vault lies under the base directory and two tenants never share one |
| BrokerTheorems.DeadlineNeverMoves | auth-broker/src/handler.rs:1124-1147 | through any stretch of any run in which an entry stays cached, nothing of it changes but its last use; in particular not its absolute deadline |
| BrokerTheorems.CacheRefinesCacheless | auth-broker/src/handler.rs:399-485 | in every reachable state a usable entry answers a fetch exactly as unlocking again from that bearer's lease and reading would, and so never fails to open its vault |
| BrokerTheorems.TouchIsHarmless | auth-broker/src/handler.rs:1124-1147 | when a check finds its entry cached, the master it discards, the tenant and the vault root are the ones the entry holds; only times may differ |
| BrokerState.CacheKeyInjective | auth-broker/src/handler.rs:48-58 | for 32-byte bearers `tenant ":" encoded bearer` determines tenant and bearer, whatever the tenant is called |
| BrokerState.CacheKeyInjectiveByName | auth-broker/src/handler.rs:48-58 | for tenant names without a colon, as all valid names are, the same holds of any bearer text |
| BrokerState.VisibleExact | auth-broker/src/handler.rs:418-453 | the fetch loop returns a secret if and only if the vault holds it, the plugin is among its consumers and it decrypts |
| BrokerState.VisibleCount | auth-broker/src/handler.rs:418-453 | and returns as many secrets as there are such entries |
| BrokerState.VisibleInOrder | auth-broker/src/handler.rs:418-453 | and returns them in the order in which the vault lists its entries |
| BrokerState.UsableMeans | auth-broker/src/cache.rs:437-439 | an entry serves up to and including its last idle and absolute moment, and a last use ahead of the captured time counts as just now; past that the fetch drops it |
| BrokerTheorems.GoneForGood | auth-broker/src/cache.rs:505-544 | a cap that is gone, by expiry, sweep, logout or revocation, is never there again |
| BrokerTheorems.SweptCapIsSpent | auth-broker/src/cache.rs:539-544 | over every run from start-up, orphan or not: once a sweep that captured its time at or past a cap's deadline has gone through the caps, the cap is never there again, and nothing is released for it but by fetches that had looked it up when the sweep did so and had captured their time before the deadline |
| BrokerTheorems.OrphanReleasesNothing | auth-broker/src/handler.rs:399-492 | a fetch with a cap whose entry is not cached releases nothing and clears every cap of that key |
| BrokerTheorems.InsertsAreConserved | auth-broker/src/cache.rs:462-486 | in every run, insertions counted equal the cache size plus idle evictions plus absolute evictions plus the entries fetches have dropped uncounted |
| BrokerSerial.ScriptRunsWhole | auth-broker/src/handler.rs:1006-1195 | the steps of any one request, run without interruption, have exactly the effect given for the whole request |
| SerialTheorems.ServeFromStart | auth-broker/src/cache.rs:525-537 | serving requests one at a time from start-up, every cap's cache key is in the cache |
| BrokerLaws.ValidationMeans | auth-broker/src/auth/lease.rs:275-385 | a lease is found revoked, expired, missing or live by its row's fields alone; a live one is renewed to an hour ahead, capped at its expiry and never moved back, and no other row changes |
| BrokerLaws.CheckMeans | auth-broker/src/handler.rs:1006-1195 | what a check does field by field: admitted, the lease renewed, the vault there, the entry inserted with the configured windows or touched, and a cap for 60 seconds; refused, nothing but the renewal or the clearing of an unknown bearer's caps |
| BrokerLaws.FetchMeans | auth-broker/src/handler.rs:333-517 | what a fetch does: with a good cap, an entry in its windows and a master that opens the vault, one release of the entry's secrets; otherwise the cap, or the entry and the key's caps, go exactly as due |
| BrokerLaws.PruneMeans | auth-broker/src/cache.rs:546-572 | what a sweep does, in deadlines and last uses, and under which reason each entry is counted |
| BrokerLaws.RevokeMeans | auth-broker/src/admin.rs:131-158 | a revocation by id marks the rows of that id that are not marked, removes the caps of that lease, and leaves every other row and cap |
| BrokerLaws.LogoutMeans | auth-broker/src/handler.rs:836-877 | a logout renews a live lease, clears the caps of the key of the tenant's present name, then marks the lease; anything short of that leaves caps and log alone |
| BrokerLaws.LoginMeans | auth-broker/src/auth/lease.rs:214-272 | a new lease lasts as asked, at most 30 days, and idles out after an hour or at its expiry |
| SerialTheorems.PruneIsExact | auth-broker/src/cache.rs:546-572 | a sweep at time t leaves exactly the unexpired entries, untouched, and exactly the unexpired caps whose entry it did not evict, and counts each evicted entry once |
| SerialTheorems.CheckMintsIff | auth-broker/src/handler.rs:1034-1158 | a check mints a cap exactly when the lease is live, its tenant has the name the path gives, if any, and the vault opens or has to be created; the cap is then for that lease, that tenant's key and the path's plugin for 60 seconds; otherwise nothing is logged and no cap added |
| SerialTheorems.RevokeIsFinal | auth-broker/src/admin.rs:131-158 | one request at a time, after a revocation by id nothing is ever released for the lease again, whatever follows |
| SerialTheorems.LogoutIsFinalIff | auth-broker/src/handler.rs:836-877 | one request at a time, after a completed logout nothing is ever released for the bearer's lease again if and only if, at the logout, no live cap of the lease carries a key made from another name of the tenant |
| SerialTheorems.StrayWasRenamed | auth-broker/src/handler.rs:851-855 | a cap that escapes the logout was minted while the tenant had another name |
| BrokerWitnesses.StrayIsReachable | auth-broker/src/handler.rs:851-855 | from start-up, a check followed by a rename of the tenant leads to a logout that completes and misses the cap |
| AppState.LogoutRebuildsCheckKey | auth-broker/src/handler.rs:851-855 | the key a logout builds by re-encoding the decoded bearer is the key a check built from the bearer's text |
| AppState.Broker.EvictIfExpired | auth-broker/src/cache.rs:462-486 | removes and returns the key exactly when the entry is expired, counting it under the reason its deadlines give |
| AppState.Broker.CollectStale | auth-broker/src/cache.rs:546-556 | lists every expired entry once, with its reason, in whatever order the map yields them |
| AppState.Broker.SweepCache | auth-broker/src/cache.rs:546-566 | the cache loses exactly the stale keys and each counter grows by the number of keys of its reason |
| AppState.Broker.PruneOnce | auth-broker/src/cache.rs:546-572 | the shared maps and counters after the sweep are those of the whole-request effect |
| AppState.Broker.PruneCapsOnce | auth-broker/src/cache.rs:539-544 | keeps exactly the unexpired caps of other keys than the evicted ones |
| AppState.Broker.EvictCapsOfLease | auth-broker/src/cache.rs:503-518 | keeps exactly the caps of other leases and returns how many went |
| AppState.Broker.EvictCapsOfKey | auth-broker/src/cache.rs:525-537 | keeps exactly the caps of other keys and returns how many went |
| AppState.Broker.ReadVault | auth-broker/src/handler.rs:405-453 | the listing loop returns the visible secrets, or nothing when the vault does not open |
| AppState.Broker.Fetch | auth-broker/src/handler.rs:333-517 | the fetch handler's effect on maps and log is the whole-request effect; a payload is answered exactly when the cap is good, its entry within its windows and its vault opens, with the entry's tenant, the cap's plugin and the visible secrets, and exactly with a logged release of them |
| AppState.Broker.FetchUnder | auth-broker/src/handler.rs:399-492 | the cache region and the clean-up of a fetch have the whole-request effect and give its payload |
| AppState.Broker.UnlockOrCreate | auth-broker/src/handler.rs:1081-1122 | opens the vault or creates and opens it; a failure leaves the vaults alone |
| AppState.Broker.TouchOrCache | auth-broker/src/handler.rs:1124-1147 | inserts and counts a new entry, or moves the last use of the one there |
| AppState.Broker.AdmitCheck | auth-broker/src/handler.rs:1124-1154 | caches and mints as the whole-request effect says, with the key made from the bearer's text |
| AppState.Broker.CheckLease | auth-broker/src/handler.rs:1040-1158 | a cap is answered exactly when one was minted, under the lease's tenant name |
| AppState.Broker.Check | auth-broker/src/handler.rs:1006-1195 | the check handler's effect is the whole-request effect; from the rows: a revoked lease is answered as revoked, one past a deadline as expired, an admitted check with its tenant and new cap, and everything else, faults included, as missed |
| AppState.Broker.ApiAuthLogout | auth-broker/src/handler.rs:836-877 | the logout handler's effect is the whole-request effect; an internal error is answered exactly when the logout came as far as marking the lease and that failed |
| AppState.Broker.AdminRevokeLease | auth-broker/src/admin.rs:131-158 | the revoke handler's effect is the whole-request effect; it answers with the rows newly marked and the caps removed |
| Base64.DecodeEncode | auth-broker/src/caps.rs:52-60 | decoding what was encoded gives back the bytes (sections 3.5 and 5 of RFC 4648, no padding) |
| Base64.EncodeDecode | auth-broker/src/caps.rs:52-60 | re-encoding whatever decodes gives back the text, so a value has one spelling only |
| Base64.EncodedGroup | auth-broker/src/caps.rs:52-60 | three bytes become the four letters of their six-bit digits in the URL-safe alphabet (section 5 and Table 2 of RFC 4648), and one or two bytes two or three letters |
| Secrets.UntornRunIsAtomic | auth-broker/src/secrets.rs:216-246 | in every run of broker requests and outside writers in which no generation a handle is opened with is ahead of the file it read, the file is what applying the committed operations one by one gives; `created` is answered exactly for an absent key, a store without overwrite never replaces, a delete succeeds only on a present key |
| Secrets.IntactIffUntorn | vault/src/vault.rs:401-474 | which schedules these are, exactly: below the counter's maximum, all commits of a run wrote over the file as it was read if and only if no handle torn when it was opened got to write |
| Secrets.UndisturbedIsUntorn | vault/src/vault.rs:401-474 | a schedule with no bump between a writer's reading of the file and of the generation, as when opening a vault is one atomic read, tears no handle, whatever its writers do |
| Secrets.BrokerAloneIsAtomic | auth-broker/src/cache.rs:338-343 | with broker requests only, serialised by the tenant lock, every interleaving is such a sequence: every commit is intact and no request is told of a conflict |
| Secrets.AnswersTellTheTruth | auth-broker/src/secrets.rs:239-246 | a success was written to the file, and no writer writes twice |
| Secrets.TornIff | vault/src/vault.rs:401-474 | below the counter's maximum, a handle that gets to write has read the latest file if and only if its generation was read no later than its file |
| Secrets.WriteIsAtomicIff | vault/src/vault.rs:568-601 | a write leaves what its operation would make of the file's present contents if and only if the writer's snapshot agrees with them on all that the operation does not set itself |
| Secrets.OutsideWriteIsLost | vault/src/vault.rs:401-474 | a run in which an outside write falls between a broker's reading of the file and of the generation: both succeed and the outside key is gone |
| Secrets.RunBalances | auth-broker/src/secrets.rs:231-246 | in every run without a torn handle, outside writers or not, the key count has changed by created stores minus successful deletes plus what the outside edits changed |
| Secrets.StoreStays | vault/src/vault.rs:607-640 | a stored entry, whole, with the creation time its key had if it had one, is in the file until a later commit names its key |
| Secrets.LastWordIsKept | vault/src/vault.rs:607-640 | the last commit that names a key decides what the file holds for it, and a key no commit names is as it was at first |
| SecretStore.RequestRunsWhole | auth-broker/src/secrets.rs:216-246 | the steps of one store or delete, run without interruption, have the effect and answer given for the whole request |
| SecretStore.Vault.UnlockMaster | vault/src/vault.rs:393-474 | a handle opens exactly when the vault is there and authenticates, and then holds its contents and generation |
| SecretStore.Vault.Persist | vault/src/vault.rs:568-601 | writes the handle's contents exactly when the generation is the expected one and then bumps it; at the counter's maximum the file is written and the bump fails |
| SecretStore.Vault.PutSecret | vault/src/vault.rs:607-640 | replaces the entry but keeps the creation time of a key that was there |
| SecretStore.Vault.DeleteSecret | vault/src/vault.rs:716-736 | refuses a missing key without writing, else removes it and persists |
| SecretStore.Store | auth-broker/src/secrets.rs:216-246 | the store handler's answer and effect on the file are those of the whole request; after a success the file holds the entry that was sent, with the old creation time on an overwrite, and every other key as before |
| SecretStore.DeleteSecret | auth-broker/src/secrets.rs:281-311 | the delete handler's answer and effect on the file are those of the whole request |
| PluginSpec.ValidationIsAFixedPoint | api-core/src/plugin_spec.rs:154-212 | what validation returns, rendered back to its raw form, validates to itself |
| PluginSpec.ValidatedIff | api-core/src/plugin_spec.rs:154-212 | a plugin is the outcome of some validation exactly when every field is well formed |
| PluginSpec.ValidatedIsValid | api-core/src/plugin_spec.rs:214-306 | whatever validates has a valid name, image, port, path, upstream auth, env, resources and egress, and the trimmed name |
| PluginSpec.RenderedValidates | api-core/src/plugin_spec.rs:308-556 | every well-formed plugin is accepted in its raw form and comes out the same |
| PluginSpec.AbsentFieldsDefault | api-core/src/plugin_spec.rs:186-203 | absent port, path, auth, env and resources become 8000, `/`, `none`, nothing and nothing |
| PluginLaws.AcceptedMeans | api-core/src/plugin_spec.rs:154-212 | an entry is accepted as a plugin exactly when each field as written is the plugin's under the rule written out for it: name, image, port, path, auth, env, resources and egress |
| PluginLaws.EnvFaults | api-core/src/plugin_spec.rs:308-395 | which env names are refused and how: the loader's and the path's variables, the docker, secret and config ones, bad characters, values over 64 KiB and repeated names |
| PluginLaws.ScalarFaults | api-core/src/plugin_spec.rs:214-306 | the faults of an image, a port, a path and an auth word, each with its condition |
| PluginLaws.FaultsInOrder | api-core/src/plugin_spec.rs:154-212 | the first field at fault, in the order of the code, decides the answer |
| PluginLaws.ConfigMeans | api-core/src/plugin_spec.rs:685-726 | no, null and empty configs are none; an object of at most 64 KiB is itself; a list or other value and an oversized object are refused as such |
| PluginLaws.LengthsAdd | api-core/src/plugin_spec.rs:308-395 | the length compared is that of the text's characters in UTF-8, added up |
| PluginLaws.LengthOfOne | api-core/src/plugin_spec.rs:308-395 | with one to four bytes for each by its code point |
| PluginSpec.ValidateEnv | api-core/src/plugin_spec.rs:308-395 | the loop over the env mapping returns the pairs in order or the first fault |
| PluginSpec.ValidateResources | api-core/src/plugin_spec.rs:397-455 | the loop over the resources mapping returns the caps or the first fault; an empty result is no resources |
| PluginSpec.ValidateAllowEntry | api-core/src/plugin_spec.rs:558-677 | an allow entry gives its host and ports or its first fault |
| PluginSpec.ValidatePorts | api-core/src/plugin_spec.rs:655-676 | the loop returns the ports in order, or the fault when one is no integer from 1 to 65535 |
| PluginSpec.ValidateEgress | api-core/src/plugin_spec.rs:457-556 | the word forms and the allow list are told apart and checked in the order of the code |
| PluginSpec.ValidateOne | api-core/src/plugin_spec.rs:154-212 | the field checks run in order and the first fault is the answer |
| Package.PackageRendersAsPlugin | api-core/src/package.rs:230-260 | a package that validates, rendered with any image that is not blank, validates as a plugin with the same shared fields; it has a positive spill threshold exactly when it spills by size |
| Package.PackageAcceptedIff | api-core/src/package.rs:230-327 | a package is accepted exactly when its entry is, under any image that is not blank, and its spill policy is sound |
| Package.AcceptedMeans | api-core/src/package.rs:230-327 | a package is accepted, as this one, exactly when its fields make an acceptable entry, served at `/mcp` unless it says otherwise, and its spill policy obeys the rules written out |
| BootstrapConfig.AcceptedResolves | api-core/src/config.rs:181-248 | in every accepted tree the binding names are trimmed already, name validated plugins and are distinct within their workspace, though the checks compare untrimmed names; and the tree is the one as written, entry for entry, names trimmed and configs converted |
| BootstrapConfig.AcceptedMeans | api-core/src/config.rs:178-262 | a tree is accepted, and lowered to this one, exactly when no name is blank, no two names of a list are written alike, every binding names a plugin, and every plugin and config is acceptable |
| BootstrapConfig.FaultsMean | api-core/src/config.rs:195-248 | why a tenant, a workspace or a binding is refused, each reason in its turn |
| BootstrapConfig.FirstAtFault | api-core/src/config.rs:195-248 | in each list the first entry at fault decides the answer |
| BootstrapConfig.NamesDistinctIff | api-core/src/config.rs:181-253 | the plugins, the tenants, and the workspaces of each tenant of an accepted tree have distinct names exactly when the names as written differ after trimming |
| BootstrapConfig.SpacedDuplicateIsAccepted | api-core/src/config.rs:195-205 | two spellings of one tenant name are accepted and come out the same |
| BootstrapConfig.WalkPlugins | api-core/src/config.rs:181-190 | the loop with its set of seen names returns the validated plugins or the first fault |
| BootstrapConfig.WalkBindings | api-core/src/config.rs:219-248 | the loop over a workspace's bindings returns the lowered bindings or the first fault, names compared untrimmed |
| BootstrapConfig.WalkWorkspaces | api-core/src/config.rs:203-253 | the loop over a tenant's workspaces returns the lowered workspaces or the first fault |
| BootstrapConfig.Lower | api-core/src/config.rs:178-262 | the nested walk with its sets of seen names returns the lowered tree or the first fault |
| BootstrapTables.RunEstablishes | bootstrap/src/runner.rs:85-148 | upserts in order that do not clash leave the tables well formed, delete and rename nothing, and leave each of them in force |
| BootstrapTables.EstablishedIff | bootstrap/src/runner.rs:154-323 | a run of upserts leaves all of them in force exactly when no two put different things in one place |
| BootstrapTables.StatsBalance | bootstrap/src/runner.rs:85-148 | the tables grow by exactly the rows reported inserted; each tenant and workspace upsert is reported once |
| BootstrapTables.EstablishedJoins | db/README.md:261-273 | a binding in force is the one row the resolve join selects for its three names |
| BootstrapApply.AppliedTreeResolves | bootstrap/src/runner.rs:85-148 | after applying an accepted tree with distinct names to any well-formed tables, the join gives for every binding exactly one row, with the validated plugin and that binding's config |
| BootstrapApply.WrittenTreeResolves | api-core/src/config.rs:178-262 | from the tree as written: if it is accepted and its names differ after trimming, applying it makes the join give every binding as written one row, with the plugin it names as validated and its own config |
| BootstrapApply.WrittenTreeResolvesIff | api-core/src/config.rs:178-262 | for any accepted tree as written: every binding resolves to a validated plugin of its name and to its own config if and only if no two bindings for one place, however its names are spelled, have different configs |
| BootstrapApply.SpacedTenantLosesBinding | api-core/src/config.rs:195-205 | a tree in full, with two spellings of one tenant, one binding without a config and one with a mapping: under any conversion that takes the mapping to its object it is accepted, and the binding written first resolves to the config of the one written second |
| BootstrapApply.AppliedTreeLeavesTheRest | bootstrap/src/runner.rs:154-323 | plugin and binding rows the tree does not name are unchanged, and no row of any table is deleted or renamed |
| BootstrapTables.RunStampsRows | bootstrap/src/runner.rs:154-323 | after any run of ordered upserts a row that was there is as it was or carries the time of the run; names, creation times and facets are kept, and new rows carry that time twice |
| BootstrapApply.ApplyStampsRows | bootstrap/src/runner.rs:85-148 | the same of applying any accepted tree |
| BootstrapTables.TallyMeans | bootstrap/src/runner.rs:91-145 | an upsert moves the one counter of its kind and outcome by one, and none when it changed nothing |
| BootstrapApply.ApplyingTwiceIsApplyingOnce | bootstrap/src/runner.rs:85-148 | applying the tree again at any time changes nothing, timestamps and ids included, and reports only its tenants and workspaces as updated |
| BootstrapApply.QuietAgainIff | bootstrap/src/runner.rs:154-221 | for any accepted tree, a second apply inserts and changes nothing exactly when no two plugins of one name and no two bindings of one place differ |
| BootstrapApply.ApplyStatsBalance | bootstrap/src/runner.rs:85-148 | for any accepted tree the tables grow by the rows reported inserted and every tenant and workspace of the tree is reported once, as inserted or as updated |
| BootstrapApply.OpsOrdered | bootstrap/src/runner.rs:125-134 | in every accepted tree each upsert finds the tenant, workspace and plugin it refers to already put |
| BootstrapRunner.Database.UpsertPluginRow | bootstrap/src/runner.rs:154-221 | compares field by field; a row that differs takes the entry and the time of the apply and keeps its creation time and facet, one that does not stays, and a new one carries that time twice |
| BootstrapRunner.Database.UpsertTenantRow | bootstrap/src/runner.rs:231-253 | returns the id the name is found under, inserting a row stamped with the time of the apply if there was none |
| BootstrapRunner.Database.UpsertWorkspaceRow | bootstrap/src/runner.rs:256-281 | likewise for a workspace of the tenant |
| BootstrapRunner.Database.UpsertBindingRow | bootstrap/src/runner.rs:284-323 | inserts the binding, or changes and restamps it only when the config differs, keeping its creation time |
| BootstrapRunner.Database.ApplyPlugins | bootstrap/src/runner.rs:91-101 | the loop does the plugin upserts in order and keeps the id every name is found under |
| BootstrapRunner.Database.ApplyBindings | bootstrap/src/runner.rs:125-145 | the loop does a workspace's binding upserts in order, and stops only at a name it has no plugin id for |
| BootstrapRunner.Database.ApplyWorkspaces | bootstrap/src/runner.rs:115-146 | the loop does a tenant's workspace upserts, each followed by its bindings |
| BootstrapRunner.Database.Apply | bootstrap/src/runner.rs:59-148 | the nested loops do the tree's upserts in order with the stats to match; an unknown plugin undoes everything, and never happens for an accepted tree, whose apply stamps what it changes and keeps the rest |
| ApiTheorems.RunKeepsSound | api/src/write.rs:438-844 | every run of api writes keeps each workspace with its tenant, each binding with its workspace and plugin, and names unique up to letter case |
| ApiLaws.PostTenantMeans | api/src/write.rs:438-460 | done exactly for a trimmed name that is well formed, not reserved and no tenant's in any letter case; then exactly one tenant row is new, under an id no row had, with that name and both times now; otherwise nothing changes |
| ApiLaws.PutTenantMeans | api/src/write.rs:462-484 | each answer by the name, the row and the token; done, the row has the trimmed name and the time, and nothing else changes |
| ApiLaws.DropTenantMeans | api/src/write.rs:490-519 | each answer by the row, the token and the workspaces left; done, only that row goes |
| ApiLaws.PostWorkspaceMeans | api/src/write.rs:632-683 | as for a tenant, within one tenant and without reserved names |
| ApiLaws.PutWorkspaceMeans | api/src/write.rs:685-737 | as for a tenant, on a workspace of that tenant only |
| ApiLaws.DropWorkspaceMeans | api/src/write.rs:740-844 | each answer by the row, its tenant, the token and the gate; done, the row and exactly its bindings go |
| ApiLaws.PostPluginMeans | api/src/write.rs:916-975 | done exactly when the entry validates to a spec with a name for paths that no plugin has; then one row is new, with that spec |
| ApiLaws.PutPluginMeans | api/src/write.rs:977-1040 | each answer by the entry, the row, the token and the names; done, the row has the new spec and time and keeps its creation time and facet |
| ApiLaws.DropPluginMeans | api/src/write.rs:1042-1109 | each answer by the row, the token and the bindings left; done, only that row goes |
| ApiLaws.PostBindingMeans | api/src/write.rs:1170-1247 | each answer by the parents, the binding and the config; done, one binding is new, with the object sent or, for null and empty, none |
| ApiLaws.PutBindingMeans | api/src/write.rs:1249-1327 | each answer by the binding, the token, the config and the gate; done, the config is that sent, the time is now and the creation time stays |
| ApiLaws.DropBindingMeans | api/src/write.rs:1329-1386 | each answer by the binding, the token and the gate; done, only that row goes |
| ApiTheorems.GuardsAreExact | api/src/write.rs:490-519 | over sound tables a tenant or plugin delete that passes lookup and lock goes through exactly when the tables are sound without the row, and is told of dependents otherwise; the tables are then as before, less that row when it goes through |
| ApiTheorems.WorkspaceTakesItsBindings | api/src/write.rs:740-844 | a workspace delete takes the row and the fewest bindings it can: taking any set of bindings along leaves the tables sound exactly when it holds all those the delete takes, and none of these is another workspace's |
| ApiTheorems.AbsentConfigClears | api/src/write.rs:1277-1287 | after any run of writes, a binding update that gives back the stored config leaves it alone, while one without a config stores none, and so leaves it alone exactly when none was stored |
| ApiTheorems.AbsentConfigIsLost | api/src/write.rs:1124-1128 | tables in which an update without a config, which the field's description calls no change, loses a stored config |
| ApiTheorems.StaysUnderIff | api/src/write.rs:1170-1386 | a binding write that goes through changes only rows of the tenant it is sent under if and only if its workspace is that tenant's |
| ApiTheorems.SentUnderAnother | api/src/write.rs:1329-1386 | tables in which a binding delete sent under another tenant's name goes through |
| ApiTheorems.NoLostUpdate | api/src/write.rs:233-245 | with strictly increasing write times, a put, or a delete with a token, commits only over the row as it was read when the token was given, over any run, deleted and recreated bindings included |
| ApiTheorems.TokenHoldsIff | api/src/write.rs:233-245 | a token holds at a later moment exactly when its row has stood still since the read |
| ApiTheorems.TokenFooledIff | api/src/write.rs:233-245 | with times that only do not decrease, a token holds although its row has not stood still exactly when the last write to change the row left it there and carries the stamp that was read; every write up to that one was then made at this one time, so the token is exact whenever the next write comes later |
| ApiTheorems.SameMicrosecondLosesUpdate | api/src/write.rs:233-245 | without increasing times it fails: two renames within one microsecond both commit on one token |
| ApiTheorems.WriteStamps | api/src/write.rs:462-844 | a write leaves a row as it is, removes it, or stamps it with the write's own time |
| LiveGate.ControlPlane.ListSessionsFor | api/src/control_plane.rs:198-230 | lists exactly the live sessions of the triple, each once; unavailable exactly when the call is not answered |
| LiveGate.ControlPlane.DeleteSession | api/src/control_plane.rs:238-268 | a session gone already counts as deleted; unavailable exactly when the call is not answered, and then the session is gone exactly when only the answer was lost |
| LiveGate.ControlPlane.TerminateLiveSessions | api/src/control_plane.rs:297-310 | unavailable exactly when one of the calls it takes, the listing and a delete for each session of the triple, is not answered; on success exactly the triple's sessions are gone and counted; on failure only sessions of the triple may be gone; disabled, none |
| ApiService.Api.TerminateBindings | api/src/write.rs:794-828 | in whatever order the bindings come, the loop gets through exactly when all its calls, a listing for each binding and a delete for each session of their triples, are answered, and has then ended exactly those sessions; otherwise it has ended only such sessions |
| ApiService.Api.DropWorkspace | api/src/write.rs:740-844 | the tables change as the transaction says; past lookup and lock it goes through exactly when the gate is disabled or all calls for its bindings are answered; then no session of an affected triple is left and no other is gone; on `Unavailable` no row has changed; disabled, no session has |
| ApiService.Api.PutBinding | api/src/write.rs:1249-1327 | the same for a binding update and its own triple; one without a config clears the stored config |
| ApiService.Api.DropBinding | api/src/write.rs:1329-1386 | the same for a binding delete |
| LiveSessions.GateKeptIff | api/src/control_plane.rs:297-310 | what the handlers promise of the live sessions is exactly what a step over sessions may do: nothing when disabled or refused, all of the asked triples on success, any of them on `Unavailable` |
| LiveSessions.SessionEndsIff | api/src/write.rs:1134-1168 | over any run of writes, starts and ends, with the gate enabled: a write that goes through ends a live session exactly when the names it asks about are those the session was started under |
| LiveSessions.GatedWriteIsFinalIff | api/src/write.rs:1329-1386 | over any such run a gated write that goes through leaves no session started for a binding it affects if and only if all those still live were started under names it asks about; for a write to one binding, under its present names |
| LiveSessions.UnrenamedGateIsExact | api/src/write.rs:794-828 | over any such run without renames it ends exactly the sessions started for the bindings it affects, none missing and no other |
| LiveSessions.RenamedSessionIsLeft | api/src/write.rs:462-484 | a run in which a session is started, its tenant renamed and its binding deleted, all with success, and the session is left |
| ApiService.Api.PutTenant | api/src/write.rs:462-484 | lookup, lock, name check and rename in that order, and nothing else changed; answers and rows are as `ApiLaws.PutTenantMeans` has them |
| ApiService.Api.PostTenant | api/src/write.rs:438-460 | format, then name check up to letter case, then the insert under a new id; answers and rows are as `ApiLaws.PostTenantMeans` has them |
| ApiService.Api.PostWorkspace | api/src/write.rs:632-683 | format, tenant, name check within the tenant, then the insert; answers and rows are as `ApiLaws.PostWorkspaceMeans` has them |
| ApiService.Api.PutWorkspace | api/src/write.rs:685-737 | format, lookup and ownership, lock, name check within the tenant, then the rename; answers and rows are as `ApiLaws.PutWorkspaceMeans` has them |
| ApiService.Api.PostPlugin | api/src/write.rs:916-975 | validation, name check, then the insert; answers and rows are as `ApiLaws.PostPluginMeans` has them |
| ApiService.Api.DropTenant | api/src/write.rs:490-519 | lookup, lock and dependents guard in that order before the row goes; answers and rows are as `ApiLaws.DropTenantMeans` has them |
| ApiService.Api.PutPlugin | api/src/write.rs:977-1040 | validation, lookup, lock, name check and replacement in that order; answers and rows are as `ApiLaws.PutPluginMeans` has them |
| ApiService.Api.DropPlugin | api/src/write.rs:1042-1109 | lookup, lock and dependents guard in that order before the row goes; answers and rows are as `ApiLaws.DropPluginMeans` has them |
| ApiService.Api.PostBinding | api/src/write.rs:1170-1247 | parents, existing binding and config shape are checked in that order before the insert; the tenant of the path plays no part; answers and rows are as `ApiLaws.PostBindingMeans` has them |
| TtlConfig.EffectiveAfterCalls | auth-broker/src/config.rs:147-252 | after any builder calls a tenant's effective lifetime is the last value set for it, or the default, raised to every floor in force from that setting on; lowering a floor later undoes nothing |
| TtlConfig.OrderIrrelevantIff | auth-broker/src/config.rs:110-143 | neither what is loaded from the environment nor any tenant's lifetime depends on iteration order exactly when no two variables recover to one tenant with values that differ once raised to the loaded floor |
| TtlConfig.TableOrderIrrelevantIff | auth-broker/src/config.rs:129-139 | the table of overrides as the loop leaves it, before anything is raised, does not depend on iteration order exactly when no two variables recover to one tenant with different values |
| TtlConfig.Config.Normalise | auth-broker/src/config.rs:227-252 | raises every stored value below its floor to the floor and nothing else |
| TtlConfig.Config.WithMinIdle | auth-broker/src/config.rs:197-201 | the builder call is the knob's call and leaves the other knob alone |
| TtlConfig.Config.WithMinAbsolute | auth-broker/src/config.rs:204-208 | likewise for the absolute floor |
| TtlConfig.Config.WithDefaultIdle | auth-broker/src/config.rs:181-185 | likewise for the idle default |
| TtlConfig.Config.WithDefaultAbsolute | auth-broker/src/config.rs:188-192 | likewise for the absolute default |
| TtlConfig.Config.WithTenantIdle | auth-broker/src/config.rs:211-215 | likewise for one tenant's idle value |
| TtlConfig.Config.WithTenantAbsolute | auth-broker/src/config.rs:218-222 | likewise for one tenant's absolute value |
| TtlConfig.Config.FromLookup | auth-broker/src/config.rs:110-143 | the loaded object has the defaults, floors and per-tenant values the variables give |
| TtlConfig.LoadedMeans | auth-broker/src/config.rs:110-143 | the default and the floor are the variables' numbers where they hold one, and a tenant gets its override or the default, never less than the floor |
| Text.TrimCuts | api-core/src/plugin_spec.rs:155 | what trimming a name takes off is whitespace at its two ends, and what it leaves neither begins nor ends with any |
| TtlConfig.SecondsRead | auth-broker/src/config.rs:255-267 | a text is read as n seconds exactly when it is n in decimal, perhaps after a plus sign and zeros, and n is neither zero nor over 64 bits |
| TtlConfig.TenantRecovered | auth-broker/src/config.rs:278-284 | a variable's name gives the tenant character by character: what follows the prefix in small letters, with dashes for underscores |
| ErrorResponse.ParsePrinted | auth-broker/src/error_response.rs:112-147 | parsing the printed `WWW-Authenticate` value by section 3.2.6 of RFC 7230 gives back exactly the realm `botspace/` and tenant, the text of its code and the description, if and only if they hold no control character other than the tab |
| ErrorResponse.TwoReplacesAreOneEscape | auth-broker/src/error_response.rs:145-147 | the two chained replaces are one character-by-character escape |
| Grammar.ParsePrintedMcp | auth-broker/src/grammar.rs:81-130 | a path of a valid tenant, workspace and plugin, with any extra slashes and any tail, parses to that triple |
| Grammar.ParsePrintedSpa | auth-broker/src/grammar.rs:81-130 | a path of one valid tenant name, with any slashes around it, parses to that tenant's page |
| Grammar.ClassedTenant | auth-broker/src/grammar.rs:54-66 | no path is classed under a reserved tenant in any letter case |
| Grammar.AuthRejectedIff | auth-broker/src/grammar.rs:81-95 | a path starting with `/api/auth/` is rejected exactly when it is that prefix repeated |
| Grammar.AnswersMean | auth-broker/src/grammar.rs:81-130 | for which paths each answer is given: the login's own, the rest under the authentication prefix, the api's with and without a tenant named, a page's and a plugin's |
| Grammar.NamesMean | auth-broker/src/grammar.rs:54-66 | which names are well formed, and which are reserved, written out |

## Left out

- HTTP routing, headers and cookies, status rendering, logging and audit lines, readiness probes, the admin key and its file, the command-line and UI crates.
- OPAQUE, HKDF, AEAD and the encodings of vault files; wiping of memory; comparison in constant time.
- The lease's export keys held in memory, pending handshakes and rate limits, which a sweep also clears.
- The lookups and field checks that precede the tenant lock in store and delete: they refuse without touching the vault.
- Crashes in the middle of a vault write, and two creations of one vault at once; the interleaved machine creates a vault in one step.
- A vault directory removed or replaced by hand, which leaves a cached master that no longer opens anything.
- Tenant rows deleted while leases are live; in the broker machine tenants are added and renamed only.
- Database concurrency: isolation levels and simultaneous inserts. Id generation, taken as fresh.
- YAML tags; names whose lower case differs between SQL and ASCII rules.
- The plugin row's facet reference and the tables no write here touches; sessions started while a gated write runs.
- The invitation minted after a tenant is created, and the eviction signal after a secret is written: remote calls whose failure undoes nothing.
- Read handlers, durations and cookie formatting, which would only add easy members.
- Secrets.UntornRunIsAtomic: says nothing of runs in which a torn handle is opened, because there the code can lose writes (where none of those handles gets to write, `Secrets.IntactIffUntorn` and `Secrets.CommitsReplay` say the same), nor of the counter at its maximum, where the generation check no longer tells handles apart; `Secrets.WriteIsAtomicIff` covers each single write there too.
- BrokerTheorems.RevokedLeaseFallsSilent: dates a release by the time its fetch captured, as the code does; how long a fetch then takes to answer is not bounded.
- BrokerTheorems.ReleaseIsInTimeAndExact: bounds the release by the last use recorded, which interleaved checks may move backwards.
- Fairness of the sweep loop: what one sweep guarantees is stated instead.
