/**
 * The lease, cache, cap and fetch protocol as a step machine. One step is one region under a lock, one
 * database call or one vault access; requests interleave freely, and each request carries the time it
 * captured when it began.
 */
module BrokerMachine {
  import opened Wrappers
  import opened Base64
  import opened BrokerState

  /** A check request, from decoding its bearer on. */
  datatype CheckReq = CheckReq(scope: Option<string>, namespace: string, plugin: string, bearer: Bytes, now: Time)

  /** Where an in-flight request stands. */
  datatype Pc =
    | CheckStarted(req: CheckReq)
    | CheckValidated(req: CheckReq, leaseId: Id, tenantId: Id, exportKey: Bytes)
    | CheckNamed(req: CheckReq, leaseId: Id, tenant: string, exportKey: Bytes)
    | CheckUnlocked(req: CheckReq, leaseId: Id, tenant: string, master: Bytes)
    | CheckCached(req: CheckReq, leaseId: Id, tenant: string)
    | CheckMissed(key: Key)
    | FetchStarted(cap: CapId, now: Time)
    | FetchHeld(cap: CapId, entry: CapEntry, now: Time)
    | FetchDropped(key: Key)
    | PruneStarted(now: Time)
    | PruneSwept(keys: set<Key>, now: Time)
    | RevokeStarted(leaseId: Id, now: Time)
    | RevokeMarked(leaseId: Id)
    | LogoutStarted(bearer: Bytes, now: Time)
    | LogoutValidated(bearer: Bytes, leaseId: Id, tenantId: Id)
    | LogoutNamed(bearer: Bytes, leaseId: Id, tenant: string)
    | LogoutCleared(bearer: Bytes, leaseId: Id, key: Key, now: Time)

  /** What a successful fetch handed out, and from what. */
  datatype Release = Release(
    cap: CapId, at: Time, capEntry: CapEntry, entry: CacheEntry, vault: Vault, secrets: seq<FetchSecret>,
    mint: nat, birth: nat, lastUse: nat)

  datatype Event =
    | Inserted(key: Key, entry: CacheEntry, bearer: Bytes)
    | Touched(key: Key, at: Time)
    | Minted(cap: CapId, capEntry: CapEntry, tenant: string, bearer: Bytes, at: Time)
    | Released(release: Release)
    | LoggedOut(bearer: Bytes, leaseId: Id, key: Key)

  /**
   * What has happened so far: the events in order, the position of each cap's minting and of each live
   * cache entry's insertion and latest use, when each lease's revocation took effect, and how many entries
   * fetches have dropped.
   */
  datatype History = History(
    log: seq<Event>, minted: map<CapId, nat>, birth: map<Key, nat>, lastUse: map<Key, nat>,
    revokedWhen: map<Id, Time>, dropped: nat)

  datatype State = State(
    clock: Time, leases: Leases, tenants: map<Id, string>, vaults: Vaults,
    cache: Cache, caps: Caps, metrics: Metrics, inflight: map<nat, Pc>, hist: History)

  datatype Step =
    | Tick(elapsed: nat)
    | Login(bearer: Bytes, id: Id, tenantId: Id, wrapped: Option<Bytes>, seconds: nat)
    | Rename(tenantId: Id, name: string)
    | ProvisionVault(root: string, vault: Vault)
    | WriteVault(root: string, entries: seq<(SecretKey, Envelope)>)
    | BeginCheck(r: nat, scope: Option<string>, namespace: string, plugin: string, text: string)
    | CheckValidate(r: nat, dbFails: bool)
    | CheckName(r: nat, dbFails: bool)
    | CheckUnlock(r: nat, salt: Bytes, ioFails: bool)
    | CheckCache(r: nat)
    | CheckMint(r: nat, cap: CapId)
    | CheckMissEvict(r: nat)
    | BeginFetch(r: nat, text: string)
    | FetchCaps(r: nat)
    | FetchCache(r: nat, ioFails: bool)
    | FetchEvict(r: nat)
    | BeginPrune(r: nat)
    | PruneCache(r: nat)
    | PruneCapsStep(r: nat)
    | BeginRevoke(r: nat, leaseId: Id)
    | RevokeMark(r: nat, dbFails: bool)
    | RevokeEvict(r: nat)
    | BeginLogout(r: nat, text: string)
    | LogoutValidate(r: nat, dbFails: bool)
    | LogoutName(r: nat, dbFails: bool)
    | LogoutEvict(r: nat)
    | LogoutRevoke(r: nat, dbFails: bool)

  // --- Helpers for one request's progress ---

  function Done(s: State, r: nat): State {
    s.(inflight := s.inflight - {r})
  }

  function Goto(s: State, r: nat, pc: Pc): State {
    s.(inflight := s.inflight[r := pc])
  }

  /** The recorded position; every key asked for is recorded in a reachable state. */
  function Position<K>(positions: map<K, nat>, k: K): nat {
    if k in positions then positions[k] else 0
  }

  // --- The environment ---

  function DoLogin(s: State, bearer: Bytes, id: Id, tenantId: Id, wrapped: Option<Bytes>, seconds: nat): (t: State)
    ensures t == s.(leases := t.leases)
  {
    if bearer in s.leases || |bearer| != BEARER_BYTES || (exists b :: b in s.leases && s.leases[b].id == id) then s
    else
      var capped := if seconds < LEASE_HARD_CAP_SECONDS then seconds else LEASE_HARD_CAP_SECONDS;
      var expiresAt := s.clock + capped * SECOND;
      s.(leases := s.leases[bearer := Lease(id, tenantId, wrapped, expiresAt, IdleExtendsTo(s.clock, expiresAt), None)])
  }

  function DoRename(s: State, tenantId: Id, name: string): (t: State)
    ensures t == s.(tenants := t.tenants)
  {
    s.(tenants := s.tenants[tenantId := name])
  }

  function DoProvision(s: State, root: string, vault: Vault): (t: State)
    ensures t == s.(vaults := t.vaults)
  {
    if root in s.vaults then s else s.(vaults := s.vaults[root := vault])
  }

  /** Every writer reseals under the salt, suite and master it opened. */
  function DoWriteVault(s: State, root: string, entries: seq<(SecretKey, Envelope)>): (t: State)
    ensures t == s.(vaults := t.vaults)
  {
    if root in s.vaults then s.(vaults := s.vaults[root := s.vaults[root].(entries := entries)]) else s
  }

  // --- Check ---

  function DoBeginCheck(s: State, r: nat, scope: Option<string>, namespace: string, plugin: string, text: string): (t: State)
    ensures t == s.(inflight := t.inflight)
  {
    if r in s.inflight then s
    else
      match Decode(text)
      case Some(bearer) =>
        if |bearer| == BEARER_BYTES then Goto(s, r, CheckStarted(CheckReq(scope, namespace, plugin, bearer, s.clock))) else s
      case None => s
  }

  function DoCheckValidate(s: State, r: nat, dbFails: bool): (t: State)
    ensures t == s.(leases := t.leases, inflight := t.inflight)
  {
    if r !in s.inflight || !s.inflight[r].CheckStarted? then s
    else
      var req := s.inflight[r].req;
      match if dbFails then DbError else Validate(s.leases, req.bearer, req.now)
      case Valid(lease, exportKey) =>
        Goto(s.(leases := LeasesAfterValidate(s.leases, req.bearer, req.now)), r,
             CheckValidated(req, lease.id, lease.tenantId, exportKey))
      case Miss =>
        if req.scope.Some? then Goto(s, r, CheckMissed(CacheKey(req.scope.value, Encode(req.bearer)))) else Done(s, r)
      case _ => Done(s, r)
  }

  function DoCheckName(s: State, r: nat, dbFails: bool): (t: State)
    ensures t == s.(inflight := t.inflight)
  {
    if r !in s.inflight || !s.inflight[r].CheckValidated? then s
    else
      var pc := s.inflight[r];
      if dbFails || pc.tenantId !in s.tenants then Done(s, r)
      else
        var tenant := s.tenants[pc.tenantId];
        if pc.req.scope.Some? && tenant != pc.req.scope.value then Done(s, r)
        else Goto(s, r, CheckNamed(pc.req, pc.leaseId, tenant, pc.exportKey))
  }

  function DoCheckUnlock(c: Config, s: State, r: nat, salt: Bytes, ioFails: bool): (t: State)
    ensures t == s.(vaults := t.vaults, inflight := t.inflight)
  {
    if r !in s.inflight || !s.inflight[r].CheckNamed? then s
    else if ioFails then Done(s, r)
    else
      var pc := s.inflight[r];
      var root := c.VaultRoot(pc.tenant);
      var vaults := VaultsAfterUnlock(c, s.vaults, root, pc.exportKey, salt);
      match UnlockMaster(c, vaults, root, pc.exportKey)
      case Unlocked(master) => Goto(s.(vaults := vaults), r, CheckUnlocked(pc.req, pc.leaseId, pc.tenant, master))
      case _ => Done(s, r)
  }

  function DoCheckCache(c: Config, s: State, r: nat): (t: State)
    ensures t == s.(cache := t.cache, metrics := t.metrics, hist := t.hist, inflight := t.inflight)
    ensures t.hist.minted == s.hist.minted
  {
    if r !in s.inflight || !s.inflight[r].CheckUnlocked? then s
    else
      var pc := s.inflight[r];
      var key := CacheKey(pc.tenant, Encode(pc.req.bearer));
      var entry := FreshEntry(c, pc.tenant, pc.master, pc.req.now);
      var n := |s.hist.log|;
      var hit := key in s.cache;
      var event := if hit then Touched(key, pc.req.now) else Inserted(key, entry, pc.req.bearer);
      var hist := s.hist.(log := s.hist.log + [event],
                          birth := if hit then s.hist.birth else s.hist.birth[key := n],
                          lastUse := s.hist.lastUse[key := n]);
      var metrics := if hit then s.metrics else s.metrics.(inserts := s.metrics.inserts + 1);
      Goto(s.(cache := TouchOrInsert(s.cache, key, entry, pc.req.now), metrics := metrics, hist := hist), r,
           CheckCached(pc.req, pc.leaseId, pc.tenant))
  }

  /** Cap ids are 32 random bytes, taken as never drawn twice. */
  function DoCheckMint(s: State, r: nat, cap: CapId): (t: State)
    ensures t == s.(caps := t.caps, hist := t.hist, inflight := t.inflight)
  {
    if r !in s.inflight || !s.inflight[r].CheckCached? || cap in s.hist.minted || |cap| != CAP_BYTES then s
    else
      var pc := s.inflight[r];
      var entry := MintCap(CacheKey(pc.tenant, Encode(pc.req.bearer)), pc.req.namespace, pc.req.plugin, pc.leaseId, pc.req.now);
      var hist := s.hist.(log := s.hist.log + [Minted(cap, entry, pc.tenant, pc.req.bearer, pc.req.now)],
                          minted := s.hist.minted[cap := |s.hist.log|]);
      Done(s.(caps := s.caps[cap := entry], hist := hist), r)
  }

  function DoCheckMissEvict(s: State, r: nat): (t: State)
    ensures t == s.(caps := t.caps, inflight := t.inflight) && t.caps.Keys <= s.caps.Keys
  {
    if r !in s.inflight || !s.inflight[r].CheckMissed? then s
    else Done(s.(caps := EvictCapsForKey(s.caps, s.inflight[r].key)), r)
  }

  // --- Fetch ---

  function DoBeginFetch(s: State, r: nat, text: string): (t: State)
    ensures t == s.(inflight := t.inflight)
  {
    if r in s.inflight then s
    else
      match Decode(text)
      case Some(cap) => if |cap| == CAP_BYTES then Goto(s, r, FetchStarted(cap, s.clock)) else s
      case None => s
  }

  function DoFetchCaps(s: State, r: nat): (t: State)
    ensures t == s.(caps := t.caps, inflight := t.inflight) && t.caps.Keys <= s.caps.Keys
  {
    if r !in s.inflight || !s.inflight[r].FetchStarted? then s
    else
      var pc := s.inflight[r];
      if pc.cap !in s.caps then Done(s, r)
      else if CapIsExpired(s.caps[pc.cap], pc.now) then Done(s.(caps := s.caps - {pc.cap}), r)
      else Goto(s, r, FetchHeld(pc.cap, s.caps[pc.cap], pc.now))
  }

  function DoFetchCache(s: State, r: nat, ioFails: bool): (t: State)
    ensures t == s.(cache := t.cache, hist := t.hist, inflight := t.inflight)
    ensures t.hist.minted == s.hist.minted
  {
    if r !in s.inflight || !s.inflight[r].FetchHeld? then s
    else
      var pc := s.inflight[r];
      var key := pc.entry.cacheKey;
      var outcome := if ioFails && Usable(s.cache, key, pc.now) then Evicted
                     else FetchPayload(s.cache, s.vaults, key, pc.entry.plugin, pc.now);
      match outcome
      case Evicted =>
        var gone := if key in s.cache && IsExpired(s.cache[key], pc.now) then 1 else 0;
        Goto(s.(cache := CacheAfterFetch(s.cache, key, pc.now), hist := s.hist.(dropped := s.hist.dropped + gone)), r,
             FetchDropped(key))
      case Payload(_, _, secrets) =>
        var e := s.cache[key];
        var release := Release(pc.cap, pc.now, pc.entry, e, s.vaults[e.vaultRoot], secrets,
                               Position(s.hist.minted, pc.cap), Position(s.hist.birth, key), Position(s.hist.lastUse, key));
        Done(s.(hist := s.hist.(log := s.hist.log + [Released(release)])), r)
  }

  function DoFetchEvict(s: State, r: nat): (t: State)
    ensures t == s.(caps := t.caps, inflight := t.inflight) && t.caps.Keys <= s.caps.Keys
  {
    if r !in s.inflight || !s.inflight[r].FetchDropped? then s
    else Done(s.(caps := EvictCapsForKey(s.caps, s.inflight[r].key)), r)
  }

  // --- Prune ---

  function DoBeginPrune(s: State, r: nat): (t: State)
    ensures t == s.(inflight := t.inflight)
  {
    if r in s.inflight then s else Goto(s, r, PruneStarted(s.clock))
  }

  function DoPruneCache(s: State, r: nat): (t: State)
    ensures t == s.(cache := t.cache, metrics := t.metrics, inflight := t.inflight)
  {
    if r !in s.inflight || !s.inflight[r].PruneStarted? then s
    else
      var now := s.inflight[r].now;
      var stale := StaleKeys(s.cache, now);
      Goto(s.(cache := s.cache - stale, metrics := SweepMetrics(s.metrics, s.cache, now)), r, PruneSwept(stale, now))
  }

  function DoPruneCaps(s: State, r: nat): (t: State)
    ensures t == s.(caps := t.caps, inflight := t.inflight) && t.caps.Keys <= s.caps.Keys
  {
    if r !in s.inflight || !s.inflight[r].PruneSwept? then s
    else Done(s.(caps := PruneCaps(s.caps, s.inflight[r].keys, s.inflight[r].now)), r)
  }

  // --- Revoke by id, and logout ---

  function DoBeginRevoke(s: State, r: nat, leaseId: Id): (t: State)
    ensures t == s.(inflight := t.inflight)
  {
    if r in s.inflight then s else Goto(s, r, RevokeStarted(leaseId, s.clock))
  }

  function NoteRevoked(h: History, leaseId: Id, clock: Time): History {
    if leaseId in h.revokedWhen then h else h.(revokedWhen := h.revokedWhen[leaseId := clock])
  }

  predicate HasLease(leases: Leases, leaseId: Id) {
    exists b :: b in leases && leases[b].id == leaseId
  }

  function DoRevokeMark(s: State, r: nat, dbFails: bool): (t: State)
    ensures t == s.(leases := t.leases, hist := t.hist, inflight := t.inflight)
    ensures t.hist.minted == s.hist.minted
  {
    if r !in s.inflight || !s.inflight[r].RevokeStarted? then s
    else if dbFails then Done(s, r)
    else
      var pc := s.inflight[r];
      var hist := if HasLease(s.leases, pc.leaseId) then NoteRevoked(s.hist, pc.leaseId, s.clock) else s.hist;
      Goto(s.(leases := RevokeById(s.leases, pc.leaseId, pc.now), hist := hist), r, RevokeMarked(pc.leaseId))
  }

  function DoRevokeEvict(s: State, r: nat): (t: State)
    ensures t == s.(caps := t.caps, inflight := t.inflight) && t.caps.Keys <= s.caps.Keys
  {
    if r !in s.inflight || !s.inflight[r].RevokeMarked? then s
    else Done(s.(caps := EvictCapsForLease(s.caps, s.inflight[r].leaseId)), r)
  }

  function DoBeginLogout(s: State, r: nat, text: string): (t: State)
    ensures t == s.(inflight := t.inflight)
  {
    if r in s.inflight then s
    else
      match Decode(text)
      case Some(bearer) => if |bearer| == BEARER_BYTES then Goto(s, r, LogoutStarted(bearer, s.clock)) else s
      case None => s
  }

  function DoLogoutValidate(s: State, r: nat, dbFails: bool): (t: State)
    ensures t == s.(leases := t.leases, inflight := t.inflight)
  {
    if r !in s.inflight || !s.inflight[r].LogoutStarted? then s
    else
      var pc := s.inflight[r];
      match if dbFails then DbError else Validate(s.leases, pc.bearer, pc.now)
      case Valid(lease, _) =>
        Goto(s.(leases := LeasesAfterValidate(s.leases, pc.bearer, pc.now)), r,
             LogoutValidated(pc.bearer, lease.id, lease.tenantId))
      case _ => Done(s, r)
  }

  function DoLogoutName(s: State, r: nat, dbFails: bool): (t: State)
    ensures t == s.(inflight := t.inflight)
  {
    if r !in s.inflight || !s.inflight[r].LogoutValidated? then s
    else
      var pc := s.inflight[r];
      if dbFails || pc.tenantId !in s.tenants then Done(s, r)
      else Goto(s, r, LogoutNamed(pc.bearer, pc.leaseId, s.tenants[pc.tenantId]))
  }

  /** The key is rebuilt from the tenant's present name and the re-encoded bearer. */
  function DoLogoutEvict(s: State, r: nat): (t: State)
    ensures t == s.(caps := t.caps, inflight := t.inflight) && t.caps.Keys <= s.caps.Keys
  {
    if r !in s.inflight || !s.inflight[r].LogoutNamed? then s
    else
      var pc := s.inflight[r];
      var key := CacheKey(pc.tenant, Encode(pc.bearer));
      Goto(s.(caps := EvictCapsForKey(s.caps, key)), r, LogoutCleared(pc.bearer, pc.leaseId, key, s.clock))
  }

  function DoLogoutRevoke(s: State, r: nat, dbFails: bool): (t: State)
    ensures t == s.(leases := t.leases, hist := t.hist, inflight := t.inflight)
    ensures t.hist.minted == s.hist.minted
  {
    if r !in s.inflight || !s.inflight[r].LogoutCleared? then s
    else if dbFails then Done(s, r)
    else
      var pc := s.inflight[r];
      var hist := NoteRevoked(s.hist, pc.leaseId, s.clock);
      Done(s.(leases := RevokeByBearer(s.leases, pc.bearer, pc.now),
              hist := hist.(log := hist.log + [LoggedOut(pc.bearer, pc.leaseId, pc.key)])), r)
  }

  // --- Runs ---

  /** The effect of a step; a step that is not enabled changes nothing. */
  function Apply(c: Config, s: State, step: Step): State {
    match step
    case Tick(elapsed) => s.(clock := s.clock + elapsed)
    case Login(bearer, id, tenantId, wrapped, seconds) => DoLogin(s, bearer, id, tenantId, wrapped, seconds)
    case Rename(tenantId, name) => DoRename(s, tenantId, name)
    case ProvisionVault(root, vault) => DoProvision(s, root, vault)
    case WriteVault(root, entries) => DoWriteVault(s, root, entries)
    case BeginCheck(r, scope, namespace, plugin, text) => DoBeginCheck(s, r, scope, namespace, plugin, text)
    case CheckValidate(r, dbFails) => DoCheckValidate(s, r, dbFails)
    case CheckName(r, dbFails) => DoCheckName(s, r, dbFails)
    case CheckUnlock(r, salt, ioFails) => DoCheckUnlock(c, s, r, salt, ioFails)
    case CheckCache(r) => DoCheckCache(c, s, r)
    case CheckMint(r, cap) => DoCheckMint(s, r, cap)
    case CheckMissEvict(r) => DoCheckMissEvict(s, r)
    case BeginFetch(r, text) => DoBeginFetch(s, r, text)
    case FetchCaps(r) => DoFetchCaps(s, r)
    case FetchCache(r, ioFails) => DoFetchCache(s, r, ioFails)
    case FetchEvict(r) => DoFetchEvict(s, r)
    case BeginPrune(r) => DoBeginPrune(s, r)
    case PruneCache(r) => DoPruneCache(s, r)
    case PruneCapsStep(r) => DoPruneCaps(s, r)
    case BeginRevoke(r, leaseId) => DoBeginRevoke(s, r, leaseId)
    case RevokeMark(r, dbFails) => DoRevokeMark(s, r, dbFails)
    case RevokeEvict(r) => DoRevokeEvict(s, r)
    case BeginLogout(r, text) => DoBeginLogout(s, r, text)
    case LogoutValidate(r, dbFails) => DoLogoutValidate(s, r, dbFails)
    case LogoutName(r, dbFails) => DoLogoutName(s, r, dbFails)
    case LogoutEvict(r) => DoLogoutEvict(s, r)
    case LogoutRevoke(r, dbFails) => DoLogoutRevoke(s, r, dbFails)
  }

  function Exec(c: Config, s: State, steps: seq<Step>): State {
    if steps == [] then s else Apply(c, Exec(c, s, steps[..|steps| - 1]), steps[|steps| - 1])
  }

  /** A broker that has just started: nothing in memory, any tables and vaults. */
  predicate Initial(s: State) {
    && s.cache == map[] && s.caps == map[] && s.inflight == map[] && s.metrics == Metrics(0, 0, 0)
    && s.hist == History([], map[], map[], map[], map[], 0)
    && UniqueIds(s.leases) && BearersSized(s.leases)
  }
}
