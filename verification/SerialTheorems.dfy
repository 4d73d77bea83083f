/** What holds when requests are served one at a time. */
module SerialTheorems {
  import opened Wrappers
  import opened Base64
  import opened BrokerState
  import opened BrokerMachine
  import opened BrokerSafety
  import opened BrokerTheorems
  import opened BrokerSerial

  // --- Every cap's entry is cached ---

  ghost predicate CapsCached(caps: Caps, cache: Cache) {
    forall cap :: cap in caps ==> caps[cap].cacheKey in cache
  }

  ghost predicate SerialInv(c: Config, s: State) {
    Inv(c, s) && AtRest(s) && CapsCached(s.caps, s.cache)
  }

  lemma WorldKeepsCaps(c: Config, s: State, step: Step)
    requires OfWorld(step)
    ensures var t := Apply(c, s, step);
            t.caps == s.caps && t.cache == s.cache && t.inflight == s.inflight && t.hist == s.hist && s.clock <= t.clock
  {
    hide DoLogin, DoRename, DoProvision, DoWriteVault;
  }

  lemma CheckKeepsCached(c: Config, s: State, input: CheckInput, salt: Bytes, cap: CapId, f: CheckFaults)
    requires CapsCached(s.caps, s.cache)
    ensures var t := CheckNow(c, s, input, salt, cap, f); CapsCached(t.caps, t.cache) && t.inflight == s.inflight
  {
    hide DecodeBearer, Validate, LeasesAfterValidate, UnlockMaster, VaultsAfterUnlock, Encode, CacheKey, FreshEntry;
  }

  lemma FetchKeyKeepsCached(s: State, cap: CapId, entry: CapEntry, ioFails: bool)
    requires CapsCached(s.caps, s.cache)
    ensures var t := FetchKey(s, cap, entry, ioFails); CapsCached(t.caps, t.cache) && t.inflight == s.inflight
  {
    hide Outcome, IsExpired;
  }

  lemma FetchKeepsCached(s: State, text: string, ioFails: bool)
    requires CapsCached(s.caps, s.cache)
    ensures var t := FetchNow(s, text, ioFails); CapsCached(t.caps, t.cache) && t.inflight == s.inflight
  {
    hide DecodeBearer, FetchKey, CapIsExpired;
    match DecodeBearer(text)
    case Some(cap) =>
      if cap in s.caps {
        FetchKeyKeepsCached(s, cap, s.caps[cap], ioFails);
      }
    case None =>
  }

  lemma PruneKeepsCached(s: State)
    requires CapsCached(s.caps, s.cache)
    ensures CapsCached(PruneNow(s).caps, PruneNow(s).cache) && PruneNow(s).inflight == s.inflight
  {
    hide StaleKeys, SweepMetrics;
  }

  lemma LogoutKeepsCached(s: State, text: string, f: LogoutFaults)
    requires CapsCached(s.caps, s.cache)
    ensures var t := LogoutNow(s, text, f); CapsCached(t.caps, t.cache) && t.inflight == s.inflight
  {
    hide DecodeBearer, Validate, LeasesAfterValidate, RevokeByBearer, NoteRevoked, Encode, CacheKey;
  }

  lemma PerformKeepsCached(c: Config, s: State, op: Op)
    requires CapsCached(s.caps, s.cache)
    ensures var t := Perform(c, s, op); CapsCached(t.caps, t.cache) && t.inflight == s.inflight
  {
    hide Apply, CheckNow, FetchNow, PruneNow, LogoutNow, CapsCached, RevokeById, NoteRevoked, HasLease;
    if CanHappen(s, op) {
      match op
      case World(step) => WorldKeepsCaps(c, s, step);
      case Check(input, salt, cap, f) => CheckKeepsCached(c, s, input, salt, cap, f);
      case Fetch(text, ioFails) => FetchKeepsCached(s, text, ioFails);
      case Prune => PruneKeepsCached(s);
      case Revoke(leaseId, dbFails) => RevokeKeepsCached(s, leaseId, dbFails);
      case Logout(text, f) => LogoutKeepsCached(s, text, f);
    }
  }

  lemma RevokeKeepsCached(s: State, leaseId: Id, dbFails: bool)
    requires CapsCached(s.caps, s.cache)
    ensures var t := RevokeNow(s, leaseId, dbFails); CapsCached(t.caps, t.cache) && t.inflight == s.inflight
  {
    hide RevokeById, HasLease, NoteRevoked;
  }

  lemma PerformKeeps(c: Config, s: State, op: Op)
    requires SerialInv(c, s)
    ensures SerialInv(c, Perform(c, s, op)) && Extends(s, Perform(c, s, op))
  {
    hide Inv, Extends, Perform, Script, CapsCached, CanHappen, Exec;
    PerformKeepsCached(c, s, op);
    if CanHappen(s, op) {
      ScriptRunsWhole(c, s, op);
      RunKeeps(c, s, Script(op));
    } else {
      CannotHappen(c, s, op);
      StayKeeps(c, s);
    }
  }

  lemma CannotHappen(c: Config, s: State, op: Op)
    requires !CanHappen(s, op)
    ensures Perform(c, s, op) == s
  {
  }

  /** However requests are served, one at a time, every cap's cache key is present in the cache. */
  lemma {:induction false} ServeKeeps(c: Config, s: State, ops: seq<Op>)
    requires SerialInv(c, s)
    ensures SerialInv(c, Serve(c, s, ops)) && Extends(s, Serve(c, s, ops))
  {
    hide SerialInv, Extends, Perform;
    if ops == [] {
      StayAtRest(c, s);
    } else {
      var n := |ops| - 1;
      ServeKeeps(c, s, ops[..n]);
      PerformKeeps(c, Serve(c, s, ops[..n]), ops[n]);
      ExtendsTrans(s, Serve(c, s, ops[..n]), Serve(c, s, ops));
    }
  }

  lemma StayAtRest(c: Config, s: State)
    requires SerialInv(c, s)
    ensures Extends(s, s)
  {
    hide Inv, Extends;
    StayKeeps(c, s);
  }

  lemma ServeFromStart(c: Config, s: State, ops: seq<Op>)
    requires Initial(s)
    ensures CapsCached(Serve(c, s, ops).caps, Serve(c, s, ops).cache)
  {
    hide Inv, Extends, Serve;
    InitialInv(c, s);
    ServeKeeps(c, s, ops);
  }

  /**
   * A sweep at time `t` leaves exactly the unexpired entries, untouched, and exactly the unexpired caps whose
   * entry it did not evict, and counts each evicted entry once, under the reason it is classed by.
   */
  lemma PruneIsExact(s: State)
    ensures var t := PruneNow(s);
            && (forall key :: key in t.cache <==> key in s.cache && !IsExpired(s.cache[key], s.clock))
            && (forall key :: key in t.cache ==> t.cache[key] == s.cache[key])
            && (forall cap :: cap in t.caps <==>
                  cap in s.caps && s.clock < s.caps[cap].expiresAt
                  && !(s.caps[cap].cacheKey in s.cache && IsExpired(s.cache[s.caps[cap].cacheKey], s.clock)))
            && (forall cap :: cap in t.caps ==> t.caps[cap] == s.caps[cap])
            && t.metrics.inserts == s.metrics.inserts
            && t.metrics.evictionsIdle + t.metrics.evictionsAbsolute + |t.cache|
               == s.metrics.evictionsIdle + s.metrics.evictionsAbsolute + |s.cache|
  {
    hide IsExpired, ClassifyEviction;
    StalePartition(s.cache, s.clock);
  }

  // --- When a check mints ---

  /** Everything a check asks for: a live lease, its tenant under the name the path gives, and a vault that opens. */
  predicate Admissible(c: Config, s: State, input: CheckInput, f: CheckFaults) {
    && f == CheckFaults(false, false, false) && DecodeBearer(input.text).Some?
    && var bearer := DecodeBearer(input.text).value;
    && bearer in s.leases && s.leases[bearer].revokedAt.None? && s.leases[bearer].wrapped.Some?
    && s.clock < s.leases[bearer].expiresAt && s.clock < s.leases[bearer].idleExtendsTo
    && s.leases[bearer].tenantId in s.tenants
    && var tenant := s.tenants[s.leases[bearer].tenantId];
    && (input.scope == None || input.scope == Some(tenant))
    && var exportKey := s.leases[bearer].wrapped.value;
    (c.VaultRoot(tenant) in s.vaults ==> UnlockMaster(c, s.vaults, c.VaultRoot(tenant), exportKey).Unlocked?)
  }

  lemma FreshVaultOpens(c: Config, vaults: Vaults, root: string, exportKey: Bytes, salt: Bytes)
    ensures UnlockMaster(c, VaultsAfterUnlock(c, vaults, root, exportKey, salt), root, exportKey).Unlocked?
       <==> (root in vaults ==> UnlockMaster(c, vaults, root, exportKey).Unlocked?)
  {
  }

  /** The cap the check has just minted is for its lease, its tenant's key and its plugin, for the next 60 seconds. */
  predicate MintedFor(s: State, t: State, input: CheckInput, cap: CapId)
    requires DecodeBearer(input.text).Some? && DecodeBearer(input.text).value in s.leases
    requires s.leases[DecodeBearer(input.text).value].tenantId in s.tenants
  {
    var bearer := DecodeBearer(input.text).value;
    var tenant := s.tenants[s.leases[bearer].tenantId];
    && cap in t.caps
    && t.caps[cap] == CapEntry(CacheKey(tenant, Encode(bearer)), input.namespace, input.plugin, s.clock + CAP_TTL, s.leases[bearer].id)
    && |t.hist.log| == |s.hist.log| + 2
    && t.hist.log[|s.hist.log| + 1] == Minted(cap, t.caps[cap], tenant, bearer, s.clock)
  }

  lemma AdmitMints(c: Config, s: State, t: State, input: CheckInput, cap: CapId, master: Bytes)
    requires DecodeBearer(input.text).Some? && DecodeBearer(input.text).value in s.leases
    requires s.leases[DecodeBearer(input.text).value].tenantId in s.tenants
    requires t.clock == s.clock && t.hist == s.hist
    ensures var bearer := DecodeBearer(input.text).value;
            var lease := s.leases[bearer];
            MintedFor(s, Admit(c, t, input, bearer, Extended(lease, s.clock), s.tenants[lease.tenantId], master, cap), input, cap)
  {
    hide DecodeBearer, Encode, CacheKey, FreshEntry, TouchOrInsert, IdleExtendsTo;
  }

  /** What validation finds, in terms of the row. */
  lemma ValidIff(leases: Leases, bearer: Bytes, now: Time)
    ensures Validate(leases, bearer, now).Valid?
       <==> bearer in leases && leases[bearer].revokedAt.None? && leases[bearer].wrapped.Some?
            && now < leases[bearer].expiresAt && now < leases[bearer].idleExtendsTo
    ensures Validate(leases, bearer, now).Valid? ==>
              Validate(leases, bearer, now) == Valid(Extended(leases[bearer], now), leases[bearer].wrapped.value)
    ensures bearer in leases ==> Extended(leases[bearer], now).tenantId == leases[bearer].tenantId
  {
    hide IdleExtendsTo;
  }

  /** A check mints a cap exactly when it is admissible; otherwise it logs nothing and adds no cap. */
  lemma CheckMintsIff(c: Config, s: State, input: CheckInput, salt: Bytes, cap: CapId, f: CheckFaults)
    requires cap !in s.caps
    ensures var t := CheckNow(c, s, input, salt, cap, f);
            if Admissible(c, s, input, f) then MintedFor(s, t, input, cap)
            else t.hist == s.hist && t.cache == s.cache && cap !in t.caps
  {
    hide DecodeBearer, Encode, CacheKey, Admit, Extended, Validate, LeasesAfterValidate, UnlockMaster, VaultsAfterUnlock, MintedFor;
    if DecodeBearer(input.text).Some? {
      var bearer := DecodeBearer(input.text).value;
      ValidIff(s.leases, bearer, s.clock);
      if !f.validate && Validate(s.leases, bearer, s.clock).Valid? {
        var lease := s.leases[bearer];
        if lease.tenantId in s.tenants {
          var root := c.VaultRoot(s.tenants[lease.tenantId]);
          FreshVaultOpens(c, s.vaults, root, lease.wrapped.value, salt);
          var vaults := VaultsAfterUnlock(c, s.vaults, root, lease.wrapped.value, salt);
          var u := s.(leases := LeasesAfterValidate(s.leases, bearer, s.clock), vaults := vaults);
          if UnlockMaster(c, vaults, root, lease.wrapped.value).Unlocked? {
            AdmitMints(c, s, u, input, cap, UnlockMaster(c, vaults, root, lease.wrapped.value).master);
          }
        }
      }
    }
  }

  // --- Silence after revocation ---

  /** The cap can no longer release anything at time `now`: it has expired, or its entry is gone or expired. */
  predicate Dead(cache: Cache, e: CapEntry, now: Time) {
    CapIsExpired(e, now) || !Usable(cache, e.cacheKey, now)
  }

  /** The bearer's lease is revoked and every cap of the lease is dead. */
  ghost predicate Silenced(s: State, bearer: Bytes, leaseId: Id) {
    && OwnsLease(s, bearer, leaseId) && s.leases[bearer].revokedAt.Some?
    && forall cap :: cap in s.caps && s.caps[cap].leaseId == leaseId ==> Dead(s.cache, s.caps[cap], s.clock)
  }

  ghost predicate NoneReleased(log: seq<Event>, start: nat, leaseId: Id) {
    forall i :: start <= i < |log| && log[i].Released? ==> log[i].release.capEntry.leaseId != leaseId
  }

  lemma RevokedForGood(s: State, t: State, bearer: Bytes, leaseId: Id)
    requires Extends(s, t) && OwnsLease(s, bearer, leaseId) && s.leases[bearer].revokedAt.Some?
    ensures OwnsLease(t, bearer, leaseId) && t.leases[bearer].revokedAt.Some?
  {
  }

  /** What keeps a lease silenced: no cap of it is added or changed, and its entries are not renewed. */
  ghost predicate Muted(s: State, t: State, leaseId: Id) {
    && s.clock <= t.clock
    && (forall cap :: cap in t.caps && t.caps[cap].leaseId == leaseId ==>
          && cap in s.caps && t.caps[cap] == s.caps[cap]
          && (t.caps[cap].cacheKey in t.cache ==>
                t.caps[cap].cacheKey in s.cache && t.cache[t.caps[cap].cacheKey] == s.cache[t.caps[cap].cacheKey]))
  }

  lemma MutedStaysSilenced(s: State, t: State, bearer: Bytes, leaseId: Id)
    requires Silenced(s, bearer, leaseId) && Extends(s, t) && Muted(s, t, leaseId)
    ensures Silenced(t, bearer, leaseId)
  {
    hide LeasesExtend, VaultsExtend, HistoryExtends, OwnsLease, Extends, Dead;
    RevokedForGood(s, t, bearer, leaseId);
    forall cap | cap in t.caps && t.caps[cap].leaseId == leaseId
      ensures Dead(t.cache, t.caps[cap], t.clock)
    {
      DeadCarries(s.cache, t.cache, t.caps[cap], s.clock, t.clock);
    }
  }

  lemma DeadCarries(before: Cache, after: Cache, e: CapEntry, now: Time, later: Time)
    requires Dead(before, e, now) && now <= later
    requires e.cacheKey in after ==> e.cacheKey in before && after[e.cacheKey] == before[e.cacheKey]
    ensures Dead(after, e, later)
  {
  }

  /** A cap's key names the bearer of its own lease. */
  lemma CapKeyOwner(c: Config, s: State, cap: CapId, bearer: Bytes, leaseId: Id)
    requires Inv(c, s) && cap in s.caps && s.caps[cap].leaseId == leaseId && OwnsLease(s, bearer, leaseId)
    ensures exists tenant :: s.caps[cap].cacheKey == CacheKey(tenant, Encode(bearer))
  {
    hide Inv, Encode, CacheKey;
    CapOf(c, s, cap);
    IdsUnique(c, s);
    var ev := s.hist.log[s.hist.minted[cap]];
    assert ev.bearer == bearer;
    assert s.caps[cap].cacheKey == CacheKey(ev.tenant, Encode(bearer));
  }

  lemma AdmitMutes(c: Config, s: State, t: State, u: State, input: CheckInput, other: Bytes, lease: Lease, tenant: string, master: Bytes,
                   cap: CapId, bearer: Bytes, leaseId: Id)
    requires Inv(c, s) && OwnsLease(s, bearer, leaseId)
    requires |other| == BEARER_BYTES && other != bearer && lease.id != leaseId
    requires t.caps == s.caps && t.cache == s.cache && t.clock == s.clock && t.hist == s.hist
    requires u == Admit(c, t, input, other, lease, tenant, master, cap)
    ensures Muted(s, u, leaseId)
  {
    hide Inv, Encode, CacheKey, FreshEntry, OwnsLease;
    forall id | id in u.caps && u.caps[id].leaseId == leaseId && id in s.caps
      ensures s.caps[id].leaseId == leaseId ==> s.caps[id].cacheKey != CacheKey(tenant, Encode(other))
    {
      if s.caps[id].leaseId == leaseId && s.caps[id].cacheKey == CacheKey(tenant, Encode(other)) {
        CapKeyOwner(c, s, id, bearer, leaseId);
        var name :| s.caps[id].cacheKey == CacheKey(name, Encode(bearer));
        OwnerLength(s, bearer, leaseId);
        CacheKeyInjective(name, bearer, tenant, other);
        assert false;
      }
    }
  }

  lemma OwnerLength(s: State, bearer: Bytes, leaseId: Id)
    requires OwnsLease(s, bearer, leaseId)
    ensures |bearer| == BEARER_BYTES
  {
  }

  ghost predicate Hushed(s: State, t: State, leaseId: Id) {
    Muted(s, t, leaseId) && s.hist.log <= t.hist.log && NoneReleased(t.hist.log, |s.hist.log|, leaseId)
  }

  lemma StillHushed(s: State, t: State, leaseId: Id)
    requires s.clock <= t.clock && t.hist.log == s.hist.log
    requires forall cap :: cap in t.caps ==> cap in s.caps && t.caps[cap] == s.caps[cap]
    requires forall key :: key in t.cache ==> key in s.cache && t.cache[key] == s.cache[key]
    ensures Hushed(s, t, leaseId)
  {
  }

  lemma AdmitHushes(c: Config, s: State, t: State, input: CheckInput, other: Bytes, lease: Lease, tenant: string, master: Bytes,
                    cap: CapId, bearer: Bytes, leaseId: Id)
    requires Inv(c, s) && OwnsLease(s, bearer, leaseId)
    requires |other| == BEARER_BYTES && other != bearer && lease.id != leaseId
    requires t.caps == s.caps && t.cache == s.cache && t.clock == s.clock && t.hist == s.hist
    ensures Hushed(s, Admit(c, t, input, other, lease, tenant, master, cap), leaseId)
  {
    hide Inv, Encode, CacheKey, FreshEntry, OwnsLease, Muted;
    AdmitMutes(c, s, t, Admit(c, t, input, other, lease, tenant, master, cap), input, other, lease, tenant, master, cap, bearer, leaseId);
  }

  lemma CheckValidHushes(c: Config, s: State, t: State, input: CheckInput, other: Bytes, lease: Lease, exportKey: Bytes,
                         salt: Bytes, cap: CapId, f: CheckFaults, bearer: Bytes, leaseId: Id)
    requires Inv(c, s) && OwnsLease(s, bearer, leaseId)
    requires |other| == BEARER_BYTES && other != bearer && lease.id != leaseId
    requires t.caps == s.caps && t.cache == s.cache && t.clock == s.clock && t.hist == s.hist
    ensures Hushed(s, CheckValid(c, t, input, other, lease, exportKey, salt, cap, f), leaseId)
  {
    hide Inv, Hushed, Admit, OwnsLease, VaultsAfterUnlock, UnlockMaster;
    StillHushed(s, t, leaseId);
    if lease.tenantId in t.tenants {
      var tenant := t.tenants[lease.tenantId];
      var root := c.VaultRoot(tenant);
      var vaults := VaultsAfterUnlock(c, t.vaults, root, exportKey, salt);
      match UnlockMaster(c, vaults, root, exportKey)
      case Unlocked(master) =>
        AdmitHushes(c, s, t.(vaults := vaults), input, other, lease, tenant, master, cap, bearer, leaseId);
      case _ =>
    }
  }

  /** A valid lease belongs to another bearer and has another id. */
  lemma ValidIsAnother(c: Config, s: State, other: Bytes, bearer: Bytes, leaseId: Id)
    requires Inv(c, s) && OwnsLease(s, bearer, leaseId) && s.leases[bearer].revokedAt.Some?
    ensures var v := Validate(s.leases, other, s.clock); v.Valid? ==> other != bearer && v.lease.id != leaseId
  {
    hide Inv, IdleExtendsTo;
    IdsUnique(c, s);
  }

  lemma CheckHushes(c: Config, s: State, input: CheckInput, salt: Bytes, cap: CapId, f: CheckFaults, bearer: Bytes, leaseId: Id)
    requires Inv(c, s) && OwnsLease(s, bearer, leaseId) && s.leases[bearer].revokedAt.Some?
    ensures Hushed(s, CheckNow(c, s, input, salt, cap, f), leaseId)
  {
    hide Inv, Hushed, CheckValid, OwnsLease, Validate, LeasesAfterValidate, Decode;
    StillHushed(s, s, leaseId);
    match DecodeBearer(input.text)
    case None =>
    case Some(other) =>
      match if f.validate then DbError else Validate(s.leases, other, s.clock) {
        case Valid(lease, exportKey) =>
          ValidIsAnother(c, s, other, bearer, leaseId);
          var t := s.(leases := LeasesAfterValidate(s.leases, other, s.clock));
          CheckValidHushes(c, s, t, input, other, lease, exportKey, salt, cap, f, bearer, leaseId);
        case Miss =>
          if input.scope.Some? {
            StillHushed(s, s.(caps := EvictCapsForKey(s.caps, CacheKey(input.scope.value, Encode(other)))), leaseId);
          }
        case _ =>
      }
  }

  lemma UnusableIsEvicted(s: State, entry: CapEntry, ioFails: bool)
    requires !Usable(s.cache, entry.cacheKey, s.clock)
    ensures Outcome(s, entry, ioFails).Evicted?
  {
  }

  lemma FetchKeyHushes(s: State, cap: CapId, ioFails: bool, bearer: Bytes, leaseId: Id)
    requires Silenced(s, bearer, leaseId) && cap in s.caps && !CapIsExpired(s.caps[cap], s.clock)
    ensures Hushed(s, FetchKey(s, cap, s.caps[cap], ioFails), leaseId)
  {
    hide Outcome, OwnsLease, Usable, IsExpired;
    if s.caps[cap].leaseId == leaseId {
      UnusableIsEvicted(s, s.caps[cap], ioFails);
    }
    if Outcome(s, s.caps[cap], ioFails).Evicted? {
      StillHushed(s, FetchKey(s, cap, s.caps[cap], ioFails), leaseId);
    }
  }

  lemma FetchHushes(s: State, text: string, ioFails: bool, bearer: Bytes, leaseId: Id)
    requires Silenced(s, bearer, leaseId)
    ensures Hushed(s, FetchNow(s, text, ioFails), leaseId)
  {
    hide DecodeBearer, FetchKey, CapIsExpired, Hushed, Silenced;
    StillHushed(s, s, leaseId);
    match DecodeBearer(text)
    case Some(cap) =>
      if cap in s.caps {
        if CapIsExpired(s.caps[cap], s.clock) {
          StillHushed(s, s.(caps := s.caps - {cap}), leaseId);
        } else {
          FetchKeyHushes(s, cap, ioFails, bearer, leaseId);
        }
      }
    case None =>
  }

  lemma PruneHushes(s: State, leaseId: Id)
    ensures Hushed(s, PruneNow(s), leaseId)
  {
    hide StaleKeys, SweepMetrics, Hushed;
    StillHushed(s, PruneNow(s), leaseId);
  }

  lemma RevokeHushes(s: State, other: Id, dbFails: bool, leaseId: Id)
    ensures Hushed(s, RevokeNow(s, other, dbFails), leaseId)
  {
    hide RevokeById, HasLease, NoteRevoked, Hushed;
    NoteLeavesLog(s.hist, other, s.clock);
    StillHushed(s, RevokeNow(s, other, dbFails), leaseId);
  }

  lemma NoteLeavesLog(h: History, leaseId: Id, clock: Time)
    ensures NoteRevoked(h, leaseId, clock).log == h.log
  {
  }

  lemma LogoutHushes(s: State, text: string, f: LogoutFaults, leaseId: Id)
    ensures Hushed(s, LogoutNow(s, text, f), leaseId)
  {
    hide DecodeBearer, Validate, LeasesAfterValidate, RevokeByBearer, Encode, CacheKey;
  }

  lemma PerformHushes(c: Config, s: State, op: Op, bearer: Bytes, leaseId: Id)
    requires SerialInv(c, s) && Silenced(s, bearer, leaseId)
    ensures Hushed(s, Perform(c, s, op), leaseId)
  {
    hide Apply, CheckNow, FetchNow, PruneNow, LogoutNow, RevokeNow, Inv, Hushed, OwnsLease, Dead;
    StillHushed(s, s, leaseId);
    if CanHappen(s, op) {
      match op
      case World(step) =>
        WorldKeepsCaps(c, s, step);
        StillHushed(s, Apply(c, s, step), leaseId);
      case Check(input, salt, cap, f) => CheckHushes(c, s, input, salt, cap, f, bearer, leaseId);
      case Fetch(text, ioFails) => FetchHushes(s, text, ioFails, bearer, leaseId);
      case Prune => PruneHushes(s, leaseId);
      case Revoke(other, dbFails) => RevokeHushes(s, other, dbFails, leaseId);
      case Logout(text, f) => LogoutHushes(s, text, f, leaseId);
    }
  }

  lemma {:induction false} SilencedForGood(c: Config, s: State, ops: seq<Op>, bearer: Bytes, leaseId: Id)
    requires SerialInv(c, s) && Silenced(s, bearer, leaseId)
    ensures var t := Serve(c, s, ops);
            Silenced(t, bearer, leaseId) && s.hist.log <= t.hist.log && NoneReleased(t.hist.log, |s.hist.log|, leaseId)
  {
    hide SerialInv, Silenced, Perform, Extends, Muted;
    if ops != [] {
      var n := |ops| - 1;
      var u := Serve(c, s, ops[..n]);
      SilencedForGood(c, s, ops[..n], bearer, leaseId);
      ServeKeeps(c, s, ops[..n]);
      PerformKeeps(c, u, ops[n]);
      PerformHushes(c, u, ops[n], bearer, leaseId);
      MutedStaysSilenced(u, Perform(c, u, ops[n]), bearer, leaseId);
      var t := Serve(c, s, ops);
      forall i | |s.hist.log| <= i < |t.hist.log| && t.hist.log[i].Released?
        ensures t.hist.log[i].release.capEntry.leaseId != leaseId
      {
        if i < |u.hist.log| {
          assert t.hist.log[i] == u.hist.log[i];
        }
      }
    }
  }

  /** Served one at a time, a revocation by id is final at once: nothing is released for the lease ever after. */
  lemma RevokeIsFinal(c: Config, s: State, leaseId: Id, ops: seq<Op>)
    requires SerialInv(c, s) && HasLease(s.leases, leaseId)
    ensures NoneReleased(Serve(c, RevokeNow(s, leaseId, false), ops).hist.log, |s.hist.log|, leaseId)
  {
    hide SerialInv, Serve, Silenced;
    var t := RevokeNow(s, leaseId, false);
    PerformKeeps(c, s, Revoke(leaseId, false));
    assert t == Perform(c, s, Revoke(leaseId, false));
    NoteLeavesLog(s.hist, leaseId, s.clock);
    var bearer := RevokedOwner(c, s, leaseId);
    SilencedForGood(c, t, ops, bearer, leaseId);
  }

  lemma RevokedOwner(c: Config, s: State, leaseId: Id) returns (bearer: Bytes)
    requires SerialInv(c, s) && HasLease(s.leases, leaseId)
    ensures Silenced(RevokeNow(s, leaseId, false), bearer, leaseId)
  {
    hide Inv, Dead, NoteRevoked;
    bearer :| bearer in s.leases && s.leases[bearer].id == leaseId;
    IdsUnique(c, s);
  }

  // --- Logout ---

  /** The logout gets as far as marking the lease's row. */
  predicate Completes(s: State, text: string, f: LogoutFaults) {
    && DecodeBearer(text).Some? && f == LogoutFaults(false, false, false)
    && var v := Validate(s.leases, DecodeBearer(text).value, s.clock);
    && v.Valid? && v.lease.tenantId in s.tenants
  }

  /**
   * A live cap of the bearer's lease that a logout at this moment would miss, because its key was made from
   * another tenant name than the one the tenant has now.
   */
  predicate Stray(s: State, bearer: Bytes, lease: Lease, cap: CapId)
    requires lease.tenantId in s.tenants
  {
    && cap in s.caps && s.caps[cap].leaseId == lease.id
    && s.caps[cap].cacheKey != CacheKey(s.tenants[lease.tenantId], Encode(bearer))
    && !Dead(s.cache, s.caps[cap], s.clock)
  }

  lemma CompletedLogout(s: State, text: string, f: LogoutFaults)
    requires Completes(s, text, f)
    ensures var bearer := DecodeBearer(text).value;
            var lease := Validate(s.leases, bearer, s.clock).lease;
            var t := LogoutNow(s, text, f);
            && t.caps == EvictCapsForKey(s.caps, CacheKey(s.tenants[lease.tenantId], Encode(bearer)))
            && t.cache == s.cache && t.vaults == s.vaults && t.clock == s.clock && t.inflight == s.inflight
            && |t.hist.log| == |s.hist.log| + 1 && t.hist.log[|s.hist.log|].LoggedOut?
            && |bearer| == BEARER_BYTES && bearer in t.leases
            && t.leases[bearer].id == lease.id && t.leases[bearer].revokedAt.Some?
  {
    hide Decode, Encode, CacheKey, EvictCapsForKey, IdleExtendsTo;
  }

  lemma LogoutSilences(c: Config, s: State, text: string, f: LogoutFaults)
    requires SerialInv(c, s) && Completes(s, text, f)
    requires var bearer := DecodeBearer(text).value;
             forall cap :: !Stray(s, bearer, Validate(s.leases, bearer, s.clock).lease, cap)
    ensures var bearer := DecodeBearer(text).value;
            Silenced(LogoutNow(s, text, f), bearer, Validate(s.leases, bearer, s.clock).lease.id)
  {
    hide Inv, Dead, DecodeBearer, Validate, LogoutNow, CacheKey, Encode;
    var bearer := DecodeBearer(text).value;
    var lease := Validate(s.leases, bearer, s.clock).lease;
    var t := LogoutNow(s, text, f);
    CompletedLogout(s, text, f);
    forall cap | cap in t.caps && t.caps[cap].leaseId == lease.id
      ensures Dead(t.cache, t.caps[cap], t.clock)
    {
      assert !Stray(s, bearer, lease, cap);
    }
  }

  /** A usable entry's vault always opens. */
  lemma UsableReleases(c: Config, s: State, cap: CapId)
    requires Inv(c, s) && cap in s.caps && !Dead(s.cache, s.caps[cap], s.clock)
    ensures Outcome(s, s.caps[cap], false).Payload?
  {
    hide Inv, IsExpired, Visible;
    EntryOf(c, s, s.caps[cap].cacheKey);
  }

  lemma CapTextDecodes(c: Config, s: State, cap: CapId)
    requires Inv(c, s) && cap in s.caps
    ensures DecodeBearer(Encode(cap)) == Some(cap)
  {
    hide Inv, Encode, Decode;
    CapOf(c, s, cap);
    DecodeEncode(cap);
  }

  /** Presenting a live cap releases something for its lease. */
  lemma LiveCapReleases(c: Config, s: State, cap: CapId)
    requires Inv(c, s) && cap in s.caps && !Dead(s.cache, s.caps[cap], s.clock)
    ensures var t := FetchNow(s, Encode(cap), false);
            && |t.hist.log| == |s.hist.log| + 1 && t.hist.log[|s.hist.log|].Released?
            && t.hist.log[|s.hist.log|].release.capEntry.leaseId == s.caps[cap].leaseId
  {
    hide Inv, DecodeBearer, Encode, Outcome, Usable;
    CapTextDecodes(c, s, cap);
    UsableReleases(c, s, cap);
  }

  lemma ServeOne(c: Config, s: State, op: Op)
    ensures Serve(c, s, [op]) == Perform(c, s, op)
  {
    hide Perform;
    assert [op][..0] == [];
  }

  lemma StrayStillReleases(c: Config, s: State, text: string, f: LogoutFaults, cap: CapId)
    requires SerialInv(c, s) && Completes(s, text, f)
    requires var bearer := DecodeBearer(text).value; Stray(s, bearer, Validate(s.leases, bearer, s.clock).lease, cap)
    ensures var leaseId := Validate(s.leases, DecodeBearer(text).value, s.clock).lease.id;
            !NoneReleased(Serve(c, LogoutNow(s, text, f), [Fetch(Encode(cap), false)]).hist.log, |s.hist.log|, leaseId)
  {
    hide Inv, Extends, Dead, DecodeBearer, Validate, LogoutNow, FetchNow, CacheKey, Encode, Serve;
    var t := LogoutNow(s, text, f);
    CompletedLogout(s, text, f);
    PerformKeeps(c, s, Logout(text, f));
    assert t == Perform(c, s, Logout(text, f));
    LiveCapReleases(c, t, cap);
    ServeOne(c, t, Fetch(Encode(cap), false));
    assert Perform(c, t, Fetch(Encode(cap), false)) == FetchNow(t, Encode(cap), false);
    var log := Serve(c, t, [Fetch(Encode(cap), false)]).hist.log;
    assert log[|t.hist.log|].Released?;
  }

  ghost predicate NoStray(s: State, bearer: Bytes, lease: Lease)
    requires lease.tenantId in s.tenants
  {
    forall cap :: !Stray(s, bearer, lease, cap)
  }

  ghost predicate Final(c: Config, s: State, start: nat, leaseId: Id) {
    forall ops :: NoneReleased(Serve(c, s, ops).hist.log, start, leaseId)
  }

  lemma FinalGivenNoStray(c: Config, s: State, text: string, f: LogoutFaults)
    requires SerialInv(c, s) && Completes(s, text, f)
    requires var bearer := DecodeBearer(text).value; NoStray(s, bearer, Validate(s.leases, bearer, s.clock).lease)
    ensures Final(c, LogoutNow(s, text, f), |s.hist.log|, Validate(s.leases, DecodeBearer(text).value, s.clock).lease.id)
  {
    hide SerialInv, Silenced, Stray, DecodeBearer, Validate, LogoutNow, Serve, Encode, Extends;
    var bearer := DecodeBearer(text).value;
    var lease := Validate(s.leases, bearer, s.clock).lease;
    var t := LogoutNow(s, text, f);
    LogoutSilences(c, s, text, f);
    PerformKeeps(c, s, Logout(text, f));
    assert t == Perform(c, s, Logout(text, f));
    CompletedLogout(s, text, f);
    forall ops
      ensures NoneReleased(Serve(c, t, ops).hist.log, |s.hist.log|, lease.id)
    {
      SilencedForGood(c, t, ops, bearer, lease.id);
    }
  }

  lemma StrayIsNotFinal(c: Config, s: State, text: string, f: LogoutFaults, cap: CapId)
    requires SerialInv(c, s) && Completes(s, text, f)
    requires var bearer := DecodeBearer(text).value; Stray(s, bearer, Validate(s.leases, bearer, s.clock).lease, cap)
    ensures !Final(c, LogoutNow(s, text, f), |s.hist.log|, Validate(s.leases, DecodeBearer(text).value, s.clock).lease.id)
  {
    hide SerialInv, Stray, DecodeBearer, Validate, LogoutNow, Serve, Encode, NoneReleased;
    StrayStillReleases(c, s, text, f, cap);
  }

  /**
   * Served one at a time, a completed logout is final for its bearer, so that nothing is ever released for its
   * lease again, exactly when no live cap of the lease was minted under another name of the tenant.
   */
  lemma LogoutIsFinalIff(c: Config, s: State, text: string, f: LogoutFaults)
    requires SerialInv(c, s) && Completes(s, text, f)
    ensures var bearer := DecodeBearer(text).value;
            var lease := Validate(s.leases, bearer, s.clock).lease;
            Final(c, LogoutNow(s, text, f), |s.hist.log|, lease.id) <==> NoStray(s, bearer, lease)
  {
    hide SerialInv, Stray, DecodeBearer, Validate, LogoutNow, Serve, NoneReleased, Encode, Final;
    var bearer := DecodeBearer(text).value;
    var lease := Validate(s.leases, bearer, s.clock).lease;
    if NoStray(s, bearer, lease) {
      FinalGivenNoStray(c, s, text, f);
    } else {
      var cap :| Stray(s, bearer, lease, cap);
      StrayIsNotFinal(c, s, text, f, cap);
    }
  }

  /** A stray cap was minted under a name the tenant has since lost. */
  lemma StrayWasRenamed(c: Config, s: State, text: string, f: LogoutFaults, cap: CapId)
    requires SerialInv(c, s) && Completes(s, text, f)
    requires var bearer := DecodeBearer(text).value; Stray(s, bearer, Validate(s.leases, bearer, s.clock).lease, cap)
    ensures var bearer := DecodeBearer(text).value;
            && cap in s.hist.minted && s.hist.minted[cap] < |s.hist.log|
            && var ev := s.hist.log[s.hist.minted[cap]];
            ev.Minted? && ev.bearer == bearer && ev.tenant != s.tenants[Validate(s.leases, bearer, s.clock).lease.tenantId]
  {
    hide Inv, Dead, DecodeBearer, Encode;
    CapOf(c, s, cap);
    IdsUnique(c, s);
  }
}
