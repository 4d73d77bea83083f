/** Safety of the protocol over every run, whatever the interleaving. */
module BrokerSafety {
  import opened Wrappers
  import opened Base64
  import opened BrokerState
  import opened BrokerMachine

  // --- What no step ever undoes ---

  ghost predicate LeasesExtend(before: Leases, after: Leases) {
    forall b :: b in before ==>
      && b in after && after[b].id == before[b].id && after[b].tenantId == before[b].tenantId && after[b].wrapped == before[b].wrapped
      && (before[b].revokedAt.Some? ==> after[b].revokedAt == before[b].revokedAt)
  }

  ghost predicate VaultsExtend(before: Vaults, after: Vaults) {
    forall root :: root in before ==>
      root in after && after[root].salt == before[root].salt && after[root].suite == before[root].suite
      && after[root].master == before[root].master
  }

  ghost predicate HistoryExtends(s: State, t: State) {
    && s.hist.log <= t.hist.log
    && (forall cap :: cap in s.hist.minted ==> cap in t.hist.minted && t.hist.minted[cap] == s.hist.minted[cap])
    && (forall l :: l in s.hist.revokedWhen ==> l in t.hist.revokedWhen && t.hist.revokedWhen[l] == s.hist.revokedWhen[l])
    && (forall l :: l in t.hist.revokedWhen && l !in s.hist.revokedWhen ==> s.clock <= t.hist.revokedWhen[l])
  }

  /** Time moves on; leases, vault headers, the log, minted caps and revocation times only accumulate. */
  ghost predicate Extends(s: State, t: State) {
    s.clock <= t.clock && LeasesExtend(s.leases, t.leases) && VaultsExtend(s.vaults, t.vaults) && HistoryExtends(s, t)
  }

  // --- What is true of each cap, entry, request and event ---

  /** Anything done for a lease at captured time `at` was captured no later than its revocation. */
  ghost predicate Timely(s: State, leaseId: Id, at: Time) {
    leaseId in s.hist.revokedWhen ==> at <= s.hist.revokedWhen[leaseId]
  }

  ghost predicate OwnsLease(s: State, bearer: Bytes, leaseId: Id) {
    |bearer| == BEARER_BYTES && bearer in s.leases && s.leases[bearer].id == leaseId
  }

  /** Event `ev` is the minting of this cap. */
  ghost predicate MintOf(ev: Event, cap: CapId, e: CapEntry) {
    && ev.Minted? && ev.cap == cap && ev.capEntry == e
    && e.expiresAt == ev.at + CAP_TTL
    && |ev.bearer| == BEARER_BYTES
    && e.cacheKey == CacheKey(ev.tenant, Encode(ev.bearer))
  }

  ghost predicate CapOk(s: State, cap: CapId, e: CapEntry) {
    && |cap| == CAP_BYTES && cap in s.hist.minted && s.hist.minted[cap] < |s.hist.log|
    && var ev := s.hist.log[s.hist.minted[cap]];
    && MintOf(ev, cap, e)
    && OwnsLease(s, ev.bearer, e.leaseId)
    && ev.at <= s.clock
    && Timely(s, e.leaseId, ev.at)
  }

  /** Unlocking the tenant's vault again from this bearer's lease gives this master. */
  ghost predicate UnlocksTo(c: Config, s: State, tenant: string, bearer: Bytes, master: Bytes) {
    && bearer in s.leases && s.leases[bearer].wrapped.Some?
    && UnlockMaster(c, s.vaults, c.VaultRoot(tenant), s.leases[bearer].wrapped.value) == Unlocked(master)
  }

  ghost predicate InsertOf(ev: Event, key: Key, e: CacheEntry) {
    && ev.Inserted? && ev.key == key && ev.entry.(lastUsed := e.lastUsed) == e
    && |ev.bearer| == BEARER_BYTES
    && key == CacheKey(e.tenant, Encode(ev.bearer))
  }

  ghost predicate UseOf(ev: Event, key: Key, at: Time) {
    (ev.Inserted? && ev.key == key && ev.entry.createdAt == at) || (ev.Touched? && ev.key == key && ev.at == at)
  }

  /** An entry as it was built: deadlines from the tenant's lifetimes, captured times in the past. */
  ghost predicate WellBuilt(c: Config, e: CacheEntry) {
    && e.vaultRoot == c.VaultRoot(e.tenant) && e.suiteVersion == SUITE_VERSION
    && e.expiresAt == e.createdAt + c.AbsoluteFor(e.tenant) && e.idleTtl == c.IdleFor(e.tenant)
  }

  ghost predicate Recorded(s: State, key: Key, e: CacheEntry) {
    && key in s.hist.birth && key in s.hist.lastUse
    && s.hist.birth[key] <= s.hist.lastUse[key] < |s.hist.log|
    && InsertOf(s.hist.log[s.hist.birth[key]], key, e)
    && UseOf(s.hist.log[s.hist.lastUse[key]], key, e.lastUsed)
  }

  ghost predicate EntryOk(c: Config, s: State, key: Key, e: CacheEntry) {
    && Recorded(s, key, e)
    && WellBuilt(c, e)
    && e.createdAt <= s.clock && e.lastUsed <= s.clock
    && UnlocksTo(c, s, e.tenant, s.hist.log[s.hist.birth[key]].bearer, e.master)
  }

  ghost predicate LiveReq(s: State, req: CheckReq, leaseId: Id) {
    OwnsLease(s, req.bearer, leaseId) && req.now <= s.clock && Timely(s, leaseId, req.now)
  }

  ghost predicate PcOk(c: Config, s: State, pc: Pc) {
    match pc
    case CheckStarted(req) => |req.bearer| == BEARER_BYTES && req.now <= s.clock
    case CheckValidated(req, leaseId, tenantId, exportKey) =>
      LiveReq(s, req, leaseId) && s.leases[req.bearer].tenantId == tenantId && s.leases[req.bearer].wrapped == Some(exportKey)
    case CheckNamed(req, leaseId, _, exportKey) => LiveReq(s, req, leaseId) && s.leases[req.bearer].wrapped == Some(exportKey)
    case CheckUnlocked(req, leaseId, tenant, master) => LiveReq(s, req, leaseId) && UnlocksTo(c, s, tenant, req.bearer, master)
    case CheckCached(req, leaseId, _) => LiveReq(s, req, leaseId)
    case FetchStarted(_, now) => now <= s.clock
    case FetchHeld(cap, entry, now) => CapOk(s, cap, entry) && now <= s.clock && now < entry.expiresAt
    case PruneStarted(now) => now <= s.clock
    case PruneSwept(_, now) => now <= s.clock
    case LogoutStarted(bearer, now) => |bearer| == BEARER_BYTES && now <= s.clock
    case LogoutValidated(bearer, leaseId, _) => OwnsLease(s, bearer, leaseId)
    case LogoutNamed(bearer, leaseId, _) => OwnsLease(s, bearer, leaseId)
    case LogoutCleared(bearer, leaseId, _, _) => OwnsLease(s, bearer, leaseId)
    case _ => true
  }

  /** The release's cap was minted, and its cache entry inserted and used, by events before position `i`. */
  ghost predicate ReleaseTraced(log: seq<Event>, i: nat, rel: Release)
    requires i <= |log|
  {
    && rel.mint < i && MintOf(log[rel.mint], rel.cap, rel.capEntry)
    && log[rel.mint].tenant == rel.entry.tenant
    && rel.birth <= rel.lastUse < i
    && InsertOf(log[rel.birth], rel.capEntry.cacheKey, rel.entry)
    && log[rel.birth].bearer == log[rel.mint].bearer
    && UseOf(log[rel.lastUse], rel.capEntry.cacheKey, rel.entry.lastUsed)
  }

  /** The release falls within the cap's life and the entry's windows and hands out exactly what it may. */
  ghost predicate ReleaseSound(c: Config, rel: Release) {
    && rel.at < rel.capEntry.expiresAt
    && !IsExpired(rel.entry, rel.at)
    && WellBuilt(c, rel.entry)
    && rel.vault.master == rel.entry.master
    && rel.secrets == Visible(rel.vault.entries, rel.capEntry.plugin, rel.entry.master)
  }

  ghost predicate EventOk(c: Config, s: State, i: nat)
    requires i < |s.hist.log|
  {
    match s.hist.log[i]
    case Minted(cap, _, _, _, _) => cap in s.hist.minted && s.hist.minted[cap] == i
    case Released(rel) =>
      ReleaseTraced(s.hist.log, i, rel) && ReleaseSound(c, rel) && rel.at <= s.clock
      && (rel.capEntry.leaseId in s.hist.revokedWhen ==> rel.at < s.hist.revokedWhen[rel.capEntry.leaseId] + CAP_TTL)
    case _ => true
  }

  /** A lease's noted revocation is in the past, concerns an issued lease, and its row is marked. */
  ghost predicate RevocationsOk(leases: Leases, revokedWhen: map<Id, Time>, clock: Time) {
    && UniqueIds(leases) && BearersSized(leases)
    && (forall l :: l in revokedWhen ==> HasLease(leases, l) && revokedWhen[l] <= clock)
    && (forall b :: b in leases && leases[b].id in revokedWhen ==> leases[b].revokedAt.Some?)
  }

  ghost predicate CapsOk(s: State) {
    forall cap :: cap in s.caps ==> CapOk(s, cap, s.caps[cap])
  }

  ghost predicate CacheOk(c: Config, s: State) {
    forall key :: key in s.cache ==> EntryOk(c, s, key, s.cache[key])
  }

  ghost predicate FlightOk(c: Config, s: State) {
    forall r :: r in s.inflight ==> PcOk(c, s, s.inflight[r])
  }

  ghost predicate EventsOk(c: Config, s: State) {
    forall i :: 0 <= i < |s.hist.log| ==> EventOk(c, s, i)
  }

  /** Every insertion counted is still cached, or was evicted by a sweep, or was dropped by a fetch. */
  ghost predicate Conserved(s: State) {
    s.metrics.inserts == |s.cache| + s.metrics.evictionsIdle + s.metrics.evictionsAbsolute + s.hist.dropped
  }

  ghost predicate Inv(c: Config, s: State) {
    RevocationsOk(s.leases, s.hist.revokedWhen, s.clock) && CapsOk(s) && CacheOk(c, s) && FlightOk(c, s) && EventsOk(c, s) && Conserved(s)
  }

  // --- The properties survive every extension ---

  lemma CapOkExtends(s: State, t: State, cap: CapId, e: CapEntry)
    requires Extends(s, t) && CapOk(s, cap, e)
    ensures CapOk(t, cap, e)
  {
    var i := s.hist.minted[cap];
    assert t.hist.log[i] == s.hist.log[i];
  }

  lemma UnlocksToExtends(c: Config, s: State, t: State, tenant: string, bearer: Bytes, master: Bytes)
    requires Extends(s, t) && UnlocksTo(c, s, tenant, bearer, master)
    ensures UnlocksTo(c, t, tenant, bearer, master)
  {
  }

  lemma EntryOkExtends(c: Config, s: State, t: State, key: Key, e: CacheEntry)
    requires Extends(s, t) && EntryOk(c, s, key, e)
    requires key in t.hist.birth && t.hist.birth[key] == s.hist.birth[key]
    requires key in t.hist.lastUse && t.hist.lastUse[key] == s.hist.lastUse[key]
    ensures EntryOk(c, t, key, e)
  {
    var i, j := s.hist.birth[key], s.hist.lastUse[key];
    assert t.hist.log[i] == s.hist.log[i] && t.hist.log[j] == s.hist.log[j];
    UnlocksToExtends(c, s, t, e.tenant, s.hist.log[i].bearer, e.master);
  }

  lemma LiveReqExtends(s: State, t: State, req: CheckReq, leaseId: Id)
    requires Extends(s, t) && LiveReq(s, req, leaseId)
    ensures LiveReq(t, req, leaseId)
  {
  }

  lemma PcOkExtends(c: Config, s: State, t: State, pc: Pc)
    requires Extends(s, t) && PcOk(c, s, pc)
    ensures PcOk(c, t, pc)
  {
    match pc
    case CheckValidated(req, leaseId, _, _) => LiveReqExtends(s, t, req, leaseId);
    case CheckNamed(req, leaseId, _, _) => LiveReqExtends(s, t, req, leaseId);
    case CheckUnlocked(req, leaseId, tenant, master) =>
      LiveReqExtends(s, t, req, leaseId);
      UnlocksToExtends(c, s, t, tenant, req.bearer, master);
    case CheckCached(req, leaseId, _) => LiveReqExtends(s, t, req, leaseId);
    case FetchHeld(cap, entry, _) => CapOkExtends(s, t, cap, entry);
    case _ =>
  }

  lemma EventOkExtends(c: Config, s: State, t: State, i: nat)
    requires Extends(s, t) && i < |s.hist.log| && EventOk(c, s, i)
    ensures EventOk(c, t, i)
  {
    assert t.hist.log[i] == s.hist.log[i];
    match s.hist.log[i]
    case Released(rel) =>
      assert t.hist.log[rel.mint] == s.hist.log[rel.mint];
      assert t.hist.log[rel.birth] == s.hist.log[rel.birth];
      assert t.hist.log[rel.lastUse] == s.hist.log[rel.lastUse];
    case _ =>
  }

  lemma CapsOkExtends(s: State, t: State)
    requires Extends(s, t) && CapsOk(s)
    requires forall cap :: cap in t.caps && cap !in s.caps ==> CapOk(t, cap, t.caps[cap])
    requires forall cap :: cap in t.caps && cap in s.caps ==> t.caps[cap] == s.caps[cap]
    ensures CapsOk(t)
  {
    forall cap | cap in t.caps && cap in s.caps
      ensures CapOk(t, cap, t.caps[cap])
    {
      CapOkExtends(s, t, cap, s.caps[cap]);
    }
  }

  lemma CacheOkExtends(c: Config, s: State, t: State)
    requires Extends(s, t) && CacheOk(c, s)
    requires t.hist.birth == s.hist.birth && t.hist.lastUse == s.hist.lastUse
    requires forall key :: key in t.cache ==> key in s.cache && t.cache[key] == s.cache[key]
    ensures CacheOk(c, t)
  {
    forall key | key in t.cache
      ensures EntryOk(c, t, key, t.cache[key])
    {
      EntryOkExtends(c, s, t, key, s.cache[key]);
    }
  }

  lemma FlightOkExtends(c: Config, s: State, t: State, r: nat)
    requires Extends(s, t) && FlightOk(c, s)
    requires forall q :: q in t.inflight && q != r ==> q in s.inflight && t.inflight[q] == s.inflight[q]
    requires r in t.inflight ==> PcOk(c, t, t.inflight[r])
    ensures FlightOk(c, t)
  {
    forall q | q in t.inflight && q != r
      ensures PcOk(c, t, t.inflight[q])
    {
      PcOkExtends(c, s, t, s.inflight[q]);
    }
  }

  lemma EventsOkExtends(c: Config, s: State, t: State)
    requires Extends(s, t) && EventsOk(c, s)
    requires forall i :: |s.hist.log| <= i < |t.hist.log| ==> EventOk(c, t, i)
    ensures EventsOk(c, t)
  {
    forall i | 0 <= i < |s.hist.log|
      ensures EventOk(c, t, i)
    {
      EventOkExtends(c, s, t, i);
    }
  }

  /** Nothing was added: no event, cap or entry, and no request but `r` moved. */
  ghost predicate Frame(s: State, t: State, r: nat) {
    && t.hist.log == s.hist.log && t.hist.birth == s.hist.birth && t.hist.lastUse == s.hist.lastUse
    && (forall cap :: cap in t.caps ==> cap in s.caps && t.caps[cap] == s.caps[cap])
    && (forall key :: key in t.cache ==> key in s.cache && t.cache[key] == s.cache[key])
    && Others(s, t, r)
  }

  ghost predicate Others(s: State, t: State, r: nat) {
    forall q :: q in t.inflight && q != r ==> q in s.inflight && t.inflight[q] == s.inflight[q]
  }

  /** A step that adds nothing keeps everything else for free. */
  lemma Quiet(c: Config, s: State, t: State, r: nat)
    requires Inv(c, s) && Extends(s, t) && Frame(s, t, r)
    requires RevocationsOk(t.leases, t.hist.revokedWhen, t.clock) && Conserved(t)
    requires r in t.inflight ==> PcOk(c, t, t.inflight[r])
    ensures Inv(c, t)
  {
    hide CapOk, EntryOk, EventOk, PcOk, RevocationsOk, Extends;
    CapsOkExtends(s, t);
    CacheOkExtends(c, s, t);
    FlightOkExtends(c, s, t, r);
    assert EventsOk(c, t) by {
      assert t.hist.log == s.hist.log;
      EventsOkExtends(c, s, t);
    }
  }

  lemma Onward(s: State, t: State)
    requires s.clock <= t.clock && LeasesExtend(s.leases, t.leases) && VaultsExtend(s.vaults, t.vaults) && t.hist == s.hist
    ensures Extends(s, t)
  {
    hide LeasesExtend, VaultsExtend;
  }

  lemma LeasesExtendSelf(leases: Leases)
    ensures LeasesExtend(leases, leases)
  {
  }

  lemma VaultsExtendSelf(vaults: Vaults)
    ensures VaultsExtend(vaults, vaults)
  {
  }

  lemma Unmoved(s: State, t: State)
    requires t.clock == s.clock && t.leases == s.leases && t.vaults == s.vaults
    requires t.hist.log == s.hist.log && t.hist.minted == s.hist.minted && t.hist.revokedWhen == s.hist.revokedWhen
    ensures Extends(s, t)
  {
  }

  lemma PcOf(c: Config, s: State, r: nat)
    requires Inv(c, s) && r in s.inflight
    ensures PcOk(c, s, s.inflight[r])
  {
  }

  /** A step that moves request `r` and shrinks the two maps, conserving the count. */
  lemma Local(c: Config, s: State, t: State, r: nat)
    requires Inv(c, s) && Frame(s, t, r) && Conserved(t)
    requires t.clock == s.clock && t.leases == s.leases && t.vaults == s.vaults
    requires t.hist.minted == s.hist.minted && t.hist.revokedWhen == s.hist.revokedWhen
    requires r in t.inflight ==> PcOk(c, s, t.inflight[r])
    ensures Inv(c, t) && Extends(s, t)
  {
    hide CapOk, EntryOk, EventOk, PcOk, Extends;
    Unmoved(s, t);
    if r in t.inflight {
      PcOkExtends(c, s, t, t.inflight[r]);
    }
    Quiet(c, s, t, r);
  }

  lemma CountOf(c: Config, s: State)
    requires Inv(c, s)
    ensures Conserved(s)
  {
  }

  // --- Each step ---

  /** Leases may be added under new ids and changed in place; marks and identities stay. */
  lemma LeasesMove(c: Config, s: State, t: State, r: nat)
    requires Inv(c, s) && LeasesExtend(s.leases, t.leases)
    requires UniqueIds(t.leases)
    requires forall b :: b in t.leases && b !in s.leases ==> !HasLease(s.leases, t.leases[b].id) && |b| == BEARER_BYTES
    requires t.clock == s.clock && t.vaults == s.vaults && t.hist == s.hist
    requires t.caps == s.caps && t.cache == s.cache && t.metrics == s.metrics && Others(s, t, r)
    requires r in t.inflight ==> PcOk(c, t, t.inflight[r])
    ensures Inv(c, t) && Extends(s, t)
  {
    hide CapOk, EntryOk, EventOk, PcOk, Extends, RevocationsOk, LeasesExtend, VaultsExtend;
    VaultsExtendSelf(s.vaults);
    Onward(s, t);
    RevocationsMove(s.leases, t.leases, s.hist.revokedWhen, s.clock);
    Quiet(c, s, t, r);
  }

  lemma RevocationsMove(before: Leases, after: Leases, revokedWhen: map<Id, Time>, clock: Time)
    requires RevocationsOk(before, revokedWhen, clock) && LeasesExtend(before, after) && UniqueIds(after)
    requires forall b :: b in after && b !in before ==> !HasLease(before, after[b].id) && |b| == BEARER_BYTES
    ensures RevocationsOk(after, revokedWhen, clock)
  {
    forall l | l in revokedWhen
      ensures HasLease(after, l)
    {
      var b :| b in before && before[b].id == l;
      assert after[b].id == l;
    }
  }

  lemma TickKeeps(c: Config, s: State, elapsed: nat)
    requires Inv(c, s)
    ensures var t := s.(clock := s.clock + elapsed); Inv(c, t) && Extends(s, t)
  {
    hide CapOk, EntryOk, EventOk, PcOk, Extends, LeasesExtend, VaultsExtend;
    var t := s.(clock := s.clock + elapsed);
    LeasesExtendSelf(s.leases);
    VaultsExtendSelf(s.vaults);
    Onward(s, t);
    var r: nat := 0;
    if r in s.inflight {
      PcOkExtends(c, s, t, s.inflight[r]);
    }
    Quiet(c, s, t, r);
  }

  lemma LoginKeeps(c: Config, s: State, bearer: Bytes, id: Id, tenantId: Id, wrapped: Option<Bytes>, seconds: nat)
    requires Inv(c, s)
    ensures var t := DoLogin(s, bearer, id, tenantId, wrapped, seconds); Inv(c, t) && Extends(s, t)
  {
    hide CapOk, EntryOk, EventOk, PcOk, IdleExtendsTo, Inv;
    var t := DoLogin(s, bearer, id, tenantId, wrapped, seconds);
    IdsUnique(c, s);
    if t == s {
      Unmoved(s, s);
    } else {
      assert !HasLease(s.leases, id);
      assert t.leases[bearer].id == id;
      UniqueAfter(s.leases, bearer, t.leases[bearer]);
      Environment(c, s, t);
      LeasesMove(c, s, t, 0);
    }
  }

  lemma UniqueAfter(leases: Leases, bearer: Bytes, lease: Lease)
    requires UniqueIds(leases)
    requires !HasLease(leases, lease.id) || (bearer in leases && leases[bearer].id == lease.id)
    ensures UniqueIds(leases[bearer := lease])
  {
  }

  /** The environment leaves every request where it is. */
  lemma Environment(c: Config, s: State, t: State)
    requires Inv(c, s) && t.inflight == s.inflight
    requires LeasesExtend(s.leases, t.leases) && VaultsExtend(s.vaults, t.vaults) && t.clock == s.clock && t.hist == s.hist
    ensures Extends(s, t)
    ensures forall r :: r in t.inflight ==> PcOk(c, t, t.inflight[r])
  {
    hide CapOk, EntryOk, EventOk, PcOk, Extends, LeasesExtend, VaultsExtend;
    Onward(s, t);
    forall r | r in t.inflight
      ensures PcOk(c, t, t.inflight[r])
    {
      PcOkExtends(c, s, t, s.inflight[r]);
    }
  }

  lemma RenameKeeps(c: Config, s: State, tenantId: Id, name: string)
    requires Inv(c, s)
    ensures var t := DoRename(s, tenantId, name); Inv(c, t) && Extends(s, t)
  {
    hide CapOk, EntryOk, EventOk, PcOk, Extends, RevocationsOk, LeasesExtend, VaultsExtend;
    var t := DoRename(s, tenantId, name);
    LeasesExtendSelf(s.leases);
    VaultsExtendSelf(s.vaults);
    Environment(c, s, t);
    Quiet(c, s, t, 0);
  }

  lemma VaultsMove(c: Config, s: State, vaults: Vaults)
    requires Inv(c, s) && VaultsExtend(s.vaults, vaults)
    ensures var t := s.(vaults := vaults); Inv(c, t) && Extends(s, t)
  {
    hide CapOk, EntryOk, EventOk, PcOk, Extends, VaultsExtend, RevocationsOk;
    var t := s.(vaults := vaults);
    Environment(c, s, t);
    Quiet(c, s, t, 0);
  }

  lemma ProvisionKeeps(c: Config, s: State, root: string, vault: Vault)
    requires Inv(c, s)
    ensures var t := DoProvision(s, root, vault); Inv(c, t) && Extends(s, t)
  {
    hide Inv;
    var t := DoProvision(s, root, vault);
    VaultsMove(c, s, t.vaults);
    assert t == s.(vaults := t.vaults);
  }

  lemma WriteVaultKeeps(c: Config, s: State, root: string, entries: seq<(SecretKey, Envelope)>)
    requires Inv(c, s)
    ensures var t := DoWriteVault(s, root, entries); Inv(c, t) && Extends(s, t)
  {
    hide Inv;
    var t := DoWriteVault(s, root, entries);
    VaultsMove(c, s, t.vaults);
    assert t == s.(vaults := t.vaults);
  }

  lemma MoveFrame(s: State, r: nat, pc: Pc, caps: Caps)
    requires forall cap :: cap in caps ==> cap in s.caps && caps[cap] == s.caps[cap]
    ensures Frame(s, Goto(s.(caps := caps), r, pc), r)
  {
  }

  /** Moving one request on, perhaps dropping caps. */
  lemma MoveKeeps(c: Config, s: State, r: nat, pc: Pc, caps: Caps)
    requires Inv(c, s) && PcOk(c, s, pc)
    requires forall cap :: cap in caps ==> cap in s.caps && caps[cap] == s.caps[cap]
    ensures var t := Goto(s.(caps := caps), r, pc); Inv(c, t) && Extends(s, t)
  {
    hide Inv, Extends, PcOk, Frame;
    CountOf(c, s);
    MoveFrame(s, r, pc, caps);
    Local(c, s, Goto(s.(caps := caps), r, pc), r);
  }

  lemma DropCapsFrame(s: State, r: nat, caps: Caps)
    requires forall cap :: cap in caps ==> cap in s.caps && caps[cap] == s.caps[cap]
    ensures Frame(s, Done(s.(caps := caps), r), r)
  {
  }

  /** Dropping caps and finishing a request, as the clean-up regions do. */
  lemma DropCapsKeeps(c: Config, s: State, r: nat, caps: Caps)
    requires Inv(c, s)
    requires forall cap :: cap in caps ==> cap in s.caps && caps[cap] == s.caps[cap]
    ensures var t := Done(s.(caps := caps), r); Inv(c, t) && Extends(s, t)
  {
    hide Inv, Extends, PcOk, Frame;
    CountOf(c, s);
    DropCapsFrame(s, r, caps);
    Local(c, s, Done(s.(caps := caps), r), r);
  }

  lemma StayKeeps(c: Config, s: State)
    requires Inv(c, s)
    ensures Extends(s, s)
  {
    hide Inv;
    Unmoved(s, s);
  }

  lemma BeginCheckKeeps(c: Config, s: State, r: nat, scope: Option<string>, namespace: string, plugin: string, text: string)
    requires Inv(c, s)
    ensures var t := DoBeginCheck(s, r, scope, namespace, plugin, text); Inv(c, t) && Extends(s, t)
  {
    hide Inv, Extends, Decode;
    StayKeeps(c, s);
    var t := DoBeginCheck(s, r, scope, namespace, plugin, text);
    if t != s {
      MoveKeeps(c, s, r, t.inflight[r], s.caps);
    }
  }

  lemma BeginFetchKeeps(c: Config, s: State, r: nat, text: string)
    requires Inv(c, s)
    ensures var t := DoBeginFetch(s, r, text); Inv(c, t) && Extends(s, t)
  {
    hide Inv, Extends, Decode;
    StayKeeps(c, s);
    var t := DoBeginFetch(s, r, text);
    if t != s {
      MoveKeeps(c, s, r, t.inflight[r], s.caps);
    }
  }

  lemma BeginLogoutKeeps(c: Config, s: State, r: nat, text: string)
    requires Inv(c, s)
    ensures var t := DoBeginLogout(s, r, text); Inv(c, t) && Extends(s, t)
  {
    hide Inv, Extends, Decode;
    StayKeeps(c, s);
    var t := DoBeginLogout(s, r, text);
    if t != s {
      MoveKeeps(c, s, r, t.inflight[r], s.caps);
    }
  }

  lemma BeginPruneKeeps(c: Config, s: State, r: nat)
    requires Inv(c, s)
    ensures var t := DoBeginPrune(s, r); Inv(c, t) && Extends(s, t)
  {
    hide Inv, Extends;
    StayKeeps(c, s);
    if r !in s.inflight {
      MoveKeeps(c, s, r, PruneStarted(s.clock), s.caps);
    }
  }

  lemma BeginRevokeKeeps(c: Config, s: State, r: nat, leaseId: Id)
    requires Inv(c, s)
    ensures var t := DoBeginRevoke(s, r, leaseId); Inv(c, t) && Extends(s, t)
  {
    hide Inv, Extends;
    StayKeeps(c, s);
    if r !in s.inflight {
      MoveKeeps(c, s, r, RevokeStarted(leaseId, s.clock), s.caps);
    }
  }

  /** Extending a valid lease changes only its idle deadline. */
  lemma ValidateExtends(leases: Leases, bearer: Bytes, now: Time)
    requires UniqueIds(leases)
    ensures var after := LeasesAfterValidate(leases, bearer, now);
            LeasesExtend(leases, after) && UniqueIds(after) && after.Keys == leases.Keys
  {
    hide IdleExtendsTo;
    if bearer in leases {
      UniqueAfter(leases, bearer, Extended(leases[bearer], now));
    }
  }

  lemma IdsUnique(c: Config, s: State)
    requires Inv(c, s)
    ensures UniqueIds(s.leases) && BearersSized(s.leases)
    ensures forall b :: b in s.leases && s.leases[b].id in s.hist.revokedWhen ==> s.leases[b].revokedAt.Some?
    ensures forall l :: l in s.hist.revokedWhen ==> s.hist.revokedWhen[l] <= s.clock
  {
  }

  lemma CheckValidatePc(c: Config, s: State, r: nat, dbFails: bool)
    requires Inv(c, s) && r in s.inflight && s.inflight[r].CheckStarted?
    ensures var t := DoCheckValidate(s, r, dbFails); r in t.inflight ==> PcOk(c, t, t.inflight[r])
  {
    hide Inv, Encode, UniqueIds, IdleExtendsTo;
    PcOf(c, s, r);
    IdsUnique(c, s);
  }

  lemma MissedPc(c: Config, s: State, key: Key)
    ensures PcOk(c, s, CheckMissed(key))
  {
  }

  lemma CheckValidateKeeps(c: Config, s: State, r: nat, dbFails: bool)
    requires Inv(c, s)
    ensures Inv(c, DoCheckValidate(s, r, dbFails)) && Extends(s, DoCheckValidate(s, r, dbFails))
  {
    hide Inv, Extends, PcOk, Encode, UniqueIds, Validate, LeasesAfterValidate, LeasesExtend;
    StayKeeps(c, s);
    if r in s.inflight && s.inflight[r].CheckStarted? {
      var req := s.inflight[r].req;
      match if dbFails then DbError else Validate(s.leases, req.bearer, req.now)
      case Valid(lease, exportKey) =>
        CheckValidatePc(c, s, r, false);
        LeaseTouched(c, s, r, req.bearer, req.now, CheckValidated(req, lease.id, lease.tenantId, exportKey));
      case Miss =>
        if req.scope.Some? {
          MissedPc(c, s, CacheKey(req.scope.value, Encode(req.bearer)));
          MoveKeeps(c, s, r, CheckMissed(CacheKey(req.scope.value, Encode(req.bearer))), s.caps);
        } else {
          DropCapsKeeps(c, s, r, s.caps);
        }
      case _ => DropCapsKeeps(c, s, r, s.caps);
    }
  }

  /** A validation that moved a lease's idle deadline out, and its request on. */
  lemma LeaseTouched(c: Config, s: State, r: nat, bearer: Bytes, now: Time, pc: Pc)
    requires Inv(c, s)
    requires PcOk(c, Goto(s.(leases := LeasesAfterValidate(s.leases, bearer, now)), r, pc), pc)
    ensures var t := Goto(s.(leases := LeasesAfterValidate(s.leases, bearer, now)), r, pc); Inv(c, t) && Extends(s, t)
  {
    hide Inv, Extends, PcOk, UniqueIds, LeasesAfterValidate, LeasesExtend;
    IdsUnique(c, s);
    ValidateExtends(s.leases, bearer, now);
    LeasesMove(c, s, Goto(s.(leases := LeasesAfterValidate(s.leases, bearer, now)), r, pc), r);
  }

  lemma CheckNameKeeps(c: Config, s: State, r: nat, dbFails: bool)
    requires Inv(c, s)
    ensures Inv(c, DoCheckName(s, r, dbFails)) && Extends(s, DoCheckName(s, r, dbFails))
  {
    hide Inv, Extends, LiveReq;
    StayKeeps(c, s);
    if r in s.inflight && s.inflight[r].CheckValidated? {
      var t := DoCheckName(s, r, dbFails);
      PcOf(c, s, r);
      if r in t.inflight {
        CheckNamePc(c, s, r, dbFails);
        MoveKeeps(c, s, r, t.inflight[r], s.caps);
      } else {
        DropCapsKeeps(c, s, r, s.caps);
      }
    }
  }

  lemma CheckNamePc(c: Config, s: State, r: nat, dbFails: bool)
    requires r in s.inflight && s.inflight[r].CheckValidated? && PcOk(c, s, s.inflight[r])
    ensures var t := DoCheckName(s, r, dbFails); r in t.inflight ==> PcOk(c, s, t.inflight[r])
  {
  }

  lemma CheckUnlockPc(c: Config, s: State, r: nat, salt: Bytes, ioFails: bool)
    requires r in s.inflight && s.inflight[r].CheckNamed? && PcOk(c, s, s.inflight[r])
    ensures var t := DoCheckUnlock(c, s, r, salt, ioFails);
            VaultsExtend(s.vaults, t.vaults) && (r in t.inflight ==> PcOk(c, s.(vaults := t.vaults), t.inflight[r]))
  {
  }

  lemma CheckUnlockKeeps(c: Config, s: State, r: nat, salt: Bytes, ioFails: bool)
    requires Inv(c, s)
    ensures Inv(c, DoCheckUnlock(c, s, r, salt, ioFails)) && Extends(s, DoCheckUnlock(c, s, r, salt, ioFails))
  {
    hide Inv, PcOk, UnlockMaster, VaultsAfterUnlock, Extends, VaultsExtend;
    StayKeeps(c, s);
    if r in s.inflight && s.inflight[r].CheckNamed? {
      var t := DoCheckUnlock(c, s, r, salt, ioFails);
      PcOf(c, s, r);
      CheckUnlockPc(c, s, r, salt, ioFails);
      var u := s.(vaults := t.vaults);
      VaultsMove(c, s, t.vaults);
      if r in t.inflight {
        MoveKeeps(c, u, r, t.inflight[r], s.caps);
      } else {
        DropCapsKeeps(c, u, r, s.caps);
      }
      ExtendsTrans(s, u, t);
    }
  }

  lemma ExtendsTrans(s: State, t: State, u: State)
    requires Extends(s, t) && Extends(t, u)
    ensures Extends(s, u)
  {
  }

  lemma CheckCacheKeeps(c: Config, s: State, r: nat)
    requires Inv(c, s)
    ensures Inv(c, DoCheckCache(c, s, r)) && Extends(s, DoCheckCache(c, s, r))
  {
    hide EntryOk, CapOk, EventOk, PcOk, Extends, Conserved, RevocationsOk, FreshEntry, CacheKey;
    StayKeeps(c, s);
    if r in s.inflight && s.inflight[r].CheckUnlocked? {
      var t := DoCheckCache(c, s, r);
      CheckCacheEntry(c, s, r);
      CheckCacheCounts(c, s, r);
      CheckCacheOthers(c, s, r);
      CapsOkExtends(s, t);
      CheckCachePc(c, s, r);
      FlightOkExtends(c, s, t, r);
      assert t.hist.log[..|s.hist.log|] == s.hist.log;
      PlainEventOk(c, t, |s.hist.log|);
      EventsOkExtends(c, s, t);
    }
  }

  lemma PlainEventOk(c: Config, s: State, i: nat)
    requires i < |s.hist.log| && !s.hist.log[i].Minted? && !s.hist.log[i].Released?
    ensures EventOk(c, s, i)
  {
  }

  lemma CheckCachePc(c: Config, s: State, r: nat)
    requires Inv(c, s) && r in s.inflight && s.inflight[r].CheckUnlocked?
    requires Extends(s, DoCheckCache(c, s, r))
    ensures var t := DoCheckCache(c, s, r); r in t.inflight && PcOk(c, t, t.inflight[r])
  {
    hide Inv, Extends, CacheKey, FreshEntry;
    PcOf(c, s, r);
    var pc := s.inflight[r];
    LiveReqExtends(s, DoCheckCache(c, s, r), pc.req, pc.leaseId);
  }

  lemma CheckCacheCounts(c: Config, s: State, r: nat)
    requires Inv(c, s) && r in s.inflight && s.inflight[r].CheckUnlocked?
    ensures Conserved(DoCheckCache(c, s, r))
  {
    hide Inv, CacheKey, FreshEntry;
    CountOf(c, s);
  }

  /** The region's own entry: inserted under a fresh record, or touched and otherwise unchanged. */
  lemma CheckCacheEntry(c: Config, s: State, r: nat)
    requires Inv(c, s) && r in s.inflight && s.inflight[r].CheckUnlocked?
    ensures var pc := s.inflight[r];
            var key := CacheKey(pc.tenant, Encode(pc.req.bearer));
            var t := DoCheckCache(c, s, r);
            Extends(s, t) && key in t.cache && EntryOk(c, t, key, t.cache[key])
  {
    hide Inv, Encode, UnlockMaster;
    var pc := s.inflight[r];
    PcOf(c, s, r);
    var key := CacheKey(pc.tenant, Encode(pc.req.bearer));
    var t := DoCheckCache(c, s, r);
    var n := |s.hist.log|;
    assert t.hist.log[..n] == s.hist.log;
    UnlocksToExtends(c, s, t, pc.tenant, pc.req.bearer, pc.master);
    if key in s.cache {
      EntryOf(c, s, key);
      var i := s.hist.birth[key];
      assert t.hist.log[i] == s.hist.log[i];
      UnlocksToExtends(c, s, t, s.cache[key].tenant, s.hist.log[i].bearer, s.cache[key].master);
    }
  }

  lemma CheckCacheOthers(c: Config, s: State, r: nat)
    requires Inv(c, s) && r in s.inflight && s.inflight[r].CheckUnlocked?
    requires Extends(s, DoCheckCache(c, s, r))
    requires var pc := s.inflight[r];
             var key := CacheKey(pc.tenant, Encode(pc.req.bearer));
             var t := DoCheckCache(c, s, r);
             key in t.cache && EntryOk(c, t, key, t.cache[key])
    ensures CacheOk(c, DoCheckCache(c, s, r))
  {
    hide PcOk, CapOk, EventOk, RevocationsOk, Extends, FreshEntry;
    var t := DoCheckCache(c, s, r);
    var key := CacheKey(s.inflight[r].tenant, Encode(s.inflight[r].req.bearer));
    forall k | k in t.cache
      ensures EntryOk(c, t, k, t.cache[k])
    {
      if k != key {
        assert EntryOk(c, s, k, s.cache[k]);
        EntryOkExtends(c, s, t, k, s.cache[k]);
      }
    }
  }

  lemma CheckMintCap(c: Config, s: State, r: nat, cap: CapId)
    requires Inv(c, s) && r in s.inflight && s.inflight[r].CheckCached? && cap !in s.hist.minted && |cap| == CAP_BYTES
    ensures var t := DoCheckMint(s, r, cap);
            Extends(s, t) && cap !in s.caps && CapOk(t, cap, t.caps[cap]) && EventOk(c, t, |s.hist.log|)
  {
    hide Inv, Encode;
    var t := DoCheckMint(s, r, cap);
    PcOf(c, s, r);
    assert t.hist.log[..|s.hist.log|] == s.hist.log;
    if cap in s.caps {
      CapOf(c, s, cap);
    }
  }

  lemma CheckMintKeeps(c: Config, s: State, r: nat, cap: CapId)
    requires Inv(c, s)
    ensures Inv(c, DoCheckMint(s, r, cap)) && Extends(s, DoCheckMint(s, r, cap))
  {
    hide CapOk, EntryOk, EventOk, PcOk, Extends, RevocationsOk;
    var t := DoCheckMint(s, r, cap);
    StayKeeps(c, s);
    if t != s {
      CheckMintCap(c, s, r, cap);
      CapsOkExtends(s, t);
      CacheOkExtends(c, s, t);
      FlightOkExtends(c, s, t, r);
      assert |t.hist.log| == |s.hist.log| + 1;
      EventsOkExtends(c, s, t);
    }
  }

  lemma CheckMissEvictKeeps(c: Config, s: State, r: nat)
    requires Inv(c, s)
    ensures Inv(c, DoCheckMissEvict(s, r)) && Extends(s, DoCheckMissEvict(s, r))
  {
    hide Inv, Extends;
    StayKeeps(c, s);
    if r in s.inflight && s.inflight[r].CheckMissed? {
      DropCapsKeeps(c, s, r, EvictCapsForKey(s.caps, s.inflight[r].key));
    }
  }

  lemma FetchEvictKeeps(c: Config, s: State, r: nat)
    requires Inv(c, s)
    ensures Inv(c, DoFetchEvict(s, r)) && Extends(s, DoFetchEvict(s, r))
  {
    hide Inv, Extends;
    StayKeeps(c, s);
    if r in s.inflight && s.inflight[r].FetchDropped? {
      DropCapsKeeps(c, s, r, EvictCapsForKey(s.caps, s.inflight[r].key));
    }
  }

  lemma RevokeEvictKeeps(c: Config, s: State, r: nat)
    requires Inv(c, s)
    ensures Inv(c, DoRevokeEvict(s, r)) && Extends(s, DoRevokeEvict(s, r))
  {
    hide Inv, Extends;
    StayKeeps(c, s);
    if r in s.inflight && s.inflight[r].RevokeMarked? {
      DropCapsKeeps(c, s, r, EvictCapsForLease(s.caps, s.inflight[r].leaseId));
    }
  }

  lemma PruneCapsKeeps(c: Config, s: State, r: nat)
    requires Inv(c, s)
    ensures Inv(c, DoPruneCaps(s, r)) && Extends(s, DoPruneCaps(s, r))
  {
    hide Inv, Extends;
    StayKeeps(c, s);
    if r in s.inflight && s.inflight[r].PruneSwept? {
      DropCapsKeeps(c, s, r, PruneCaps(s.caps, s.inflight[r].keys, s.inflight[r].now));
    }
  }

  lemma FetchCapsKeeps(c: Config, s: State, r: nat)
    requires Inv(c, s)
    ensures Inv(c, DoFetchCaps(s, r)) && Extends(s, DoFetchCaps(s, r))
  {
    hide Inv, Extends, CapOk;
    StayKeeps(c, s);
    if r in s.inflight && s.inflight[r].FetchStarted? {
      var pc := s.inflight[r];
      PcOf(c, s, r);
      if pc.cap !in s.caps || CapIsExpired(s.caps[pc.cap], pc.now) {
        DropCapsKeeps(c, s, r, s.caps - {pc.cap});
        assert pc.cap !in s.caps ==> s.caps - {pc.cap} == s.caps;
      } else {
        CapOf(c, s, pc.cap);
        MoveKeeps(c, s, r, FetchHeld(pc.cap, s.caps[pc.cap], pc.now), s.caps);
      }
    }
  }

  lemma CapOf(c: Config, s: State, cap: CapId)
    requires Inv(c, s) && cap in s.caps
    ensures CapOk(s, cap, s.caps[cap])
  {
    hide CapOk, EntryOk, EventOk, PcOk;
  }

  lemma EntryOf(c: Config, s: State, key: Key)
    requires Inv(c, s) && key in s.cache
    ensures EntryOk(c, s, key, s.cache[key])
  {
    hide CapOk, EntryOk, EventOk, PcOk;
  }

  /** A release is traced and sound: the same bearer's check minted the cap and built or reused the entry. */
  lemma FetchReleases(c: Config, s: State, r: nat)
    requires Inv(c, s) && r in s.inflight && s.inflight[r].FetchHeld?
    requires var pc := s.inflight[r]; FetchPayload(s.cache, s.vaults, pc.entry.cacheKey, pc.entry.plugin, pc.now).Payload?
    ensures var t := DoFetchCache(s, r, false);
            var n := |s.hist.log|;
            Extends(s, t) && |t.hist.log| == n + 1 && t.hist.log[n].Released? && EventOk(c, t, n)
  {
    hide Inv, Encode, Visible, UnlocksTo, RevocationsOk;
    var pc := s.inflight[r];
    var t := DoFetchCache(s, r, false);
    var n := |s.hist.log|;
    var key := pc.entry.cacheKey;
    assert t.hist.log[..n] == s.hist.log;
    PcOf(c, s, r);
    EntryOf(c, s, key);
    var rel := t.hist.log[n].release;
    var m, b := s.hist.log[rel.mint], s.hist.log[rel.birth];
    assert t.hist.log[rel.mint] == m && t.hist.log[rel.birth] == b && t.hist.log[rel.lastUse] == s.hist.log[rel.lastUse];
    CacheKeyInjective(m.tenant, m.bearer, rel.entry.tenant, b.bearer);
  }

  lemma FetchReleaseKeeps(c: Config, s: State, r: nat)
    requires Inv(c, s) && r in s.inflight && s.inflight[r].FetchHeld?
    requires var pc := s.inflight[r]; FetchPayload(s.cache, s.vaults, pc.entry.cacheKey, pc.entry.plugin, pc.now).Payload?
    ensures Inv(c, DoFetchCache(s, r, false)) && Extends(s, DoFetchCache(s, r, false))
  {
    hide CapOk, EntryOk, EventOk, PcOk, Extends, RevocationsOk, FetchPayload, Usable;
    FetchReleases(c, s, r);
    var t := DoFetchCache(s, r, false);
    CapsOkExtends(s, t);
    CacheOkExtends(c, s, t);
    FlightOkExtends(c, s, t, r);
    EventsOkExtends(c, s, t);
  }

  lemma FetchDropFrame(s: State, r: nat, key: Key, now: Time)
    requires Conserved(s)
    ensures var gone := if key in s.cache && IsExpired(s.cache[key], now) then 1 else 0;
            var t := Goto(s.(cache := CacheAfterFetch(s.cache, key, now), hist := s.hist.(dropped := s.hist.dropped + gone)), r,
                          FetchDropped(key));
            Frame(s, t, r) && Conserved(t)
  {
    hide IsExpired, CacheAfterFetch;
    FetchDropCount(s.cache, key, now);
  }

  lemma FetchDropCount(cache: Cache, key: Key, now: Time)
    ensures var after := CacheAfterFetch(cache, key, now);
            && (forall k :: k in after ==> k in cache && after[k] == cache[k])
            && |after| + (if key in cache && IsExpired(cache[key], now) then 1 else 0) == |cache|
  {
    hide IsExpired;
    assert (cache - {key}).Keys == cache.Keys - {key};
  }

  lemma FetchDropKeeps(c: Config, s: State, r: nat, ioFails: bool)
    requires Inv(c, s) && r in s.inflight && s.inflight[r].FetchHeld?
    requires var pc := s.inflight[r];
             (ioFails && Usable(s.cache, pc.entry.cacheKey, pc.now))
             || FetchPayload(s.cache, s.vaults, pc.entry.cacheKey, pc.entry.plugin, pc.now) == Evicted
    ensures Inv(c, DoFetchCache(s, r, ioFails)) && Extends(s, DoFetchCache(s, r, ioFails))
  {
    hide Inv, Extends, IsExpired, FetchPayload, Usable, CacheAfterFetch, Frame, Conserved;
    var pc := s.inflight[r];
    CountOf(c, s);
    FetchDropFrame(s, r, pc.entry.cacheKey, pc.now);
    Local(c, s, DoFetchCache(s, r, ioFails), r);
  }

  lemma FetchPayloadNeedsUsable(cache: Cache, vaults: Vaults, key: Key, plugin: string, now: Time)
    ensures !Usable(cache, key, now) ==> FetchPayload(cache, vaults, key, plugin, now) == Evicted
  {
  }

  lemma FetchCacheKeeps(c: Config, s: State, r: nat, ioFails: bool)
    requires Inv(c, s)
    ensures Inv(c, DoFetchCache(s, r, ioFails)) && Extends(s, DoFetchCache(s, r, ioFails))
  {
    hide Inv, Extends, FetchPayload, IsExpired;
    StayKeeps(c, s);
    if r in s.inflight && s.inflight[r].FetchHeld? {
      var pc := s.inflight[r];
      var key := pc.entry.cacheKey;
      FetchPayloadNeedsUsable(s.cache, s.vaults, key, pc.entry.plugin, pc.now);
      if ioFails && Usable(s.cache, key, pc.now) {
        FetchDropKeeps(c, s, r, true);
      } else if FetchPayload(s.cache, s.vaults, key, pc.entry.plugin, pc.now).Payload? {
        FetchReleaseKeeps(c, s, r);
      } else {
        FetchDropKeeps(c, s, r, ioFails);
      }
    }
  }

  lemma PruneFrame(s: State, r: nat, now: Time)
    requires Conserved(s)
    ensures var t := Goto(s.(cache := s.cache - StaleKeys(s.cache, now), metrics := SweepMetrics(s.metrics, s.cache, now)), r,
                          PruneSwept(StaleKeys(s.cache, now), now));
            Frame(s, t, r) && Conserved(t)
  {
    hide StaleKeys, StaleFor;
    StalePartition(s.cache, now);
  }

  lemma PruneCacheKeeps(c: Config, s: State, r: nat)
    requires Inv(c, s)
    ensures Inv(c, DoPruneCache(s, r)) && Extends(s, DoPruneCache(s, r))
  {
    hide Inv, Extends, StaleKeys, StaleFor, SweepMetrics, Frame, Conserved;
    StayKeeps(c, s);
    if r in s.inflight && s.inflight[r].PruneStarted? {
      PcOf(c, s, r);
      CountOf(c, s);
      PruneFrame(s, r, s.inflight[r].now);
      Local(c, s, DoPruneCache(s, r), r);
    }
  }

  lemma NoteKeeps(leases: Leases, revokedWhen: map<Id, Time>, clock: Time, leaseId: Id)
    requires RevocationsOk(leases, revokedWhen, clock) && HasLease(leases, leaseId)
    requires forall b :: b in leases && leases[b].id == leaseId ==> leases[b].revokedAt.Some?
    ensures RevocationsOk(leases, if leaseId in revokedWhen then revokedWhen else revokedWhen[leaseId := clock], clock)
  {
  }

  lemma RevokeByIdExtends(leases: Leases, leaseId: Id, now: Time)
    requires UniqueIds(leases)
    ensures var after := RevokeById(leases, leaseId, now);
            && LeasesExtend(leases, after) && UniqueIds(after) && after.Keys == leases.Keys
            && (HasLease(leases, leaseId) ==> HasLease(after, leaseId))
            && forall b :: b in after && after[b].id == leaseId ==> after[b].revokedAt.Some?
  {
    var after := RevokeById(leases, leaseId, now);
    if HasLease(leases, leaseId) {
      var b :| b in leases && leases[b].id == leaseId;
      assert after[b].id == leaseId;
    }
  }

  lemma RevokeByBearerExtends(leases: Leases, bearer: Bytes, now: Time)
    requires UniqueIds(leases) && bearer in leases
    ensures var after := RevokeByBearer(leases, bearer, now);
            && LeasesExtend(leases, after) && UniqueIds(after) && after.Keys == leases.Keys
            && HasLease(after, leases[bearer].id)
            && forall b :: b in after && after[b].id == leases[bearer].id ==> after[b].revokedAt.Some?
  {
    UniqueAfter(leases, bearer, RevokeRow(leases[bearer], now));
    assert RevokeByBearer(leases, bearer, now)[bearer].id == leases[bearer].id;
  }

  /** A lease's row is marked and the mark's time noted. */
  lemma Marked(c: Config, s: State, t: State, leaseId: Id)
    requires Inv(c, s) && LeasesExtend(s.leases, t.leases) && UniqueIds(t.leases) && t.leases.Keys == s.leases.Keys
    requires HasLease(t.leases, leaseId)
    requires forall b :: b in t.leases && t.leases[b].id == leaseId ==> t.leases[b].revokedAt.Some?
    requires t.clock == s.clock && t.vaults == s.vaults && s.hist.log <= t.hist.log && t.hist.minted == s.hist.minted
    requires t.hist.revokedWhen == NoteRevoked(s.hist, leaseId, s.clock).revokedWhen
    ensures Extends(s, t) && RevocationsOk(t.leases, t.hist.revokedWhen, t.clock)
  {
    hide CapOk, EntryOk, EventOk, PcOk, LeasesExtend, RevocationsOk, UniqueIds, HasLease;
    RevocationsMove(s.leases, t.leases, s.hist.revokedWhen, s.clock);
    NoteKeeps(t.leases, s.hist.revokedWhen, s.clock, leaseId);
    VaultsExtendSelf(s.vaults);
  }

  lemma RevokeMarkKeeps(c: Config, s: State, r: nat, dbFails: bool)
    requires Inv(c, s)
    ensures Inv(c, DoRevokeMark(s, r, dbFails)) && Extends(s, DoRevokeMark(s, r, dbFails))
  {
    hide Inv, Extends, LeasesExtend, HasLease, UniqueIds, RevocationsOk, RevokeById, Conserved;
    StayKeeps(c, s);
    if r in s.inflight && s.inflight[r].RevokeStarted? {
      var pc := s.inflight[r];
      IdsUnique(c, s);
      if dbFails {
        DropCapsKeeps(c, s, r, s.caps);
      } else {
        RevokeByIdExtends(s.leases, pc.leaseId, pc.now);
        if HasLease(s.leases, pc.leaseId) {
          RevokeMarkFound(c, s, r);
        } else {
          LeasesMove(c, s, DoRevokeMark(s, r, dbFails), r);
        }
      }
    }
  }

  lemma RevokeMarkFound(c: Config, s: State, r: nat)
    requires Inv(c, s) && r in s.inflight && s.inflight[r].RevokeStarted? && HasLease(s.leases, s.inflight[r].leaseId)
    ensures Inv(c, DoRevokeMark(s, r, false)) && Extends(s, DoRevokeMark(s, r, false))
  {
    hide Inv, Extends, LeasesExtend, HasLease, UniqueIds, RevocationsOk, RevokeById, Conserved;
    var t := DoRevokeMark(s, r, false);
    var pc := s.inflight[r];
    IdsUnique(c, s);
    RevokeByIdExtends(s.leases, pc.leaseId, pc.now);
    Marked(c, s, t, pc.leaseId);
    CountOf(c, s);
    CountSame(s, t);
    Quiet(c, s, t, r);
  }

  lemma CountSame(s: State, t: State)
    requires Conserved(s) && t.metrics == s.metrics && t.cache == s.cache && t.hist.dropped == s.hist.dropped
    ensures Conserved(t)
  {
  }

  lemma LogoutValidatePc(c: Config, s: State, r: nat, dbFails: bool)
    requires Inv(c, s) && r in s.inflight && s.inflight[r].LogoutStarted?
    ensures var t := DoLogoutValidate(s, r, dbFails); r in t.inflight ==> PcOk(c, t, t.inflight[r])
  {
    hide Inv, IdleExtendsTo;
    PcOf(c, s, r);
  }

  lemma LogoutValidateKeeps(c: Config, s: State, r: nat, dbFails: bool)
    requires Inv(c, s)
    ensures Inv(c, DoLogoutValidate(s, r, dbFails)) && Extends(s, DoLogoutValidate(s, r, dbFails))
  {
    hide Inv, Extends, PcOk, UniqueIds, Validate, LeasesAfterValidate, LeasesExtend;
    StayKeeps(c, s);
    if r in s.inflight && s.inflight[r].LogoutStarted? {
      var pc := s.inflight[r];
      match if dbFails then DbError else Validate(s.leases, pc.bearer, pc.now)
      case Valid(lease, _) =>
        LogoutValidatePc(c, s, r, false);
        LeaseTouched(c, s, r, pc.bearer, pc.now, LogoutValidated(pc.bearer, lease.id, lease.tenantId));
      case _ => DropCapsKeeps(c, s, r, s.caps);
    }
  }

  lemma LogoutNameKeeps(c: Config, s: State, r: nat, dbFails: bool)
    requires Inv(c, s)
    ensures Inv(c, DoLogoutName(s, r, dbFails)) && Extends(s, DoLogoutName(s, r, dbFails))
  {
    hide Inv, Extends, OwnsLease;
    StayKeeps(c, s);
    if r in s.inflight && s.inflight[r].LogoutValidated? {
      var t := DoLogoutName(s, r, dbFails);
      PcOf(c, s, r);
      if r in t.inflight {
        MoveKeeps(c, s, r, t.inflight[r], s.caps);
      } else {
        DropCapsKeeps(c, s, r, s.caps);
      }
    }
  }

  lemma LogoutEvictKeeps(c: Config, s: State, r: nat)
    requires Inv(c, s)
    ensures Inv(c, DoLogoutEvict(s, r)) && Extends(s, DoLogoutEvict(s, r))
  {
    hide Inv, Extends, OwnsLease, CacheKey;
    StayKeeps(c, s);
    if r in s.inflight && s.inflight[r].LogoutNamed? {
      var t := DoLogoutEvict(s, r);
      PcOf(c, s, r);
      MoveKeeps(c, s, r, t.inflight[r], t.caps);
    }
  }

  lemma LogoutRevokeKeeps(c: Config, s: State, r: nat, dbFails: bool)
    requires Inv(c, s)
    ensures Inv(c, DoLogoutRevoke(s, r, dbFails)) && Extends(s, DoLogoutRevoke(s, r, dbFails))
  {
    hide Inv, Extends;
    StayKeeps(c, s);
    if r in s.inflight && s.inflight[r].LogoutCleared? {
      if dbFails {
        DropCapsKeeps(c, s, r, s.caps);
      } else {
        LogoutRevokeDone(c, s, r);
      }
    }
  }

  lemma LogoutOwner(c: Config, s: State, r: nat)
    requires Inv(c, s) && r in s.inflight && s.inflight[r].LogoutCleared?
    ensures var pc := s.inflight[r]; pc.bearer in s.leases && s.leases[pc.bearer].id == pc.leaseId && UniqueIds(s.leases)
  {
    hide Inv;
    PcOf(c, s, r);
    IdsUnique(c, s);
  }

  lemma LogoutRevokeDone(c: Config, s: State, r: nat)
    requires Inv(c, s) && r in s.inflight && s.inflight[r].LogoutCleared?
    ensures Inv(c, DoLogoutRevoke(s, r, false)) && Extends(s, DoLogoutRevoke(s, r, false))
  {
    hide CapOk, EntryOk, EventOk, PcOk, Extends, RevocationsOk, HasLease, UniqueIds, LeasesExtend, RevokeByBearer;
    var pc := s.inflight[r];
    var t := DoLogoutRevoke(s, r, false);
    LogoutOwner(c, s, r);
    RevokeByBearerExtends(s.leases, pc.bearer, pc.now);
    assert t.hist.log[..|s.hist.log|] == s.hist.log;
    Marked(c, s, t, pc.leaseId);
    CapsOkExtends(s, t);
    CacheOkExtends(c, s, t);
    FlightOkExtends(c, s, t, r);
    LoggedOutOk(c, s, t);
  }

  lemma LoggedOutOk(c: Config, s: State, t: State)
    requires Inv(c, s) && Extends(s, t) && |t.hist.log| == |s.hist.log| + 1 && t.hist.log[|s.hist.log|].LoggedOut?
    ensures EventsOk(c, t)
  {
    hide CapOk, EntryOk, EventOk, PcOk, Extends, RevocationsOk;
    PlainEventOk(c, t, |s.hist.log|);
    EventsOkExtends(c, s, t);
  }

  /** The steps of checks and of the world around the broker, as against those of fetches and of clean-up. */
  predicate OfCheck(step: Step) {
    match step
    case Tick(_) | Login(_, _, _, _, _) | Rename(_, _) | ProvisionVault(_, _) | WriteVault(_, _) => true
    case BeginCheck(_, _, _, _, _) | CheckValidate(_, _) | CheckName(_, _) | CheckUnlock(_, _, _) => true
    case CheckCache(_) | CheckMint(_, _) | CheckMissEvict(_) => true
    case _ => false
  }

  lemma CheckStepKeeps(c: Config, s: State, step: Step)
    requires Inv(c, s)
    requires OfCheck(step)
    ensures Inv(c, Apply(c, s, step)) && Extends(s, Apply(c, s, step))
  {
    hide Inv, Extends, DoLogin, DoRename, DoProvision, DoWriteVault, DoBeginCheck, DoCheckValidate, DoCheckName, DoCheckUnlock, DoCheckCache,
         DoCheckMint, DoCheckMissEvict, DoBeginFetch, DoFetchCaps, DoFetchCache, DoFetchEvict, DoBeginPrune, DoPruneCache, DoPruneCaps,
         DoBeginRevoke, DoRevokeMark, DoRevokeEvict, DoBeginLogout, DoLogoutValidate, DoLogoutName, DoLogoutEvict, DoLogoutRevoke;
    match step
    case Tick(elapsed) => TickKeeps(c, s, elapsed);
    case Login(bearer, id, tenantId, wrapped, seconds) => LoginKeeps(c, s, bearer, id, tenantId, wrapped, seconds);
    case Rename(tenantId, name) => RenameKeeps(c, s, tenantId, name);
    case ProvisionVault(root, vault) => ProvisionKeeps(c, s, root, vault);
    case WriteVault(root, entries) => WriteVaultKeeps(c, s, root, entries);
    case BeginCheck(r, scope, namespace, plugin, text) => BeginCheckKeeps(c, s, r, scope, namespace, plugin, text);
    case CheckValidate(r, dbFails) => CheckValidateKeeps(c, s, r, dbFails);
    case CheckName(r, dbFails) => CheckNameKeeps(c, s, r, dbFails);
    case CheckUnlock(r, salt, ioFails) => CheckUnlockKeeps(c, s, r, salt, ioFails);
    case CheckCache(r) => CheckCacheKeeps(c, s, r);
    case CheckMint(r, cap) => CheckMintKeeps(c, s, r, cap);
    case CheckMissEvict(r) => CheckMissEvictKeeps(c, s, r);
  }

  lemma OtherStepKeeps(c: Config, s: State, step: Step)
    requires Inv(c, s)
    requires !OfCheck(step)
    ensures Inv(c, Apply(c, s, step)) && Extends(s, Apply(c, s, step))
  {
    hide Inv, Extends, DoLogin, DoRename, DoProvision, DoWriteVault, DoBeginCheck, DoCheckValidate, DoCheckName, DoCheckUnlock, DoCheckCache,
         DoCheckMint, DoCheckMissEvict, DoBeginFetch, DoFetchCaps, DoFetchCache, DoFetchEvict, DoBeginPrune, DoPruneCache, DoPruneCaps,
         DoBeginRevoke, DoRevokeMark, DoRevokeEvict, DoBeginLogout, DoLogoutValidate, DoLogoutName, DoLogoutEvict, DoLogoutRevoke;
    match step
    case BeginFetch(r, text) => BeginFetchKeeps(c, s, r, text);
    case FetchCaps(r) => FetchCapsKeeps(c, s, r);
    case FetchCache(r, ioFails) => FetchCacheKeeps(c, s, r, ioFails);
    case FetchEvict(r) => FetchEvictKeeps(c, s, r);
    case BeginPrune(r) => BeginPruneKeeps(c, s, r);
    case PruneCache(r) => PruneCacheKeeps(c, s, r);
    case PruneCapsStep(r) => PruneCapsKeeps(c, s, r);
    case BeginRevoke(r, leaseId) => BeginRevokeKeeps(c, s, r, leaseId);
    case RevokeMark(r, dbFails) => RevokeMarkKeeps(c, s, r, dbFails);
    case RevokeEvict(r) => RevokeEvictKeeps(c, s, r);
    case BeginLogout(r, text) => BeginLogoutKeeps(c, s, r, text);
    case LogoutValidate(r, dbFails) => LogoutValidateKeeps(c, s, r, dbFails);
    case LogoutName(r, dbFails) => LogoutNameKeeps(c, s, r, dbFails);
    case LogoutEvict(r) => LogoutEvictKeeps(c, s, r);
    case LogoutRevoke(r, dbFails) => LogoutRevokeKeeps(c, s, r, dbFails);
    case _ =>
  }

  /** Every step keeps the invariant and undoes nothing. */
  lemma StepKeeps(c: Config, s: State, step: Step)
    requires Inv(c, s)
    ensures Inv(c, Apply(c, s, step)) && Extends(s, Apply(c, s, step))
  {
    hide *;
    if OfCheck(step) {
      CheckStepKeeps(c, s, step);
    } else {
      OtherStepKeeps(c, s, step);
    }
  }
}
