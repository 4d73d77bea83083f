/**
 * The broker's data and the effect of each region of code that runs under one lock or as one call to the
 * database or the vault.
 */
module BrokerState {
  import opened Wrappers
  import opened Base64
  import TtlConfig

  /** Nanoseconds on the one clock. */
  type Time = int

  /** UUIDs of tenants and leases. */
  type Id = nat

  /** A cache key: the digest of `tenant ":" bearer`, taken as collision-free and so equal to its input. */
  type Key = string

  type CapId = Bytes

  const SECOND: Time := 1_000_000_000
  const CAP_TTL: Time := 60 * SECOND
  const CAP_BYTES := 32
  const BEARER_BYTES := 32
  const LEASE_IDLE_WINDOW: Time := 3600 * SECOND
  const LEASE_HARD_CAP_SECONDS := 2_592_000
  const SUITE_VERSION: nat := 1

  datatype CacheEntry = CacheEntry(
    tenant: string, vaultRoot: string, master: Bytes, suiteVersion: nat,
    expiresAt: Time, lastUsed: Time, createdAt: Time, idleTtl: Time)

  datatype CapEntry = CapEntry(cacheKey: Key, namespace: string, plugin: string, expiresAt: Time, leaseId: Id)

  datatype Lease = Lease(
    id: Id, tenantId: Id, wrapped: Option<Bytes>,
    expiresAt: Time, idleExtendsTo: Time, revokedAt: Option<Time>)

  datatype SecretKey = SecretKey(service: string, name: string)

  /** One stored secret: its metadata, the master its data key is wrapped under, and its value. */
  datatype Envelope = Envelope(kind: string, allowedConsumers: seq<string>, wrappedUnder: Bytes, value: Bytes)

  /** A vault file: its header, the master that seals it, and its entries in key order. */
  datatype Vault = Vault(salt: Bytes, suite: nat, master: Bytes, entries: seq<(SecretKey, Envelope)>)

  datatype FetchSecret = FetchSecret(service: string, name: string, kind: string, value: Bytes)

  datatype Metrics = Metrics(inserts: nat, evictionsIdle: nat, evictionsAbsolute: nat)

  type Leases = map<Bytes, Lease>
  type Vaults = map<string, Vault>
  type Cache = map<Key, CacheEntry>
  type Caps = map<CapId, CapEntry>

  /** What is fixed for the life of the process; `derive` is the HKDF of export key, salt and suite. */
  datatype Config = Config(
    derive: (Bytes, Bytes, nat) -> Bytes, idle: TtlConfig.Knob, absolute: TtlConfig.Knob, vaultBase: string)
  {
    function IdleFor(tenant: string): Time {
      idle.For(tenant) * SECOND
    }

    function AbsoluteFor(tenant: string): Time {
      absolute.For(tenant) * SECOND
    }

    function VaultRoot(tenant: string): string {
      vaultBase + "/" + tenant
    }
  }

  // --- Lifetimes and vaults ---

  /** The tenant's seconds: its override if it has one, else the preset, but never below the floor. */
  predicate IsLifetime(knob: TtlConfig.Knob, tenant: string, lifetime: Time) {
    var stored := if tenant in knob.overrides then knob.overrides[tenant] else knob.preset;
    lifetime == 1_000_000_000 * (if stored >= knob.floor then stored else knob.floor)
  }

  /** No longer than that. */
  predicate WithinLifetime(knob: TtlConfig.Knob, tenant: string, elapsed: Time) {
    var stored := if tenant in knob.overrides then knob.overrides[tenant] else knob.preset;
    elapsed <= 1_000_000_000 * (if stored >= knob.floor then stored else knob.floor)
  }

  lemma LifetimesAreTheKnobs(c: Config, tenant: string)
    ensures IsLifetime(c.idle, tenant, c.IdleFor(tenant)) && IsLifetime(c.absolute, tenant, c.AbsoluteFor(tenant))
    ensures forall elapsed :: WithinLifetime(c.idle, tenant, elapsed) <==> elapsed <= c.IdleFor(tenant)
    ensures forall elapsed :: WithinLifetime(c.absolute, tenant, elapsed) <==> elapsed <= c.AbsoluteFor(tenant)
  {
  }

  /** Every vault lies under the base, and no two tenants share one. */
  lemma VaultsDiffer(c: Config, a: string, b: string)
    ensures c.vaultBase + "/" <= c.VaultRoot(a) && (c.VaultRoot(a) == c.VaultRoot(b) ==> a == b)
  {
    assert c.VaultRoot(a)[|c.vaultBase| + 1..] == a;
    assert c.VaultRoot(b)[|c.vaultBase| + 1..] == b;
  }

  function Min(a: Time, b: Time): Time {
    if a < b then a else b
  }

  function Max(a: Time, b: Time): Time {
    if a < b then b else a
  }

  // --- Keys ---

  function CacheKey(tenant: string, bearer: string): Key {
    tenant + ":" + bearer
  }

  // --- Leases ---

  datatype Validation = Miss | Valid(lease: Lease, exportKey: Bytes) | Expired | Revoked | DbError

  function IdleExtendsTo(now: Time, expiresAt: Time): Time {
    Min(now + LEASE_IDLE_WINDOW, expiresAt)
  }

  function Extended(lease: Lease, now: Time): Lease {
    lease.(idleExtendsTo := Max(IdleExtendsTo(now, lease.expiresAt), lease.idleExtendsTo))
  }

  /** Rows are found by the SHA-256 of the bearer, taken as collision-free: by the bearer itself. */
  function Validate(leases: Leases, bearer: Bytes, now: Time): Validation {
    if bearer !in leases then Miss
    else
      var lease := leases[bearer];
      if lease.revokedAt.Some? then Revoked
      else if now >= lease.expiresAt || now >= lease.idleExtendsTo then Expired
      else if lease.wrapped.None? then Miss
      else Valid(Extended(lease, now), lease.wrapped.value)
  }

  /** The table after the validating transaction: a valid row's idle deadline has moved out. */
  function LeasesAfterValidate(leases: Leases, bearer: Bytes, now: Time): Leases {
    match Validate(leases, bearer, now)
    case Valid(lease, _) => leases[bearer := lease]
    case _ => leases
  }

  function RevokeRow(lease: Lease, now: Time): Lease {
    if lease.revokedAt.None? then lease.(revokedAt := Some(now)) else lease
  }

  function RevokeByBearer(leases: Leases, bearer: Bytes, now: Time): Leases {
    if bearer in leases then leases[bearer := RevokeRow(leases[bearer], now)] else leases
  }

  function RevokeById(leases: Leases, id: Id, now: Time): Leases {
    map b | b in leases :: if leases[b].id == id then RevokeRow(leases[b], now) else leases[b]
  }

  predicate UniqueIds(leases: Leases) {
    forall a, b :: a in leases && b in leases && leases[a].id == leases[b].id ==> a == b
  }

  predicate BearersSized(leases: Leases) {
    forall b :: b in leases ==> |b| == BEARER_BYTES
  }

  // --- Vaults ---

  datatype Unlock = Unlocked(master: Bytes) | NotInitialized | Failed

  /** Opening authenticates: only the master that sealed the file opens it. */
  function UnlockMaster(c: Config, vaults: Vaults, root: string, exportKey: Bytes): Unlock {
    if root !in vaults then NotInitialized
    else if vaults[root].suite != SUITE_VERSION then Failed
    else
      var master := c.derive(exportKey, vaults[root].salt, SUITE_VERSION);
      if master == vaults[root].master then Unlocked(master) else Failed
  }

  function CreateVault(c: Config, exportKey: Bytes, salt: Bytes): Vault {
    Vault(salt, SUITE_VERSION, c.derive(exportKey, salt, SUITE_VERSION), [])
  }

  /** A missing vault is created under a fresh salt and then unlocked. */
  function VaultsAfterUnlock(c: Config, vaults: Vaults, root: string, exportKey: Bytes, salt: Bytes): Vaults {
    if root in vaults then vaults else vaults[root := CreateVault(c, exportKey, salt)]
  }

  // --- Cache and caps ---

  /** Past the absolute deadline, or idle for longer than allowed (a negative idle time counts as zero). */
  predicate IsExpired(e: CacheEntry, now: Time) {
    now > e.expiresAt || Max(0, now - e.lastUsed) > e.idleTtl
  }

  predicate CapIsExpired(e: CapEntry, now: Time) {
    now >= e.expiresAt
  }

  datatype EvictReason = Idle | Absolute

  function ClassifyEviction(e: CacheEntry, now: Time): EvictReason {
    if now > e.expiresAt then Absolute else Idle
  }

  function FreshEntry(c: Config, tenant: string, master: Bytes, now: Time): CacheEntry {
    CacheEntry(tenant, c.VaultRoot(tenant), master, SUITE_VERSION, now + c.AbsoluteFor(tenant), now, now, c.IdleFor(tenant))
  }

  /** A hit only moves `lastUsed`: the new master is dropped and the absolute deadline stays. */
  function TouchOrInsert(cache: Cache, key: Key, entry: CacheEntry, now: Time): Cache {
    if key in cache then cache[key := cache[key].(lastUsed := now)] else cache[key := entry]
  }

  function MintCap(key: Key, namespace: string, plugin: string, leaseId: Id, now: Time): CapEntry {
    CapEntry(key, namespace, plugin, now + CAP_TTL, leaseId)
  }

  function EvictCapsForKey(caps: Caps, key: Key): Caps {
    map id | id in caps && caps[id].cacheKey != key :: caps[id]
  }

  function EvictCapsForLease(caps: Caps, leaseId: Id): Caps {
    map id | id in caps && caps[id].leaseId != leaseId :: caps[id]
  }

  function StaleKeys(cache: Cache, now: Time): set<Key> {
    set k | k in cache && IsExpired(cache[k], now)
  }

  function StaleFor(cache: Cache, now: Time, reason: EvictReason): set<Key> {
    set k | k in cache && IsExpired(cache[k], now) && ClassifyEviction(cache[k], now) == reason
  }

  function PruneCaps(caps: Caps, evicted: set<Key>, now: Time): Caps {
    map id | id in caps && caps[id].cacheKey !in evicted && !CapIsExpired(caps[id], now) :: caps[id]
  }

  /** The metrics after one sweep of the cache. */
  function SweepMetrics(m: Metrics, cache: Cache, now: Time): Metrics {
    m.(evictionsIdle := m.evictionsIdle + |StaleFor(cache, now, Idle)|,
       evictionsAbsolute := m.evictionsAbsolute + |StaleFor(cache, now, Absolute)|)
  }

  // --- What a fetch reads ---

  /** An entry the plugin may consume and the master can decrypt. */
  predicate Releasable(e: Envelope, plugin: string, master: Bytes) {
    plugin in e.allowedConsumers && e.wrappedUnder == master
  }

  function Plain(entry: (SecretKey, Envelope)): FetchSecret {
    FetchSecret(entry.0.service, entry.0.name, entry.1.kind, entry.1.value)
  }

  /** The listing filtered to the releasable entries, each decrypted, in order. */
  function Visible(entries: seq<(SecretKey, Envelope)>, plugin: string, master: Bytes): seq<FetchSecret> {
    if entries == [] then []
    else
      var last := entries[|entries| - 1];
      Visible(entries[..|entries| - 1], plugin, master)
      + if Releasable(last.1, plugin, master) then [Plain(last)] else []
  }

  datatype FetchOutcome = Evicted | Payload(tenant: string, plugin: string, secrets: seq<FetchSecret>)

  predicate Usable(cache: Cache, key: Key, now: Time) {
    key in cache && !IsExpired(cache[key], now)
  }

  /** The cache after a fetch: an expired entry is dropped, anything else stays. */
  function CacheAfterFetch(cache: Cache, key: Key, now: Time): Cache {
    if Usable(cache, key, now) then cache else cache - {key}
  }

  function FetchPayload(cache: Cache, vaults: Vaults, key: Key, plugin: string, now: Time): FetchOutcome {
    if !Usable(cache, key, now) then Evicted
    else
      var e := cache[key];
      if e.vaultRoot !in vaults || vaults[e.vaultRoot].master != e.master then Evicted
      else Payload(e.tenant, plugin, Visible(vaults[e.vaultRoot].entries, plugin, e.master))
  }

  // --- Facts about the regions ---

  /** For bearers that decode to 32 bytes the key determines tenant and bearer, whatever the tenant is called. */
  lemma CacheKeyInjective(t1: string, b1: Bytes, t2: string, b2: Bytes)
    requires |b1| == BEARER_BYTES && |b2| == BEARER_BYTES
    requires CacheKey(t1, Encode(b1)) == CacheKey(t2, Encode(b2))
    ensures t1 == t2 && b1 == b2
  {
    EncodeLength(b1);
    EncodeLength(b2);
    SameLengthSuffix(t1, Encode(b1), t2, Encode(b2));
    DecodeEncode(b1);
    DecodeEncode(b2);
  }

  lemma SameLengthSuffix(t1: string, x1: string, t2: string, x2: string)
    requires |x1| == |x2| && CacheKey(t1, x1) == CacheKey(t2, x2)
    ensures t1 == t2 && x1 == x2
  {
    var k := CacheKey(t1, x1);
    assert |t1| == |t2|;
    assert t1 == k[..|t1|] && t2 == k[..|t2|];
    assert x1 == k[|t1| + 1..] && x2 == k[|t2| + 1..];
  }

  /** For tenant names without a colon, as every valid name is, the bearers need not decode. */
  lemma CacheKeyInjectiveByName(t1: string, x1: string, t2: string, x2: string)
    requires ':' !in t1 && ':' !in t2
    requires CacheKey(t1, x1) == CacheKey(t2, x2)
    ensures t1 == t2 && x1 == x2
  {
    FirstColon(t1, x1);
    FirstColon(t2, x2);
    assert |t1| == |t2|;
    SameLengthSuffix(t1, x1, t2, x2);
  }

  lemma FirstColon(t: string, x: string)
    requires ':' !in t
    ensures CacheKey(t, x)[|t|] == ':'
    ensures forall i :: 0 <= i < |t| ==> CacheKey(t, x)[i] != ':'
  {
    assert forall i :: 0 <= i < |t| ==> CacheKey(t, x)[i] == t[i];
  }

  /** Exactly the releasable entries are visible, each with its own service, name, kind and value. */
  lemma {:induction false} VisibleExact(entries: seq<(SecretKey, Envelope)>, plugin: string, master: Bytes, out: FetchSecret)
    ensures out in Visible(entries, plugin, master)
       <==> exists i :: 0 <= i < |entries| && Releasable(entries[i].1, plugin, master) && Plain(entries[i]) == out
    ensures out in Visible(entries, plugin, master)
       <==> exists i :: 0 <= i < |entries| && plugin in entries[i].1.allowedConsumers && entries[i].1.wrappedUnder == master
              && out == FetchSecret(entries[i].0.service, entries[i].0.name, entries[i].1.kind, entries[i].1.value)
  {
    if entries != [] {
      var init := entries[..|entries| - 1];
      VisibleExact(init, plugin, master, out);
      if i :| 0 <= i < |entries| && Releasable(entries[i].1, plugin, master) && Plain(entries[i]) == out {
        if i < |init| {
          assert init[i] == entries[i];
        }
      }
    }
  }

  /** And in the order of the vault's entries. */
  lemma {:induction false} VisibleInOrder(first: seq<(SecretKey, Envelope)>, second: seq<(SecretKey, Envelope)>, plugin: string, master: Bytes)
    ensures Visible(first + second, plugin, master) == Visible(first, plugin, master) + Visible(second, plugin, master)
  {
    hide Releasable, Plain;
    if second == [] {
      assert first + second == first;
    } else {
      assert (first + second)[..|first + second| - 1] == first + second[..|second| - 1];
      VisibleInOrder(first, second[..|second| - 1], plugin, master);
    }
  }

  /** Nothing is repeated or dropped: as many secrets as releasable entries. */
  lemma {:induction false} VisibleCount(entries: seq<(SecretKey, Envelope)>, plugin: string, master: Bytes)
    ensures |Visible(entries, plugin, master)| == |set i | 0 <= i < |entries| && Releasable(entries[i].1, plugin, master)|
  {
    hide Releasable, Plain;
    var hits := set i | 0 <= i < |entries| && Releasable(entries[i].1, plugin, master);
    if entries != [] {
      var n := |entries| - 1;
      var before := set i | 0 <= i < |entries[..n]| && Releasable(entries[..n][i].1, plugin, master);
      VisibleCount(entries[..n], plugin, master);
      if Releasable(entries[n].1, plugin, master) {
        assert hits == before + {n};
      } else {
        assert hits == before;
      }
    }
  }

  /** An entry serves up to and including its last moment, and a use that lies ahead of `now` counts as now. */
  lemma UsableMeans(cache: Cache, key: Key, now: Time)
    requires key in cache && cache[key].idleTtl >= 0
    ensures Usable(cache, key, now) <==> now <= cache[key].expiresAt && now <= cache[key].lastUsed + cache[key].idleTtl
    ensures key !in CacheAfterFetch(cache, key, now) <==> now > cache[key].expiresAt || now - cache[key].lastUsed > cache[key].idleTtl
  {
  }

  lemma StalePartition(cache: Cache, now: Time)
    ensures |StaleKeys(cache, now)| == |StaleFor(cache, now, Idle)| + |StaleFor(cache, now, Absolute)|
    ensures |cache - StaleKeys(cache, now)| == |cache| - |StaleKeys(cache, now)|
  {
    var all, idle, absolute := StaleKeys(cache, now), StaleFor(cache, now, Idle), StaleFor(cache, now, Absolute);
    assert all == idle + absolute && idle !! absolute;
    assert (cache - all).Keys == cache.Keys - all;
  }
}
