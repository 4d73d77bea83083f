/**
 * The broker's shared state as the handlers change it: one object whose maps and counters each handler
 * updates in place. Every method's effect is tied to the whole-request functions that the serial theorems
 * are about.
 */
module AppState {
  import opened Wrappers
  import opened Base64
  import opened BrokerState
  import opened BrokerMachine
  import opened BrokerSerial
  import opened BrokerLaws

  datatype CheckAnswer = Hit(tenant: string, capText: string) | Missed | LeaseExpired | LeaseRevoked

  datatype LogoutAnswer = NoContent | Internal

  /** The key a check makes from the bearer's text is the one a logout makes from the decoded and re-encoded bearer. */
  lemma LogoutRebuildsCheckKey(tenant: string, text: string, bearer: Bytes)
    requires DecodeBearer(text) == Some(bearer)
    ensures CacheKey(tenant, text) == CacheKey(tenant, Encode(bearer))
  {
    hide CacheKey, Encode;
    EncodeDecode(text);
  }

  lemma RetainShrinks<K, V>(before: map<K, V>, after: map<K, V>)
    requires after.Keys <= before.Keys
    ensures |after| <= |before|
  {
    SubsetSize(after.Keys, before.Keys);
  }

  lemma {:induction false} SubsetSize<K>(a: set<K>, b: set<K>)
    requires a <= b
    ensures |a| <= |b|
  {
    if a != {} {
      var x :| x in a;
      SubsetSize(a - {x}, b - {x});
    }
  }

  type StaleList = seq<(Key, EvictReason)>

  /** The listing names every stale entry once, with the reason it is classed by. */
  ghost predicate Lists(stale: StaleList, cache: Cache, now: Time) {
    && (forall i :: 0 <= i < |stale| ==>
          stale[i].0 in StaleKeys(cache, now) && stale[i].1 == ClassifyEviction(cache[stale[i].0], now))
    && (forall i, j :: 0 <= i < j < |stale| ==> stale[i].0 != stale[j].0)
    && (forall k :: k in StaleKeys(cache, now) ==> exists i :: 0 <= i < |stale| && stale[i].0 == k)
  }

  /** The keys among the first `n` listed, and those of them listed under `reason`. */
  ghost function KeysOf(stale: StaleList, n: nat): set<Key>
    requires n <= |stale|
  {
    set i | 0 <= i < n :: stale[i].0
  }

  ghost function KeysFor(stale: StaleList, n: nat, reason: EvictReason): set<Key>
    requires n <= |stale|
  {
    set i | 0 <= i < n && stale[i].1 == reason :: stale[i].0
  }

  lemma KeysOfGrow(stale: StaleList, cache: Cache, now: Time, n: nat)
    requires Lists(stale, cache, now) && n < |stale|
    ensures stale[n].0 in cache && stale[n].0 !in KeysOf(stale, n)
    ensures KeysOf(stale, n + 1) == KeysOf(stale, n) + {stale[n].0}
  {
    hide IsExpired, ClassifyEviction;
  }

  lemma KeysForGrow(stale: StaleList, cache: Cache, now: Time, n: nat, reason: EvictReason)
    requires Lists(stale, cache, now) && n < |stale|
    ensures |KeysFor(stale, n + 1, reason)| == |KeysFor(stale, n, reason)| + if stale[n].1 == reason then 1 else 0
  {
    hide StaleKeys, ClassifyEviction;
    var before, after := KeysFor(stale, n, reason), KeysFor(stale, n + 1, reason);
    if stale[n].1 == reason {
      assert after == before + {stale[n].0};
      assert stale[n].0 !in before;
    } else {
      assert after == before;
    }
  }

  lemma ListMore(stale: StaleList, seen: Cache, key: Key, e: CacheEntry, now: Time)
    requires Lists(stale, seen, now) && key !in seen
    ensures Lists(if IsExpired(e, now) then stale + [(key, ClassifyEviction(e, now))] else stale, seen[key := e], now)
  {
    hide IsExpired, ClassifyEviction;
    var more := if IsExpired(e, now) then stale + [(key, ClassifyEviction(e, now))] else stale;
    var grown := seen[key := e];
    forall k | k in StaleKeys(grown, now)
      ensures exists i :: 0 <= i < |more| && more[i].0 == k
    {
      if k == key {
        assert more[|stale|].0 == key;
      } else {
        assert k in StaleKeys(seen, now);
        var i :| 0 <= i < |stale| && stale[i].0 == k;
        assert more[i].0 == k;
      }
    }
  }

  lemma KeysComplete(stale: StaleList, cache: Cache, now: Time)
    requires Lists(stale, cache, now)
    ensures KeysOf(stale, |stale|) == StaleKeys(cache, now)
    ensures KeysFor(stale, |stale|, Idle) == StaleFor(cache, now, Idle)
    ensures KeysFor(stale, |stale|, Absolute) == StaleFor(cache, now, Absolute)
  {
    hide IsExpired;
    forall k | k in StaleKeys(cache, now)
      ensures k in KeysOf(stale, |stale|) && k in KeysFor(stale, |stale|, ClassifyEviction(cache[k], now))
    {
      var i :| 0 <= i < |stale| && stale[i].0 == k;
    }
  }

  lemma RevokeByIdMarksRows(leases: Leases, leaseId: Id, now: Time)
    ensures var rows := set b | b in leases && leases[b].id == leaseId && leases[b].revokedAt.None?;
            RevokeById(leases, leaseId, now) == map b | b in leases :: if b in rows then leases[b].(revokedAt := Some(now)) else leases[b]
  {
  }

  lemma AdmitGrowsLog(c: Config, s: State, input: CheckInput, bearer: Bytes, lease: Lease, tenant: string, master: Bytes, cap: CapId)
    ensures |Admit(c, s, input, bearer, lease, tenant, master, cap).hist.log| == |s.hist.log| + 2
  {
    hide CacheKey, Encode, FreshEntry, TouchOrInsert;
  }

  class Broker {
    const c: Config
    var leases: Leases
    var tenants: map<Id, string>
    var vaults: Vaults
    var cache: Cache
    var caps: Caps
    var inserts: nat
    var evictionsIdle: nat
    var evictionsAbsolute: nat
    ghost var hist: History

    constructor (c: Config, leases: Leases, tenants: map<Id, string>, vaults: Vaults)
      ensures forall now :: View(now) == State(now, leases, tenants, vaults, map[], map[], Metrics(0, 0, 0), map[],
                                               History([], map[], map[], map[], map[], 0))
      ensures this.c == c
    {
      this.c := c;
      this.leases, this.tenants, this.vaults := leases, tenants, vaults;
      cache, caps := map[], map[];
      inserts, evictionsIdle, evictionsAbsolute := 0, 0, 0;
      hist := History([], map[], map[], map[], map[], 0);
    }

    ghost function View(now: Time): State
      reads this
    {
      State(now, leases, tenants, vaults, cache, caps, Metrics(inserts, evictionsIdle, evictionsAbsolute), map[], hist)
    }

    /** Removes the entry if its time is up, counting why, and says whether it did. */
    method EvictIfExpired(key: Key, now: Time) returns (evicted: Option<Key>)
      modifies `cache, `evictionsIdle, `evictionsAbsolute
      ensures evicted == if key in old(cache) && IsExpired(old(cache)[key], now) then Some(key) else None
      ensures cache == if evicted.Some? then old(cache) - {key} else old(cache)
      ensures evictionsIdle + evictionsAbsolute + |cache| == old(evictionsIdle) + old(evictionsAbsolute) + |old(cache)|
      ensures evictionsAbsolute == old(evictionsAbsolute) + if evicted.Some? && now > old(cache)[key].expiresAt then 1 else 0
    {
      if key !in cache || !IsExpired(cache[key], now) {
        return None;
      }
      var reason := ClassifyEviction(cache[key], now);
      assert (cache - {key}).Keys == cache.Keys - {key};
      cache := cache - {key};
      match reason {
        case Idle => evictionsIdle := evictionsIdle + 1;
        case Absolute => evictionsAbsolute := evictionsAbsolute + 1;
      }
      return Some(key);
    }

    method EvictCapsOfLease(leaseId: Id) returns (removed: nat)
      modifies `caps
      ensures caps == EvictCapsForLease(old(caps), leaseId)
      ensures removed == |old(caps)| - |caps|
    {
      var before := |caps|;
      RetainShrinks(caps, EvictCapsForLease(caps, leaseId));
      caps := map id | id in caps && caps[id].leaseId != leaseId :: caps[id];
      removed := before - |caps|;
    }

    method EvictCapsOfKey(key: Key) returns (removed: nat)
      modifies `caps
      ensures caps == EvictCapsForKey(old(caps), key)
      ensures removed == |old(caps)| - |caps|
    {
      var before := |caps|;
      RetainShrinks(caps, EvictCapsForKey(caps, key));
      caps := map id | id in caps && caps[id].cacheKey != key :: caps[id];
      removed := before - |caps|;
    }

    method PruneCapsOnce(evicted: seq<Key>, now: Time)
      modifies `caps
      ensures caps == PruneCaps(old(caps), (set k | k in evicted), now)
    {
      caps := map id | id in caps && caps[id].cacheKey !in evicted && !CapIsExpired(caps[id], now) :: caps[id];
    }

    /** Lists the stale entries in whatever order the map yields them, each with its reason. */
    method CollectStale(now: Time) returns (stale: StaleList)
      ensures Lists(stale, cache, now)
    {
      stale := [];
      var left := cache.Keys;
      while left != {}
        invariant left <= cache.Keys
        invariant forall i :: 0 <= i < |stale| ==> stale[i].0 !in left
        invariant Lists(stale, map k | k in cache && k !in left :: cache[k], now)
        decreases |left|
      {
        var key :| key in left;
        ghost var seen := map k | k in cache && k !in left :: cache[k];
        left := left - {key};
        ghost var seenNow := map k | k in cache && k !in left :: cache[k];
        assert seenNow == seen[key := cache[key]];
        ListMore(stale, seen, key, cache[key], now);
        if IsExpired(cache[key], now) {
          stale := stale + [(key, ClassifyEviction(cache[key], now))];
        }
      }
      assert (map k | k in cache && k !in left :: cache[k]) == cache;
    }

    /** One sweep: the stale entries go and are counted, then their caps and the expired caps. */
    method PruneOnce(now: Time)
      modifies `cache, `caps, `evictionsIdle, `evictionsAbsolute
      ensures View(now) == PruneNow(old(View(now)))
    {
      var staleKeys := SweepCache(now);
      PruneCapsOnce(staleKeys, now);
    }

    method SweepCache(now: Time) returns (staleKeys: seq<Key>)
      modifies `cache, `evictionsIdle, `evictionsAbsolute
      ensures (set k | k in staleKeys) == StaleKeys(old(cache), now)
      ensures cache == old(cache) - StaleKeys(old(cache), now)
      ensures evictionsIdle == old(evictionsIdle) + |StaleFor(old(cache), now, Idle)|
      ensures evictionsAbsolute == old(evictionsAbsolute) + |StaleFor(old(cache), now, Absolute)|
    {
      var stale := CollectStale(now);
      staleKeys := [];
      for i := 0 to |stale|
        invariant cache == old(cache) - KeysOf(stale, i)
        invariant (set k | k in staleKeys) == KeysOf(stale, i)
        invariant evictionsIdle == old(evictionsIdle) + |KeysFor(stale, i, Idle)|
        invariant evictionsAbsolute == old(evictionsAbsolute) + |KeysFor(stale, i, Absolute)|
      {
        hide Lists, KeysOf, KeysFor, StaleKeys, StaleFor;
        var (key, reason) := stale[i];
        KeysOfGrow(stale, old(cache), now, i);
        KeysForGrow(stale, old(cache), now, i, Idle);
        KeysForGrow(stale, old(cache), now, i, Absolute);
        if key in cache {
          cache := cache - {key};
          match reason {
            case Idle => evictionsIdle := evictionsIdle + 1;
            case Absolute => evictionsAbsolute := evictionsAbsolute + 1;
          }
          staleKeys := staleKeys + [key];
        }
      }
      KeysComplete(stale, old(cache), now);
    }

    // --- Fetch ---

    /** Lists the vault and decrypts, one by one, what the plugin may have. */
    method ReadVault(root: string, master: Bytes, plugin: string) returns (secrets: Option<seq<FetchSecret>>)
      ensures secrets == if root in vaults && vaults[root].master == master
                         then Some(Visible(vaults[root].entries, plugin, master)) else None
    {
      if root !in vaults || vaults[root].master != master {
        return None;
      }
      var listed := vaults[root].entries;
      var out: seq<FetchSecret> := [];
      for i := 0 to |listed|
        invariant out == Visible(listed[..i], plugin, master)
      {
        assert listed[..i + 1][..i] == listed[..i];
        var (key, meta) := listed[i];
        if plugin !in meta.allowedConsumers {
          continue;
        }
        if meta.wrappedUnder != master {
          continue;
        }
        out := out + [FetchSecret(key.service, key.name, meta.kind, meta.value)];
      }
      assert listed[..|listed|] == listed;
      return Some(out);
    }

    /** The regions of a fetch after its cap was found: the cache, then the clean-up. */
    method FetchUnder(cap: CapId, entry: CapEntry, ioFails: bool, now: Time) returns (payload: FetchOutcome)
      modifies `cache, `caps, `hist
      ensures View(now) == FetchKey(old(View(now)), cap, entry, ioFails)
      ensures payload == Outcome(old(View(now)), entry, ioFails)
    {
      var key := entry.cacheKey;
      if key !in cache || IsExpired(cache[key], now) {
        hist := hist.(dropped := hist.dropped + if key in cache then 1 else 0);
        cache := cache - {key};
        var _ := EvictCapsOfKey(key);
        return Evicted;
      }
      var e := cache[key];
      var secrets := ReadVault(e.vaultRoot, e.master, entry.plugin);
      if ioFails || secrets.None? {
        var _ := EvictCapsOfKey(key);
        return Evicted;
      }
      hist := hist.(log := hist.log + [Released(Release(cap, now, entry, e, vaults[e.vaultRoot], secrets.value,
                                                        Position(hist.minted, cap), Position(hist.birth, key),
                                                        Position(hist.lastUse, key)))]);
      return Payload(e.tenant, entry.plugin, secrets.value);
    }

    method Fetch(text: string, ioFails: bool, now: Time) returns (payload: FetchOutcome)
      modifies `cache, `caps, `hist
      ensures View(now) == FetchNow(old(View(now)), text, ioFails)
      ensures payload.Payload? <==>
                CapHeld(old(View(now)), text) && Serves(old(View(now)), old(caps)[Decode(text).value], ioFails)
      ensures payload.Payload? ==>
                var capEntry := old(caps)[Decode(text).value];
                var e := old(cache)[capEntry.cacheKey];
                payload == Payload(e.tenant, capEntry.plugin, Visible(vaults[e.vaultRoot].entries, capEntry.plugin, e.master))
      ensures payload.Evicted? ==> hist.log == old(hist).log
      ensures payload.Payload? ==>
                && |hist.log| == |old(hist).log| + 1 && hist.log[|old(hist).log|].Released?
                && hist.log[|old(hist).log|].release.secrets == payload.secrets
    {
      hide Decode, IsExpired, Visible, Serves;
      var decoded := Decode(text);
      if decoded.None? || |decoded.value| != CAP_BYTES {
        return Evicted;
      }
      var cap := decoded.value;
      if cap !in caps {
        return Evicted;
      }
      var entry := caps[cap];
      if CapIsExpired(entry, now) {
        caps := caps - {cap};
        return Evicted;
      }
      OutcomeMeans(View(now), entry, ioFails);
      payload := FetchUnder(cap, entry, ioFails, now);
    }

    // --- Revoke by id ---

    /** How many rows were newly marked, and how many caps went. */
    method AdminRevokeLease(leaseId: Id, dbFails: bool, now: Time) returns (answer: Option<(nat, nat)>)
      modifies `leases, `caps, `hist
      ensures View(now) == RevokeNow(old(View(now)), leaseId, dbFails)
      ensures answer.None? <==> dbFails
      ensures answer.Some? ==>
                && answer.value.0 == |set b | b in old(leases) && old(leases)[b].id == leaseId && old(leases)[b].revokedAt.None?|
                && answer.value.1 == |old(caps)| - |caps|
    {
      hide NoteRevoked, HasLease, EvictCapsForLease, RevokeById;
      if dbFails {
        return None;
      }
      var rows := set b | b in leases && leases[b].id == leaseId && leases[b].revokedAt.None?;
      hist := if HasLease(leases, leaseId) then NoteRevoked(hist, leaseId, now) else hist;
      RevokeByIdMarksRows(leases, leaseId, now);
      leases := map b | b in leases :: if b in rows then leases[b].(revokedAt := Some(now)) else leases[b];
      var removed := EvictCapsOfLease(leaseId);
      return Some((|rows|, removed));
    }

    // --- Logout ---

    method ApiAuthLogout(text: string, f: LogoutFaults, now: Time) returns (answer: LogoutAnswer)
      modifies `leases, `caps, `hist
      ensures View(now) == LogoutNow(old(View(now)), text, f)
      ensures answer == NoContent && |hist.log| == |old(hist).log| ==> caps == old(caps)
      ensures answer == Internal ==> f.revoke && hist == old(hist)
      ensures answer == Internal <==> f.revoke && LogsOut(old(View(now)), text, f)
    {
      hide Decode, Live, Validate, LeasesAfterValidate, EvictCapsForKey, CacheKey, Encode, RevokeByBearer;
      var decoded := Decode(text);
      if decoded.None? || |decoded.value| != BEARER_BYTES {
        return NoContent;
      }
      var bearer := decoded.value;
      var validation := if f.validate then DbError else Validate(leases, bearer, now);
      ValidationMeans(leases, bearer, now);
      if !validation.Valid? {
        return NoContent;
      }
      leases := LeasesAfterValidate(leases, bearer, now);
      var lease := validation.lease;
      if f.name || lease.tenantId !in tenants {
        return NoContent;
      }
      var key := CacheKey(tenants[lease.tenantId], Encode(bearer));
      var _ := EvictCapsOfKey(key);
      if f.revoke {
        return Internal;
      }
      leases := RevokeByBearer(leases, bearer, now);
      hist := NoteRevoked(hist, lease.id, now);
      hist := hist.(log := hist.log + [LoggedOut(bearer, lease.id, key)]);
      return NoContent;
    }

    // --- Check ---

    /** Caches the master unless its entry is there, in which case only the entry's last use moves. */
    method TouchOrCache(key: Key, tenant: string, master: Bytes, bearer: Bytes, now: Time)
      modifies `cache, `inserts, `hist
      ensures cache == TouchOrInsert(old(cache), key, FreshEntry(c, tenant, master, now), now)
      ensures inserts == old(inserts) + if key in old(cache) then 0 else 1
      ensures var n := |old(hist).log|;
              var event := if key in old(cache) then Touched(key, now) else Inserted(key, FreshEntry(c, tenant, master, now), bearer);
              hist == old(hist).(log := old(hist).log + [event],
                                 birth := if key in old(cache) then old(hist).birth else old(hist).birth[key := n],
                                 lastUse := old(hist).lastUse[key := n])
    {
      ghost var n := |hist.log|;
      if key in cache {
        cache := cache[key := cache[key].(lastUsed := now)];
        hist := hist.(log := hist.log + [Touched(key, now)], lastUse := hist.lastUse[key := n]);
      } else {
        var entry := CacheEntry(tenant, c.VaultRoot(tenant), master, SUITE_VERSION, now + c.AbsoluteFor(tenant), now, now,
                                c.IdleFor(tenant));
        cache := cache[key := entry];
        inserts := inserts + 1;
        hist := hist.(log := hist.log + [Inserted(key, entry, bearer)], birth := hist.birth[key := n], lastUse := hist.lastUse[key := n]);
      }
    }

    /** Opens the tenant's vault, creating it first when there is none; gives the master if it opens. */
    method UnlockOrCreate(root: string, exportKey: Bytes, salt: Bytes) returns (master: Option<Bytes>)
      modifies `vaults
      ensures var made := VaultsAfterUnlock(c, old(vaults), root, exportKey, salt);
              match UnlockMaster(c, made, root, exportKey)
              case Unlocked(m) => master == Some(m) && vaults == made
              case _ => master == None && vaults == old(vaults)
      ensures master.Some? <==> Opens(c, old(vaults), root, exportKey)
    {
      if root !in vaults {
        vaults := vaults[root := CreateVault(c, exportKey, salt)];
        return Some(vaults[root].master);
      }
      if vaults[root].suite != SUITE_VERSION {
        return None;
      }
      var derived := c.derive(exportKey, vaults[root].salt, SUITE_VERSION);
      return if derived == vaults[root].master then Some(derived) else None;
    }

    /** Caching and minting for an unlocked check; the key is made from the bearer's text as it was presented. */
    method AdmitCheck(input: CheckInput, bearer: Bytes, lease: Lease, tenant: string, master: Bytes, cap: CapId, now: Time)
      returns (answer: CheckAnswer)
      requires DecodeBearer(input.text) == Some(bearer)
      modifies `cache, `caps, `inserts, `hist
      ensures View(now) == Admit(c, old(View(now)), input, bearer, lease, tenant, master, cap)
      ensures answer == Hit(tenant, Encode(cap))
    {
      hide CacheKey, Encode, DecodeBearer, FreshEntry, TouchOrInsert;
      var key := CacheKey(tenant, input.text);
      LogoutRebuildsCheckKey(tenant, input.text, bearer);
      TouchOrCache(key, tenant, master, bearer, now);
      var capEntry := MintCap(key, input.namespace, input.plugin, lease.id, now);
      caps := caps[cap := capEntry];
      hist := hist.(log := hist.log + [Minted(cap, capEntry, tenant, bearer, now)], minted := hist.minted[cap := |hist.log|]);
      return Hit(tenant, Encode(cap));
    }

    /** From a validated lease on. */
    method CheckLease(input: CheckInput, bearer: Bytes, lease: Lease, exportKey: Bytes, salt: Bytes, cap: CapId, f: CheckFaults, now: Time)
      returns (answer: CheckAnswer)
      requires DecodeBearer(input.text) == Some(bearer)
      modifies `vaults, `cache, `caps, `inserts, `hist
      ensures View(now) == CheckValid(c, old(View(now)), input, bearer, lease, exportKey, salt, cap, f)
      ensures answer.Hit? <==> hist != old(hist)
      ensures answer.Hit? ==> lease.tenantId in tenants && answer == Hit(tenants[lease.tenantId], Encode(cap))
      ensures answer.Hit? || answer == Missed
      ensures answer.Hit? <==>
                !f.name && !f.io && lease.tenantId in tenants
                && (input.scope == None || input.scope == Some(tenants[lease.tenantId]))
                && Opens(c, old(vaults), c.vaultBase + "/" + tenants[lease.tenantId], exportKey)
    {
      hide CacheKey, Encode, DecodeBearer, Admit, UnlockMaster, VaultsAfterUnlock, Opens;
      if f.name || lease.tenantId !in tenants {
        return Missed;
      }
      var tenant := tenants[lease.tenantId];
      if input.scope.Some? && tenant != input.scope.value {
        return Missed;
      }
      if f.io {
        return Missed;
      }
      var master := UnlockOrCreate(c.VaultRoot(tenant), exportKey, salt);
      if master.None? {
        return Missed;
      }
      AdmitGrowsLog(c, View(now), input, bearer, lease, tenant, master.value, cap);
      answer := AdmitCheck(input, bearer, lease, tenant, master.value, cap, now);
    }

    /**
     * A revoked lease is answered as revoked, a lease past a deadline as expired, and everything else that is not
     * admitted as missed: a text that is no bearer's, an unknown bearer, and every fault.
     */
    method Check(input: CheckInput, salt: Bytes, cap: CapId, f: CheckFaults, now: Time) returns (answer: CheckAnswer)
      modifies `leases, `vaults, `cache, `caps, `inserts, `hist
      ensures View(now) == CheckNow(c, old(View(now)), input, salt, cap, f)
      ensures answer.Hit? <==> hist != old(hist)
      ensures answer == LeaseRevoked <==>
                !f.validate && IsBearer(input.text) && Decode(input.text).value in old(leases)
                && old(leases)[Decode(input.text).value].revokedAt.Some?
      ensures answer == LeaseExpired <==>
                !f.validate && IsBearer(input.text) && Decode(input.text).value in old(leases)
                && old(leases)[Decode(input.text).value].revokedAt == None
                && (now >= old(leases)[Decode(input.text).value].expiresAt || now >= old(leases)[Decode(input.text).value].idleExtendsTo)
      ensures answer.Hit? <==> IsBearer(input.text) && Admitted(c, old(View(now)), input, f, Decode(input.text).value)
      ensures answer.Hit? ==> answer == Hit(tenants[old(leases)[Decode(input.text).value].tenantId], Encode(cap))
    {
      hide CacheKey, Encode, Decode, Validate, LeasesAfterValidate, CheckValid, EvictCapsForKey, Live, Opens;
      var decoded := Decode(input.text);
      if decoded.None? || |decoded.value| != BEARER_BYTES {
        return Missed;
      }
      var bearer := decoded.value;
      ValidationMeans(leases, bearer, now);
      LiveMeans(View(now), bearer);
      match if f.validate then DbError else Validate(leases, bearer, now) {
        case Valid(lease, exportKey) =>
          leases := LeasesAfterValidate(leases, bearer, now);
          answer := CheckLease(input, bearer, lease, exportKey, salt, cap, f, now);
        case Miss =>
          if input.scope.Some? {
            LogoutRebuildsCheckKey(input.scope.value, input.text, bearer);
            var _ := EvictCapsOfKey(CacheKey(input.scope.value, input.text));
          }
          answer := Missed;
        case Expired => answer := LeaseExpired;
        case Revoked => answer := LeaseRevoked;
        case DbError => answer := Missed;
      }
    }
  }
}
