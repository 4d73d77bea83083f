/** What each request of the broker does, field by field, with every limit written out. */
module BrokerLaws {
  import opened Wrappers
  import opened Base64
  import opened BrokerState
  import opened BrokerMachine
  import opened BrokerSerial
  import TtlConfig

  // --- Validation ---

  /** The text presents 32 bytes that are some lease's bearer. */
  predicate Presents(s: State, text: string, bearer: Bytes) {
    Decode(text) == Some(bearer) && |bearer| == 32 && bearer in s.leases
  }

  predicate Live(lease: Lease, now: Time) {
    lease.revokedAt == None && lease.wrapped.Some? && now < lease.expiresAt && now < lease.idleExtendsTo
  }

  /** The row after it has been validated: its idle deadline is an hour away, or at its expiry, but never nearer than before. */
  predicate Renewed(before: Lease, after: Lease, now: Time) {
    var hour := now + 3_600_000_000_000;
    var offered := if hour < before.expiresAt then hour else before.expiresAt;
    after == before.(idleExtendsTo := if offered > before.idleExtendsTo then offered else before.idleExtendsTo)
  }

  /** One row is renewed, and no other changes. */
  predicate OneRenewed(before: Leases, after: Leases, bearer: Bytes, now: Time) {
    && bearer in before && after.Keys == before.Keys && Renewed(before[bearer], after[bearer], now)
    && forall b :: b in before && b != bearer ==> after[b] == before[b]
  }

  lemma ValidationMeans(leases: Leases, bearer: Bytes, now: Time)
    ensures var v := Validate(leases, bearer, now);
            && (v == Revoked <==> bearer in leases && leases[bearer].revokedAt.Some?)
            && (v == Expired <==> bearer in leases && leases[bearer].revokedAt == None
                                  && (now >= leases[bearer].expiresAt || now >= leases[bearer].idleExtendsTo))
            && (v.Valid? <==> bearer in leases && Live(leases[bearer], now))
            && (v == Miss <==> bearer !in leases
                               || (leases[bearer].revokedAt == None && now < leases[bearer].expiresAt
                                   && now < leases[bearer].idleExtendsTo && leases[bearer].wrapped == None))
            && v != DbError
            && (v.Valid? ==> v.exportKey == leases[bearer].wrapped.value && Renewed(leases[bearer], v.lease, now))
    ensures bearer in leases && Live(leases[bearer], now) ==>
              OneRenewed(leases, LeasesAfterValidate(leases, bearer, now), bearer, now)
              && LeasesAfterValidate(leases, bearer, now)[bearer] == Validate(leases, bearer, now).lease
    ensures !(bearer in leases && Live(leases[bearer], now)) ==> LeasesAfterValidate(leases, bearer, now) == leases
  {
  }

  // --- Check ---

  /** There is no vault yet, or the lease's export key derives the master that sealed it. */
  predicate Opens(c: Config, vaults: Vaults, root: string, exportKey: Bytes) {
    root in vaults ==> vaults[root].suite == 1 && c.derive(exportKey, vaults[root].salt, 1) == vaults[root].master
  }

  /** All a check asks for: a live lease, its tenant under the name the path gives, a vault that opens, and no fault. */
  predicate Admitted(c: Config, s: State, input: CheckInput, f: CheckFaults, bearer: Bytes) {
    && Presents(s, input.text, bearer) && !f.validate && !f.name && !f.io
    && Live(s.leases[bearer], s.clock) && s.leases[bearer].tenantId in s.tenants
    && var tenant := s.tenants[s.leases[bearer].tenantId];
    && (input.scope == None || input.scope == Some(tenant))
    && Opens(c, s.vaults, c.vaultBase + "/" + tenant, s.leases[bearer].wrapped.value)
  }

  /** A vault is there as before, or was made empty under the salt. */
  predicate VaultThere(c: Config, before: Vaults, after: Vaults, root: string, exportKey: Bytes, salt: Bytes) {
    after == if root in before then before else before[root := Vault(salt, 1, c.derive(exportKey, salt, 1), [])]
  }

  /** An entry as it is cached by a check that captured `now`. */
  predicate EntryMade(c: Config, e: CacheEntry, tenant: string, master: Bytes, now: Time) {
    && e.tenant == tenant && e.vaultRoot == c.vaultBase + "/" + tenant && e.master == master && e.suiteVersion == 1
    && e.createdAt == now && e.lastUsed == now
    && IsLifetime(c.absolute, tenant, e.expiresAt - now) && IsLifetime(c.idle, tenant, e.idleTtl)
  }

  /** The lease is renewed, the vault there, the master cached or its entry touched, and the cap minted for 60 seconds. */
  predicate AdmittedTo(c: Config, s: State, t: State, input: CheckInput, bearer: Bytes, salt: Bytes, cap: CapId)
    requires bearer in s.leases && s.leases[bearer].tenantId in s.tenants && s.leases[bearer].wrapped.Some?
  {
    var lease, now := s.leases[bearer], s.clock;
    var tenant := s.tenants[lease.tenantId];
    var root, key := c.vaultBase + "/" + tenant, tenant + ":" + Encode(bearer);
    && OneRenewed(s.leases, t.leases, bearer, now)
    && VaultThere(c, s.vaults, t.vaults, root, lease.wrapped.value, salt)
    && key in t.cache && t.cache == s.cache[key := t.cache[key]]
    && (key in s.cache ==> t.cache[key] == s.cache[key].(lastUsed := now))
    && (key !in s.cache ==> root in t.vaults && EntryMade(c, t.cache[key], tenant, t.vaults[root].master, now))
    && t.caps == s.caps[cap := CapEntry(key, input.namespace, input.plugin, now + 60_000_000_000, lease.id)]
    && t.metrics == s.metrics.(inserts := s.metrics.inserts + if key in s.cache then 0 else 1)
    && t.clock == s.clock && t.tenants == s.tenants && t.inflight == s.inflight
  }

  /** The caps of a key are gone and no others. */
  ghost predicate CapsCleared(before: Caps, after: Caps, key: Key) {
    && (forall id :: id in after <==> id in before && before[id].cacheKey != key)
    && (forall id :: id in after ==> after[id] == before[id])
  }

  /** Refused: at most the lease is renewed, or the caps of an unknown bearer's key cleared. */
  ghost predicate RefusedTo(s: State, t: State, input: CheckInput, f: CheckFaults) {
    && t == s.(leases := t.leases, caps := t.caps)
    && (if !f.validate && IsBearer(input.text) && Decode(input.text).value in s.leases && Live(s.leases[Decode(input.text).value], s.clock)
        then OneRenewed(s.leases, t.leases, Decode(input.text).value, s.clock)
        else t.leases == s.leases)
    && (if !f.validate && input.scope.Some? && Unknown(s, input.text) then
          CapsCleared(s.caps, t.caps, input.scope.value + ":" + input.text)
        else t.caps == s.caps)
  }

  predicate IsBearer(text: string) {
    Decode(text).Some? && |Decode(text).value| == 32
  }

  /** The text is a bearer's, but there is no row for it, or a live one without an export key. */
  predicate Unknown(s: State, text: string) {
    && IsBearer(text)
    && var bearer := Decode(text).value;
       bearer in s.leases ==> s.leases[bearer].revokedAt == None && s.leases[bearer].wrapped == None
                              && s.clock < s.leases[bearer].expiresAt && s.clock < s.leases[bearer].idleExtendsTo
  }

  lemma AdmitMeans(c: Config, s: State, u: State, input: CheckInput, bearer: Bytes, lease: Lease, salt: Bytes, cap: CapId)
    requires bearer in s.leases && Live(s.leases[bearer], s.clock) && s.leases[bearer].tenantId in s.tenants
    requires Renewed(s.leases[bearer], lease, s.clock) && OneRenewed(s.leases, u.leases, bearer, s.clock)
    requires u == s.(leases := u.leases)
    requires Opens(c, s.vaults, c.vaultBase + "/" + s.tenants[lease.tenantId], s.leases[bearer].wrapped.value)
    ensures AdmittedTo(c, s, CheckUnlocking(c, u, input, bearer, lease, s.leases[bearer].wrapped.value, s.tenants[lease.tenantId], salt, cap),
                       input, bearer, salt, cap)
  {
    hide OneRenewed, Live, Encode, IsLifetime, TtlConfig.Knob.For;
    var tenant := s.tenants[lease.tenantId];
    LifetimesAreTheKnobs(c, tenant);
  }

  lemma NotOpened(c: Config, u: State, input: CheckInput, bearer: Bytes, lease: Lease, exportKey: Bytes, tenant: string, salt: Bytes, cap: CapId)
    requires !Opens(c, u.vaults, c.vaultBase + "/" + tenant, exportKey)
    ensures CheckUnlocking(c, u, input, bearer, lease, exportKey, tenant, salt, cap) == u
  {
    hide Admit;
  }

  /** What a check does, in the fields it reads and writes. */
  lemma CheckMeans(c: Config, s: State, input: CheckInput, salt: Bytes, cap: CapId, f: CheckFaults)
    ensures var t := CheckNow(c, s, input, salt, cap, f);
            if IsBearer(input.text) && Admitted(c, s, input, f, Decode(input.text).value)
            then AdmittedTo(c, s, t, input, Decode(input.text).value, salt, cap)
            else RefusedTo(s, t, input, f)
  {
    hide Decode, Validate, LeasesAfterValidate, CheckValid, EvictCapsForKey, AdmittedTo, OneRenewed, Live, Opens, CapsCleared, Encode, CacheKey;
    if IsBearer(input.text) {
      var bearer := Decode(input.text).value;
      LiveMeans(s, bearer);
      if !f.validate && bearer in s.leases && Live(s.leases[bearer], s.clock) {
        LiveCheckMeans(c, s, input, salt, cap, f, bearer);
      } else {
        DeadCheckMeans(c, s, input, salt, cap, f, bearer);
      }
    }
  }

  lemma DeadCheckMeans(c: Config, s: State, input: CheckInput, salt: Bytes, cap: CapId, f: CheckFaults, bearer: Bytes)
    requires IsBearer(input.text) && bearer == Decode(input.text).value
    requires f.validate || bearer !in s.leases || !Live(s.leases[bearer], s.clock)
    ensures var t := CheckNow(c, s, input, salt, cap, f);
            && t == s.(caps := t.caps)
            && (if !f.validate && input.scope.Some? && Unknown(s, input.text) then
                  CapsCleared(s.caps, t.caps, input.scope.value + ":" + input.text)
                else t.caps == s.caps)
  {
    hide Decode, Encode, Validate, LeasesAfterValidate, CheckValid, Renewed, OneRenewed, Live;
    ValidationMeans(s.leases, bearer, s.clock);
    LiveMeans(s, bearer);
    DecodedIsText(input.text, bearer);
  }

  lemma DecodedIsText(text: string, bearer: Bytes)
    requires Decode(text) == Some(bearer)
    ensures Encode(bearer) == text
  {
    hide Decode, Encode;
    EncodeDecode(text);
  }

  lemma LiveMeans(s: State, bearer: Bytes)
    ensures bearer in s.leases ==>
              (Live(s.leases[bearer], s.clock) <==>
                 s.leases[bearer].revokedAt == None && s.leases[bearer].wrapped.Some?
                 && s.clock < s.leases[bearer].expiresAt && s.clock < s.leases[bearer].idleExtendsTo)
  {
  }

  lemma LiveCheckMeans(c: Config, s: State, input: CheckInput, salt: Bytes, cap: CapId, f: CheckFaults, bearer: Bytes)
    requires Presents(s, input.text, bearer) && !f.validate && Live(s.leases[bearer], s.clock)
    ensures var t := CheckNow(c, s, input, salt, cap, f);
            if Admitted(c, s, input, f, bearer) then AdmittedTo(c, s, t, input, bearer, salt, cap)
            else t == s.(leases := t.leases) && OneRenewed(s.leases, t.leases, bearer, s.clock)
  {
    hide Decode, Encode, Validate, LeasesAfterValidate, CheckUnlocking, AdmittedTo, OneRenewed, Opens;
    ValidationMeans(s.leases, bearer, s.clock);
    var lease := Validate(s.leases, bearer, s.clock).lease;
    var u := s.(leases := LeasesAfterValidate(s.leases, bearer, s.clock));
    if lease.tenantId in s.tenants {
      var tenant := s.tenants[lease.tenantId];
      var exportKey := s.leases[bearer].wrapped.value;
      if Opens(c, s.vaults, c.vaultBase + "/" + tenant, exportKey) {
        AdmitMeans(c, s, u, input, bearer, lease, salt, cap);
      } else {
        NotOpened(c, u, input, bearer, lease, exportKey, tenant, salt, cap);
      }
    }
  }

  // --- Fetch ---

  /** Not past the absolute deadline and not idle for longer than allowed, both limits included. */
  predicate InWindows(e: CacheEntry, now: Time) {
    now <= e.expiresAt && now - e.lastUsed <= e.idleTtl && 0 <= e.idleTtl
  }

  /** The text is a cap's and the cap is still good. */
  predicate CapHeld(s: State, text: string) {
    IsBearer(text) && Decode(text).value in s.caps && s.clock < s.caps[Decode(text).value].expiresAt
  }

  /** The cap's entry is cached and in its windows, and its master opens its vault. */
  predicate Serves(s: State, e: CapEntry, ioFails: bool) {
    && e.cacheKey in s.cache && InWindows(s.cache[e.cacheKey], s.clock) && !ioFails
    && s.cache[e.cacheKey].vaultRoot in s.vaults && s.vaults[s.cache[e.cacheKey].vaultRoot].master == s.cache[e.cacheKey].master
  }

  /** The one change is a release of this cap, of what its entry's vault holds for its plugin. */
  predicate Handed(s: State, t: State, cap: CapId)
    requires cap in s.caps && Serves(s, s.caps[cap], false)
  {
    var n, e := |s.hist.log|, s.cache[s.caps[cap].cacheKey];
    && t == s.(hist := s.hist.(log := t.hist.log)) && |t.hist.log| == n + 1 && s.hist.log == t.hist.log[..n] && t.hist.log[n].Released?
    && var release := t.hist.log[n].release;
    && release.cap == cap && release.at == s.clock && release.capEntry == s.caps[cap] && release.entry == e
    && release.vault == s.vaults[e.vaultRoot] && release.secrets == Visible(s.vaults[e.vaultRoot].entries, s.caps[cap].plugin, e.master)
  }

  /** Nothing is handed out: the key's caps are cleared, and its entry goes if it is out of its windows. */
  ghost predicate Withheld(s: State, t: State, key: Key) {
    var stale := key in s.cache && !InWindows(s.cache[key], s.clock);
    && t == s.(cache := if stale then s.cache - {key} else s.cache, caps := t.caps,
               hist := s.hist.(dropped := s.hist.dropped + if stale then 1 else 0))
    && CapsCleared(s.caps, t.caps, key)
  }

  lemma WindowsMeans(e: CacheEntry, now: Time)
    ensures IsExpired(e, now) <==> !InWindows(e, now)
  {
  }

  lemma FetchKeyMeans(s: State, cap: CapId, ioFails: bool)
    requires cap in s.caps
    ensures var t := FetchKey(s, cap, s.caps[cap], ioFails);
            if Serves(s, s.caps[cap], ioFails) then Handed(s, t, cap) else Withheld(s, t, s.caps[cap].cacheKey)
  {
    hide IsExpired, InWindows, Visible, Position;
    var key := s.caps[cap].cacheKey;
    if key in s.cache {
      WindowsMeans(s.cache[key], s.clock);
    } else {
      assert s.cache - {key} == s.cache;
    }
  }

  lemma OutcomeMeans(s: State, e: CapEntry, ioFails: bool)
    ensures var outcome := Outcome(s, e, ioFails);
            && (outcome.Payload? <==> Serves(s, e, ioFails))
            && (outcome.Payload? ==>
                  outcome == Payload(s.cache[e.cacheKey].tenant, e.plugin,
                                     Visible(s.vaults[s.cache[e.cacheKey].vaultRoot].entries, e.plugin, s.cache[e.cacheKey].master)))
  {
    hide IsExpired, InWindows, Visible;
    if e.cacheKey in s.cache {
      WindowsMeans(s.cache[e.cacheKey], s.clock);
    }
  }

  /** What a fetch does, in the fields it reads and writes. */
  lemma FetchMeans(s: State, text: string, ioFails: bool)
    ensures var t := FetchNow(s, text, ioFails);
            if CapHeld(s, text) then
              var cap := Decode(text).value;
              if Serves(s, s.caps[cap], ioFails) then Handed(s, t, cap) else Withheld(s, t, s.caps[cap].cacheKey)
            else t == s.(caps := if IsBearer(text) then s.caps - {Decode(text).value} else s.caps)
  {
    hide Decode, FetchKey, Serves, Handed, Withheld;
    if IsBearer(text) {
      var cap := Decode(text).value;
      if cap !in s.caps {
        assert s.caps - {cap} == s.caps;
      } else {
        FetchKeyMeans(s, cap, ioFails);
      }
    }
  }

  // --- Sweep ---

  /** What a sweep does: entries out of their windows go, caps that are spent or whose entry goes go, and each entry is counted. */
  lemma PruneMeans(s: State)
    ensures var t := PruneNow(s);
            && t == s.(cache := t.cache, caps := t.caps, metrics := t.metrics)
            && (forall key :: key in t.cache <==> key in s.cache && InWindows(s.cache[key], s.clock))
            && (forall key :: key in t.cache ==> t.cache[key] == s.cache[key])
            && (forall cap :: cap in t.caps <==>
                  cap in s.caps && s.clock < s.caps[cap].expiresAt
                  && (s.caps[cap].cacheKey in s.cache ==> InWindows(s.cache[s.caps[cap].cacheKey], s.clock)))
            && (forall cap :: cap in t.caps ==> t.caps[cap] == s.caps[cap])
            && t.metrics.inserts == s.metrics.inserts
            && t.metrics.evictionsAbsolute == s.metrics.evictionsAbsolute + |set k | k in s.cache && s.clock > s.cache[k].expiresAt|
            && t.metrics.evictionsIdle
               == s.metrics.evictionsIdle + |set k | k in s.cache && s.clock <= s.cache[k].expiresAt && !InWindows(s.cache[k], s.clock)|
  {
    hide InWindows, IsExpired;
    forall k | k in s.cache
      ensures IsExpired(s.cache[k], s.clock) <==> !InWindows(s.cache[k], s.clock)
      ensures s.clock > s.cache[k].expiresAt ==> IsExpired(s.cache[k], s.clock)
    {
      WindowsMeans(s.cache[k], s.clock);
      PastIsExpired(s.cache[k], s.clock);
    }
    assert StaleFor(s.cache, s.clock, Absolute) == set k | k in s.cache && s.clock > s.cache[k].expiresAt;
    assert StaleFor(s.cache, s.clock, Idle) == set k | k in s.cache && s.clock <= s.cache[k].expiresAt && !InWindows(s.cache[k], s.clock);
  }

  lemma PastIsExpired(e: CacheEntry, now: Time)
    ensures now > e.expiresAt ==> IsExpired(e, now)
  {
  }

  // --- Revocation and logout ---

  /** The row is marked at `now` unless it was marked before; nothing else of it changes. */
  predicate Marked(before: Lease, after: Lease, now: Time) {
    after == before.(revokedAt := if before.revokedAt == None then Some(now) else before.revokedAt)
  }

  /** What a revocation by id does; its call failing, nothing. */
  lemma RevokeMeans(s: State, leaseId: Id, dbFails: bool)
    ensures var t := RevokeNow(s, leaseId, dbFails);
            && t == s.(leases := t.leases, caps := t.caps, hist := s.hist.(revokedWhen := t.hist.revokedWhen))
            && (dbFails ==> t == s)
            && (!dbFails ==>
                  && t.leases.Keys == s.leases.Keys
                  && (forall b :: b in s.leases && s.leases[b].id == leaseId ==> Marked(s.leases[b], t.leases[b], s.clock))
                  && (forall b :: b in s.leases && s.leases[b].id != leaseId ==> t.leases[b] == s.leases[b])
                  && (forall cap :: cap in t.caps <==> cap in s.caps && s.caps[cap].leaseId != leaseId)
                  && (forall cap :: cap in t.caps ==> t.caps[cap] == s.caps[cap]))
  {
  }

  /** The logout goes on to its tenant's key: the bearer's lease is live, the calls succeed and the tenant has a row. */
  predicate LogsOut(s: State, text: string, f: LogoutFaults) {
    && IsBearer(text) && Presents(s, text, Decode(text).value) && !f.validate && !f.name
    && Live(s.leases[Decode(text).value], s.clock) && s.leases[Decode(text).value].tenantId in s.tenants
  }

  /** What a logout does: it renews the lease, clears the caps of the key made from the tenant's present name, and marks the lease. */
  lemma LogoutMeans(s: State, text: string, f: LogoutFaults)
    ensures var t := LogoutNow(s, text, f);
            if LogsOut(s, text, f) then LoggedOutTo(s, t, text, f)
            else
              && t == s.(leases := t.leases)
              && (if !f.validate && IsBearer(text) && Decode(text).value in s.leases && Live(s.leases[Decode(text).value], s.clock)
                  then OneRenewed(s.leases, t.leases, Decode(text).value, s.clock)
                  else t.leases == s.leases)
  {
    hide Decode, LogoutValid, LoggedOutTo, OneRenewed, Live, Validate, LeasesAfterValidate;
    if IsBearer(text) {
      var bearer := Decode(text).value;
      ValidationMeans(s.leases, bearer, s.clock);
      if !f.validate && bearer in s.leases && Live(s.leases[bearer], s.clock) {
        var lease := Validate(s.leases, bearer, s.clock).lease;
        LogoutValidMeans(s, text, f, bearer, lease, LeasesAfterValidate(s.leases, bearer, s.clock));
      }
    }
  }

  ghost predicate LoggedOutTo(s: State, t: State, text: string, f: LogoutFaults)
    requires LogsOut(s, text, f)
  {
    var bearer := Decode(text).value;
    var key := s.tenants[s.leases[bearer].tenantId] + ":" + text;
    && t == s.(leases := t.leases, caps := t.caps, hist := t.hist) && CapsCleared(s.caps, t.caps, key)
    && t.leases.Keys == s.leases.Keys && (forall b :: b in s.leases && b != bearer ==> t.leases[b] == s.leases[b])
    && (f.revoke ==> Renewed(s.leases[bearer], t.leases[bearer], s.clock) && t.hist == s.hist)
    && (!f.revoke ==>
          && t.leases[bearer].revokedAt == Some(s.clock)
          && Renewed(s.leases[bearer], t.leases[bearer].(revokedAt := None), s.clock)
          && t.hist.log == s.hist.log + [LoggedOut(bearer, s.leases[bearer].id, key)])
  }

  lemma LogoutValidMeans(s: State, text: string, f: LogoutFaults, bearer: Bytes, lease: Lease, renewed: Leases)
    requires Presents(s, text, bearer) && !f.validate && Live(s.leases[bearer], s.clock)
    requires OneRenewed(s.leases, renewed, bearer, s.clock) && renewed[bearer] == lease && Renewed(s.leases[bearer], lease, s.clock)
    ensures var t := LogoutValid(s.(leases := renewed), bearer, lease, f);
            if LogsOut(s, text, f) then LoggedOutTo(s, t, text, f) else t == s.(leases := renewed)
  {
    hide Decode, Encode;
    DecodedIsText(text, bearer);
  }

  // --- Login ---

  /** A lease lasts as long as asked for, but no more than 30 days, and idles out after an hour at first. */
  lemma LoginMeans(s: State, bearer: Bytes, id: Id, tenantId: Id, wrapped: Option<Bytes>, seconds: nat)
    ensures var t := DoLogin(s, bearer, id, tenantId, wrapped, seconds);
            if |bearer| != 32 || bearer in s.leases || exists b :: b in s.leases && s.leases[b].id == id then t == s
            else
              && bearer in t.leases && t == s.(leases := s.leases[bearer := t.leases[bearer]])
              && var lease := t.leases[bearer];
              && lease.id == id && lease.tenantId == tenantId && lease.wrapped == wrapped && lease.revokedAt == None
              && lease.expiresAt == s.clock + 1_000_000_000 * (if seconds < 30 * 24 * 3600 then seconds else 30 * 24 * 3600)
              && lease.idleExtendsTo
                 == if s.clock + 3_600_000_000_000 < lease.expiresAt then s.clock + 3_600_000_000_000 else lease.expiresAt
  {
  }
}
