/** What holds of every run of the broker from start-up, however its steps interleave. */
module BrokerTheorems {
  import opened Wrappers
  import opened Base64
  import opened BrokerState
  import opened BrokerMachine
  import opened BrokerSafety

  // --- Runs ---

  lemma InitialInv(c: Config, s: State)
    requires Initial(s)
    ensures Inv(c, s)
  {
  }

  lemma {:induction false} RunKeeps(c: Config, s: State, steps: seq<Step>)
    requires Inv(c, s)
    ensures Inv(c, Exec(c, s, steps)) && Extends(s, Exec(c, s, steps))
  {
    hide Inv, Extends, Apply;
    if steps == [] {
      StayKeeps(c, s);
    } else {
      var n := |steps| - 1;
      RunKeeps(c, s, steps[..n]);
      StepKeeps(c, Exec(c, s, steps[..n]), steps[n]);
      ExtendsTrans(s, Exec(c, s, steps[..n]), Exec(c, s, steps));
    }
  }

  lemma ReachableInv(c: Config, s: State, steps: seq<Step>)
    requires Initial(s)
    ensures Inv(c, Exec(c, s, steps))
  {
    InitialInv(c, s);
    RunKeeps(c, s, steps);
  }

  lemma {:induction false} ExecSplit(c: Config, s: State, first: seq<Step>, second: seq<Step>)
    ensures Exec(c, s, first + second) == Exec(c, Exec(c, s, first), second)
  {
    hide Apply;
    if second == [] {
      assert first + second == first;
    } else {
      var n := |second| - 1;
      ExecSplit(c, s, first, second[..n]);
      assert (first + second)[..|first| + n] == first + second[..n];
    }
  }

  // --- Revocation ---

  ghost predicate ReleasedAt(s: State, i: nat, rel: Release) {
    i < |s.hist.log| && s.hist.log[i] == Released(rel)
  }

  /**
   * Once a lease's revocation has taken effect at time `r`, whatever happens afterwards, no fetch whose
   * captured time is `r + CAP_TTL` or later releases anything for a cap of that lease; not even for a cap
   * that a check already in flight inserts after the revocation has cleared the lease's caps.
   */
  lemma RevokedLeaseFallsSilent(c: Config, s: State, first: seq<Step>, second: seq<Step>, leaseId: Id, i: nat, rel: Release)
    requires Initial(s)
    requires leaseId in Exec(c, s, first).hist.revokedWhen
    requires ReleasedAt(Exec(c, s, first + second), i, rel) && rel.capEntry.leaseId == leaseId
    ensures rel.at < Exec(c, s, first).hist.revokedWhen[leaseId] + CAP_TTL
  {
    var mid := Exec(c, s, first);
    var end := Exec(c, s, first + second);
    ReachableInv(c, s, first);
    ReachableInv(c, s, first + second);
    ExecSplit(c, s, first, second);
    RunKeeps(c, mid, second);
    SilentIn(c, end, i, rel);
    NotedForGood(mid, end, leaseId);
  }

  lemma SilentIn(c: Config, s: State, i: nat, rel: Release)
    requires Inv(c, s) && ReleasedAt(s, i, rel) && rel.capEntry.leaseId in s.hist.revokedWhen
    ensures rel.at < s.hist.revokedWhen[rel.capEntry.leaseId] + CAP_TTL
  {
    hide CapOk, EntryOk, PcOk, RevocationsOk;
    assert EventOk(c, s, i);
  }

  lemma NotedForGood(s: State, t: State, leaseId: Id)
    requires Extends(s, t) && leaseId in s.hist.revokedWhen
    ensures leaseId in t.hist.revokedWhen && t.hist.revokedWhen[leaseId] == s.hist.revokedWhen[leaseId]
  {
  }

  // --- Releases ---

  /** Entry `i` of the log is the one minting of `cap`. */
  ghost predicate OnlyMint(log: seq<Event>, i: nat, cap: CapId) {
    && i < |log| && log[i].Minted? && log[i].cap == cap
    && forall j :: 0 <= j < |log| && log[j].Minted? && log[j].cap == cap ==> j == i
  }

  /**
   * Every release traces back to exactly one earlier check: the one that minted its cap, for the same lease,
   * tenant, plugin and bearer. Its cache entry was inserted by that bearer's check earlier still or since.
   */
  lemma ReleaseTracesToOneMint(c: Config, s: State, steps: seq<Step>, i: nat, rel: Release)
    requires Initial(s) && ReleasedAt(Exec(c, s, steps), i, rel)
    ensures var log := Exec(c, s, steps).hist.log;
            && ReleaseTraced(log, i, rel)
            && OnlyMint(log, rel.mint, rel.cap)
  {
    ReachableInv(c, s, steps);
    TracedIn(c, Exec(c, s, steps), i, rel);
  }

  lemma TracedIn(c: Config, s: State, i: nat, rel: Release)
    requires Inv(c, s) && ReleasedAt(s, i, rel)
    ensures ReleaseTraced(s.hist.log, i, rel) && OnlyMint(s.hist.log, rel.mint, rel.cap)
  {
    hide CapOk, EntryOk, PcOk, RevocationsOk, ReleaseSound, InsertOf, UseOf;
    assert EventOk(c, s, i);
    assert EventOk(c, s, rel.mint);
    forall j | 0 <= j < |s.hist.log| && s.hist.log[j].Minted? && s.hist.log[j].cap == rel.cap
      ensures j == rel.mint
    {
      assert EventOk(c, s, j);
    }
  }

  /**
   * A release falls within its cap's 60 seconds and its entry's idle and absolute windows, where the absolute
   * deadline is the one set when the entry was inserted, however often it was touched since; and it hands out
   * a secret exactly when the vault holds it, its plugin may consume it and the master decrypts it.
   */
  lemma ReleaseIsInTimeAndExact(c: Config, s: State, steps: seq<Step>, i: nat, rel: Release)
    requires Initial(s) && ReleasedAt(Exec(c, s, steps), i, rel)
    ensures var log := Exec(c, s, steps).hist.log;
            && rel.mint < |log| && log[rel.mint].Minted? && rel.at < log[rel.mint].at + 60_000_000_000
            && rel.birth < |log| && log[rel.birth].Inserted?
            && WithinLifetime(c.absolute, rel.entry.tenant, rel.at - log[rel.birth].entry.createdAt)
            && rel.lastUse < |log| && UseOf(log[rel.lastUse], rel.capEntry.cacheKey, rel.entry.lastUsed)
            && WithinLifetime(c.idle, rel.entry.tenant, rel.at - rel.entry.lastUsed)
    ensures forall out :: out in rel.secrets <==>
              exists k :: 0 <= k < |rel.vault.entries|
                && Releasable(rel.vault.entries[k].1, rel.capEntry.plugin, rel.entry.master) && Plain(rel.vault.entries[k]) == out
    ensures |rel.secrets| == |set k | 0 <= k < |rel.vault.entries|
                                && Releasable(rel.vault.entries[k].1, rel.capEntry.plugin, rel.entry.master)|
  {
    hide Inv, EventOk, Releasable, Plain, Visible, WithinLifetime, Config.IdleFor, Config.AbsoluteFor;
    ReachableInv(c, s, steps);
    LifetimesAreTheKnobs(c, rel.entry.tenant);
    SoundIn(c, Exec(c, s, steps), i, rel);
    TracedIn(c, Exec(c, s, steps), i, rel);
    VisibleCount(rel.vault.entries, rel.capEntry.plugin, rel.entry.master);
    forall out
      ensures out in rel.secrets <==>
              exists k :: 0 <= k < |rel.vault.entries|
                && Releasable(rel.vault.entries[k].1, rel.capEntry.plugin, rel.entry.master) && Plain(rel.vault.entries[k]) == out
    {
      VisibleExact(rel.vault.entries, rel.capEntry.plugin, rel.entry.master, out);
    }
  }

  /**
   * In every reachable state an entry can be used exactly while both its configured windows are open, the absolute
   * one counted from its creation and the idle one from its last use.
   */
  lemma UsableWithinKnobs(c: Config, s: State, steps: seq<Step>, key: Key, now: Time)
    requires Initial(s) && key in Exec(c, s, steps).cache
    ensures IsExpired(Exec(c, s, steps).cache[key], now)
       <==> !(&& var e := Exec(c, s, steps).cache[key];
              && WithinLifetime(c.absolute, e.tenant, now - e.createdAt) && WithinLifetime(c.idle, e.tenant, now - e.lastUsed))
  {
    hide Inv, Exec, WithinLifetime, Config.IdleFor, Config.AbsoluteFor;
    var t := Exec(c, s, steps);
    ReachableInv(c, s, steps);
    EntryOf(c, t, key);
    LifetimesAreTheKnobs(c, t.cache[key].tenant);
    IdleIsNatural(c, t.cache[key].tenant);
  }

  lemma IdleIsNatural(c: Config, tenant: string)
    ensures c.IdleFor(tenant) >= 0
  {
  }

  /** And a sweep leaves exactly the entries whose configured windows are open at the time it captured. */
  lemma SweepLeavesWithinKnobs(c: Config, s: State, steps: seq<Step>, r: nat, key: Key)
    requires Initial(s) && r in Exec(c, s, steps).inflight && Exec(c, s, steps).inflight[r].PruneStarted?
    ensures var t := Exec(c, s, steps);
            var now, after := t.inflight[r].now, DoPruneCache(t, r).cache;
            && (key in after <==>
                  key in t.cache && WithinLifetime(c.absolute, t.cache[key].tenant, now - t.cache[key].createdAt)
                  && WithinLifetime(c.idle, t.cache[key].tenant, now - t.cache[key].lastUsed))
            && (key in after ==> after[key] == t.cache[key])
  {
    hide Exec, IsExpired, WithinLifetime, SweepMetrics;
    var t := Exec(c, s, steps);
    if key in t.cache {
      UsableWithinKnobs(c, s, steps, key, t.inflight[r].now);
    }
  }

  lemma SoundIn(c: Config, s: State, i: nat, rel: Release)
    requires Inv(c, s) && ReleasedAt(s, i, rel)
    ensures ReleaseSound(c, rel) && rel.at <= s.clock
  {
    hide CapOk, EntryOk, PcOk, RevocationsOk, ReleaseSound, ReleaseTraced;
    assert EventOk(c, s, i);
  }

  // --- Deadlines ---

  ghost predicate SameButUse(a: CacheEntry, b: CacheEntry) {
    b == a.(lastUsed := b.lastUsed)
  }

  /** A step that leaves an entry in place changes nothing of it but its last use. */
  lemma StepKeepsDeadline(c: Config, s: State, step: Step, key: Key)
    requires key in s.cache && key in Apply(c, s, step).cache
    ensures SameButUse(s.cache[key], Apply(c, s, step).cache[key])
  {
    hide Apply;
    match step
    case CheckCache(r) => CheckCacheKeepsDeadline(c, s, r, key);
    case FetchCache(r, ioFails) => FetchKeepsDeadline(c, s, r, ioFails, key);
    case PruneCache(r) => PruneKeepsDeadline(c, s, r, key);
    case _ => OnlyThreeTouchTheCache(c, s, step);
  }

  lemma CheckCacheKeepsDeadline(c: Config, s: State, r: nat, key: Key)
    requires key in s.cache
    ensures key in Apply(c, s, CheckCache(r)).cache && SameButUse(s.cache[key], Apply(c, s, CheckCache(r)).cache[key])
  {
    hide Encode, CacheKey, FreshEntry;
  }

  lemma FetchKeepsDeadline(c: Config, s: State, r: nat, ioFails: bool, key: Key)
    requires key in s.cache && key in Apply(c, s, FetchCache(r, ioFails)).cache
    ensures SameButUse(s.cache[key], Apply(c, s, FetchCache(r, ioFails)).cache[key])
  {
    hide FetchPayload, IsExpired;
  }

  lemma PruneKeepsDeadline(c: Config, s: State, r: nat, key: Key)
    requires key in s.cache && key in Apply(c, s, PruneCache(r)).cache
    ensures SameButUse(s.cache[key], Apply(c, s, PruneCache(r)).cache[key])
  {
    hide StaleKeys, SweepMetrics;
  }

  lemma OnlyThreeTouchTheCache(c: Config, s: State, step: Step)
    requires !step.CheckCache? && !step.FetchCache? && !step.PruneCache?
    ensures Apply(c, s, step).cache == s.cache
  {
    hide DoLogin, DoRename, DoProvision, DoWriteVault, DoBeginCheck, DoCheckValidate, DoCheckName, DoCheckUnlock,
         DoCheckCache, DoCheckMint, DoCheckMissEvict, DoBeginFetch, DoFetchCaps, DoFetchCache, DoFetchEvict, DoBeginPrune, DoPruneCache,
         DoPruneCaps, DoBeginRevoke, DoRevokeMark, DoRevokeEvict, DoBeginLogout, DoLogoutValidate, DoLogoutName, DoLogoutEvict, DoLogoutRevoke;
  }

  /** Through any stretch of a run in which an entry stays cached, its deadlines and its master never move. */
  lemma {:induction false} DeadlineNeverMoves(c: Config, s: State, steps: seq<Step>, key: Key)
    requires forall n :: 0 <= n <= |steps| ==> key in Exec(c, s, steps[..n]).cache
    ensures key in s.cache && key in Exec(c, s, steps).cache
    ensures SameButUse(s.cache[key], Exec(c, s, steps).cache[key])
  {
    hide Apply;
    assert steps[..0] == [] && steps[..|steps|] == steps;
    if steps != [] {
      var n := |steps| - 1;
      forall m | 0 <= m <= n
        ensures key in Exec(c, s, steps[..n][..m]).cache
      {
        assert steps[..n][..m] == steps[..m];
      }
      DeadlineNeverMoves(c, s, steps[..n], key);
      StepKeepsDeadline(c, Exec(c, s, steps[..n]), steps[n], key);
    }
  }

  // --- The cache is invisible ---

  /** A broker without a cache: unlock from the bearer's lease and read. */
  function CachelessFetch(c: Config, leases: Leases, vaults: Vaults, tenant: string, bearer: Bytes, plugin: string): FetchOutcome {
    if bearer !in leases || leases[bearer].wrapped.None? then Evicted
    else
      var root := c.VaultRoot(tenant);
      match UnlockMaster(c, vaults, root, leases[bearer].wrapped.value)
      case Unlocked(master) => Payload(tenant, plugin, Visible(vaults[root].entries, plugin, master))
      case _ => Evicted
  }

  /** A usable entry answers every fetch as unlocking afresh would, and so never fails to open its vault. */
  lemma CacheRefinesCacheless(c: Config, s: State, steps: seq<Step>, tenant: string, bearer: Bytes, plugin: string, now: Time)
    requires Initial(s) && |bearer| == BEARER_BYTES
    requires Usable(Exec(c, s, steps).cache, CacheKey(tenant, Encode(bearer)), now)
    ensures var t := Exec(c, s, steps);
            FetchPayload(t.cache, t.vaults, CacheKey(tenant, Encode(bearer)), plugin, now)
            == CachelessFetch(c, t.leases, t.vaults, tenant, bearer, plugin)
  {
    hide Inv, IsExpired, Encode, Visible;
    ReachableInv(c, s, steps);
    EntryIsFresh(c, Exec(c, s, steps), tenant, bearer);
  }

  lemma EntryIsFresh(c: Config, s: State, tenant: string, bearer: Bytes)
    requires Inv(c, s) && |bearer| == BEARER_BYTES && CacheKey(tenant, Encode(bearer)) in s.cache
    ensures var e := s.cache[CacheKey(tenant, Encode(bearer))];
            && e.tenant == tenant && e.vaultRoot == c.VaultRoot(tenant)
            && UnlocksTo(c, s, tenant, bearer, e.master)
  {
    hide Inv, Encode, UnlockMaster;
    var key := CacheKey(tenant, Encode(bearer));
    EntryOf(c, s, key);
    CacheKeyInjective(tenant, bearer, s.cache[key].tenant, s.hist.log[s.hist.birth[key]].bearer);
  }

  /** Discarding the master a check has just unlocked, when the entry is already there, loses nothing. */
  lemma TouchIsHarmless(c: Config, s: State, steps: seq<Step>, r: nat)
    requires Initial(s)
    requires r in Exec(c, s, steps).inflight && Exec(c, s, steps).inflight[r].CheckUnlocked?
    ensures var t := Exec(c, s, steps);
            var pc := t.inflight[r];
            var key := CacheKey(pc.tenant, Encode(pc.req.bearer));
            key in t.cache ==>
              var rebuilt := FreshEntry(c, pc.tenant, pc.master, t.cache[key].createdAt);
              SameButUse(rebuilt, t.cache[key])
  {
    hide Inv, Encode, UnlockMaster;
    var t := Exec(c, s, steps);
    var pc := t.inflight[r];
    ReachableInv(c, s, steps);
    PcOf(c, t, r);
    var key := CacheKey(pc.tenant, Encode(pc.req.bearer));
    if key in t.cache {
      EntryIsFresh(c, t, pc.tenant, pc.req.bearer);
      EntryOf(c, t, key);
    }
  }

  // --- Caps ---

  lemma OnlyMintMints(c: Config, s: State, step: Step)
    requires !step.CheckMint?
    ensures Apply(c, s, step).hist.minted == s.hist.minted
  {
    hide DoLogin, DoRename, DoProvision, DoWriteVault, DoBeginCheck, DoCheckValidate, DoCheckName, DoCheckUnlock,
         DoCheckCache, DoCheckMint, DoCheckMissEvict, DoBeginFetch, DoFetchCaps, DoFetchCache, DoFetchEvict, DoBeginPrune, DoPruneCache,
         DoPruneCaps, DoBeginRevoke, DoRevokeMark, DoRevokeEvict, DoBeginLogout, DoLogoutValidate, DoLogoutName, DoLogoutEvict, DoLogoutRevoke;
  }

  lemma OnlyMintAddsCaps(c: Config, s: State, step: Step)
    requires !step.CheckMint?
    ensures Apply(c, s, step).caps.Keys <= s.caps.Keys
  {
    hide DoLogin, DoRename, DoProvision, DoWriteVault, DoBeginCheck, DoCheckValidate, DoCheckName, DoCheckUnlock,
         DoCheckCache, DoCheckMint, DoCheckMissEvict, DoBeginFetch, DoFetchCaps, DoFetchCache, DoFetchEvict, DoBeginPrune, DoPruneCache,
         DoPruneCaps, DoBeginRevoke, DoRevokeMark, DoRevokeEvict, DoBeginLogout, DoLogoutValidate, DoLogoutName, DoLogoutEvict, DoLogoutRevoke;
  }

  lemma StepNeverRestoresCap(c: Config, s: State, step: Step, cap: CapId)
    requires cap in s.hist.minted && cap !in s.caps
    ensures var t := Apply(c, s, step); cap in t.hist.minted && cap !in t.caps
  {
    if !step.CheckMint? {
      hide Apply;
      OnlyMintMints(c, s, step);
      OnlyMintAddsCaps(c, s, step);
    } else {
      hide Encode, CacheKey;
    }
  }

  /** A cap that is gone, by expiry, prune, logout or revocation, never comes back. */
  lemma {:induction false} GoneForGood(c: Config, s: State, steps: seq<Step>, cap: CapId)
    requires cap in s.hist.minted && cap !in s.caps
    ensures var t := Exec(c, s, steps); cap in t.hist.minted && cap !in t.caps
  {
    hide Apply;
    if steps != [] {
      var n := |steps| - 1;
      GoneForGood(c, s, steps[..n], cap);
      StepNeverRestoresCap(c, Exec(c, s, steps[..n]), steps[n], cap);
    }
  }

  /**
   * A sweep's caps region at captured time `now` leaves exactly the caps that have not expired by then and
   * whose entry this sweep did not evict: whether or not a cap's entry exists, it does not outlive the first
   * sweep past its expiry.
   */
  lemma SweepClearsExpiredCaps(s: State, r: nat, cap: CapId)
    requires r in s.inflight && s.inflight[r].PruneSwept?
    ensures var t := DoPruneCaps(s, r);
            cap in t.caps <==> cap in s.caps && s.inflight[r].now < s.caps[cap].expiresAt && s.caps[cap].cacheKey !in s.inflight[r].keys
  {
  }

  /** The fetch that made this release had looked its cap up by then. */
  ghost predicate FromFlight(s: State, rel: Release) {
    exists q :: q in s.inflight && s.inflight[q] == FetchHeld(rel.cap, rel.capEntry, rel.at)
  }

  /** From `start` on, the cap is gone, and only fetches that held it at `start` hold it or have released for it. */
  ghost predicate Spent(start: State, t: State, cap: CapId) {
    && cap in t.hist.minted && cap !in t.caps && |start.hist.log| <= |t.hist.log|
    && (forall q :: q in t.inflight && t.inflight[q].FetchHeld? && t.inflight[q].cap == cap ==>
          q in start.inflight && start.inflight[q] == t.inflight[q])
    && (forall i :: |start.hist.log| <= i < |t.hist.log| && t.hist.log[i].Released? && t.hist.log[i].release.cap == cap ==>
          FromFlight(start, t.hist.log[i].release))
  }

  /** Only a lookup that finds the cap makes a fetch hold it. */
  lemma HeldFrom(c: Config, s: State, step: Step, q: nat)
    requires q in Apply(c, s, step).inflight && Apply(c, s, step).inflight[q].FetchHeld?
    ensures q in s.inflight
    ensures Apply(c, s, step).inflight[q] == s.inflight[q] || Apply(c, s, step).inflight[q].cap in s.caps
  {
    hide Apply, Inv;
    if OfCheck(step) {
      CheckHoldsNothing(c, s, step, q);
    } else if step.BeginFetch? || step.FetchCaps? || step.FetchCache? || step.FetchEvict? {
      FetchHolds(c, s, step, q);
    } else {
      RestHoldsNothing(c, s, step, q);
    }
  }

  lemma CheckHoldsNothing(c: Config, s: State, step: Step, q: nat)
    requires OfCheck(step) && q in Apply(c, s, step).inflight && Apply(c, s, step).inflight[q].FetchHeld?
    ensures q in s.inflight && Apply(c, s, step).inflight[q] == s.inflight[q]
  {
    hide Apply, Inv;
    if step.CheckCache? || step.CheckMint? || step.CheckMissEvict? {
      LateCheckHoldsNothing(c, s, step, q);
    } else {
      EarlyCheckHoldsNothing(c, s, step, q);
    }
  }

  lemma LateCheckHoldsNothing(c: Config, s: State, step: Step, q: nat)
    requires step.CheckCache? || step.CheckMint? || step.CheckMissEvict?
    requires q in Apply(c, s, step).inflight && Apply(c, s, step).inflight[q].FetchHeld?
    ensures q in s.inflight && Apply(c, s, step).inflight[q] == s.inflight[q]
  {
    hide DoLogin, DoRename, DoProvision, DoWriteVault, DoBeginCheck, DoCheckValidate, DoCheckName, DoCheckUnlock, DoBeginFetch,
         DoFetchCaps, DoFetchCache, DoFetchEvict, DoBeginPrune, DoPruneCache, DoPruneCaps, DoBeginRevoke, DoRevokeMark, DoRevokeEvict,
         DoBeginLogout, DoLogoutValidate, DoLogoutName, DoLogoutEvict, DoLogoutRevoke, Encode, CacheKey, FreshEntry, TouchOrInsert,
         MintCap, EvictCapsForKey;
  }

  lemma EarlyCheckHoldsNothing(c: Config, s: State, step: Step, q: nat)
    requires OfCheck(step) && !step.CheckCache? && !step.CheckMint? && !step.CheckMissEvict?
    requires q in Apply(c, s, step).inflight && Apply(c, s, step).inflight[q].FetchHeld?
    ensures q in s.inflight && Apply(c, s, step).inflight[q] == s.inflight[q]
  {
    hide DoLogin, DoRename, DoProvision, DoWriteVault, DoBeginCheck, DoCheckValidate, DoCheckName, DoCheckUnlock, DoCheckCache,
         DoCheckMint, DoCheckMissEvict, DoBeginFetch, DoFetchCaps, DoFetchCache, DoFetchEvict, DoBeginPrune, DoPruneCache, DoPruneCaps,
         DoBeginRevoke, DoRevokeMark, DoRevokeEvict, DoBeginLogout, DoLogoutValidate, DoLogoutName, DoLogoutEvict, DoLogoutRevoke;
    match step
    case BeginCheck(r, scope, namespace, plugin, text) => BeginCheckHoldsNothing(s, r, scope, namespace, plugin, text, q);
    case CheckValidate(r, dbFails) => CheckValidateHoldsNothing(s, r, dbFails, q);
    case CheckName(r, dbFails) => CheckNameHoldsNothing(s, r, dbFails, q);
    case CheckUnlock(r, salt, ioFails) => CheckUnlockHoldsNothing(c, s, r, salt, ioFails, q);
    case _ =>
  }

  lemma BeginCheckHoldsNothing(s: State, r: nat, scope: Option<string>, namespace: string, plugin: string, text: string, q: nat)
    ensures var t := DoBeginCheck(s, r, scope, namespace, plugin, text);
            q in t.inflight && t.inflight[q].FetchHeld? ==> q in s.inflight && t.inflight[q] == s.inflight[q]
  {
    hide Decode;
  }

  lemma CheckValidateHoldsNothing(s: State, r: nat, dbFails: bool, q: nat)
    ensures var t := DoCheckValidate(s, r, dbFails);
            q in t.inflight && t.inflight[q].FetchHeld? ==> q in s.inflight && t.inflight[q] == s.inflight[q]
  {
    hide Validate, LeasesAfterValidate, Encode, CacheKey;
  }

  lemma CheckNameHoldsNothing(s: State, r: nat, dbFails: bool, q: nat)
    ensures var t := DoCheckName(s, r, dbFails);
            q in t.inflight && t.inflight[q].FetchHeld? ==> q in s.inflight && t.inflight[q] == s.inflight[q]
  {
  }

  lemma CheckUnlockHoldsNothing(c: Config, s: State, r: nat, salt: Bytes, ioFails: bool, q: nat)
    ensures var t := DoCheckUnlock(c, s, r, salt, ioFails);
            q in t.inflight && t.inflight[q].FetchHeld? ==> q in s.inflight && t.inflight[q] == s.inflight[q]
  {
    hide UnlockMaster, VaultsAfterUnlock;
  }

  lemma FetchHolds(c: Config, s: State, step: Step, q: nat)
    requires step.BeginFetch? || step.FetchCaps? || step.FetchCache? || step.FetchEvict?
    requires q in Apply(c, s, step).inflight && Apply(c, s, step).inflight[q].FetchHeld?
    ensures q in s.inflight
    ensures Apply(c, s, step).inflight[q] == s.inflight[q] || Apply(c, s, step).inflight[q].cap in s.caps
  {
    hide DoLogin, DoRename, DoProvision, DoWriteVault, DoBeginCheck, DoCheckValidate, DoCheckName, DoCheckUnlock, DoCheckCache,
         DoCheckMint, DoCheckMissEvict, DoBeginPrune, DoPruneCache, DoPruneCaps, DoBeginRevoke, DoRevokeMark, DoRevokeEvict,
         DoBeginLogout, DoLogoutValidate, DoLogoutName, DoLogoutEvict, DoLogoutRevoke, Decode, FetchPayload, Usable, IsExpired,
         CapIsExpired, CacheAfterFetch, EvictCapsForKey;
  }

  lemma RestHoldsNothing(c: Config, s: State, step: Step, q: nat)
    requires !OfCheck(step) && !step.BeginFetch? && !step.FetchCaps? && !step.FetchCache? && !step.FetchEvict?
    requires q in Apply(c, s, step).inflight && Apply(c, s, step).inflight[q].FetchHeld?
    ensures q in s.inflight && Apply(c, s, step).inflight[q] == s.inflight[q]
  {
    hide DoLogin, DoRename, DoProvision, DoWriteVault, DoBeginCheck, DoCheckValidate, DoCheckName, DoCheckUnlock, DoCheckCache,
         DoCheckMint, DoCheckMissEvict, DoBeginFetch, DoFetchCaps, DoFetchCache, DoFetchEvict, Encode, Decode, CacheKey, Validate,
         LeasesAfterValidate, StaleKeys, SweepMetrics, PruneCaps, EvictCapsForKey, EvictCapsForLease, RevokeById, RevokeByBearer,
         NoteRevoked, HasLease;
  }

  /** A step logs at most one event, and only a fetch that holds a cap logs a release. */
  lemma ReleasedFrom(c: Config, s: State, step: Step, i: nat)
    requires |s.hist.log| <= i < |Apply(c, s, step).hist.log| && Apply(c, s, step).hist.log[i].Released?
    ensures FromFlight(s, Apply(c, s, step).hist.log[i].release)
  {
    hide Apply, FromFlight;
    match step
    case FetchCache(r, ioFails) =>
      FetchCacheApplies(c, s, r, ioFails);
      FetchReleasesHeld(s, r, ioFails, i);
    case CheckCache(_) => OthersReleaseNothing(c, s, step, i);
    case CheckMint(_, _) => OthersReleaseNothing(c, s, step, i);
    case RevokeMark(_, _) => OthersReleaseNothing(c, s, step, i);
    case LogoutRevoke(_, _) => OthersReleaseNothing(c, s, step, i);
    case _ => MostLogNothing(c, s, step);
  }

  lemma FetchReleasesHeld(s: State, r: nat, ioFails: bool, i: nat)
    requires var t := DoFetchCache(s, r, ioFails); |s.hist.log| <= i < |t.hist.log| && t.hist.log[i].Released?
    ensures FromFlight(s, DoFetchCache(s, r, ioFails).hist.log[i].release)
  {
    hide DoFetchCache, FromFlight;
    FetchLogs(s, r, ioFails);
    InFlight(s, r, DoFetchCache(s, r, ioFails).hist.log[i].release);
  }

  lemma FetchLogs(s: State, r: nat, ioFails: bool)
    ensures var log, n := DoFetchCache(s, r, ioFails).hist.log, |s.hist.log|;
            || log == s.hist.log
            || (&& |log| == n + 1 && log[n].Released? && r in s.inflight
                && s.inflight[r] == FetchHeld(log[n].release.cap, log[n].release.capEntry, log[n].release.at))
  {
    hide FetchPayload, Usable, IsExpired, CacheAfterFetch, DoFetchCache;
    if r in s.inflight && s.inflight[r].FetchHeld? {
      var pc := s.inflight[r];
      if !(ioFails && Usable(s.cache, pc.entry.cacheKey, pc.now))
         && FetchPayload(s.cache, s.vaults, pc.entry.cacheKey, pc.entry.plugin, pc.now).Payload? {
        PayloadLogs(s, r, ioFails);
      } else {
        DropLogs(s, r, ioFails);
      }
    } else {
      DropLogs(s, r, ioFails);
    }
  }

  lemma PayloadLogs(s: State, r: nat, ioFails: bool)
    requires r in s.inflight && s.inflight[r].FetchHeld?
    requires var pc := s.inflight[r];
             && !(ioFails && Usable(s.cache, pc.entry.cacheKey, pc.now))
             && FetchPayload(s.cache, s.vaults, pc.entry.cacheKey, pc.entry.plugin, pc.now).Payload?
    ensures var log, n := DoFetchCache(s, r, ioFails).hist.log, |s.hist.log|;
            && |log| == n + 1 && log[n].Released?
            && s.inflight[r] == FetchHeld(log[n].release.cap, log[n].release.capEntry, log[n].release.at)
  {
    hide FetchPayload, Usable, IsExpired, CacheAfterFetch, Position;
  }

  lemma DropLogs(s: State, r: nat, ioFails: bool)
    requires r in s.inflight && s.inflight[r].FetchHeld? ==>
               var pc := s.inflight[r];
               || (ioFails && Usable(s.cache, pc.entry.cacheKey, pc.now))
               || FetchPayload(s.cache, s.vaults, pc.entry.cacheKey, pc.entry.plugin, pc.now).Evicted?
    ensures DoFetchCache(s, r, ioFails).hist.log == s.hist.log
  {
    hide FetchPayload, Usable, IsExpired, CacheAfterFetch, Position;
  }

  lemma InFlight(s: State, r: nat, rel: Release)
    requires r in s.inflight && s.inflight[r] == FetchHeld(rel.cap, rel.capEntry, rel.at)
    ensures FromFlight(s, rel)
  {
  }

  lemma FetchCacheApplies(c: Config, s: State, r: nat, ioFails: bool)
    ensures Apply(c, s, FetchCache(r, ioFails)) == DoFetchCache(s, r, ioFails)
  {
    hide DoFetchCache;
  }

  lemma OthersReleaseNothing(c: Config, s: State, step: Step, i: nat)
    requires step.CheckCache? || step.CheckMint? || step.RevokeMark? || step.LogoutRevoke?
    requires |s.hist.log| <= i < |Apply(c, s, step).hist.log|
    ensures !Apply(c, s, step).hist.log[i].Released?
  {
    hide DoLogin, DoRename, DoProvision, DoWriteVault, DoBeginCheck, DoCheckValidate, DoCheckName, DoCheckUnlock, DoCheckMissEvict,
         DoBeginFetch, DoFetchCaps, DoFetchCache, DoFetchEvict, DoBeginPrune, DoPruneCache, DoPruneCaps, DoBeginRevoke, DoRevokeEvict,
         DoBeginLogout, DoLogoutValidate, DoLogoutName, DoLogoutEvict, Encode, CacheKey, FreshEntry, TouchOrInsert, MintCap, RevokeById,
         RevokeByBearer, HasLease;
  }

  lemma MostLogNothing(c: Config, s: State, step: Step)
    requires !step.FetchCache? && !step.CheckCache? && !step.CheckMint? && !step.RevokeMark? && !step.LogoutRevoke?
    ensures Apply(c, s, step).hist == s.hist
  {
    hide DoLogin, DoRename, DoProvision, DoWriteVault, DoBeginCheck, DoCheckValidate, DoCheckName, DoCheckUnlock, DoCheckCache,
         DoCheckMint, DoCheckMissEvict, DoBeginFetch, DoFetchCaps, DoFetchCache, DoFetchEvict, DoBeginPrune, DoPruneCache, DoPruneCaps,
         DoBeginRevoke, DoRevokeMark, DoRevokeEvict, DoBeginLogout, DoLogoutValidate, DoLogoutName, DoLogoutEvict, DoLogoutRevoke;
  }

  lemma StaysSpent(c: Config, start: State, s: State, step: Step, cap: CapId)
    requires Spent(start, s, cap) && HistoryExtends(s, Apply(c, s, step))
    ensures Spent(start, Apply(c, s, step), cap)
  {
    hide Apply, FromFlight;
    var t := Apply(c, s, step);
    StepNeverRestoresCap(c, s, step, cap);
    forall q | q in t.inflight && t.inflight[q].FetchHeld? && t.inflight[q].cap == cap
      ensures q in start.inflight && start.inflight[q] == t.inflight[q]
    {
      HeldFrom(c, s, step, q);
    }
    forall i | |start.hist.log| <= i < |t.hist.log| && t.hist.log[i].Released? && t.hist.log[i].release.cap == cap
      ensures FromFlight(start, t.hist.log[i].release)
    {
      if i >= |s.hist.log| {
        ReleasedFrom(c, s, step, i);
        HeldAlready(start, s, t.hist.log[i].release);
      }
    }
  }

  lemma HeldAlready(start: State, s: State, rel: Release)
    requires Spent(start, s, rel.cap) && FromFlight(s, rel)
    ensures FromFlight(start, rel)
  {
  }

  lemma {:induction false} SpentForGood(c: Config, s: State, steps: seq<Step>, cap: CapId)
    requires Inv(c, s) && cap in s.hist.minted && cap !in s.caps
    ensures Spent(s, Exec(c, s, steps), cap)
  {
    hide Inv, Apply, Spent, Extends;
    if steps == [] {
      SpentNow(s, cap);
    } else {
      var n := |steps| - 1;
      SpentForGood(c, s, steps[..n], cap);
      RunKeeps(c, s, steps[..n]);
      StepKeeps(c, Exec(c, s, steps[..n]), steps[n]);
      HistoryOf(Exec(c, s, steps[..n]), Exec(c, s, steps));
      StaysSpent(c, s, Exec(c, s, steps[..n]), steps[n], cap);
    }
  }

  lemma HistoryOf(s: State, t: State)
    requires Extends(s, t)
    ensures HistoryExtends(s, t)
  {
    hide HistoryExtends;
  }

  lemma SpentNow(s: State, cap: CapId)
    requires cap in s.hist.minted && cap !in s.caps
    ensures Spent(s, s, cap)
  {
  }

  /** When the cap's 60 seconds are over. */
  function Deadline(s: State, cap: CapId): Time
    requires cap in s.hist.minted && s.hist.minted[cap] < |s.hist.log| && s.hist.log[s.hist.minted[cap]].Minted?
  {
    s.hist.log[s.hist.minted[cap]].at + CAP_TTL
  }

  ghost predicate Minting(s: State, cap: CapId) {
    cap in s.hist.minted && s.hist.minted[cap] < |s.hist.log| && s.hist.log[s.hist.minted[cap]].Minted?
  }

  /** A held cap has the deadline of its minting, and was looked up before it. */
  lemma HeldInTime(c: Config, s: State, rel: Release)
    requires Inv(c, s) && Minting(s, rel.cap) && FromFlight(s, rel)
    ensures rel.at < Deadline(s, rel.cap)
  {
    hide Inv;
    var q :| q in s.inflight && s.inflight[q] == FetchHeld(rel.cap, rel.capEntry, rel.at);
    PcOf(c, s, q);
  }

  /**
   * Nothing outlives the first sweep past its expiry, whether or not its cache entry exists. Once a sweep that
   * captured its time at or past a cap's deadline has gone through the caps, the cap is gone in the rest of the
   * run, and the only releases for it are those of fetches that had looked it up when the sweep did so, and had
   * captured their time before the deadline.
   */
  lemma SweptCapIsSpent(c: Config, s: State, before: seq<Step>, r: nat, after: seq<Step>, cap: CapId, i: nat, rel: Release)
    requires Initial(s)
    requires var mid := Exec(c, s, before);
             r in mid.inflight && mid.inflight[r].PruneSwept? && Minting(mid, cap) && Deadline(mid, cap) <= mid.inflight[r].now
    ensures var mid, end := Exec(c, s, before), Exec(c, s, before + [PruneCapsStep(r)] + after);
            && cap !in end.caps
            && (ReleasedAt(end, i, rel) && rel.cap == cap && i >= |mid.hist.log| ==> FromFlight(mid, rel) && rel.at < Deadline(mid, cap))
  {
    hide Exec, Inv, Initial, Spent, DoPruneCaps, Deadline, Minting, FromFlight;
    var mid := Exec(c, s, before);
    var swept := Exec(c, s, before + [PruneCapsStep(r)]);
    ReachableInv(c, s, before);
    ReachableInv(c, s, before + [PruneCapsStep(r)]);
    SweepStep(c, s, before, r);
    SweepClears(c, mid, r, cap);
    SpentForGood(c, swept, after, cap);
    SpentIsGone(swept, Exec(c, swept, after), cap);
    ExecSplit(c, s, before + [PruneCapsStep(r)], after);
    var end := Exec(c, s, before + [PruneCapsStep(r)] + after);
    if ReleasedAt(end, i, rel) && rel.cap == cap && i >= |mid.hist.log| {
      SpentRelease(swept, end, i, rel);
      assert FromFlight(mid, rel) by { FlightBefore(mid, swept, r, rel); }
      HeldInTime(c, mid, rel);
    }
  }

  lemma SweepStep(c: Config, s: State, before: seq<Step>, r: nat)
    ensures Exec(c, s, before + [PruneCapsStep(r)]) == DoPruneCaps(Exec(c, s, before), r)
  {
    hide DoPruneCaps;
    assert (before + [PruneCapsStep(r)])[..|before|] == before;
  }

  lemma SweepClears(c: Config, s: State, r: nat, cap: CapId)
    requires Inv(c, s) && r in s.inflight && s.inflight[r].PruneSwept? && Minting(s, cap) && Deadline(s, cap) <= s.inflight[r].now
    ensures var t := DoPruneCaps(s, r);
            && cap in t.hist.minted && cap !in t.caps && t.hist == s.hist && t.inflight == s.inflight - {r}
  {
    hide Inv, DoPruneCaps;
    SweepClearsExpiredCaps(s, r, cap);
    SweepOnlyCaps(s, r);
    if cap in s.caps {
      CapOf(c, s, cap);
    }
  }

  lemma SweepOnlyCaps(s: State, r: nat)
    requires r in s.inflight && s.inflight[r].PruneSwept?
    ensures DoPruneCaps(s, r).hist == s.hist && DoPruneCaps(s, r).inflight == s.inflight - {r}
  {
    hide PruneCaps;
  }

  lemma SpentIsGone(start: State, t: State, cap: CapId)
    requires Spent(start, t, cap)
    ensures cap !in t.caps
  {
    hide FromFlight;
  }

  lemma SpentRelease(start: State, t: State, i: nat, rel: Release)
    requires Spent(start, t, rel.cap) && ReleasedAt(t, i, rel) && i >= |start.hist.log|
    ensures FromFlight(start, rel)
  {
    hide FromFlight;
  }

  lemma FlightBefore(s: State, t: State, r: nat, rel: Release)
    requires t.inflight == s.inflight - {r} && FromFlight(t, rel)
    ensures FromFlight(s, rel)
  {
  }

  /** A cap whose entry is not cached releases nothing; the fetch that tries it clears every cap of that key. */
  lemma OrphanReleasesNothing(c: Config, s: State, r: nat, ioFails: bool)
    requires r in s.inflight && s.inflight[r].FetchHeld? && s.inflight[r].entry.cacheKey !in s.cache
    ensures var t := DoFetchCache(s, r, ioFails);
            t.hist.log == s.hist.log && t.cache == s.cache
            && forall cap :: cap in DoFetchEvict(t, r).caps ==> DoFetchEvict(t, r).caps[cap].cacheKey != s.inflight[r].entry.cacheKey
  {
    assert s.cache - {s.inflight[r].entry.cacheKey} == s.cache;
  }

  /** In every run each counted insertion is still cached, was evicted idle or absolute, or was dropped by a fetch. */
  lemma InsertsAreConserved(c: Config, s: State, steps: seq<Step>)
    requires Initial(s)
    ensures var t := Exec(c, s, steps);
            t.metrics.inserts == |t.cache| + t.metrics.evictionsIdle + t.metrics.evictionsAbsolute + t.hist.dropped
  {
    hide Inv;
    ReachableInv(c, s, steps);
    CountOf(c, Exec(c, s, steps));
  }
}
