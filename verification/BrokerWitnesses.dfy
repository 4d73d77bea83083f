/** Runs that reach the limits of what the theorems promise. */
module BrokerWitnesses {
  import opened Wrappers
  import opened Base64
  import opened BrokerState
  import opened BrokerMachine
  import opened BrokerSafety
  import opened BrokerTheorems
  import opened BrokerSerial
  import opened SerialTheorems

  /** A broker just started over one tenant, one live lease and that tenant's vault. */
  function Start(c: Config, name: string, bearer: Bytes, exportKey: Bytes): State {
    State(0, map[bearer := Lease(0, 0, Some(exportKey), LEASE_IDLE_WINDOW, LEASE_IDLE_WINDOW, None)], map[0 := name],
          map[c.VaultRoot(name) := CreateVault(c, exportKey, [])],
          map[], map[], Metrics(0, 0, 0), map[], History([], map[], map[], map[], map[], 0))
  }

  lemma StartIsInitial(c: Config, name: string, bearer: Bytes, exportKey: Bytes)
    requires |bearer| == BEARER_BYTES
    ensures Initial(Start(c, name, bearer, exportKey))
  {
  }

  // --- A logout that misses a cap ---

  function CheckOp(bearer: Bytes, cap: CapId): Op {
    Check(CheckInput(None, "ns", "plugin", Encode(bearer)), [], cap, CheckFaults(false, false, false))
  }

  function Renamed(s: State, name: string): State {
    s.(tenants := s.tenants[0 := name])
  }

  lemma BearerTextDecodes(bearer: Bytes)
    requires |bearer| == BEARER_BYTES
    ensures DecodeBearer(Encode(bearer)) == Some(bearer)
  {
    hide Encode, Decode;
    DecodeEncode(bearer);
  }

  /** A check against the starting tables caches the master and mints its cap. */
  lemma StartChecks(c: Config, name: string, bearer: Bytes, exportKey: Bytes, cap: CapId)
    requires |bearer| == BEARER_BYTES && |cap| == CAP_BYTES
    ensures var s := Start(c, name, bearer, exportKey);
            var t := Perform(c, s, CheckOp(bearer, cap));
            var key := CacheKey(name, Encode(bearer));
            && t.clock == 0 && t.tenants == s.tenants && t.leases == s.leases
            && cap in t.caps && t.caps[cap].cacheKey == key && t.caps[cap].leaseId == 0 && t.caps[cap].expiresAt == CAP_TTL
            && key in t.cache && t.cache[key].expiresAt >= 0 && t.cache[key].lastUsed == 0 && t.cache[key].idleTtl >= 0
  {
    hide Encode, Decode, CacheKey;
    BearerTextDecodes(bearer);
    var s := Start(c, name, bearer, exportKey);
    assert Validate(s.leases, bearer, 0) == Valid(s.leases[bearer], exportKey);
    assert s.leases[bearer := s.leases[bearer]] == s.leases;
  }

  /** The logout of this bearer would complete and yet miss this cap. */
  predicate Misses(s: State, text: string, cap: CapId) {
    && Completes(s, text, LogoutFaults(false, false, false))
    && var bearer := DecodeBearer(text).value;
    Stray(s, bearer, Validate(s.leases, bearer, s.clock).lease, cap)
  }

  /** From start-up: a check, a rename of the tenant, and the logout leaves the cap live. */
  lemma StrayIsReachable(c: Config, bearer: Bytes, exportKey: Bytes, cap: CapId)
    requires |bearer| == BEARER_BYTES && |cap| == CAP_BYTES
    ensures var s := Start(c, "a", bearer, exportKey);
            var t := Serve(c, s, [CheckOp(bearer, cap), World(Rename(0, "b"))]);
            Initial(s) && SerialInv(c, t) && Misses(t, Encode(bearer), cap)
  {
    hide Encode, Decode, CacheKey, Initial, Inv, Perform, SerialInv, Extends, Start, CheckOp;
    var s := Start(c, "a", bearer, exportKey);
    var ops := [CheckOp(bearer, cap), World(Rename(0, "b"))];
    StartIsInitial(c, "a", bearer, exportKey);
    StartKeeps(c, s, ops);
    assert ops[..1] == [CheckOp(bearer, cap)];
    ServeOne(c, s, CheckOp(bearer, cap));
    StartChecks(c, "a", bearer, exportKey, cap);
    BearerTextDecodes(bearer);
    StartLease(c, "a", bearer, exportKey);
    RenameTakes(c, Serve(c, s, ops[..1]), "b");
    KeysDiffer(bearer);
  }

  lemma StartKeeps(c: Config, s: State, ops: seq<Op>)
    requires Initial(s)
    ensures SerialInv(c, Serve(c, s, ops))
  {
    hide Inv, Serve, Extends;
    InitialInv(c, s);
    ServeKeeps(c, s, ops);
  }

  lemma StartLease(c: Config, name: string, bearer: Bytes, exportKey: Bytes)
    ensures var s := Start(c, name, bearer, exportKey);
            && bearer in s.leases && Validate(s.leases, bearer, 0) == Valid(s.leases[bearer], exportKey)
            && s.leases[bearer].tenantId == 0 && s.leases[bearer].id == 0
  {
  }

  lemma RenameTakes(c: Config, s: State, name: string)
    ensures Perform(c, s, World(Rename(0, name))) == Renamed(s, name)
  {
  }

  lemma KeysDiffer(bearer: Bytes)
    ensures CacheKey("a", Encode(bearer)) != CacheKey("b", Encode(bearer))
  {
    assert CacheKey("a", Encode(bearer))[0] == 'a';
    assert CacheKey("b", Encode(bearer))[0] == 'b';
  }

  // --- A cap minted after its lease's revocation has cleared the caps ---

  function CheckUpToCache(bearer: Bytes): seq<Step> {
    [BeginCheck(1, None, "ns", "plugin", Encode(bearer))] + [CheckValidate(1, false)] + [CheckName(1, false)]
    + [CheckUnlock(1, [], false)] + [CheckCache(1)]
  }

  /** The check stops short of minting; the lease is revoked and its caps cleared; the check mints; a fetch. */
  function LateMint(bearer: Bytes, cap: CapId): seq<Step> {
    UpToRevoked(bearer) + [CheckMint(1, cap)] + [Tick(CAP_TTL - 1)] + [BeginFetch(3, Encode(cap))] + [FetchCaps(3)]
    + [FetchCache(3, false)]
  }

  function UpToRevoked(bearer: Bytes): seq<Step> {
    CheckUpToCache(bearer) + [BeginRevoke(2, 0)] + [RevokeMark(2, false)] + [RevokeEvict(2)]
  }

  lemma ExecSnoc(c: Config, s: State, steps: seq<Step>, step: Step)
    ensures Exec(c, s, steps + [step]) == Apply(c, Exec(c, s, steps), step)
  {
    hide Apply;
    assert (steps + [step])[..|steps|] == steps;
  }

  function Req(bearer: Bytes): CheckReq {
    CheckReq(None, "ns", "plugin", bearer, 0)
  }

  function Master(c: Config, exportKey: Bytes): Bytes {
    c.derive(exportKey, [], SUITE_VERSION)
  }

  /** The starting broker with one entry cached and one check about to mint. */
  function AboutToMint(c: Config, bearer: Bytes, exportKey: Bytes): State {
    var s := Start(c, "a", bearer, exportKey);
    var key := CacheKey("a", Encode(bearer));
    var entry := FreshEntry(c, "a", Master(c, exportKey), 0);
    s.(cache := map[key := entry], metrics := Metrics(1, 0, 0), inflight := map[1 := CheckCached(Req(bearer), 0, "a")],
       hist := History([Inserted(key, entry, bearer)], map[], map[key := 0], map[key := 0], map[], 0))
  }

  lemma ReachesUnlocked(c: Config, bearer: Bytes, exportKey: Bytes)
    requires |bearer| == BEARER_BYTES
    ensures var s := Start(c, "a", bearer, exportKey);
            var s1 := DoBeginCheck(s, 1, None, "ns", "plugin", Encode(bearer));
            var s3 := DoCheckName(DoCheckValidate(s1, 1, false), 1, false);
            DoCheckUnlock(c, s3, 1, [], false) == s.(inflight := map[1 := CheckUnlocked(Req(bearer), 0, "a", Master(c, exportKey))])
  {
    hide Encode, Decode;
    DecodeEncode(bearer);
    var s := Start(c, "a", bearer, exportKey);
    StartLease(c, "a", bearer, exportKey);
    assert s.leases[bearer := s.leases[bearer]] == s.leases;
    var s1 := DoBeginCheck(s, 1, None, "ns", "plugin", Encode(bearer));
    assert s1 == s.(inflight := map[1 := CheckStarted(Req(bearer))]);
    var s2 := DoCheckValidate(s1, 1, false);
    assert s2 == s.(inflight := map[1 := CheckValidated(Req(bearer), 0, 0, exportKey)]);
    var s3 := DoCheckName(s2, 1, false);
    assert s3 == s.(inflight := map[1 := CheckNamed(Req(bearer), 0, "a", exportKey)]);
  }

  lemma ReachesCached(c: Config, bearer: Bytes, exportKey: Bytes)
    ensures var s := Start(c, "a", bearer, exportKey);
            DoCheckCache(c, s.(inflight := map[1 := CheckUnlocked(Req(bearer), 0, "a", Master(c, exportKey))]), 1)
            == AboutToMint(c, bearer, exportKey)
  {
    hide Encode, CacheKey, FreshEntry;
    assert map[1 := CheckUnlocked(Req(bearer), 0, "a", Master(c, exportKey))][1 := CheckCached(Req(bearer), 0, "a")]
        == map[1 := CheckCached(Req(bearer), 0, "a")];
  }

  lemma CheckPartRuns(c: Config, bearer: Bytes, exportKey: Bytes)
    requires |bearer| == BEARER_BYTES
    ensures Exec(c, Start(c, "a", bearer, exportKey), CheckUpToCache(bearer)) == AboutToMint(c, bearer, exportKey)
  {
    hide Encode, Start, AboutToMint, DoBeginCheck, DoCheckValidate, DoCheckName, DoCheckUnlock, DoCheckCache;
    ReachesUnlocked(c, bearer, exportKey);
    ReachesCached(c, bearer, exportKey);
    var s := Start(c, "a", bearer, exportKey);
    var begin := BeginCheck(1, None, "ns", "plugin", Encode(bearer));
    LastStep(c, s, begin);
    ExecSnoc(c, s, [begin], CheckValidate(1, false));
    ExecSnoc(c, s, [begin] + [CheckValidate(1, false)], CheckName(1, false));
    ExecSnoc(c, s, [begin] + [CheckValidate(1, false)] + [CheckName(1, false)], CheckUnlock(1, [], false));
    ExecSnoc(c, s, [begin] + [CheckValidate(1, false)] + [CheckName(1, false)] + [CheckUnlock(1, [], false)], CheckCache(1));
  }

  /** The revocation has returned, and the check still holds its place. */
  lemma RevocationReturns(c: Config, bearer: Bytes, exportKey: Bytes)
    ensures var s := AboutToMint(c, bearer, exportKey);
            var t := DoRevokeEvict(DoRevokeMark(DoBeginRevoke(s, 2, 0), 2, false), 2);
            && t.inflight == s.inflight && t.cache == s.cache && t.vaults == s.vaults && t.caps == map[] && t.clock == 0
            && t.hist == s.hist.(revokedWhen := map[0 := 0])
  {
    hide Encode, CacheKey, FreshEntry;
    var s := AboutToMint(c, bearer, exportKey);
    assert s.leases[bearer].id == 0;
    var s1 := DoBeginRevoke(s, 2, 0);
    var s2 := DoRevokeMark(s1, 2, false);
    assert s2.inflight - {2} == s.inflight;
  }

  /** What the minted cap's holder sees just inside its sixty seconds. */
  lemma LateCapIsHeld(c: Config, s: State, bearer: Bytes, cap: CapId)
    requires |cap| == CAP_BYTES
    requires s.inflight == map[1 := CheckCached(Req(bearer), 0, "a")] && s.caps == map[] && s.clock == 0
    requires cap !in s.hist.minted && |s.hist.log| == 1
    ensures var t := DoCheckMint(s, 1, cap);
            var u := DoBeginFetch(t.(clock := CAP_TTL - 1), 3, Encode(cap));
            var w := DoFetchCaps(u, 3);
            && t.clock == 0 && |w.hist.log| == 2 && w.hist.revokedWhen == s.hist.revokedWhen
            && w.cache == s.cache && w.vaults == s.vaults && 3 in w.inflight
            && w.inflight[3] == FetchHeld(cap, MintCap(CacheKey("a", Encode(bearer)), "ns", "plugin", 0, 0), CAP_TTL - 1)
  {
    hide Encode, Decode, CacheKey;
    DecodeEncode(cap);
    var t := DoCheckMint(s, 1, cap);
    assert 3 !in t.inflight;
  }

  lemma LateCapReleases(c: Config, s: State, bearer: Bytes, exportKey: Bytes, cap: CapId)
    requires |cap| == CAP_BYTES
    requires c.IdleFor("a") >= CAP_TTL && c.AbsoluteFor("a") >= CAP_TTL
    requires var o := AboutToMint(c, bearer, exportKey);
             && s.inflight == o.inflight && s.cache == o.cache && s.vaults == o.vaults && s.caps == map[] && s.clock == 0
             && s.hist == o.hist.(revokedWhen := map[0 := 0])
    ensures var t := DoCheckMint(s, 1, cap);
            var u := DoBeginFetch(t.(clock := CAP_TTL - 1), 3, Encode(cap));
            var v := DoFetchCache(DoFetchCaps(u, 3), 3, false);
            && t.clock == 0
            && |v.hist.log| == 3 && v.hist.log[2].Released? && v.hist.revokedWhen == map[0 := 0]
            && v.hist.log[2].release.capEntry.leaseId == 0 && v.hist.log[2].release.at == CAP_TTL - 1
  {
    hide Encode, Decode, CacheKey, Visible, DoCheckMint, DoBeginFetch, DoFetchCaps;
    LateCapIsHeld(c, s, bearer, cap);
  }

  lemma RevokePartRuns(c: Config, bearer: Bytes, exportKey: Bytes)
    requires |bearer| == BEARER_BYTES
    ensures Exec(c, Start(c, "a", bearer, exportKey), UpToRevoked(bearer))
            == DoRevokeEvict(DoRevokeMark(DoBeginRevoke(AboutToMint(c, bearer, exportKey), 2, 0), 2, false), 2)
  {
    hide Encode, Start, AboutToMint, CheckUpToCache, Exec, DoBeginRevoke, DoRevokeMark, DoRevokeEvict;
    var s := Start(c, "a", bearer, exportKey);
    CheckPartRuns(c, bearer, exportKey);
    var p := CheckUpToCache(bearer);
    ExecSnoc(c, s, p, BeginRevoke(2, 0));
    ExecSnoc(c, s, p + [BeginRevoke(2, 0)], RevokeMark(2, false));
    ExecSnoc(c, s, p + [BeginRevoke(2, 0)] + [RevokeMark(2, false)], RevokeEvict(2));
  }

  lemma FetchPartRuns(c: Config, s: State, bearer: Bytes, cap: CapId)
    ensures var r := Exec(c, s, UpToRevoked(bearer));
            var t := DoCheckMint(r, 1, cap);
            var u := DoBeginFetch(t.(clock := t.clock + (CAP_TTL - 1)), 3, Encode(cap));
            Exec(c, s, LateMint(bearer, cap)) == DoFetchCache(DoFetchCaps(u, 3), 3, false)
  {
    hide Encode, UpToRevoked, Exec, DoCheckMint, DoBeginFetch, DoFetchCaps, DoFetchCache;
    var q := UpToRevoked(bearer);
    ExecSnoc(c, s, q, CheckMint(1, cap));
    ExecSnoc(c, s, q + [CheckMint(1, cap)], Tick(CAP_TTL - 1));
    var w := q + [CheckMint(1, cap)] + [Tick(CAP_TTL - 1)];
    ExecSnoc(c, s, w, BeginFetch(3, Encode(cap)));
    ExecSnoc(c, s, w + [BeginFetch(3, Encode(cap))], FetchCaps(3));
    ExecSnoc(c, s, w + [BeginFetch(3, Encode(cap))] + [FetchCaps(3)], FetchCache(3, false));
  }

  /**
   * The sixty-second bound after a revocation is the best possible: in this run the revocation has taken effect
   * at time `r` and returned, and a fetch at `r + CAP_TTL - 1` still releases for the lease.
   */
  lemma SixtySecondsIsTight(c: Config, bearer: Bytes, exportKey: Bytes, cap: CapId)
    requires |bearer| == BEARER_BYTES && |cap| == CAP_BYTES
    requires c.IdleFor("a") >= CAP_TTL && c.AbsoluteFor("a") >= CAP_TTL
    ensures var s := Start(c, "a", bearer, exportKey);
            var t := Exec(c, s, LateMint(bearer, cap));
            && Initial(s) && 0 in t.hist.revokedWhen && |t.hist.log| == 3 && t.hist.log[2].Released?
            && t.hist.log[2].release.capEntry.leaseId == 0
            && t.hist.log[2].release.at == t.hist.revokedWhen[0] + CAP_TTL - 1
  {
    hide Encode, Start, AboutToMint, Initial, UpToRevoked, LateMint, Exec, DoBeginRevoke, DoRevokeMark, DoRevokeEvict, DoCheckMint,
         DoBeginFetch, DoFetchCaps, DoFetchCache;
    StartIsInitial(c, "a", bearer, exportKey);
    RevokePartRuns(c, bearer, exportKey);
    RevocationReturns(c, bearer, exportKey);
    var s := Start(c, "a", bearer, exportKey);
    var r := Exec(c, s, UpToRevoked(bearer));
    LateCapReleases(c, r, bearer, exportKey, cap);
    FetchPartRuns(c, s, bearer, cap);
  }
}
