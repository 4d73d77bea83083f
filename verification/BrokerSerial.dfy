/**
 * Serial runs: each request is carried from its first region to its last before the next begins. The whole
 * effect of a request is given outright, shown to be what its steps do, and stronger invariants hold.
 */
module BrokerSerial {
  import opened Wrappers
  import opened Base64
  import opened BrokerState
  import opened BrokerMachine
  import opened BrokerTheorems

  /** Which of a check's calls fail: the validating transaction, the tenant lookup, the vault's files. */
  datatype CheckFaults = CheckFaults(validate: bool, name: bool, io: bool)

  /** Which of a logout's calls fail: the validating transaction, the tenant lookup, the revocation. */
  datatype LogoutFaults = LogoutFaults(validate: bool, name: bool, revoke: bool)

  datatype CheckInput = CheckInput(scope: Option<string>, namespace: string, plugin: string, text: string)

  datatype Op =
    | World(step: Step)
    | Check(input: CheckInput, salt: Bytes, cap: CapId, checkFaults: CheckFaults)
    | Fetch(text: string, ioFails: bool)
    | Prune
    | Revoke(leaseId: Id, dbFails: bool)
    | Logout(text: string, logoutFaults: LogoutFaults)

  /** The steps of the world outside the broker's requests. */
  predicate OfWorld(step: Step) {
    step.Tick? || step.Login? || step.Rename? || step.ProvisionVault? || step.WriteVault?
  }

  // --- The effect of each request, whole ---

  function DecodeBearer(text: string): Option<Bytes> {
    match Decode(text)
    case Some(bearer) => if |bearer| == BEARER_BYTES then Some(bearer) else None
    case None => None
  }

  /** Caching the master and minting the cap. */
  function Admit(c: Config, s: State, input: CheckInput, bearer: Bytes, lease: Lease, tenant: string, master: Bytes, cap: CapId): State {
    var key := CacheKey(tenant, Encode(bearer));
    var entry := FreshEntry(c, tenant, master, s.clock);
    var capEntry := MintCap(key, input.namespace, input.plugin, lease.id, s.clock);
    var n := |s.hist.log|;
    var hit := key in s.cache;
    var hist := s.hist.(log := s.hist.log + [if hit then Touched(key, s.clock) else Inserted(key, entry, bearer)]
                               + [Minted(cap, capEntry, tenant, bearer, s.clock)],
                        birth := if hit then s.hist.birth else s.hist.birth[key := n],
                        lastUse := s.hist.lastUse[key := n],
                        minted := s.hist.minted[cap := n + 1]);
    s.(cache := TouchOrInsert(s.cache, key, entry, s.clock),
       metrics := if hit then s.metrics else s.metrics.(inserts := s.metrics.inserts + 1),
       caps := s.caps[cap := capEntry], hist := hist)
  }

  function CheckUnlocking(c: Config, s: State, input: CheckInput, bearer: Bytes, lease: Lease, exportKey: Bytes, tenant: string,
                          salt: Bytes, cap: CapId): State
  {
    var root := c.VaultRoot(tenant);
    var vaults := VaultsAfterUnlock(c, s.vaults, root, exportKey, salt);
    match UnlockMaster(c, vaults, root, exportKey)
    case Unlocked(master) => Admit(c, s.(vaults := vaults), input, bearer, lease, tenant, master, cap)
    case _ => s
  }

  function CheckValid(c: Config, s: State, input: CheckInput, bearer: Bytes, lease: Lease, exportKey: Bytes,
                      salt: Bytes, cap: CapId, f: CheckFaults): State
  {
    if f.name || lease.tenantId !in s.tenants then s
    else
      var tenant := s.tenants[lease.tenantId];
      if (input.scope.Some? && tenant != input.scope.value) || f.io then s
      else CheckUnlocking(c, s, input, bearer, lease, exportKey, tenant, salt, cap)
  }

  function CheckNow(c: Config, s: State, input: CheckInput, salt: Bytes, cap: CapId, f: CheckFaults): State {
    match DecodeBearer(input.text)
    case None => s
    case Some(bearer) =>
      match if f.validate then DbError else Validate(s.leases, bearer, s.clock)
      case Valid(lease, exportKey) =>
        CheckValid(c, s.(leases := LeasesAfterValidate(s.leases, bearer, s.clock)), input, bearer, lease, exportKey, salt, cap, f)
      case Miss =>
        if input.scope.Some? then s.(caps := EvictCapsForKey(s.caps, CacheKey(input.scope.value, Encode(bearer)))) else s
      case _ => s
  }

  function Outcome(s: State, entry: CapEntry, ioFails: bool): FetchOutcome {
    if ioFails && Usable(s.cache, entry.cacheKey, s.clock) then Evicted
    else FetchPayload(s.cache, s.vaults, entry.cacheKey, entry.plugin, s.clock)
  }

  /** A fetch that got past its cap: a release, or the entry and the key's caps cleared. */
  function FetchKey(s: State, cap: CapId, entry: CapEntry, ioFails: bool): State {
    var key := entry.cacheKey;
    match Outcome(s, entry, ioFails)
    case Evicted =>
      var gone := if key in s.cache && IsExpired(s.cache[key], s.clock) then 1 else 0;
      s.(cache := CacheAfterFetch(s.cache, key, s.clock), caps := EvictCapsForKey(s.caps, key),
         hist := s.hist.(dropped := s.hist.dropped + gone))
    case Payload(_, _, secrets) =>
      var e := s.cache[key];
      var release := Release(cap, s.clock, entry, e, s.vaults[e.vaultRoot], secrets,
                             Position(s.hist.minted, cap), Position(s.hist.birth, key), Position(s.hist.lastUse, key));
      s.(hist := s.hist.(log := s.hist.log + [Released(release)]))
  }

  function FetchNow(s: State, text: string, ioFails: bool): State {
    match DecodeBearer(text)
    case None => s
    case Some(cap) =>
      if cap !in s.caps then s
      else if CapIsExpired(s.caps[cap], s.clock) then s.(caps := s.caps - {cap})
      else FetchKey(s, cap, s.caps[cap], ioFails)
  }

  function PruneNow(s: State): State {
    var stale := StaleKeys(s.cache, s.clock);
    s.(cache := s.cache - stale, metrics := SweepMetrics(s.metrics, s.cache, s.clock), caps := PruneCaps(s.caps, stale, s.clock))
  }

  function RevokeNow(s: State, leaseId: Id, dbFails: bool): State {
    if dbFails then s
    else s.(leases := RevokeById(s.leases, leaseId, s.clock), caps := EvictCapsForLease(s.caps, leaseId),
            hist := if HasLease(s.leases, leaseId) then NoteRevoked(s.hist, leaseId, s.clock) else s.hist)
  }

  function LogoutValid(s: State, bearer: Bytes, lease: Lease, f: LogoutFaults): State {
    if f.name || lease.tenantId !in s.tenants then s
    else
      var key := CacheKey(s.tenants[lease.tenantId], Encode(bearer));
      var cleared := s.(caps := EvictCapsForKey(s.caps, key));
      if f.revoke then cleared
      else
        var hist := NoteRevoked(s.hist, lease.id, s.clock);
        cleared.(leases := RevokeByBearer(s.leases, bearer, s.clock),
                 hist := hist.(log := hist.log + [LoggedOut(bearer, lease.id, key)]))
  }

  function LogoutNow(s: State, text: string, f: LogoutFaults): State {
    match DecodeBearer(text)
    case None => s
    case Some(bearer) =>
      match if f.validate then DbError else Validate(s.leases, bearer, s.clock)
      case Valid(lease, _) => LogoutValid(s.(leases := LeasesAfterValidate(s.leases, bearer, s.clock)), bearer, lease, f)
      case _ => s
  }

  /** A cap id is 32 random bytes, never drawn before; an operation that says otherwise does not happen. */
  predicate CanHappen(s: State, op: Op) {
    match op
    case World(step) => OfWorld(step)
    case Check(_, _, cap, _) => cap !in s.hist.minted && |cap| == CAP_BYTES
    case _ => true
  }

  function Perform(c: Config, s: State, op: Op): State {
    if !CanHappen(s, op) then s
    else
      match op
      case World(step) => Apply(c, s, step)
      case Check(input, salt, cap, f) => CheckNow(c, s, input, salt, cap, f)
      case Fetch(text, ioFails) => FetchNow(s, text, ioFails)
      case Prune => PruneNow(s)
      case Revoke(leaseId, dbFails) => RevokeNow(s, leaseId, dbFails)
      case Logout(text, f) => LogoutNow(s, text, f)
  }

  function Serve(c: Config, s: State, ops: seq<Op>): State {
    if ops == [] then s else Perform(c, Serve(c, s, ops[..|ops| - 1]), ops[|ops| - 1])
  }

  // --- The steps of a request, run to the end ---

  function Script(op: Op): seq<Step> {
    match op
    case World(step) => [step]
    case Check(input, salt, cap, f) =>
      [BeginCheck(0, input.scope, input.namespace, input.plugin, input.text), CheckValidate(0, f.validate), CheckName(0, f.name),
       CheckUnlock(0, salt, f.io), CheckCache(0), CheckMint(0, cap), CheckMissEvict(0)]
    case Fetch(text, ioFails) => [BeginFetch(0, text), FetchCaps(0), FetchCache(0, ioFails), FetchEvict(0)]
    case Prune => [BeginPrune(0), PruneCache(0), PruneCapsStep(0)]
    case Revoke(leaseId, dbFails) => [BeginRevoke(0, leaseId), RevokeMark(0, dbFails), RevokeEvict(0)]
    case Logout(text, f) =>
      [BeginLogout(0, text), LogoutValidate(0, f.validate), LogoutName(0, f.name), LogoutEvict(0), LogoutRevoke(0, f.revoke)]
  }

  function At(s: State, pc: Pc): State {
    s.(inflight := map[0 := pc])
  }

  predicate AtRest(s: State) {
    s.inflight == map[]
  }

  lemma ExecStep(c: Config, s: State, step: Step, rest: seq<Step>)
    ensures Exec(c, s, [step] + rest) == Exec(c, Apply(c, s, step), rest)
  {
    hide Apply;
    ExecSplit(c, s, [step], rest);
    assert [step][..0] == [];
  }

  /** With no request in flight, steps that only carry a request on change nothing. */
  lemma {:induction false} RestIgnores(c: Config, s: State, steps: seq<Step>)
    requires AtRest(s)
    requires forall i :: 0 <= i < |steps| ==> Carries(steps[i])
    ensures Exec(c, s, steps) == s
  {
    if steps != [] {
      var n := |steps| - 1;
      RestIgnores(c, s, steps[..n]);
      assert Carries(steps[n]);
    }
  }

  /** The steps that need their request to be in flight. */
  predicate Carries(step: Step) {
    match step
    case CheckValidate(_, _) | CheckName(_, _) | CheckUnlock(_, _, _) | CheckCache(_) | CheckMint(_, _) | CheckMissEvict(_) => true
    case FetchCaps(_) | FetchCache(_, _) | FetchEvict(_) | PruneCache(_) | PruneCapsStep(_) => true
    case RevokeMark(_, _) | RevokeEvict(_) | LogoutValidate(_, _) | LogoutName(_, _) | LogoutEvict(_) | LogoutRevoke(_, _) => true
    case _ => false
  }

  lemma Settled(s: State, pc: Pc)
    requires AtRest(s)
    ensures Done(At(s, pc), 0) == s && Goto(s, 0, pc) == At(s, pc)
  {
    assert map[0 := pc] - {0} == map[];
  }

  lemma Moved(s: State, pc: Pc, next: Pc)
    ensures Goto(At(s, pc), 0, next) == At(s, next)
  {
    assert map[0 := pc][0 := next] == map[0 := next];
  }

  // --- Check, from its last step back to its first ---

  lemma MintStep(s: State, req: CheckReq, leaseId: Id, tenant: string, cap: CapId)
    requires AtRest(s) && cap !in s.hist.minted && |cap| == CAP_BYTES
    ensures var entry := MintCap(CacheKey(tenant, Encode(req.bearer)), req.namespace, req.plugin, leaseId, req.now);
            DoCheckMint(At(s, CheckCached(req, leaseId, tenant)), 0, cap)
            == s.(caps := s.caps[cap := entry],
                  hist := s.hist.(log := s.hist.log + [Minted(cap, entry, tenant, req.bearer, req.now)],
                                  minted := s.hist.minted[cap := |s.hist.log|]))
  {
    hide CacheKey, Encode, MintCap;
    var entry := MintCap(CacheKey(tenant, Encode(req.bearer)), req.namespace, req.plugin, leaseId, req.now);
    Settled(s.(caps := s.caps[cap := entry],
               hist := s.hist.(log := s.hist.log + [Minted(cap, entry, tenant, req.bearer, req.now)],
                               minted := s.hist.minted[cap := |s.hist.log|])), CheckCached(req, leaseId, tenant));
  }

  lemma MintRuns(c: Config, s: State, req: CheckReq, leaseId: Id, tenant: string, cap: CapId)
    requires AtRest(s) && cap !in s.hist.minted && |cap| == CAP_BYTES
    ensures var entry := MintCap(CacheKey(tenant, Encode(req.bearer)), req.namespace, req.plugin, leaseId, req.now);
            Exec(c, At(s, CheckCached(req, leaseId, tenant)), [CheckMint(0, cap), CheckMissEvict(0)])
            == s.(caps := s.caps[cap := entry],
                  hist := s.hist.(log := s.hist.log + [Minted(cap, entry, tenant, req.bearer, req.now)],
                                  minted := s.hist.minted[cap := |s.hist.log|]))
  {
    hide Exec, CacheKey, Encode, DoCheckMint, At, MintCap;
    var t := At(s, CheckCached(req, leaseId, tenant));
    MintStep(s, req, leaseId, tenant, cap);
    assert [CheckMint(0, cap), CheckMissEvict(0)] == [CheckMint(0, cap)] + [CheckMissEvict(0)];
    ExecStep(c, t, CheckMint(0, cap), [CheckMissEvict(0)]);
    RestIgnores(c, DoCheckMint(t, 0, cap), [CheckMissEvict(0)]);
  }

  lemma CacheRuns(c: Config, s: State, input: CheckInput, bearer: Bytes, lease: Lease, tenant: string, master: Bytes, cap: CapId)
    requires AtRest(s) && cap !in s.hist.minted && |cap| == CAP_BYTES
    ensures var req := CheckReq(input.scope, input.namespace, input.plugin, bearer, s.clock);
            Exec(c, At(s, CheckUnlocked(req, lease.id, tenant, master)), [CheckCache(0)] + [CheckMint(0, cap), CheckMissEvict(0)])
            == Admit(c, s, input, bearer, lease, tenant, master, cap)
  {
    hide Exec, CacheKey, Encode, FreshEntry, TouchOrInsert;
    var req := CheckReq(input.scope, input.namespace, input.plugin, bearer, s.clock);
    var pc := CheckUnlocked(req, lease.id, tenant, master);
    ExecStep(c, At(s, pc), CheckCache(0), [CheckMint(0, cap), CheckMissEvict(0)]);
    Settled(s, pc);
    var t := DoCheckCache(c, At(s, pc), 0);
    var u := t.(inflight := map[]);
    assert t == At(u, CheckCached(req, lease.id, tenant));
    MintRuns(c, u, req, lease.id, tenant, cap);
  }

  lemma UnlockRuns(c: Config, s: State, input: CheckInput, bearer: Bytes, lease: Lease, exportKey: Bytes, tenant: string,
                   salt: Bytes, cap: CapId, io: bool)
    requires AtRest(s) && cap !in s.hist.minted && |cap| == CAP_BYTES
    ensures var req := CheckReq(input.scope, input.namespace, input.plugin, bearer, s.clock);
            Exec(c, At(s, CheckNamed(req, lease.id, tenant, exportKey)),
                 [CheckUnlock(0, salt, io)] + ([CheckCache(0)] + [CheckMint(0, cap), CheckMissEvict(0)]))
            == if io then s else CheckUnlocking(c, s, input, bearer, lease, exportKey, tenant, salt, cap)
  {
    hide Exec, VaultsAfterUnlock, UnlockMaster, Admit;
    var req := CheckReq(input.scope, input.namespace, input.plugin, bearer, s.clock);
    var pc := CheckNamed(req, lease.id, tenant, exportKey);
    var rest := [CheckCache(0)] + [CheckMint(0, cap), CheckMissEvict(0)];
    ExecStep(c, At(s, pc), CheckUnlock(0, salt, io), rest);
    Settled(s, pc);
    var root := c.VaultRoot(tenant);
    var vaults := VaultsAfterUnlock(c, s.vaults, root, exportKey, salt);
    match UnlockMaster(c, vaults, root, exportKey)
    case Unlocked(master) =>
      if io {
        RestIgnores(c, s, rest);
      } else {
        var u := s.(vaults := vaults);
        assert Apply(c, At(s, pc), CheckUnlock(0, salt, io)) == At(u, CheckUnlocked(req, lease.id, tenant, master));
        CacheRuns(c, u, input, bearer, lease, tenant, master, cap);
      }
    case _ => RestIgnores(c, s, rest);
  }

  lemma NameStep(s: State, req: CheckReq, lease: Lease, exportKey: Bytes, fails: bool)
    requires AtRest(s)
    ensures DoCheckName(At(s, CheckValidated(req, lease.id, lease.tenantId, exportKey)), 0, fails)
            == if fails || lease.tenantId !in s.tenants || (req.scope.Some? && s.tenants[lease.tenantId] != req.scope.value) then s
               else At(s, CheckNamed(req, lease.id, s.tenants[lease.tenantId], exportKey))
  {
    var pc := CheckValidated(req, lease.id, lease.tenantId, exportKey);
    Settled(s, pc);
    if lease.tenantId in s.tenants {
      Moved(s, pc, CheckNamed(req, lease.id, s.tenants[lease.tenantId], exportKey));
    }
  }

  lemma NameRuns(c: Config, s: State, input: CheckInput, bearer: Bytes, lease: Lease, exportKey: Bytes,
                 salt: Bytes, cap: CapId, f: CheckFaults)
    requires AtRest(s) && cap !in s.hist.minted && |cap| == CAP_BYTES
    ensures var req := CheckReq(input.scope, input.namespace, input.plugin, bearer, s.clock);
            Exec(c, At(s, CheckValidated(req, lease.id, lease.tenantId, exportKey)),
                 [CheckName(0, f.name)] + ([CheckUnlock(0, salt, f.io)] + ([CheckCache(0)] + [CheckMint(0, cap), CheckMissEvict(0)])))
            == CheckValid(c, s, input, bearer, lease, exportKey, salt, cap, f)
  {
    hide Exec, CheckUnlocking, DoCheckName, At;
    var req := CheckReq(input.scope, input.namespace, input.plugin, bearer, s.clock);
    var rest := [CheckUnlock(0, salt, f.io)] + ([CheckCache(0)] + [CheckMint(0, cap), CheckMissEvict(0)]);
    ExecStep(c, At(s, CheckValidated(req, lease.id, lease.tenantId, exportKey)), CheckName(0, f.name), rest);
    NameStep(s, req, lease, exportKey, f.name);
    if f.name || lease.tenantId !in s.tenants || (input.scope.Some? && s.tenants[lease.tenantId] != input.scope.value) {
      RestIgnores(c, s, rest);
    } else {
      UnlockRuns(c, s, input, bearer, lease, exportKey, s.tenants[lease.tenantId], salt, cap, f.io);
    }
  }

  lemma ValidateStep(s: State, req: CheckReq, fails: bool)
    requires AtRest(s) && req.now == s.clock
    ensures DoCheckValidate(At(s, CheckStarted(req)), 0, fails)
            == match if fails then DbError else Validate(s.leases, req.bearer, s.clock)
               case Valid(lease, exportKey) =>
                 At(s.(leases := LeasesAfterValidate(s.leases, req.bearer, s.clock)),
                    CheckValidated(req, lease.id, lease.tenantId, exportKey))
               case Miss =>
                 if req.scope.Some? then At(s, CheckMissed(CacheKey(req.scope.value, Encode(req.bearer)))) else s
               case _ => s
  {
    hide Validate, LeasesAfterValidate, CacheKey, Encode;
    Settled(s, CheckStarted(req));
    match if fails then DbError else Validate(s.leases, req.bearer, s.clock)
    case Valid(lease, exportKey) =>
      Moved(s.(leases := LeasesAfterValidate(s.leases, req.bearer, s.clock)), CheckStarted(req),
            CheckValidated(req, lease.id, lease.tenantId, exportKey));
    case Miss =>
      if req.scope.Some? {
        Moved(s, CheckStarted(req), CheckMissed(CacheKey(req.scope.value, Encode(req.bearer))));
      }
    case _ =>
  }

  lemma ValidateRuns(c: Config, s: State, input: CheckInput, bearer: Bytes, salt: Bytes, cap: CapId, f: CheckFaults)
    requires AtRest(s) && cap !in s.hist.minted && |cap| == CAP_BYTES
    requires DecodeBearer(input.text) == Some(bearer)
    ensures var req := CheckReq(input.scope, input.namespace, input.plugin, bearer, s.clock);
            Exec(c, At(s, CheckStarted(req)),
                 [CheckValidate(0, f.validate)] + ([CheckName(0, f.name)] + ([CheckUnlock(0, salt, f.io)]
                   + ([CheckCache(0)] + [CheckMint(0, cap), CheckMissEvict(0)]))))
            == CheckNow(c, s, input, salt, cap, f)
  {
    hide Exec, CheckValid, Validate, LeasesAfterValidate, CacheKey, Encode, DecodeBearer, DoCheckValidate, At, EvictCapsForKey;
    var req := CheckReq(input.scope, input.namespace, input.plugin, bearer, s.clock);
    var rest := [CheckName(0, f.name)] + ([CheckUnlock(0, salt, f.io)] + ([CheckCache(0)] + [CheckMint(0, cap), CheckMissEvict(0)]));
    ExecStep(c, At(s, CheckStarted(req)), CheckValidate(0, f.validate), rest);
    ValidateStep(s, req, f.validate);
    match if f.validate then DbError else Validate(s.leases, bearer, s.clock)
    case Valid(lease, exportKey) =>
      NameRuns(c, s.(leases := LeasesAfterValidate(s.leases, bearer, s.clock)), input, bearer, lease, exportKey, salt, cap, f);
    case Miss =>
      if input.scope.Some? {
        MissRuns(c, s, CacheKey(input.scope.value, Encode(bearer)), salt, cap, f);
      } else {
        RestIgnores(c, s, rest);
      }
    case _ => RestIgnores(c, s, rest);
  }

  /** A step that finds its request elsewhere, or finishes the run. */
  lemma LastStep(c: Config, s: State, step: Step)
    ensures Exec(c, s, [step]) == Apply(c, s, step)
  {
    hide Apply;
    assert [step][..0] == [];
    ExecNone(c, s);
  }

  lemma MissSteps(c: Config, s: State, key: Key, salt: Bytes, cap: CapId, f: CheckFaults)
    requires AtRest(s)
    ensures var t := At(s, CheckMissed(key));
            && DoCheckName(t, 0, f.name) == t && DoCheckUnlock(c, t, 0, salt, f.io) == t && DoCheckCache(c, t, 0) == t
            && DoCheckMint(t, 0, cap) == t && DoCheckMissEvict(t, 0) == s.(caps := EvictCapsForKey(s.caps, key))
  {
    hide EvictCapsForKey;
    Settled(s, CheckMissed(key));
    Settled(s.(caps := EvictCapsForKey(s.caps, key)), CheckMissed(key));
  }

  lemma MissRuns(c: Config, s: State, key: Key, salt: Bytes, cap: CapId, f: CheckFaults)
    requires AtRest(s)
    ensures Exec(c, At(s, CheckMissed(key)),
                 [CheckName(0, f.name)] + ([CheckUnlock(0, salt, f.io)] + ([CheckCache(0)] + [CheckMint(0, cap), CheckMissEvict(0)])))
            == s.(caps := EvictCapsForKey(s.caps, key))
  {
    hide Exec, EvictCapsForKey, DoCheckName, DoCheckUnlock, DoCheckCache, DoCheckMint, DoCheckMissEvict, At;
    var t := At(s, CheckMissed(key));
    MissSteps(c, s, key, salt, cap, f);
    var tail := [CheckMint(0, cap), CheckMissEvict(0)];
    ExecStep(c, t, CheckName(0, f.name), [CheckUnlock(0, salt, f.io)] + ([CheckCache(0)] + tail));
    ExecStep(c, t, CheckUnlock(0, salt, f.io), [CheckCache(0)] + tail);
    ExecStep(c, t, CheckCache(0), tail);
    assert tail == [CheckMint(0, cap)] + [CheckMissEvict(0)];
    ExecStep(c, t, CheckMint(0, cap), [CheckMissEvict(0)]);
    LastStep(c, t, CheckMissEvict(0));
  }

  lemma ExecNone(c: Config, s: State)
    ensures Exec(c, s, []) == s
  {
  }

  lemma CheckRuns(c: Config, s: State, input: CheckInput, salt: Bytes, cap: CapId, f: CheckFaults)
    requires AtRest(s) && cap !in s.hist.minted && |cap| == CAP_BYTES
    ensures Exec(c, s, Script(Check(input, salt, cap, f))) == CheckNow(c, s, input, salt, cap, f)
  {
    hide Exec, CheckNow, Decode;
    var begin := BeginCheck(0, input.scope, input.namespace, input.plugin, input.text);
    var rest := [CheckValidate(0, f.validate)] + ([CheckName(0, f.name)] + ([CheckUnlock(0, salt, f.io)]
                  + ([CheckCache(0)] + [CheckMint(0, cap), CheckMissEvict(0)])));
    assert Script(Check(input, salt, cap, f)) == [begin] + rest;
    ExecStep(c, s, begin, rest);
    match DecodeBearer(input.text)
    case Some(bearer) =>
      var pc := CheckStarted(CheckReq(input.scope, input.namespace, input.plugin, bearer, s.clock));
      Settled(s, pc);
      ValidateRuns(c, s, input, bearer, salt, cap, f);
    case None =>
      RestIgnores(c, s, rest);
      UndecodableChecksNothing(c, s, input, salt, cap, f);
  }

  lemma UndecodableChecksNothing(c: Config, s: State, input: CheckInput, salt: Bytes, cap: CapId, f: CheckFaults)
    requires DecodeBearer(input.text).None?
    ensures CheckNow(c, s, input, salt, cap, f) == s
  {
  }

  // --- Fetch, prune, revoke and logout ---

  lemma HeldReleases(s: State, cap: CapId, entry: CapEntry, ioFails: bool)
    requires AtRest(s) && Outcome(s, entry, ioFails).Payload?
    ensures var t := DoFetchCache(At(s, FetchHeld(cap, entry, s.clock)), 0, ioFails);
            t == FetchKey(s, cap, entry, ioFails) && AtRest(t)
  {
    hide FetchPayload, Usable;
    Settled(FetchKey(s, cap, entry, ioFails), FetchHeld(cap, entry, s.clock));
  }

  function Dropped(s: State, key: Key): State {
    var gone := if key in s.cache && IsExpired(s.cache[key], s.clock) then 1 else 0;
    s.(cache := CacheAfterFetch(s.cache, key, s.clock), hist := s.hist.(dropped := s.hist.dropped + gone))
  }

  lemma HeldToDropped(s: State, cap: CapId, entry: CapEntry, ioFails: bool)
    requires AtRest(s) && Outcome(s, entry, ioFails).Evicted?
    ensures DoFetchCache(At(s, FetchHeld(cap, entry, s.clock)), 0, ioFails) == At(Dropped(s, entry.cacheKey), FetchDropped(entry.cacheKey))
  {
    hide FetchPayload, Usable, IsExpired, CacheAfterFetch;
    Moved(Dropped(s, entry.cacheKey), FetchHeld(cap, entry, s.clock), FetchDropped(entry.cacheKey));
  }

  lemma HeldDrops(s: State, cap: CapId, entry: CapEntry, ioFails: bool)
    requires AtRest(s) && Outcome(s, entry, ioFails).Evicted?
    ensures var t := DoFetchCache(At(s, FetchHeld(cap, entry, s.clock)), 0, ioFails);
            DoFetchEvict(t, 0) == FetchKey(s, cap, entry, ioFails)
  {
    hide Outcome, IsExpired, CacheAfterFetch, EvictCapsForKey, DoFetchCache;
    HeldToDropped(s, cap, entry, ioFails);
    var idle := Dropped(s, entry.cacheKey);
    Settled(idle.(caps := EvictCapsForKey(s.caps, entry.cacheKey)), FetchDropped(entry.cacheKey));
  }

  lemma HeldStep(s: State, cap: CapId, entry: CapEntry, ioFails: bool)
    requires AtRest(s)
    ensures var t := DoFetchCache(At(s, FetchHeld(cap, entry, s.clock)), 0, ioFails);
            DoFetchEvict(t, 0) == FetchKey(s, cap, entry, ioFails)
  {
    hide DoFetchCache, FetchKey, Outcome, At;
    match Outcome(s, entry, ioFails)
    case Payload(_, _, _) => HeldReleases(s, cap, entry, ioFails);
    case Evicted => HeldDrops(s, cap, entry, ioFails);
  }

  lemma HeldRuns(c: Config, s: State, cap: CapId, entry: CapEntry, ioFails: bool)
    requires AtRest(s)
    ensures Exec(c, At(s, FetchHeld(cap, entry, s.clock)), [FetchCache(0, ioFails)] + [FetchEvict(0)]) == FetchKey(s, cap, entry, ioFails)
  {
    hide Exec, FetchKey, DoFetchCache, DoFetchEvict;
    HeldStep(s, cap, entry, ioFails);
    var t := At(s, FetchHeld(cap, entry, s.clock));
    ExecStep(c, t, FetchCache(0, ioFails), [FetchEvict(0)]);
    LastStep(c, DoFetchCache(t, 0, ioFails), FetchEvict(0));
  }

  lemma CapsStep(s: State, cap: CapId)
    requires AtRest(s)
    ensures DoFetchCaps(At(s, FetchStarted(cap, s.clock)), 0)
            == if cap !in s.caps then s
               else if CapIsExpired(s.caps[cap], s.clock) then s.(caps := s.caps - {cap})
               else At(s, FetchHeld(cap, s.caps[cap], s.clock))
  {
    hide CapIsExpired;
    var pc := FetchStarted(cap, s.clock);
    Settled(s, pc);
    Settled(s.(caps := s.caps - {cap}), pc);
    if cap in s.caps {
      Moved(s, pc, FetchHeld(cap, s.caps[cap], s.clock));
    }
  }

  lemma FetchRuns(c: Config, s: State, text: string, ioFails: bool)
    requires AtRest(s)
    ensures Exec(c, s, Script(Fetch(text, ioFails))) == FetchNow(s, text, ioFails)
  {
    hide Exec, Decode, FetchKey, CapIsExpired, DoFetchCaps;
    var rest := [FetchCache(0, ioFails)] + [FetchEvict(0)];
    assert Script(Fetch(text, ioFails)) == [BeginFetch(0, text)] + ([FetchCaps(0)] + rest);
    ExecStep(c, s, BeginFetch(0, text), [FetchCaps(0)] + rest);
    match DecodeBearer(text)
    case Some(cap) =>
      Settled(s, FetchStarted(cap, s.clock));
      HeldOrNot(c, s, cap, ioFails);
    case None => RestIgnores(c, s, [FetchCaps(0)] + rest);
  }

  lemma HeldOrNot(c: Config, s: State, cap: CapId, ioFails: bool)
    requires AtRest(s)
    ensures Exec(c, At(s, FetchStarted(cap, s.clock)), [FetchCaps(0)] + ([FetchCache(0, ioFails)] + [FetchEvict(0)]))
            == if cap !in s.caps then s
               else if CapIsExpired(s.caps[cap], s.clock) then s.(caps := s.caps - {cap})
               else FetchKey(s, cap, s.caps[cap], ioFails)
  {
    hide Exec, FetchKey, CapIsExpired, DoFetchCaps, At;
    var rest := [FetchCache(0, ioFails)] + [FetchEvict(0)];
    ExecStep(c, At(s, FetchStarted(cap, s.clock)), FetchCaps(0), rest);
    CapsStep(s, cap);
    if cap !in s.caps {
      RestIgnores(c, s, rest);
    } else if CapIsExpired(s.caps[cap], s.clock) {
      RestIgnores(c, s.(caps := s.caps - {cap}), rest);
    } else {
      HeldRuns(c, s, cap, s.caps[cap], ioFails);
    }
  }

  lemma PruneSteps(s: State)
    requires AtRest(s)
    ensures DoPruneCaps(DoPruneCache(DoBeginPrune(s, 0), 0), 0) == PruneNow(s)
  {
    hide StaleKeys, SweepMetrics, PruneCaps;
    var stale := StaleKeys(s.cache, s.clock);
    Settled(s, PruneStarted(s.clock));
    var idle := s.(cache := s.cache - stale, metrics := SweepMetrics(s.metrics, s.cache, s.clock));
    Moved(idle, PruneStarted(s.clock), PruneSwept(stale, s.clock));
    Settled(idle.(caps := PruneCaps(s.caps, stale, s.clock)), PruneSwept(stale, s.clock));
  }

  lemma PruneRuns(c: Config, s: State)
    requires AtRest(s)
    ensures Exec(c, s, Script(Prune)) == PruneNow(s)
  {
    hide Exec, PruneNow, DoBeginPrune, DoPruneCache, DoPruneCaps;
    PruneSteps(s);
    assert Script(Prune) == [BeginPrune(0)] + ([PruneCache(0)] + [PruneCapsStep(0)]);
    ExecStep(c, s, BeginPrune(0), [PruneCache(0)] + [PruneCapsStep(0)]);
    ExecStep(c, DoBeginPrune(s, 0), PruneCache(0), [PruneCapsStep(0)]);
    LastStep(c, DoPruneCache(DoBeginPrune(s, 0), 0), PruneCapsStep(0));
  }

  lemma RevokeSteps(s: State, leaseId: Id, dbFails: bool)
    requires AtRest(s)
    ensures DoRevokeEvict(DoRevokeMark(DoBeginRevoke(s, 0, leaseId), 0, dbFails), 0) == RevokeNow(s, leaseId, dbFails)
  {
    hide RevokeById, HasLease, EvictCapsForLease, NoteRevoked;
    var pc := RevokeStarted(leaseId, s.clock);
    Settled(s, pc);
    if !dbFails {
      var hist := if HasLease(s.leases, leaseId) then NoteRevoked(s.hist, leaseId, s.clock) else s.hist;
      var idle := s.(leases := RevokeById(s.leases, leaseId, s.clock), hist := hist);
      Moved(idle, pc, RevokeMarked(leaseId));
      Settled(idle.(caps := EvictCapsForLease(s.caps, leaseId)), RevokeMarked(leaseId));
    }
  }

  lemma RevokeApplies(c: Config, s: State, t: State, u: State, leaseId: Id, dbFails: bool)
    ensures Apply(c, s, BeginRevoke(0, leaseId)) == DoBeginRevoke(s, 0, leaseId)
    ensures Apply(c, t, RevokeMark(0, dbFails)) == DoRevokeMark(t, 0, dbFails)
    ensures Apply(c, u, RevokeEvict(0)) == DoRevokeEvict(u, 0)
  {
    hide DoBeginRevoke, DoRevokeMark, DoRevokeEvict;
  }

  lemma RevokeRuns(c: Config, s: State, leaseId: Id, dbFails: bool)
    requires AtRest(s)
    ensures Exec(c, s, Script(Revoke(leaseId, dbFails))) == RevokeNow(s, leaseId, dbFails)
  {
    hide Exec, Apply, RevokeNow, DoBeginRevoke, DoRevokeMark, DoRevokeEvict;
    RevokeSteps(s, leaseId, dbFails);
    var t := DoBeginRevoke(s, 0, leaseId);
    RevokeApplies(c, s, t, DoRevokeMark(t, 0, dbFails), leaseId, dbFails);
    assert Script(Revoke(leaseId, dbFails)) == [BeginRevoke(0, leaseId)] + ([RevokeMark(0, dbFails)] + [RevokeEvict(0)]);
    ExecStep(c, s, BeginRevoke(0, leaseId), [RevokeMark(0, dbFails)] + [RevokeEvict(0)]);
    ExecStep(c, DoBeginRevoke(s, 0, leaseId), RevokeMark(0, dbFails), [RevokeEvict(0)]);
    LastStep(c, DoRevokeMark(DoBeginRevoke(s, 0, leaseId), 0, dbFails), RevokeEvict(0));
  }

  lemma LogoutClearSteps(s: State, bearer: Bytes, lease: Lease, tenant: string, revoke: bool)
    requires AtRest(s)
    ensures var key := CacheKey(tenant, Encode(bearer));
            var cleared := s.(caps := EvictCapsForKey(s.caps, key));
            var hist := NoteRevoked(s.hist, lease.id, s.clock);
            DoLogoutRevoke(DoLogoutEvict(At(s, LogoutNamed(bearer, lease.id, tenant)), 0), 0, revoke)
            == if revoke then cleared
               else cleared.(leases := RevokeByBearer(s.leases, bearer, s.clock),
                             hist := hist.(log := hist.log + [LoggedOut(bearer, lease.id, key)]))
  {
    hide RevokeByBearer, EvictCapsForKey, NoteRevoked, CacheKey, Encode;
    var key := CacheKey(tenant, Encode(bearer));
    var cleared := s.(caps := EvictCapsForKey(s.caps, key));
    var pc := LogoutCleared(bearer, lease.id, key, s.clock);
    Moved(cleared, LogoutNamed(bearer, lease.id, tenant), pc);
    Settled(cleared, pc);
    var hist := NoteRevoked(s.hist, lease.id, s.clock);
    Settled(cleared.(leases := RevokeByBearer(s.leases, bearer, s.clock),
                     hist := hist.(log := hist.log + [LoggedOut(bearer, lease.id, key)])), pc);
  }

  lemma LogoutNameStep(s: State, bearer: Bytes, lease: Lease, name: bool)
    requires AtRest(s)
    ensures DoLogoutName(At(s, LogoutValidated(bearer, lease.id, lease.tenantId)), 0, name)
            == if name || lease.tenantId !in s.tenants then s
               else At(s, LogoutNamed(bearer, lease.id, s.tenants[lease.tenantId]))
  {
    var pc := LogoutValidated(bearer, lease.id, lease.tenantId);
    Settled(s, pc);
    if lease.tenantId in s.tenants {
      Moved(s, pc, LogoutNamed(bearer, lease.id, s.tenants[lease.tenantId]));
    }
  }

  lemma LogoutApplies(c: Config, s: State, t: State, u: State, f: LogoutFaults)
    ensures Apply(c, s, LogoutName(0, f.name)) == DoLogoutName(s, 0, f.name)
    ensures Apply(c, t, LogoutEvict(0)) == DoLogoutEvict(t, 0)
    ensures Apply(c, u, LogoutRevoke(0, f.revoke)) == DoLogoutRevoke(u, 0, f.revoke)
  {
    hide DoLogoutName, DoLogoutEvict, DoLogoutRevoke;
  }

  lemma LogoutValidRuns(c: Config, s: State, bearer: Bytes, lease: Lease, f: LogoutFaults)
    requires AtRest(s)
    ensures Exec(c, At(s, LogoutValidated(bearer, lease.id, lease.tenantId)),
                 [LogoutName(0, f.name)] + ([LogoutEvict(0)] + [LogoutRevoke(0, f.revoke)]))
            == LogoutValid(s, bearer, lease, f)
  {
    hide Exec, RevokeByBearer, EvictCapsForKey, NoteRevoked, CacheKey, Encode, DoLogoutName, DoLogoutEvict, DoLogoutRevoke, At,
         Apply;
    var rest := [LogoutEvict(0)] + [LogoutRevoke(0, f.revoke)];
    var t := At(s, LogoutValidated(bearer, lease.id, lease.tenantId));
    ExecStep(c, t, LogoutName(0, f.name), rest);
    LogoutApplies(c, t, s, s, f);
    LogoutNameStep(s, bearer, lease, f.name);
    if f.name || lease.tenantId !in s.tenants {
      RestIgnores(c, s, rest);
    } else {
      var named := At(s, LogoutNamed(bearer, lease.id, s.tenants[lease.tenantId]));
      LogoutClearSteps(s, bearer, lease, s.tenants[lease.tenantId], f.revoke);
      LogoutApplies(c, s, named, DoLogoutEvict(named, 0), f);
      ExecStep(c, named, LogoutEvict(0), [LogoutRevoke(0, f.revoke)]);
      LastStep(c, DoLogoutEvict(named, 0), LogoutRevoke(0, f.revoke));
    }
  }

  lemma LogoutValidateStep(s: State, bearer: Bytes, fails: bool)
    requires AtRest(s)
    ensures DoLogoutValidate(At(s, LogoutStarted(bearer, s.clock)), 0, fails)
            == match if fails then DbError else Validate(s.leases, bearer, s.clock)
               case Valid(lease, _) =>
                 At(s.(leases := LeasesAfterValidate(s.leases, bearer, s.clock)), LogoutValidated(bearer, lease.id, lease.tenantId))
               case _ => s
  {
    hide Validate, LeasesAfterValidate;
    var pc := LogoutStarted(bearer, s.clock);
    Settled(s, pc);
    match if fails then DbError else Validate(s.leases, bearer, s.clock)
    case Valid(lease, _) =>
      Moved(s.(leases := LeasesAfterValidate(s.leases, bearer, s.clock)), pc, LogoutValidated(bearer, lease.id, lease.tenantId));
    case _ =>
  }

  lemma LogoutRuns(c: Config, s: State, text: string, f: LogoutFaults)
    requires AtRest(s)
    ensures Exec(c, s, Script(Logout(text, f))) == LogoutNow(s, text, f)
  {
    hide Exec, Decode, LogoutValid, Validate, LeasesAfterValidate, DoLogoutValidate;
    var rest := [LogoutName(0, f.name)] + ([LogoutEvict(0)] + [LogoutRevoke(0, f.revoke)]);
    assert Script(Logout(text, f)) == [BeginLogout(0, text)] + ([LogoutValidate(0, f.validate)] + rest);
    ExecStep(c, s, BeginLogout(0, text), [LogoutValidate(0, f.validate)] + rest);
    match DecodeBearer(text)
    case Some(bearer) =>
      Settled(s, LogoutStarted(bearer, s.clock));
      LogoutDecodedRuns(c, s, text, bearer, f);
    case None => RestIgnores(c, s, [LogoutValidate(0, f.validate)] + rest);
  }

  lemma LogoutDecodedRuns(c: Config, s: State, text: string, bearer: Bytes, f: LogoutFaults)
    requires AtRest(s) && DecodeBearer(text) == Some(bearer)
    ensures Exec(c, At(s, LogoutStarted(bearer, s.clock)),
                 [LogoutValidate(0, f.validate)] + ([LogoutName(0, f.name)] + ([LogoutEvict(0)] + [LogoutRevoke(0, f.revoke)])))
            == LogoutNow(s, text, f)
  {
    hide Exec, DecodeBearer, LogoutValid, Validate, LeasesAfterValidate, DoLogoutValidate, At;
    var rest := [LogoutName(0, f.name)] + ([LogoutEvict(0)] + [LogoutRevoke(0, f.revoke)]);
    ExecStep(c, At(s, LogoutStarted(bearer, s.clock)), LogoutValidate(0, f.validate), rest);
    LogoutValidateStep(s, bearer, f.validate);
    match if f.validate then DbError else Validate(s.leases, bearer, s.clock)
    case Valid(lease, _) => LogoutValidRuns(c, s.(leases := LeasesAfterValidate(s.leases, bearer, s.clock)), bearer, lease, f);
    case _ => RestIgnores(c, s, rest);
  }

  /** Run without interruption, the steps of a request do exactly what the whole request is said to do. */
  lemma ScriptRunsWhole(c: Config, s: State, op: Op)
    requires AtRest(s) && CanHappen(s, op)
    ensures Exec(c, s, Script(op)) == Perform(c, s, op)
  {
    hide Exec, Apply, CheckNow, FetchNow, PruneNow, RevokeNow, LogoutNow;
    match op
    case World(step) =>
      assert [step] == [step] + [];
      ExecStep(c, s, step, []);
      ExecNone(c, Apply(c, s, step));
    case Check(input, salt, cap, f) => CheckRuns(c, s, input, salt, cap, f);
    case Fetch(text, ioFails) => FetchRuns(c, s, text, ioFails);
    case Prune => PruneRuns(c, s);
    case Revoke(leaseId, dbFails) => RevokeRuns(c, s, leaseId, dbFails);
    case Logout(text, f) => LogoutRuns(c, s, text, f);
  }
}
