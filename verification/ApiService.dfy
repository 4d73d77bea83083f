/** The api's write handlers as they run: checks in order, rows changed in place, the gate inside the transaction. */
module ApiService {
  import opened Wrappers
  import opened Text
  import Grammar
  import opened PluginSpec
  import opened BootstrapTables
  import opened ApiTables
  import opened ApiTheorems
  import opened ApiLaws
  import opened LiveGate

  /** A gated write that got as far as the gate goes through exactly when all the calls it needs are answered. */
  predicate GateAnswered(disabled: bool, fates: seq<Call>, calls: nat, reply: Reply) {
    && (reply == Done ==> disabled || AllAnswered(fates, calls))
    && (reply == Unavailable ==> !disabled && !AllAnswered(fates, calls))
  }

  /** The calls for a set of bindings: one listing for each, and one delete for each of their sessions. */
  ghost function CallsForAll(sessions: Sessions, db: Db, keys: set<(Id, Id)>): nat
    requires forall k :: k in keys ==> ParentsThere(db, k)
  {
    |keys| + |Matching(sessions, TriplesOf(db, keys))|
  }

  class Api {
    const control: ControlPlane
    var plugins: map<Id, PluginRow>
    var tenants: map<Id, TenantRow>
    var workspaces: map<Id, WorkspaceRow>
    var bindings: map<(Id, Id), BindingRow>
    var nextId: Id

    constructor (control: ControlPlane)
      ensures View() == Db(map[], map[], map[], map[], 0) && Sound(View()) && this.control == control
    {
      this.control := control;
      plugins, tenants, workspaces, bindings, nextId := map[], map[], map[], map[], 0;
    }

    ghost function View(): Db
      reads this
    {
      Db(plugins, tenants, workspaces, bindings, nextId)
    }

    // --- Tenants ---

    method PostTenant(raw: string, now: Time) returns (reply: Reply)
      modifies `tenants, `nextId
      ensures (View(), reply) == CreateTenant(old(View()), raw, now)
      ensures Sound(old(View())) ==> TenantPosted(old(View()), View(), reply, raw, now)
    {
      hide Trim, Lower, Sound, TenantPosted;
      if Sound(View()) {
        PostTenantMeans(View(), raw, now);
      }
      var name := Trim(raw);
      if !Grammar.ValidTenant(name) {
        return Refused;
      }
      if exists id :: id in tenants && Lower(tenants[id].name) == Lower(name) {
        return Taken;
      }
      tenants := tenants[nextId := TenantRow(name, now, now)];
      nextId := nextId + 1;
      return Done;
    }

    method PutTenant(id: Id, raw: string, token: Time, now: Time) returns (reply: Reply)
      modifies `tenants
      ensures (View(), reply) == UpdateTenant(old(View()), id, raw, token, now)
      ensures TenantPut(old(View()), View(), reply, id, raw, token, now)
    {
      hide Trim, Lower, TenantPut;
      PutTenantMeans(View(), id, raw, token, now);
      var name := Trim(raw);
      if !Grammar.ValidTenant(name) {
        return Refused;
      }
      if id !in tenants {
        return NotFound;
      }
      var live := tenants[id];
      if token != live.updatedAt {
        return Stale;
      }
      if exists other :: other in tenants && other != id && Lower(tenants[other].name) == Lower(name) {
        return Taken;
      }
      tenants := tenants[id := live.(name := name, updatedAt := now)];
      return Done;
    }

    method DropTenant(id: Id, token: Option<Time>) returns (reply: Reply)
      modifies `tenants
      ensures (View(), reply) == DeleteTenant(old(View()), id, token)
      ensures TenantDropped(old(View()), View(), reply, id, token)
    {
      hide TenantDropped;
      DropTenantMeans(View(), id, token);
      if id !in tenants {
        return NotFound;
      }
      if token.Some? && token.value != tenants[id].updatedAt {
        return Stale;
      }
      var dependents := set w | w in workspaces && workspaces[w].tenantId == id;
      if dependents != {} {
        assert exists w :: w in dependents;
        return HasDependents;
      }
      assert forall w :: w in workspaces && workspaces[w].tenantId == id ==> w in dependents;
      tenants := tenants - {id};
      return Done;
    }

    // --- Workspaces ---

    method PostWorkspace(tenantId: Id, raw: string, now: Time) returns (reply: Reply)
      modifies `workspaces, `nextId
      ensures (View(), reply) == CreateWorkspace(old(View()), tenantId, raw, now)
      ensures Sound(old(View())) ==> WorkspacePosted(old(View()), View(), reply, tenantId, raw, now)
    {
      hide Trim, Lower, Sound, WorkspacePosted;
      if Sound(View()) {
        PostWorkspaceMeans(View(), tenantId, raw, now);
      }
      var name := Trim(raw);
      if !Grammar.ValidName(name) {
        return Refused;
      }
      if tenantId !in tenants {
        return NotFound;
      }
      if exists id :: id in workspaces && workspaces[id].tenantId == tenantId && Lower(workspaces[id].name) == Lower(name) {
        return Taken;
      }
      workspaces := workspaces[nextId := WorkspaceRow(tenantId, name, now, now)];
      nextId := nextId + 1;
      return Done;
    }

    method PutWorkspace(tenantId: Id, id: Id, raw: string, token: Time, now: Time) returns (reply: Reply)
      modifies `workspaces
      ensures (View(), reply) == UpdateWorkspace(old(View()), tenantId, id, raw, token, now)
      ensures WorkspacePut(old(View()), View(), reply, tenantId, id, raw, token, now)
    {
      hide Trim, Lower, WorkspacePut;
      PutWorkspaceMeans(View(), tenantId, id, raw, token, now);
      var name := Trim(raw);
      if !Grammar.ValidName(name) {
        return Refused;
      }
      if id !in workspaces {
        return NotFound;
      }
      var live := workspaces[id];
      if live.tenantId != tenantId {
        return NotFound;
      }
      if token != live.updatedAt {
        return Stale;
      }
      if exists other :: other in workspaces && other != id && workspaces[other].tenantId == tenantId
                         && Lower(workspaces[other].name) == Lower(name) {
        return Taken;
      }
      workspaces := workspaces[id := live.(name := name, updatedAt := now)];
      return Done;
    }

    /**
     * Ends the live sessions of every binding of the workspace, one binding after the other, and then deletes the
     * workspace, whose bindings go with it. Nothing is deleted when the control plane fails on the way, though
     * sessions may have ended by then.
     */
    method DropWorkspace(tenantId: Id, id: Id, token: Option<Time>) returns (reply: Reply, gate: Gate, terminated: nat)
      requires Sound(View())
      modifies `workspaces, `bindings, control
      ensures (View(), reply) == DeleteWorkspace(old(View()), tenantId, id, token, gate)
      ensures control.disabled ==> gate != Unreachable
      ensures forall k :: k in BindingsOf(old(View()), id) ==> ParentsThere(old(View()), k)
      ensures GateKept(control.disabled, old(control.sessions), control.sessions, TriplesOf(old(View()), BindingsOf(old(View()), id)), reply)
      ensures GateAnswered(control.disabled, old(control.fates),
                           CallsForAll(old(control.sessions), old(View()), BindingsOf(old(View()), id)), reply)
      ensures reply == Done ==> terminated == |old(control.sessions)| - |control.sessions|
      ensures WorkspaceDropped(old(View()), View(), reply, tenantId, id, token, gate)
    {
      hide Sound, ParentsThere, Ended, Pruned, AllAnswered, CallsForAll, WorkspaceDropped;
      DropWorkspaceMeans(View(), tenantId, id, token, Cleared);
      DropWorkspaceMeans(View(), tenantId, id, token, Unreachable);
      BindingsHaveParents(View());
      gate, terminated := Cleared, 0;
      if id !in workspaces {
        return NotFound, gate, 0;
      }
      var live := workspaces[id];
      if live.tenantId != tenantId {
        return NotFound, gate, 0;
      }
      if token.Some? && token.value != live.updatedAt {
        return Stale, gate, 0;
      }
      var unreachable, ended := TerminateBindings(id);
      terminated := ended;
      if unreachable {
        return Unavailable, Unreachable, terminated;
      }
      var cascaded := set k | k in bindings && k.0 == id;
      workspaces := workspaces - {id};
      bindings := bindings - cascaded;
      return Done, gate, terminated;
    }

    method TerminateBindings(id: Id) returns (unreachable: bool, terminated: nat)
      requires forall k :: k in BindingsOf(View(), id) ==> ParentsThere(View(), k)
      modifies control
      ensures unreachable ==> BindingsOf(View(), id) != {} && !control.disabled
      ensures unreachable <==> !control.disabled
                               && !AllAnswered(old(control.fates), CallsForAll(old(control.sessions), View(), BindingsOf(View(), id)))
      ensures Pruned(old(control.sessions), control.sessions, TriplesOf(View(), BindingsOf(View(), id)))
      ensures !unreachable && !control.disabled ==> Ended(old(control.sessions), control.sessions, TriplesOf(View(), BindingsOf(View(), id)))
      ensures control.disabled ==> control.sessions == old(control.sessions)
      ensures !unreachable ==> terminated == |old(control.sessions)| - |control.sessions|
    {
      hide Ended, Pruned, TriplesOf, ParentsThere, TripleOf, Underway, Asked, AllAnswered, CallsForAll, BindingsOf;
      var all := BindingsOf(Db(plugins, tenants, workspaces, bindings, nextId), id);
      var left := all;
      ghost var done: set<(Id, Id)> := {};
      unreachable, terminated := false, 0;
      UnderwayStarts(control.disabled, control.sessions, control.fates, View());
      while left != {}
        invariant View() == old(View()) && done <= all && left == all - done
        invariant Underway(control.disabled, old(control.sessions), control.sessions, old(control.fates), control.fates, View(), done, terminated)
        decreases |left|
      {
        var k :| k in left;
        ghost var sessions, fates := control.sessions, control.fates;
        var gate, n := AskGate(k);
        UnderwayStep(control.disabled, old(control.sessions), sessions, control.sessions, old(control.fates), fates, control.fates,
                     View(), done, all, k, gate, n, terminated);
        if gate == Unreachable {
          return true, terminated;
        }
        if gate == Cleared {
          terminated := terminated + n;
        }
        left, done := left - {k}, done + {k};
      }
      assert done == all;
      UnderwayEnds(control.disabled, old(control.sessions), control.sessions, old(control.fates), control.fates, View(), all, terminated);
    }

    // --- Plugins ---

    method PostPlugin(serde: Serde, raw: RawPlugin, now: Time) returns (reply: Reply)
      modifies `plugins, `nextId
      ensures (View(), reply) == CreatePlugin(old(View()), serde, raw, now)
      ensures Sound(old(View())) ==> PluginPosted(old(View()), View(), reply, serde, raw, now)
    {
      hide CheckPlugin, Lower, Sound, PluginPosted;
      if Sound(View()) {
        PostPluginMeans(View(), serde, raw, now);
      }
      var validated := ValidateOne(serde, raw);
      if validated.Err? {
        return Refused;
      }
      var p := validated.value;
      if !Grammar.ValidName(p.name) {
        return Refused;
      }
      if exists id :: id in plugins && Lower(plugins[id].spec.name) == Lower(p.name) {
        return Taken;
      }
      plugins := plugins[nextId := PluginRow(p, now, now, None)];
      nextId := nextId + 1;
      return Done;
    }

    method PutPlugin(serde: Serde, id: Id, raw: RawPlugin, token: Time, now: Time) returns (reply: Reply)
      modifies `plugins
      ensures (View(), reply) == UpdatePlugin(old(View()), serde, id, raw, token, now)
      ensures PluginPut(old(View()), View(), reply, serde, id, raw, token, now)
    {
      hide CheckPlugin, Lower, PluginPut;
      PutPluginMeans(View(), serde, id, raw, token, now);
      var validated := ValidateOne(serde, raw);
      if validated.Err? {
        return Refused;
      }
      var p := validated.value;
      if id !in plugins {
        return NotFound;
      }
      var live := plugins[id];
      if token != live.updatedAt {
        return Stale;
      }
      if !Grammar.ValidName(p.name) {
        return Refused;
      }
      if exists other :: other in plugins && other != id && Lower(plugins[other].spec.name) == Lower(p.name) {
        return Taken;
      }
      plugins := plugins[id := live.(spec := p, updatedAt := now)];
      return Done;
    }

    method DropPlugin(id: Id, token: Option<Time>) returns (reply: Reply)
      modifies `plugins
      ensures (View(), reply) == DeletePlugin(old(View()), id, token)
      ensures PluginDropped(old(View()), View(), reply, id, token)
    {
      hide PluginDropped;
      DropPluginMeans(View(), id, token);
      if id !in plugins {
        return NotFound;
      }
      if token.Some? && token.value != plugins[id].updatedAt {
        return Stale;
      }
      var bound := set k | k in bindings && k.1 == id;
      if bound != {} {
        assert exists k :: k in bound;
        return HasDependents;
      }
      assert forall k :: k in bindings && k.1 == id ==> k in bound;
      plugins := plugins - {id};
      return Done;
    }

    // --- Bindings ---

    /** The tenant a binding write is sent under, here and below, plays no part in it. */
    method PostBinding(under: string, key: (Id, Id), config: Option<Json>, now: Time) returns (reply: Reply)
      modifies `bindings
      ensures (View(), reply) == CreateBinding(old(View()), key, config, now)
      ensures BindingPosted(old(View()), View(), reply, key, config, now)
    {
      hide BindingPosted;
      PostBindingMeans(View(), key, config, now);
      if key.0 !in workspaces || workspaces[key.0].tenantId !in tenants || key.1 !in plugins {
        return NotFound;
      }
      if key in bindings {
        return Taken;
      }
      var value := BindingConfig(config);
      if value.Err? {
        return value.error;
      }
      bindings := bindings[key := BindingRow(value.value, now, now)];
      return Done;
    }

    /** A config change ends the binding's live sessions first; an absent config clears the stored one. */
    method PutBinding(under: string, key: (Id, Id), config: Option<Json>, token: Time, now: Time) returns (reply: Reply, gate: Gate)
      requires Sound(View())
      modifies `bindings, control
      ensures (View(), reply) == UpdateBinding(old(View()), key, config, token, gate, now)
      ensures control.disabled ==> gate != Unreachable
      ensures key in bindings ==> ParentsThere(old(View()), key)
      ensures key in bindings ==>
                && GateKept(control.disabled, old(control.sessions), control.sessions, {TripleOf(old(View()), key)}, reply)
                && GateAnswered(control.disabled, old(control.fates), CallsFor(old(control.sessions), TripleOf(old(View()), key)), reply)
      ensures reply == Done && config == None ==>
                key in bindings && bindings[key].config == None
                && (bindings[key].config == old(bindings)[key].config <==> old(bindings)[key].config == None)
      ensures key !in bindings ==> control.sessions == old(control.sessions)
      ensures BindingPut(old(View()), View(), reply, key, config, token, gate, now)
    {
      hide Sound, Ended, Pruned, AllAnswered, CallsFor, BindingPut;
      BindingsHaveParents(View());
      PutBindingMeans(View(), key, config, token, Cleared, now);
      PutBindingMeans(View(), key, config, token, Disabled, now);
      PutBindingMeans(View(), key, config, token, Unreachable, now);
      gate := Cleared;
      if key !in bindings {
        return NotFound, gate;
      }
      var live := bindings[key];
      if token != live.updatedAt {
        return Stale, gate;
      }
      var value := BindingConfig(config);
      if value.Err? {
        return value.error, gate;
      }
      var asked, _ := AskGate(key);
      gate := asked;
      if gate == Unreachable {
        return Unavailable, gate;
      }
      bindings := bindings[key := live.(config := value.value, updatedAt := now)];
      return Done, gate;
    }

    method DropBinding(under: string, key: (Id, Id), token: Option<Time>) returns (reply: Reply, gate: Gate)
      requires Sound(View())
      modifies `bindings, control
      ensures (View(), reply) == DeleteBinding(old(View()), key, token, gate)
      ensures control.disabled ==> gate != Unreachable
      ensures key in old(bindings) ==> ParentsThere(old(View()), key)
      ensures key in old(bindings) ==>
                && GateKept(control.disabled, old(control.sessions), control.sessions, {TripleOf(old(View()), key)}, reply)
                && GateAnswered(control.disabled, old(control.fates), CallsFor(old(control.sessions), TripleOf(old(View()), key)), reply)
      ensures key !in old(bindings) ==> control.sessions == old(control.sessions)
      ensures BindingDropped(old(View()), View(), reply, key, token, gate)
    {
      hide Sound, Ended, Pruned, AllAnswered, CallsFor, BindingDropped;
      BindingsHaveParents(View());
      DropBindingMeans(View(), key, token, Cleared);
      DropBindingMeans(View(), key, token, Disabled);
      DropBindingMeans(View(), key, token, Unreachable);
      gate := Cleared;
      if key !in bindings {
        return NotFound, gate;
      }
      if token.Some? && token.value != bindings[key].updatedAt {
        return Stale, gate;
      }
      var asked, _ := AskGate(key);
      gate := asked;
      if gate == Unreachable {
        return Unavailable, gate;
      }
      bindings := bindings - {key};
      return Done, gate;
    }

    method AskGate(key: (Id, Id)) returns (gate: Gate, ended: nat)
      requires ParentsThere(View(), key)
      modifies control
      ensures Asked(control.disabled, old(control.sessions), control.sessions, old(control.fates), control.fates, TripleOf(View(), key), gate, ended)
    {
      hide Ended, Pruned, AllAnswered, Later, CallsFor;
      var triple := Triple(tenants[workspaces[key.0].tenantId].name, workspaces[key.0].name, plugins[key.1].spec.name);
      var outcome := control.TerminateLiveSessions(triple);
      match outcome {
        case Ok(n) => return Cleared, n;
        case Err(GateDisabled) => return Disabled, 0;
        case Err(GateUnavailable) => return Unreachable, 0;
      }
    }
  }

  /** Every session of these triples is ended so far, unless the gate is disabled. */
  ghost predicate Progress(disabled: bool, was: Sessions, now: Sessions, triples: set<Triple>, terminated: int) {
    && Pruned(was, now, triples)
    && (if disabled then now == was else Ended(was, now, triples))
    && terminated == |was| - |now|
  }

  /** What the gate did when asked about one triple. */
  ghost predicate Asked(disabled: bool, was: Sessions, now: Sessions, before: seq<Call>, after: seq<Call>, triple: Triple, gate: Gate, ended: nat) {
    && (gate == Disabled <==> disabled)
    && (gate == Unreachable <==> !disabled && !AllAnswered(before, CallsFor(was, triple)))
    && (disabled ==> now == was)
    && (gate == Cleared ==> Ended(was, now, {triple}) && ended == |Matching(was, {triple})| && after == Later(before, CallsFor(was, triple)))
    && Pruned(was, now, {triple})
  }

  /** And so far, when asked about the bindings that are done. */
  ghost predicate Underway(disabled: bool, was: Sessions, now: Sessions, before: seq<Call>, after: seq<Call>, db: Db, done: set<(Id, Id)>,
                           terminated: nat) {
    && (forall j :: j in done ==> ParentsThere(db, j))
    && Progress(disabled, was, now, TriplesOf(db, done), terminated)
    && (!disabled ==> Called(before, after, |done| + terminated))
  }

  lemma ProgressMeans(disabled: bool, was: Sessions, now: Sessions, triples: set<Triple>, terminated: int)
    requires Progress(disabled, was, now, triples, terminated)
    ensures Pruned(was, now, triples) && (if disabled then now == was else Ended(was, now, triples)) && terminated == |was| - |now|
  {
    hide Pruned, Ended;
  }

  lemma ProgressStep(disabled: bool, was: Sessions, mid: Sessions, now: Sessions, triples: set<Triple>, triple: Triple,
                     gate: Gate, n: nat, terminated: int)
    requires Progress(disabled, was, mid, triples, terminated)
    requires gate == Disabled <==> disabled
    requires disabled ==> now == mid
    requires gate == Cleared ==> Ended(mid, now, {triple}) && n == |Matching(mid, {triple})|
    requires Pruned(mid, now, {triple})
    ensures Pruned(was, now, triples + {triple})
    ensures gate != Unreachable ==>
              Progress(disabled, was, now, triples + {triple}, terminated + if gate == Cleared then n else 0)
  {
    hide Pruned, Ended, Matching;
    PrunedTwice(was, mid, now, triples, {triple});
    if gate == Cleared {
      EndedTwice(was, mid, now, triples, {triple});
      EndedSize(mid, now, {triple});
    }
  }

  /** So many calls were made and answered, and these fates are left. */
  predicate Called(before: seq<Call>, after: seq<Call>, calls: nat) {
    AllAnswered(before, calls) && after == Later(before, calls)
  }

  lemma NothingCalled(fates: seq<Call>)
    ensures Called(fates, fates, 0)
  {
  }

  lemma CalledOn(before: seq<Call>, midway: seq<Call>, now: seq<Call>, calls: nat, sessions: Sessions, triple: Triple, n: nat)
    requires Called(before, midway, calls) && AllAnswered(midway, CallsFor(sessions, triple)) && n == |Matching(sessions, {triple})|
    requires now == Later(midway, CallsFor(sessions, triple))
    ensures Called(before, now, calls + 1 + n)
  {
    hide AllAnswered, Later, Matching;
    AnsweredOn(before, calls, 1 + n);
  }

  /** The calls answered so far and those for one more binding are among the calls for all of them. */
  lemma CallsTooMany(before: seq<Call>, midway: seq<Call>, was: Sessions, mid: Sessions, db: Db, done: set<(Id, Id)>, all: set<(Id, Id)>,
                     k: (Id, Id), terminated: nat)
    requires k in all && k !in done && done <= all && forall j :: j in all ==> ParentsThere(db, j)
    requires Progress(false, was, mid, TriplesOf(db, done), terminated) && Called(before, midway, |done| + terminated)
    requires !AllAnswered(midway, CallsFor(mid, TripleOf(db, k)))
    ensures !AllAnswered(before, CallsForAll(was, db, all))
  {
    hide AllAnswered, Later, ParentsThere, TripleOf, TriplesOf, Progress, CallsFor, CallsForAll, Matching;
    CallsBound(was, mid, db, done, all, k, terminated);
    var calls := CallsFor(mid, TripleOf(db, k));
    AnsweredOn(before, |done| + terminated, calls);
    AnsweredOn(before, |done| + terminated + calls, CallsForAll(was, db, all) - (|done| + terminated + calls));
  }

  lemma CallsBound(was: Sessions, mid: Sessions, db: Db, done: set<(Id, Id)>, all: set<(Id, Id)>, k: (Id, Id), terminated: nat)
    requires k in all && k !in done && done <= all && forall j :: j in all ==> ParentsThere(db, j)
    requires Progress(false, was, mid, TriplesOf(db, done), terminated)
    ensures |done| + terminated + CallsFor(mid, TripleOf(db, k)) <= CallsForAll(was, db, all)
  {
    hide ParentsThere, TripleOf, TriplesOf, Progress, Matching, Ended, Pruned;
    ProgressMeans(false, was, mid, TriplesOf(db, done), terminated);
    EndedSize(was, mid, TriplesOf(db, done));
    MatchingSplits(was, mid, TriplesOf(db, done), TripleOf(db, k));
    TriplesGrow(db, done, k);
    TriplesWithin(was, db, done + {k}, all);
    Fewer(done, all, k);
  }

  lemma Fewer(done: set<(Id, Id)>, all: set<(Id, Id)>, k: (Id, Id))
    requires k in all && k !in done && done <= all
    ensures |done| + 1 <= |all|
  {
    Within(done + {k}, all);
  }

  lemma Within<T>(a: set<T>, b: set<T>)
    requires a <= b
    ensures |a| <= |b|
  {
    assert b == a + (b - a);
  }

  lemma MatchingSplits(was: Sessions, mid: Sessions, triples: set<Triple>, triple: Triple)
    requires Ended(was, mid, triples)
    ensures |Matching(was, triples + {triple})| == |Matching(was, triples)| + |Matching(mid, {triple})|
  {
    assert Matching(was, triples + {triple}) == Matching(was, triples) + Matching(mid, {triple});
  }

  lemma TriplesWithin(sessions: Sessions, db: Db, done: set<(Id, Id)>, all: set<(Id, Id)>)
    requires done <= all && forall j :: j in all ==> ParentsThere(db, j)
    ensures |Matching(sessions, TriplesOf(db, done))| <= |Matching(sessions, TriplesOf(db, all))|
  {
    hide ParentsThere, TripleOf;
    assert TriplesOf(db, done) <= TriplesOf(db, all);
    Within(Matching(sessions, TriplesOf(db, done)), Matching(sessions, TriplesOf(db, all)));
  }

  lemma CallsEnough(disabled: bool, before: seq<Call>, after: seq<Call>, was: Sessions, now: Sessions, db: Db, all: set<(Id, Id)>, terminated: nat)
    requires forall j :: j in all ==> ParentsThere(db, j)
    requires Progress(disabled, was, now, TriplesOf(db, all), terminated)
    requires !disabled ==> Called(before, after, |all| + terminated)
    ensures disabled || AllAnswered(before, CallsForAll(was, db, all))
  {
    hide AllAnswered, Later, ParentsThere, TripleOf, TriplesOf, Matching, Ended, Pruned;
    if !disabled {
      EndedSize(was, now, TriplesOf(db, all));
    }
  }

  lemma UnderwayStarts(disabled: bool, sessions: Sessions, fates: seq<Call>, db: Db)
    ensures Underway(disabled, sessions, sessions, fates, fates, db, {}, 0)
  {
    hide Progress;
    NothingEnded(disabled, sessions, db);
    NothingCalled(fates);
  }

  lemma UnderwayStep(disabled: bool, was: Sessions, mid: Sessions, now: Sessions, before: seq<Call>, midway: seq<Call>, after: seq<Call>,
                     db: Db, done: set<(Id, Id)>, all: set<(Id, Id)>, k: (Id, Id), gate: Gate, n: nat, terminated: nat)
    requires Underway(disabled, was, mid, before, midway, db, done, terminated)
    requires k in all && k !in done && done <= all && forall j :: j in all ==> ParentsThere(db, j)
    requires Asked(disabled, mid, now, midway, after, TripleOf(db, k), gate, n)
    ensures gate != Unreachable ==>
              Underway(disabled, was, now, before, after, db, done + {k}, terminated + if gate == Cleared then n else 0)
    ensures gate == Unreachable ==>
              !disabled && Pruned(was, now, TriplesOf(db, all)) && !AllAnswered(before, CallsForAll(was, db, all))
  {
    hide ParentsThere, TripleOf, TriplesOf, Progress, Called, Matching, Ended, Pruned, AllAnswered, Later, CallsFor, CallsForAll;
    ProgressStep(disabled, was, mid, now, TriplesOf(db, done), TripleOf(db, k), gate, n, terminated);
    TriplesGrow(db, done, k);
    if gate == Unreachable {
      PrunedMore(was, now, db, done + {k}, all);
      CallsTooMany(before, midway, was, mid, db, done, all, k, terminated);
    } else if gate == Cleared {
      CalledOn(before, midway, after, |done| + terminated, mid, TripleOf(db, k), n);
    }
  }

  lemma UnderwayEnds(disabled: bool, was: Sessions, now: Sessions, before: seq<Call>, after: seq<Call>, db: Db, all: set<(Id, Id)>,
                     terminated: nat)
    requires Underway(disabled, was, now, before, after, db, all, terminated) && forall j :: j in all ==> ParentsThere(db, j)
    ensures Pruned(was, now, TriplesOf(db, all)) && terminated == |was| - |now|
    ensures if disabled then now == was else Ended(was, now, TriplesOf(db, all))
    ensures disabled || AllAnswered(before, CallsForAll(was, db, all))
  {
    hide ParentsThere, TriplesOf, Progress, Called, Ended, Pruned, AllAnswered, CallsForAll;
    ProgressMeans(disabled, was, now, TriplesOf(db, all), terminated);
    CallsEnough(disabled, before, after, was, now, db, all, terminated);
  }

  lemma NothingEnded(disabled: bool, sessions: Sessions, db: Db)
    ensures Progress(disabled, sessions, sessions, TriplesOf(db, {}), 0)
  {
    assert TriplesOf(db, {}) == {};
    assert Matching(sessions, {}) == {};
  }

  lemma EndedSize(before: Sessions, after: Sessions, triples: set<Triple>)
    requires Ended(before, after, triples)
    ensures |Matching(before, triples)| == |before| - |after|
  {
    assert after.Keys == before.Keys - Matching(before, triples);
    assert Matching(before, triples) <= before.Keys;
  }

  lemma TriplesGrow(db: Db, done: set<(Id, Id)>, k: (Id, Id))
    requires ParentsThere(db, k) && forall j :: j in done ==> ParentsThere(db, j)
    ensures TriplesOf(db, done + {k}) == TriplesOf(db, done) + {TripleOf(db, k)}
  {
    hide ParentsThere;
  }

  lemma PrunedMore(before: Sessions, after: Sessions, db: Db, done: set<(Id, Id)>, all: set<(Id, Id)>)
    requires done <= all && forall k :: k in all ==> ParentsThere(db, k)
    requires Pruned(before, after, TriplesOf(db, done))
    ensures Pruned(before, after, TriplesOf(db, all))
  {
    hide ParentsThere;
    assert TriplesOf(db, done) <= TriplesOf(db, all);
  }
}
