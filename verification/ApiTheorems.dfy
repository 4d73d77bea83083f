/** What the api's writes keep, and what a lock token promises, over every run. */
module ApiTheorems {
  import opened Wrappers
  import opened Text
  import Grammar
  import opened PluginSpec
  import opened BootstrapTables
  import opened ApiTables

  // --- Well-formed tables ---

  predicate TenantNamesDiffer(tenants: map<Id, TenantRow>) {
    forall a, b :: a in tenants && b in tenants && Lower(tenants[a].name) == Lower(tenants[b].name) ==> a == b
  }

  predicate PluginNamesDiffer(plugins: map<Id, PluginRow>) {
    forall a, b :: a in plugins && b in plugins && Lower(plugins[a].spec.name) == Lower(plugins[b].spec.name) ==> a == b
  }

  predicate SamePlace(a: WorkspaceRow, b: WorkspaceRow) {
    a.tenantId == b.tenantId && Lower(a.name) == Lower(b.name)
  }

  predicate WorkspaceNamesDiffer(workspaces: map<Id, WorkspaceRow>) {
    forall a, b :: a in workspaces && b in workspaces && SamePlace(workspaces[a], workspaces[b]) ==> a == b
  }

  predicate TenantsThere(workspaces: map<Id, WorkspaceRow>, tenantIds: set<Id>) {
    forall w :: w in workspaces ==> workspaces[w].tenantId in tenantIds
  }

  predicate ParentsExist(keys: set<(Id, Id)>, workspaceIds: set<Id>, pluginIds: set<Id>) {
    forall k :: k in keys ==> k.0 in workspaceIds && k.1 in pluginIds
  }

  predicate IdsBelow(ids: set<Id>, nextId: Id) {
    forall id :: id in ids ==> id < nextId
  }

  /**
   * Every workspace has its tenant, every binding its workspace and plugin; no two tenants, no two plugins and no
   * two workspaces of one tenant have names that differ in letter case only; new ids are new.
   */
  predicate Sound(db: Db) {
    && TenantNamesDiffer(db.tenants) && PluginNamesDiffer(db.plugins) && WorkspaceNamesDiffer(db.workspaces)
    && TenantsThere(db.workspaces, db.tenants.Keys)
    && ParentsExist(db.bindings.Keys, db.workspaces.Keys, db.plugins.Keys)
    && IdsBelow(db.tenants.Keys, db.nextId) && IdsBelow(db.workspaces.Keys, db.nextId) && IdsBelow(db.plugins.Keys, db.nextId)
  }

  lemma IdsBelowNext(ids: set<Id>, nextId: Id)
    requires IdsBelow(ids, nextId)
    ensures IdsBelow(ids, nextId + 1) && IdsBelow(ids + {nextId}, nextId + 1)
  {
  }

  lemma TenantSet(db: Db, id: Id, row: TenantRow)
    requires TenantNamesDiffer(db.tenants) && !TenantNameTaken(db, row.name, Some(id))
    ensures TenantNamesDiffer(db.tenants[id := row])
  {
    hide Lower;
    assert forall b :: b in db.tenants && b != id ==> Lower(db.tenants[b].name) != Lower(row.name);
  }

  lemma PluginSet(db: Db, id: Id, row: PluginRow)
    requires PluginNamesDiffer(db.plugins) && !PluginNameTaken(db, row.spec.name, Some(id))
    ensures PluginNamesDiffer(db.plugins[id := row])
  {
    hide Lower;
    assert forall b :: b in db.plugins && b != id ==> Lower(db.plugins[b].spec.name) != Lower(row.spec.name);
  }

  lemma WorkspaceSet(db: Db, id: Id, row: WorkspaceRow)
    requires WorkspaceNamesDiffer(db.workspaces) && !WorkspaceNameTaken(db, row.tenantId, row.name, Some(id))
    ensures WorkspaceNamesDiffer(db.workspaces[id := row])
  {
    hide Lower;
    assert forall b :: b in db.workspaces && b != id ==> !SamePlace(db.workspaces[b], row);
  }

  /** A name no row at all has is one no other row has. */
  lemma NotTakenByOthers(db: Db, name: string, tenantId: Id, id: Id)
    ensures !TenantNameTaken(db, name, None) ==> !TenantNameTaken(db, name, Some(id))
    ensures !PluginNameTaken(db, name, None) ==> !PluginNameTaken(db, name, Some(id))
    ensures !WorkspaceNameTaken(db, tenantId, name, None) ==> !WorkspaceNameTaken(db, tenantId, name, Some(id))
  {
    hide Lower;
  }

  lemma CreateTenantKeeps(db: Db, raw: string, now: Time)
    requires Sound(db)
    ensures Sound(CreateTenant(db, raw, now).0)
  {
    hide Trim, TenantNameTaken, TenantNamesDiffer, PluginNamesDiffer, WorkspaceNamesDiffer, ParentsExist, IdsBelow;
    IdsBelowNext(db.tenants.Keys, db.nextId);
    IdsBelowNext(db.workspaces.Keys, db.nextId);
    IdsBelowNext(db.plugins.Keys, db.nextId);
    NotTakenByOthers(db, Trim(raw), 0, db.nextId);
    var after := CreateTenant(db, raw, now).0;
    if after != db {
      TenantSet(db, db.nextId, TenantRow(Trim(raw), now, now));
      assert after.tenants.Keys == db.tenants.Keys + {db.nextId};
    }
  }

  lemma UpdateTenantKeeps(db: Db, id: Id, raw: string, token: Time, now: Time)
    requires Sound(db)
    ensures Sound(UpdateTenant(db, id, raw, token, now).0)
  {
    hide Trim, TenantNameTaken, TenantNamesDiffer, PluginNamesDiffer, WorkspaceNamesDiffer, ParentsExist, IdsBelow;
    var after := UpdateTenant(db, id, raw, token, now).0;
    if after != db {
      TenantSet(db, id, db.tenants[id].(name := Trim(raw), updatedAt := now));
      assert after.tenants.Keys == db.tenants.Keys;
    }
  }

  lemma DeleteTenantKeeps(db: Db, id: Id, token: Option<Time>)
    requires Sound(db)
    ensures Sound(DeleteTenant(db, id, token).0)
  {
    hide PluginNamesDiffer, WorkspaceNamesDiffer, ParentsExist, Lower;
  }

  lemma CreateWorkspaceKeeps(db: Db, tenantId: Id, raw: string, now: Time)
    requires Sound(db)
    ensures Sound(CreateWorkspace(db, tenantId, raw, now).0)
  {
    hide Trim, WorkspaceNameTaken, TenantNamesDiffer, PluginNamesDiffer, WorkspaceNamesDiffer, IdsBelow;
    IdsBelowNext(db.tenants.Keys, db.nextId);
    IdsBelowNext(db.workspaces.Keys, db.nextId);
    IdsBelowNext(db.plugins.Keys, db.nextId);
    NotTakenByOthers(db, Trim(raw), tenantId, db.nextId);
    var after := CreateWorkspace(db, tenantId, raw, now).0;
    if after != db {
      WorkspaceSet(db, db.nextId, WorkspaceRow(tenantId, Trim(raw), now, now));
      assert after.workspaces.Keys == db.workspaces.Keys + {db.nextId};
    }
  }

  lemma UpdateWorkspaceKeeps(db: Db, tenantId: Id, id: Id, raw: string, token: Time, now: Time)
    requires Sound(db)
    ensures Sound(UpdateWorkspace(db, tenantId, id, raw, token, now).0)
  {
    hide Trim, WorkspaceNameTaken, TenantNamesDiffer, PluginNamesDiffer, WorkspaceNamesDiffer, IdsBelow;
    var after := UpdateWorkspace(db, tenantId, id, raw, token, now).0;
    if after != db {
      WorkspaceSet(db, id, db.workspaces[id].(name := Trim(raw), updatedAt := now));
      assert after.workspaces.Keys == db.workspaces.Keys;
    }
  }

  lemma DeleteWorkspaceKeeps(db: Db, tenantId: Id, id: Id, token: Option<Time>, gate: Gate)
    requires Sound(db)
    ensures Sound(DeleteWorkspace(db, tenantId, id, token, gate).0)
  {
    hide TenantNamesDiffer, PluginNamesDiffer, Lower;
  }

  lemma CreatePluginKeeps(db: Db, serde: Serde, raw: RawPlugin, now: Time)
    requires Sound(db)
    ensures Sound(CreatePlugin(db, serde, raw, now).0)
  {
    hide CheckPlugin, PluginNameTaken, TenantNamesDiffer, PluginNamesDiffer, WorkspaceNamesDiffer, IdsBelow;
    IdsBelowNext(db.tenants.Keys, db.nextId);
    IdsBelowNext(db.workspaces.Keys, db.nextId);
    IdsBelowNext(db.plugins.Keys, db.nextId);
    var after := CreatePlugin(db, serde, raw, now).0;
    if after != db {
      var p := CheckPlugin(serde, raw).value;
      NotTakenByOthers(db, p.name, 0, db.nextId);
      PluginSet(db, db.nextId, PluginRow(p, now, now, None));
      assert after.plugins.Keys == db.plugins.Keys + {db.nextId};
    }
  }

  lemma UpdatePluginKeeps(db: Db, serde: Serde, id: Id, raw: RawPlugin, token: Time, now: Time)
    requires Sound(db)
    ensures Sound(UpdatePlugin(db, serde, id, raw, token, now).0)
  {
    hide CheckPlugin, PluginNameTaken, TenantNamesDiffer, PluginNamesDiffer, WorkspaceNamesDiffer, IdsBelow;
    var after := UpdatePlugin(db, serde, id, raw, token, now).0;
    if after != db {
      PluginSet(db, id, db.plugins[id].(spec := CheckPlugin(serde, raw).value, updatedAt := now));
      assert after.plugins.Keys == db.plugins.Keys;
    }
  }

  lemma DeletePluginKeeps(db: Db, id: Id, token: Option<Time>)
    requires Sound(db)
    ensures Sound(DeletePlugin(db, id, token).0)
  {
    hide TenantNamesDiffer, WorkspaceNamesDiffer, Lower;
  }

  lemma BindingWritesKeep(db: Db, key: (Id, Id), config: Option<Json>, token: Time, ifSame: Option<Time>, gate: Gate, now: Time)
    requires Sound(db)
    ensures Sound(CreateBinding(db, key, config, now).0)
    ensures Sound(UpdateBinding(db, key, config, token, gate, now).0)
    ensures Sound(DeleteBinding(db, key, ifSame, gate).0)
  {
    hide TenantNamesDiffer, PluginNamesDiffer, WorkspaceNamesDiffer, IdsBelow, BindingConfig;
  }

  /** Every write keeps the tables sound. */
  lemma WriteKeepsSound(serde: Serde, db: Db, write: Write, now: Time)
    requires Sound(db)
    ensures Sound(Perform(serde, db, write, now).0)
  {
    hide Sound, CreateTenant, UpdateTenant, DeleteTenant, CreateWorkspace, UpdateWorkspace, DeleteWorkspace, CreatePlugin, UpdatePlugin,
         DeletePlugin, CreateBinding, UpdateBinding, DeleteBinding;
    match write
    case PostTenant(name) => CreateTenantKeeps(db, name, now);
    case PutTenantName(id, name, token) => UpdateTenantKeeps(db, id, name, token, now);
    case DropTenant(id, token) => DeleteTenantKeeps(db, id, token);
    case PostWorkspace(tenantId, name) => CreateWorkspaceKeeps(db, tenantId, name, now);
    case PutWorkspaceName(tenantId, id, name, token) => UpdateWorkspaceKeeps(db, tenantId, id, name, token, now);
    case DropWorkspace(tenantId, id, token, gate) => DeleteWorkspaceKeeps(db, tenantId, id, token, gate);
    case PostPlugin(raw) => CreatePluginKeeps(db, serde, raw, now);
    case PutPluginSpec(id, raw, token) => UpdatePluginKeeps(db, serde, id, raw, token, now);
    case DropPlugin(id, token) => DeletePluginKeeps(db, id, token);
    case PostBinding(_, key, config) => BindingWritesKeep(db, key, config, 0, None, Disabled, now);
    case PutBindingConfig(_, key, config, token, gate) => BindingWritesKeep(db, key, config, token, None, gate, now);
    case DropBinding(_, key, token, gate) => BindingWritesKeep(db, key, None, 0, token, gate, now);
  }

  /** Every run of writes keeps the tables sound. */
  lemma {:induction false} RunKeepsSound(serde: Serde, db: Db, run: Run)
    requires Sound(db)
    ensures Sound(After(serde, db, run))
  {
    hide Sound, Perform;
    if run != [] {
      var n := |run| - 1;
      RunKeepsSound(serde, db, run[..n]);
      WriteKeepsSound(serde, After(serde, db, run[..n]), run[n].0, run[n].1);
    }
  }

  // --- Delete guards ---

  /**
   * The guards are exact: a tenant or plugin delete that passes lookup and lock goes through if and only if the
   * tables are sound without its row, and is told of dependents otherwise. The tables are then as they were, less
   * that row when it goes through.
   */
  lemma GuardsAreExact(db: Db, id: Id, token: Option<Time>)
    requires Sound(db)
    ensures var without := db.(tenants := db.tenants - {id});
            id in db.tenants && OptionalLockHolds(token, db.tenants[id].updatedAt) ==>
              DeleteTenant(db, id, token) == if Sound(without) then (without, Done) else (db, HasDependents)
    ensures var without := db.(plugins := db.plugins - {id});
            id in db.plugins && OptionalLockHolds(token, db.plugins[id].updatedAt) ==>
              DeletePlugin(db, id, token) == if Sound(without) then (without, Done) else (db, HasDependents)
  {
    hide Sound;
    DeleteTenantKeeps(db, id, token);
    DeletePluginKeeps(db, id, token);
    DanglingIsUnsound(db, id);
  }

  lemma DanglingIsUnsound(db: Db, id: Id)
    ensures HasWorkspaces(db, id) ==> !Sound(db.(tenants := db.tenants - {id}))
    ensures IsBound(db, id) ==> !Sound(db.(plugins := db.plugins - {id}))
  {
    hide TenantNamesDiffer, PluginNamesDiffer, WorkspaceNamesDiffer, IdsBelow;
    if HasWorkspaces(db, id) {
      var w :| w in db.workspaces && db.workspaces[w].tenantId == id;
      assert id !in (db.tenants - {id}).Keys;
    }
    if IsBound(db, id) {
      var k :| k in db.bindings && k.1 == id;
      assert k in db.bindings.Keys && id !in (db.plugins - {id}).Keys;
    }
  }

  /** The tables without a workspace and without some of the bindings. */
  function Without(db: Db, id: Id, gone: set<(Id, Id)>): Db {
    db.(workspaces := db.workspaces - {id}, bindings := db.bindings - gone)
  }

  /**
   * A workspace delete takes the row, and of the bindings the fewest it can: taking some bindings along leaves
   * the tables sound exactly when all those go that the delete takes. None of them is another workspace's.
   */
  lemma WorkspaceTakesItsBindings(db: Db, tenantId: Id, id: Id, token: Option<Time>, gate: Gate, gone: set<(Id, Id)>)
    requires Sound(db) && DeleteWorkspace(db, tenantId, id, token, gate).1 == Done
    ensures var after := DeleteWorkspace(db, tenantId, id, token, gate).0;
            && after == Without(db, id, db.bindings.Keys - after.bindings.Keys)
            && (Sound(Without(db, id, gone)) <==> db.bindings.Keys - after.bindings.Keys <= gone)
            && (forall k :: k in db.bindings && k !in after.bindings ==> k.0 == id)
  {
    hide TenantNamesDiffer, PluginNamesDiffer, WorkspaceNamesDiffer, Sound;
    var after := DeleteWorkspace(db, tenantId, id, token, gate).0;
    assert after.bindings.Keys == db.bindings.Keys - BindingsOf(db, id);
    assert after.bindings == db.bindings - (db.bindings.Keys - after.bindings.Keys);
    if BindingsOf(db, id) <= gone {
      EnoughGone(db, id, gone);
    } else {
      var k :| k in BindingsOf(db, id) && k !in gone;
      TooFewGone(db, id, gone, k);
    }
  }

  lemma EnoughGone(db: Db, id: Id, gone: set<(Id, Id)>)
    requires Sound(db) && BindingsOf(db, id) <= gone
    ensures Sound(Without(db, id, gone))
  {
    hide TenantNamesDiffer, PluginNamesDiffer;
  }

  lemma TooFewGone(db: Db, id: Id, gone: set<(Id, Id)>, k: (Id, Id))
    requires k in BindingsOf(db, id) && k !in gone
    ensures !Sound(Without(db, id, gone))
  {
    hide TenantNamesDiffer, PluginNamesDiffer, WorkspaceNamesDiffer;
    assert k in Without(db, id, gone).bindings.Keys;
  }

  // --- Binding configs ---

  /** Stored configs are objects with something in them. */
  predicate Tidy(bindings: map<(Id, Id), BindingRow>) {
    forall k :: k in bindings && bindings[k].config.Some? ==>
      bindings[k].config.value.JObject? && bindings[k].config.value.fields != map[]
  }

  lemma WriteKeepsTidy(serde: Serde, db: Db, write: Write, now: Time)
    requires Tidy(db.bindings)
    ensures Tidy(Perform(serde, db, write, now).0.bindings)
  {
    hide Trim, CheckPlugin, TenantNameTaken, WorkspaceNameTaken, PluginNameTaken, ParentsThere;
  }

  lemma {:induction false} RunKeepsTidy(serde: Serde, db: Db, run: Run)
    requires Tidy(db.bindings)
    ensures Tidy(After(serde, db, run).bindings)
  {
    hide Tidy, Perform;
    if run != [] {
      var n := |run| - 1;
      RunKeepsTidy(serde, db, run[..n]);
      WriteKeepsTidy(serde, After(serde, db, run[..n]), run[n].0, run[n].1);
    }
  }

  /**
   * After any run of writes: a binding update that gives back the config as it is stored leaves it alone, while
   * one that leaves the config out stores none, and so leaves it alone exactly when none was stored.
   */
  lemma AbsentConfigClears(serde: Serde, start: Db, run: Run, key: (Id, Id), token: Time, gate: Gate, now: Time)
    requires Tidy(start.bindings)
    ensures var db := After(serde, start, run);
            key in db.bindings ==>
              var stored := db.bindings[key].config;
              && var same := UpdateBinding(db, key, stored, token, gate, now);
              && var absent := UpdateBinding(db, key, None, token, gate, now);
              && key in same.0.bindings && same.0.bindings[key].config == stored
              && key in absent.0.bindings && same.1 == absent.1
              && (absent.1 == Done ==>
                    absent.0.bindings[key].config == None && (absent.0.bindings[key].config == stored <==> stored == None))
              && (absent.1 != Done ==> absent.0 == db)
  {
    hide After, ParentsThere;
    RunKeepsTidy(serde, start, run);
  }

  /** One tenant, one workspace, one plugin and the binding of the two with this config, all stamped `t`. */
  function OneBinding(tenant: string, spec: Plugin, config: Option<Json>, t: Time): Db {
    Db(map[1 := PluginRow(spec, t, t, None)], map[2 := TenantRow(tenant, t, t)], map[3 := WorkspaceRow(2, "w", t, t)],
       map[(3, 1) := BindingRow(config, t, t)], 4)
  }

  lemma OneBindingIsSound(tenant: string, spec: Plugin, config: Option<Json>, t: Time)
    ensures Sound(OneBinding(tenant, spec, config, t))
  {
  }

  /** In well-formed tables an update without a config, sent with the right token, loses a config that is stored. */
  lemma AbsentConfigIsLost(spec: Plugin, t: Time, now: Time)
    ensures var config := Some(JObject(map["k" := JNull]));
            var db := OneBinding("a", spec, config, t);
            var update := UpdateBinding(db, (3, 1), None, t, Cleared, now);
            && Sound(db) && Tidy(db.bindings) && db.bindings[(3, 1)].config == config
            && update.1 == Done && update.0.bindings[(3, 1)].config == None
  {
    hide Sound;
    var config := Some(JObject(map["k" := JNull]));
    OneBindingIsSound("a", spec, config, t);
    assert "k" in map["k" := JNull];
  }

  // --- Lock tokens ---

  datatype Row = TenantAt(id: Id) | WorkspaceAt(id: Id) | PluginAt(id: Id) | BindingAt(key: (Id, Id))

  datatype Value = TenantValue(t: TenantRow) | WorkspaceValue(w: WorkspaceRow) | PluginValue(p: PluginRow) | BindingValue(b: BindingRow)

  function Read(db: Db, row: Row): Option<Value> {
    match row
    case TenantAt(id) => if id in db.tenants then Some(TenantValue(db.tenants[id])) else None
    case WorkspaceAt(id) => if id in db.workspaces then Some(WorkspaceValue(db.workspaces[id])) else None
    case PluginAt(id) => if id in db.plugins then Some(PluginValue(db.plugins[id])) else None
    case BindingAt(key) => if key in db.bindings then Some(BindingValue(db.bindings[key])) else None
  }

  /** The token a read of the row hands out. */
  function Stamp(v: Value): Time {
    match v
    case TenantValue(t) => t.updatedAt
    case WorkspaceValue(w) => w.updatedAt
    case PluginValue(p) => p.updatedAt
    case BindingValue(b) => b.updatedAt
  }

  /** A write leaves a row as it is, removes it, or leaves it stamped with the write's own time. */
  lemma WriteStamps(serde: Serde, db: Db, write: Write, now: Time, row: Row)
    ensures var after := Read(Perform(serde, db, write, now).0, row);
            after == Read(db, row) || after.None? || Stamp(after.value) == now
  {
    hide Trim, CheckPlugin, TenantNameTaken, WorkspaceNameTaken, PluginNameTaken, BindingConfig;
  }

  // --- The scope of a binding write ---

  predicate IsBindingWrite(write: Write) {
    write.PostBinding? || write.PutBindingConfig? || write.DropBinding?
  }

  predicate OfTenant(db: Db, name: string, key: (Id, Id)) {
    key.0 in db.workspaces && db.workspaces[key.0].tenantId in db.tenants && db.tenants[db.workspaces[key.0].tenantId].name == name
  }

  /** The rows a write changes are bindings of workspaces of the tenant it is sent under. */
  ghost predicate StaysUnder(db: Db, after: Db, under: string) {
    forall row :: Read(after, row) != Read(db, row) ==> row.BindingAt? && OfTenant(db, under, row.key)
  }

  /**
   * A binding write that goes through at a new time stays within the tenant it is sent under if and only if its
   * workspace is that tenant's: the lookups go by the binding's key.
   */
  lemma StaysUnderIff(serde: Serde, db: Db, write: Write, now: Time)
    requires IsBindingWrite(write) && Perform(serde, db, write, now).1 == Done
    requires write.key in db.bindings ==> db.bindings[write.key].updatedAt != now
    ensures StaysUnder(db, Perform(serde, db, write, now).0, write.under) <==> OfTenant(db, write.under, write.key)
  {
    hide Perform, OfTenant;
    var after := Perform(serde, db, write, now).0;
    OnlyItsRow(serde, db, write, now);
    assert Read(after, BindingAt(write.key)) != Read(db, BindingAt(write.key));
  }

  lemma OnlyItsRow(serde: Serde, db: Db, write: Write, now: Time)
    requires IsBindingWrite(write) && Perform(serde, db, write, now).1 == Done
    requires write.key in db.bindings ==> db.bindings[write.key].updatedAt != now
    ensures var after := Perform(serde, db, write, now).0;
            && after == db.(bindings := after.bindings)
            && (forall k :: k != write.key ==> (k in after.bindings <==> k in db.bindings))
            && (forall k :: k != write.key && k in db.bindings ==> after.bindings[k] == db.bindings[k])
            && (write.key in after.bindings && write.key in db.bindings ==> after.bindings[write.key] != db.bindings[write.key])
            && (write.key in after.bindings || write.key in db.bindings)
  {
    hide ParentsThere;
  }

  /** A delete sent under one tenant's name for a binding of another tenant's workspace goes through. */
  lemma SentUnderAnother(serde: Serde, spec: Plugin, config: Option<Json>, t: Time, now: Time)
    requires now != t
    ensures var db := OneBinding("b", spec, config, t);
            var write := DropBinding("a", (3, 1), None, Cleared);
            && Sound(db) && Perform(serde, db, write, now).1 == Done
            && !StaysUnder(db, Perform(serde, db, write, now).0, "a")
  {
    hide Sound, StaysUnder;
    var db := OneBinding("b", spec, config, t);
    var write := DropBinding("a", (3, 1), None, Cleared);
    OneBindingIsSound("b", spec, config, t);
    StaysUnderIff(serde, db, write, now);
  }

  /** Write times strictly increase, and the tables were last written before. */
  predicate Increasing(start: Time, run: Run) {
    && (forall i :: 0 <= i < |run| ==> start < run[i].1)
    && (forall i, j :: 0 <= i < j < |run| ==> run[i].1 < run[j].1)
  }

  ghost predicate StampedBy(db: Db, time: Time) {
    forall row :: Read(db, row).Some? ==> Stamp(Read(db, row).value) <= time
  }

  function LastTime(start: Time, run: Run): Time {
    if run == [] then start else run[|run| - 1].1
  }

  lemma RunStamps(serde: Serde, db: Db, run: Run, start: Time)
    requires Increasing(start, run) && StampedBy(db, start)
    ensures StampedBy(After(serde, db, run), LastTime(start, run)) && start <= LastTime(start, run)
  {
    hide After, StampedBy;
    RunStampsLoosely(serde, db, run, start);
  }

  /** The tables after the first `k` writes of the run. */
  function At(serde: Serde, db: Db, run: Run, k: nat): Db
    requires k <= |run|
  {
    After(serde, db, run[..k])
  }

  lemma AtStep(serde: Serde, db: Db, run: Run, k: nat)
    requires k < |run|
    ensures At(serde, db, run, k + 1) == Perform(serde, At(serde, db, run, k), run[k].0, run[k].1).0
  {
    hide Perform;
    assert run[..k + 1][..k] == run[..k];
  }

  lemma AtStamps(serde: Serde, db: Db, run: Run, start: Time, k: nat)
    requires k <= |run| && Increasing(start, run) && StampedBy(db, start)
    ensures forall m :: k <= m < |run| ==> forall row :: Read(At(serde, db, run, k), row).Some? ==>
              Stamp(Read(At(serde, db, run, k), row).value) < run[m].1
  {
    hide Perform, Read, After;
    RunStamps(serde, db, run[..k], start);
  }

  /** The row has stood as it was read, at every moment from write `i` to write `j`. */
  ghost predicate StoodStill(serde: Serde, db: Db, run: Run, row: Row, i: nat, j: nat)
    requires i <= j <= |run|
  {
    forall k :: i <= k <= j ==> Read(At(serde, db, run, k), row) == Read(At(serde, db, run, i), row)
  }

  /** From a read on, the row stands still, or is gone, or carries a later stamp. */
  lemma {:induction false} StillOrLater(serde: Serde, db: Db, run: Run, start: Time, row: Row, i: nat, j: nat)
    requires i <= j <= |run| && Increasing(start, run) && StampedBy(db, start)
    requires Read(At(serde, db, run, i), row).Some?
    ensures var there := Read(At(serde, db, run, j), row);
            StoodStill(serde, db, run, row, i, j) || there.None? || Stamp(there.value) > Stamp(Read(At(serde, db, run, i), row).value)
    decreases j - i
  {
    hide Perform, Read, At, StampedBy;
    if i < j {
      StillOrLater(serde, db, run, start, row, i, j - 1);
      AtStep(serde, db, run, j - 1);
      AtStamps(serde, db, run, start, i);
      WriteStamps(serde, At(serde, db, run, j - 1), run[j - 1].0, run[j - 1].1, row);
    }
  }

  /** The row a write locks and the token it submits. */
  function Lock(write: Write): Option<(Row, Time)> {
    match write
    case PutTenantName(id, _, token) => Some((TenantAt(id), token))
    case PutWorkspaceName(_, id, _, token) => Some((WorkspaceAt(id), token))
    case PutPluginSpec(id, _, token) => Some((PluginAt(id), token))
    case PutBindingConfig(_, key, _, token, _) => Some((BindingAt(key), token))
    case DropTenant(id, Some(token)) => Some((TenantAt(id), token))
    case DropWorkspace(_, id, Some(token), _) => Some((WorkspaceAt(id), token))
    case DropPlugin(id, Some(token)) => Some((PluginAt(id), token))
    case DropBinding(_, key, Some(token), _) => Some((BindingAt(key), token))
    case _ => None
  }

  lemma DoneHeldLock(serde: Serde, db: Db, write: Write, now: Time)
    requires Lock(write).Some? && Perform(serde, db, write, now).1 == Done
    ensures Read(db, Lock(write).value.0).Some? && Stamp(Read(db, Lock(write).value.0).value) == Lock(write).value.1
  {
    hide Trim, CheckPlugin, TenantNameTaken, WorkspaceNameTaken, PluginNameTaken, BindingConfig;
  }

  /**
   * No lost update. A put, or a delete with a token, that commits as write `j` with the token a read after write
   * `i` gave, commits over the row as it was read: no other write to that row committed in between, even where
   * a binding was deleted and made again under the same key.
   */
  lemma NoLostUpdate(serde: Serde, db: Db, run: Run, start: Time, row: Row, i: nat, j: nat)
    requires i <= j < |run| && Increasing(start, run) && StampedBy(db, start)
    requires Read(At(serde, db, run, i), row).Some?
    requires Lock(run[j].0) == Some((row, Stamp(Read(At(serde, db, run, i), row).value)))
    requires Perform(serde, At(serde, db, run, j), run[j].0, run[j].1).1 == Done
    ensures StoodStill(serde, db, run, row, i, j)
  {
    hide Perform, Read, At, StampedBy, StoodStill, Lock;
    StillOrLater(serde, db, run, start, row, i, j);
    DoneHeldLock(serde, At(serde, db, run, j), run[j].0, run[j].1);
  }

  /** A token read after write `i` holds after write `j`. */
  predicate TokenHolds(serde: Serde, db: Db, run: Run, row: Row, i: nat, j: nat)
    requires i <= j <= |run| && Read(At(serde, db, run, i), row).Some?
  {
    var there := Read(At(serde, db, run, j), row);
    there.Some? && LockHolds(Stamp(Read(At(serde, db, run, i), row).value), Stamp(there.value))
  }

  /** A token from a read holds at a later moment exactly when the row has stood still since. */
  lemma TokenHoldsIff(serde: Serde, db: Db, run: Run, start: Time, row: Row, i: nat, j: nat)
    requires i <= j <= |run| && Increasing(start, run) && StampedBy(db, start)
    requires Read(At(serde, db, run, i), row).Some?
    ensures TokenHolds(serde, db, run, row, i, j) <==> StoodStill(serde, db, run, row, i, j)
  {
    hide Perform, Read, At, StampedBy;
    StillOrLater(serde, db, run, start, row, i, j);
  }

  // --- Tokens when the clock stands still ---

  ghost predicate Changes(serde: Serde, db: Db, run: Run, row: Row, m: nat)
    requires m < |run|
  {
    Read(At(serde, db, run, m + 1), row) != Read(At(serde, db, run, m), row)
  }

  /** Of the writes from `i` up to `j`, write `m` is the last to change the row. */
  ghost predicate LastChange(serde: Serde, db: Db, run: Run, row: Row, i: nat, j: nat, m: nat)
    requires j <= |run|
  {
    i <= m < j && Changes(serde, db, run, row, m) && forall k :: m < k < j ==> !Changes(serde, db, run, row, k)
  }

  lemma {:induction false} UnchangedSince(serde: Serde, db: Db, run: Run, row: Row, m: nat, j: nat)
    requires m <= j <= |run| && forall k :: m <= k < j ==> !Changes(serde, db, run, row, k)
    ensures forall k :: m <= k <= j ==> Read(At(serde, db, run, k), row) == Read(At(serde, db, run, m), row)
    decreases j - m
  {
    hide At, Read;
    if m < j {
      UnchangedSince(serde, db, run, row, m, j - 1);
      assert !Changes(serde, db, run, row, j - 1);
    }
  }

  /** The row has stood still, or some write was the last to change it. */
  lemma {:induction false} StillOrChanged(serde: Serde, db: Db, run: Run, row: Row, i: nat, j: nat) returns (m: nat)
    requires i <= j <= |run|
    ensures StoodStill(serde, db, run, row, i, j) || LastChange(serde, db, run, row, i, j, m)
    decreases j - i
  {
    hide At, Read, Changes;
    m := i;
    if i < j {
      if Changes(serde, db, run, row, j - 1) {
        m := j - 1;
      } else {
        m := StillOrChanged(serde, db, run, row, i, j - 1);
        LastReadSame(serde, db, run, row, j - 1);
      }
    }
  }

  lemma LastReadSame(serde: Serde, db: Db, run: Run, row: Row, m: nat)
    requires m < |run| && !Changes(serde, db, run, row, m)
    ensures Read(At(serde, db, run, m + 1), row) == Read(At(serde, db, run, m), row)
  {
    hide At, Read;
  }

  /** A last change leaves the row gone, or stamped with that change's time, until `j`. */
  lemma LastChangeStamps(serde: Serde, db: Db, run: Run, row: Row, i: nat, j: nat, m: nat)
    requires j <= |run| && LastChange(serde, db, run, row, i, j, m)
    ensures var there := Read(At(serde, db, run, j), row);
            there == Read(At(serde, db, run, m + 1), row) && (there.None? || Stamp(there.value) == run[m].1)
  {
    hide At, Read, Perform;
    UnchangedSince(serde, db, run, row, m + 1, j);
    AtStep(serde, db, run, m);
    WriteStamps(serde, At(serde, db, run, m), run[m].0, run[m].1, row);
  }

  /** Write times never decrease, and the tables were last written no later. */
  predicate NonDecreasing(start: Time, run: Run) {
    && (forall i :: 0 <= i < |run| ==> start <= run[i].1)
    && (forall i, j :: 0 <= i < j < |run| ==> run[i].1 <= run[j].1)
  }

  lemma {:induction false} RunStampsLoosely(serde: Serde, db: Db, run: Run, start: Time)
    requires NonDecreasing(start, run) && StampedBy(db, start)
    ensures StampedBy(After(serde, db, run), LastTime(start, run)) && start <= LastTime(start, run)
  {
    hide Perform, Read;
    if run != [] {
      var n := |run| - 1;
      RunStampsLoosely(serde, db, run[..n], start);
      forall row | Read(After(serde, db, run), row).Some?
        ensures Stamp(Read(After(serde, db, run), row).value) <= LastTime(start, run)
      {
        WriteStamps(serde, After(serde, db, run[..n]), run[n].0, run[n].1, row);
      }
    }
  }

  lemma StampsSoFar(serde: Serde, db: Db, run: Run, start: Time, row: Row, i: nat, k: nat)
    requires i <= k < |run| && NonDecreasing(start, run) && StampedBy(db, start)
    requires Read(At(serde, db, run, i), row).Some?
    ensures Stamp(Read(At(serde, db, run, i), row).value) <= run[k].1
  {
    hide Perform, Read, After;
    RunStampsLoosely(serde, db, run[..i], start);
    assert i < k ==> run[i].1 <= run[k].1;
  }

  /**
   * With times that only do not decrease, a token holds although its row has not stood still exactly when the last
   * write to change the row has left it there and carries the stamp that was read. Then every write from the read
   * to that one was made at this one time; so a token is exact whenever the next write is made later than its stamp.
   */
  lemma TokenFooledIff(serde: Serde, db: Db, run: Run, start: Time, row: Row, i: nat, j: nat)
    requires i <= j <= |run| && NonDecreasing(start, run) && StampedBy(db, start)
    requires Read(At(serde, db, run, i), row).Some?
    ensures TokenHolds(serde, db, run, row, i, j) && !StoodStill(serde, db, run, row, i, j)
       <==> exists m: nat :: LastChange(serde, db, run, row, i, j, m) && Read(At(serde, db, run, m + 1), row).Some?
              && run[m].1 == Stamp(Read(At(serde, db, run, i), row).value)
    ensures var stamp := Stamp(Read(At(serde, db, run, i), row).value);
            forall m: nat :: LastChange(serde, db, run, row, i, j, m) && run[m].1 == stamp ==> forall k :: i <= k <= m ==> run[k].1 == stamp
    ensures (i < |run| && run[i].1 > Stamp(Read(At(serde, db, run, i), row).value)) ==>
              (TokenHolds(serde, db, run, row, i, j) <==> StoodStill(serde, db, run, row, i, j))
  {
    hide Read, At, StampedBy, LastChange, StoodStill;
    var stamp := Stamp(Read(At(serde, db, run, i), row).value);
    var last := StillOrChanged(serde, db, run, row, i, j);
    StillHolds(serde, db, run, row, i, j);
    if LastChange(serde, db, run, row, i, j, last) {
      LastChangeStamps(serde, db, run, row, i, j, last);
    }
    forall m: nat | LastChange(serde, db, run, row, i, j, m)
      ensures m == last && i <= m < j && !StoodStill(serde, db, run, row, i, j)
    {
      OneLastChange(serde, db, run, row, i, j, m, last);
    }
    forall m: nat, k: nat | LastChange(serde, db, run, row, i, j, m) && run[m].1 == stamp && i <= k <= m
      ensures run[k].1 == stamp
    {
      StampsSoFar(serde, db, run, start, row, i, k);
      assert k < m ==> run[k].1 <= run[m].1;
    }
  }

  lemma StillHolds(serde: Serde, db: Db, run: Run, row: Row, i: nat, j: nat)
    requires i <= j <= |run| && Read(At(serde, db, run, i), row).Some?
    ensures StoodStill(serde, db, run, row, i, j) ==> TokenHolds(serde, db, run, row, i, j)
  {
    hide Read, At;
  }

  lemma OneLastChange(serde: Serde, db: Db, run: Run, row: Row, i: nat, j: nat, m: nat, last: nat)
    requires i <= j <= |run| && LastChange(serde, db, run, row, i, j, m)
    requires StoodStill(serde, db, run, row, i, j) || LastChange(serde, db, run, row, i, j, last)
    ensures m == last && i <= m < j && !StoodStill(serde, db, run, row, i, j)
  {
    hide Read, At, Changes, StoodStill;
    StillIsUnchanged(serde, db, run, row, i, j, m);
  }

  lemma StillIsUnchanged(serde: Serde, db: Db, run: Run, row: Row, i: nat, j: nat, m: nat)
    requires i <= m < j <= |run|
    ensures StoodStill(serde, db, run, row, i, j) ==> !Changes(serde, db, run, row, m)
  {
    hide Read, At;
  }

  /** Two writes within one microsecond get past each other's lock: the second overwrites what it never read. */
  lemma SameMicrosecondLosesUpdate(serde: Serde, id: Id, t: Time)
    ensures var db := Db(map[], map[id := TenantRow("a", t, t)], map[], map[], id + 1);
            var first := Perform(serde, db, PutTenantName(id, "b", t), t);
            var second := Perform(serde, first.0, PutTenantName(id, "c", t), t);
            first.1 == Done && second.1 == Done && first.0.tenants[id].name == "b" && second.0.tenants[id].name == "c"
  {
    hide Perform;
    var db := Db(map[], map[id := TenantRow("a", t, t)], map[], map[], id + 1);
    RenameAlone(serde, db, id, "b", t);
    RenameAlone(serde, Perform(serde, db, PutTenantName(id, "b", t), t).0, id, "c", t);
  }

  lemma RenameAlone(serde: Serde, db: Db, id: Id, name: string, t: Time)
    requires db.tenants.Keys == {id} && db.tenants[id].updatedAt == t && (name == "b" || name == "c")
    ensures var after := Perform(serde, db, PutTenantName(id, name, t), t);
            after.1 == Done && after.0.tenants.Keys == {id} && after.0.tenants[id].name == name && after.0.tenants[id].updatedAt == t
  {
    hide Lower;
    TrimFixed(name);
    ShortNamesAreValid(name);
  }

  lemma ShortNamesAreValid(name: string)
    requires name == "b" || name == "c"
    ensures Grammar.ValidTenant(name)
  {
    assert forall i :: 0 <= i < |Grammar.RESERVED_TENANT_NAMES| ==> |Lower(Grammar.RESERVED_TENANT_NAMES[i])| > 1;
    assert |Lower(name)| == 1;
  }
}
