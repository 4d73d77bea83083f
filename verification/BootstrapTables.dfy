/** The four related tables, the upserts over them, and the join that reads them back. */
module BootstrapTables {
  import opened Wrappers
  import opened PluginSpec

  type Id = nat
  type Time = int

  /** `facet` belongs to another writer; bootstrap leaves it alone. */
  datatype PluginRow = PluginRow(spec: Plugin, createdAt: Time, updatedAt: Time, facet: Option<Id>)
  datatype TenantRow = TenantRow(name: string, createdAt: Time, updatedAt: Time)
  datatype WorkspaceRow = WorkspaceRow(tenantId: Id, name: string, createdAt: Time, updatedAt: Time)
  datatype BindingRow = BindingRow(config: Option<Json>, createdAt: Time, updatedAt: Time)

  /** Ids from `nextId` on have never been given out. */
  datatype Db = Db(
    plugins: map<Id, PluginRow>, tenants: map<Id, TenantRow>, workspaces: map<Id, WorkspaceRow>,
    bindings: map<(Id, Id), BindingRow>, nextId: Id)

  datatype Outcome = Inserted | Updated | Unchanged | Dangling

  // --- Well-formed tables: unique names and no dangling reference ---

  predicate PluginsOk(plugins: map<Id, PluginRow>, nextId: Id) {
    && (forall a, b :: a in plugins && b in plugins && plugins[a].spec.name == plugins[b].spec.name ==> a == b)
    && (forall a :: a in plugins ==> a < nextId)
  }

  predicate TenantsOk(tenants: map<Id, TenantRow>, nextId: Id) {
    && (forall a, b :: a in tenants && b in tenants && tenants[a].name == tenants[b].name ==> a == b)
    && (forall a :: a in tenants ==> a < nextId)
  }

  predicate SameSlot(a: WorkspaceRow, b: WorkspaceRow) {
    a.tenantId == b.tenantId && a.name == b.name
  }

  predicate WorkspacesOk(workspaces: map<Id, WorkspaceRow>, tenantIds: set<Id>, nextId: Id) {
    && (forall a, b :: a in workspaces && b in workspaces && SameSlot(workspaces[a], workspaces[b]) ==> a == b)
    && (forall a :: a in workspaces ==> a < nextId && workspaces[a].tenantId in tenantIds)
  }

  predicate BindingsOk(keys: set<(Id, Id)>, workspaceIds: set<Id>, pluginIds: set<Id>) {
    forall k :: k in keys ==> k.0 in workspaceIds && k.1 in pluginIds
  }

  predicate WellFormed(db: Db) {
    && PluginsOk(db.plugins, db.nextId) && TenantsOk(db.tenants, db.nextId)
    && WorkspacesOk(db.workspaces, db.tenants.Keys, db.nextId)
    && BindingsOk(db.bindings.Keys, db.workspaces.Keys, db.plugins.Keys)
  }

  // --- Lookups by name ---

  ghost function FindPlugin(db: Db, name: string): (r: Option<Id>)
    ensures r.Some? ==> r.value in db.plugins && db.plugins[r.value].spec.name == name
    ensures r.None? ==> forall id :: id in db.plugins ==> db.plugins[id].spec.name != name
  {
    if id :| id in db.plugins && db.plugins[id].spec.name == name then Some(id) else None
  }

  ghost function FindTenant(db: Db, name: string): (r: Option<Id>)
    ensures r.Some? ==> r.value in db.tenants && db.tenants[r.value].name == name
    ensures r.None? ==> forall id :: id in db.tenants ==> db.tenants[id].name != name
  {
    if id :| id in db.tenants && db.tenants[id].name == name then Some(id) else None
  }

  ghost function FindWorkspace(db: Db, tenantId: Id, name: string): (r: Option<Id>)
    ensures r.Some? ==> r.value in db.workspaces && db.workspaces[r.value].tenantId == tenantId && db.workspaces[r.value].name == name
    ensures r.None? ==> forall id :: id in db.workspaces ==> db.workspaces[id].tenantId != tenantId || db.workspaces[id].name != name
  {
    if id :| id in db.workspaces && db.workspaces[id].tenantId == tenantId && db.workspaces[id].name == name then Some(id) else None
  }

  // --- Upserts ---

  ghost function UpsertPlugin(db: Db, p: Plugin, now: Time): (Db, Outcome) {
    match FindPlugin(db, p.name)
    case Some(id) =>
      if db.plugins[id].spec == p then (db, Unchanged)
      else (db.(plugins := db.plugins[id := db.plugins[id].(spec := p, updatedAt := now)]), Updated)
    case None =>
      (db.(plugins := db.plugins[db.nextId := PluginRow(p, now, now, None)], nextId := db.nextId + 1), Inserted)
  }

  ghost function UpsertTenant(db: Db, name: string, now: Time): (Db, Outcome) {
    match FindTenant(db, name)
    case Some(_) => (db, Updated)
    case None => (db.(tenants := db.tenants[db.nextId := TenantRow(name, now, now)], nextId := db.nextId + 1), Inserted)
  }

  ghost function UpsertWorkspace(db: Db, tenantId: Id, name: string, now: Time): (Db, Outcome) {
    match FindWorkspace(db, tenantId, name)
    case Some(_) => (db, Updated)
    case None =>
      (db.(workspaces := db.workspaces[db.nextId := WorkspaceRow(tenantId, name, now, now)], nextId := db.nextId + 1), Inserted)
  }

  function UpsertBinding(db: Db, key: (Id, Id), config: Option<Json>, now: Time): (Db, Outcome) {
    if key in db.bindings then
      if db.bindings[key].config == config then (db, Unchanged)
      else (db.(bindings := db.bindings[key := db.bindings[key].(config := config, updatedAt := now)]), Updated)
    else (db.(bindings := db.bindings[key := BindingRow(config, now, now)]), Inserted)
  }

  // --- The same, by name ---

  datatype Op =
    | PutPlugin(plugin: Plugin)
    | PutTenant(tenant: string)
    | PutWorkspace(ofTenant: string, workspace: string)
    | PutBinding(inTenant: string, inWorkspace: string, name: string, config: Option<Json>)

  ghost function FindWorkspaceOf(db: Db, tenant: string, workspace: string): Option<Id> {
    match FindTenant(db, tenant)
    case Some(t) => FindWorkspace(db, t, workspace)
    case None => None
  }

  ghost function RunOp(db: Db, op: Op, now: Time): (Db, Outcome) {
    match op
    case PutPlugin(p) => UpsertPlugin(db, p, now)
    case PutTenant(name) => UpsertTenant(db, name, now)
    case PutWorkspace(tenant, name) =>
      (match FindTenant(db, tenant)
       case Some(t) => UpsertWorkspace(db, t, name, now)
       case None => (db, Dangling))
    case PutBinding(tenant, workspace, plugin, config) =>
      var w, p := FindWorkspaceOf(db, tenant, workspace), FindPlugin(db, plugin);
      if w.None? || p.None? then (db, Dangling) else UpsertBinding(db, (w.value, p.value), config, now)
  }

  datatype Stats = Stats(
    tenantsInserted: nat, tenantsUpdated: nat, workspacesInserted: nat, workspacesUpdated: nat,
    pluginsInserted: nat, pluginsUpdated: nat, bindingsInserted: nat, bindingsUpdated: nat)

  const NO_STATS := Stats(0, 0, 0, 0, 0, 0, 0, 0)

  function Tally(s: Stats, op: Op, outcome: Outcome): Stats {
    match op
    case PutPlugin(_) =>
      if outcome == Inserted then s.(pluginsInserted := s.pluginsInserted + 1)
      else if outcome == Updated then s.(pluginsUpdated := s.pluginsUpdated + 1) else s
    case PutTenant(_) =>
      if outcome == Inserted then s.(tenantsInserted := s.tenantsInserted + 1) else s.(tenantsUpdated := s.tenantsUpdated + 1)
    case PutWorkspace(_, _) =>
      if outcome == Inserted then s.(workspacesInserted := s.workspacesInserted + 1) else s.(workspacesUpdated := s.workspacesUpdated + 1)
    case PutBinding(_, _, _, _) =>
      if outcome == Inserted then s.(bindingsInserted := s.bindingsInserted + 1)
      else if outcome == Updated then s.(bindingsUpdated := s.bindingsUpdated + 1) else s
  }

  /** Every upsert moves at most the one counter of its kind and outcome, and by one; a tenant or workspace always moves one. */
  lemma TallyMeans(s: Stats, op: Op, outcome: Outcome)
    ensures var t := Tally(s, op, outcome);
            && t.tenantsInserted - s.tenantsInserted == (if op.PutTenant? && outcome == Inserted then 1 else 0)
            && t.tenantsUpdated - s.tenantsUpdated == (if op.PutTenant? && outcome != Inserted then 1 else 0)
            && t.workspacesInserted - s.workspacesInserted == (if op.PutWorkspace? && outcome == Inserted then 1 else 0)
            && t.workspacesUpdated - s.workspacesUpdated == (if op.PutWorkspace? && outcome != Inserted then 1 else 0)
            && t.pluginsInserted - s.pluginsInserted == (if op.PutPlugin? && outcome == Inserted then 1 else 0)
            && t.pluginsUpdated - s.pluginsUpdated == (if op.PutPlugin? && outcome == Updated then 1 else 0)
            && t.bindingsInserted - s.bindingsInserted == (if op.PutBinding? && outcome == Inserted then 1 else 0)
            && t.bindingsUpdated - s.bindingsUpdated == (if op.PutBinding? && outcome == Updated then 1 else 0)
  {
  }

  ghost function RunOps(db: Db, ops: seq<Op>, now: Time): (Db, Stats) {
    if ops == [] then (db, NO_STATS)
    else
      var n := |ops| - 1;
      var (before, stats) := RunOps(db, ops[..n], now);
      var (after, outcome) := RunOp(before, ops[n], now);
      (after, Tally(stats, ops[n], outcome))
  }

  // --- Times ---

  /** A plugin row is as it was, or was changed at `now`; its name, creation time and facet are kept; a new one is of `now`. */
  ghost predicate PluginsStamped(before: map<Id, PluginRow>, after: map<Id, PluginRow>, now: Time) {
    && (forall id :: id in before ==>
          id in after && (after[id] == before[id]
                          || (after[id] == before[id].(spec := after[id].spec, updatedAt := now) && after[id].spec.name == before[id].spec.name)))
    && (forall id :: id in after && id !in before ==> after[id] == PluginRow(after[id].spec, now, now, None))
  }

  ghost predicate BindingsStamped(before: map<(Id, Id), BindingRow>, after: map<(Id, Id), BindingRow>, now: Time) {
    && (forall k :: k in before ==>
          k in after && (after[k] == before[k] || after[k] == before[k].(config := after[k].config, updatedAt := now)))
    && (forall k :: k in after && k !in before ==> after[k] == BindingRow(after[k].config, now, now))
  }

  /** Tenant and workspace rows are never changed. */
  ghost predicate PlacesStamped(before: Db, after: Db, now: Time) {
    && (forall id :: id in before.tenants ==> id in after.tenants && after.tenants[id] == before.tenants[id])
    && (forall id :: id in before.workspaces ==> id in after.workspaces && after.workspaces[id] == before.workspaces[id])
    && (forall id :: id in after.tenants && id !in before.tenants ==> after.tenants[id] == TenantRow(after.tenants[id].name, now, now))
    && (forall id :: id in after.workspaces && id !in before.workspaces ==>
          after.workspaces[id] == WorkspaceRow(after.workspaces[id].tenantId, after.workspaces[id].name, now, now))
  }

  ghost predicate RowsStamped(before: Db, after: Db, now: Time) {
    PluginsStamped(before.plugins, after.plugins, now) && BindingsStamped(before.bindings, after.bindings, now) && PlacesStamped(before, after, now)
  }

  lemma StampedSelf(db: Db, now: Time)
    ensures RowsStamped(db, db, now)
  {
  }

  lemma StampedTwice(a: Db, b: Db, c: Db, now: Time)
    requires RowsStamped(a, b, now) && RowsStamped(b, c, now)
    ensures RowsStamped(a, c, now)
  {
    PluginsStampedTwice(a.plugins, b.plugins, c.plugins, now);
    BindingsStampedTwice(a.bindings, b.bindings, c.bindings, now);
  }

  lemma PluginsStampedTwice(a: map<Id, PluginRow>, b: map<Id, PluginRow>, c: map<Id, PluginRow>, now: Time)
    requires PluginsStamped(a, b, now) && PluginsStamped(b, c, now)
    ensures PluginsStamped(a, c, now)
  {
  }

  lemma BindingsStampedTwice(a: map<(Id, Id), BindingRow>, b: map<(Id, Id), BindingRow>, c: map<(Id, Id), BindingRow>, now: Time)
    requires BindingsStamped(a, b, now) && BindingsStamped(b, c, now)
    ensures BindingsStamped(a, c, now)
  {
  }

  lemma OpStampsRows(db: Db, op: Op, now: Time)
    requires db.nextId !in db.plugins && db.nextId !in db.tenants && db.nextId !in db.workspaces
    ensures RowsStamped(db, RunOp(db, op, now).0, now)
  {
    hide FindPlugin, FindTenant, FindWorkspace, UpsertPlugin, UpsertTenant, UpsertWorkspace, UpsertBinding, RowsStamped, FindWorkspaceOf;
    StampedSelf(db, now);
    match op
    case PutPlugin(p) => PluginUpsertStamps(db, p, now);
    case PutTenant(name) => TenantUpsertStamps(db, name, now);
    case PutWorkspace(tenant, name) =>
      if FindTenant(db, tenant).Some? {
        WorkspaceUpsertStamps(db, FindTenant(db, tenant).value, name, now);
      }
    case PutBinding(tenant, workspace, plugin, config) =>
      if FindWorkspaceOf(db, tenant, workspace).Some? && FindPlugin(db, plugin).Some? {
        BindingUpsertStamps(db, (FindWorkspaceOf(db, tenant, workspace).value, FindPlugin(db, plugin).value), config, now);
      }
  }

  lemma PluginUpsertStamps(db: Db, p: Plugin, now: Time)
    requires db.nextId !in db.plugins
    ensures RowsStamped(db, UpsertPlugin(db, p, now).0, now)
  {
    hide FindPlugin;
  }

  lemma TenantUpsertStamps(db: Db, name: string, now: Time)
    requires db.nextId !in db.tenants
    ensures RowsStamped(db, UpsertTenant(db, name, now).0, now)
  {
    hide FindTenant;
  }

  lemma WorkspaceUpsertStamps(db: Db, tenantId: Id, name: string, now: Time)
    requires db.nextId !in db.workspaces
    ensures RowsStamped(db, UpsertWorkspace(db, tenantId, name, now).0, now)
  {
    hide FindWorkspace;
  }

  lemma BindingUpsertStamps(db: Db, key: (Id, Id), config: Option<Json>, now: Time)
    ensures RowsStamped(db, UpsertBinding(db, key, config, now).0, now)
  {
  }

  /**
   * Whatever a run of upserts does, a row that was there is afterwards as it was, or was changed and carries the
   * time of the run; creation times and facets are kept, and what is new is stamped with that time.
   */
  lemma {:induction false} RunStampsRows(db: Db, ops: seq<Op>, now: Time)
    requires WellFormed(db) && Ordered({}, ops)
    ensures RowsStamped(db, RunOps(db, ops, now).0, now)
  {
    hide WellFormed, Ordered, RunOp, RowsStamped;
    if ops == [] {
      StampedSelf(db, now);
    } else {
      var n := |ops| - 1;
      OrderedInit(ops);
      RunStampsRows(db, ops[..n], now);
      RunPlaces(db, ops[..n], now);
      var mid := RunOps(db, ops[..n], now).0;
      MoreIdsKnown(mid);
      OpStampsRows(mid, ops[n], now);
      StampedTwice(db, mid, RunOps(db, ops, now).0, now);
    }
  }

  // --- The resolve join ---

  /** The binding rows the four-table join selects for three names. */
  function Join(db: Db, tenant: string, workspace: string, plugin: string): set<(Id, Id)> {
    set k | k in db.bindings && k.0 in db.workspaces && k.1 in db.plugins && db.workspaces[k.0].tenantId in db.tenants
      && db.tenants[db.workspaces[k.0].tenantId].name == tenant && db.workspaces[k.0].name == workspace
      && db.plugins[k.1].spec.name == plugin
  }

  // --- What an upsert leaves behind ---

  /** The tables already are as the operation would leave them. */
  ghost predicate Established(db: Db, op: Op) {
    match op
    case PutPlugin(p) => FindPlugin(db, p.name).Some? && db.plugins[FindPlugin(db, p.name).value].spec == p
    case PutTenant(name) => FindTenant(db, name).Some?
    case PutWorkspace(tenant, name) => FindWorkspaceOf(db, tenant, name).Some?
    case PutBinding(tenant, workspace, plugin, config) =>
      var w, p := FindWorkspaceOf(db, tenant, workspace), FindPlugin(db, plugin);
      w.Some? && p.Some? && (w.value, p.value) in db.bindings && db.bindings[(w.value, p.value)].config == config
  }

  /** What has to be there before the operation. */
  ghost predicate Enabled(db: Db, op: Op) {
    match op
    case PutWorkspace(tenant, _) => FindTenant(db, tenant).Some?
    case PutBinding(tenant, workspace, plugin, _) => FindWorkspaceOf(db, tenant, workspace).Some? && FindPlugin(db, plugin).Some?
    case _ => true
  }

  /** Nothing is deleted, and no row changes its name or its place. */
  ghost predicate Keeps(before: Db, after: Db) {
    && (forall id :: id in before.plugins ==> id in after.plugins && after.plugins[id].spec.name == before.plugins[id].spec.name)
    && (forall id :: id in before.tenants ==> id in after.tenants && after.tenants[id] == before.tenants[id])
    && (forall id :: id in before.workspaces ==> id in after.workspaces && after.workspaces[id] == before.workspaces[id])
    && (forall k :: k in before.bindings ==> k in after.bindings)
  }

  lemma FoundPlugin(db: Db, id: Id)
    requires WellFormed(db) && id in db.plugins
    ensures FindPlugin(db, db.plugins[id].spec.name) == Some(id)
  {
  }

  lemma FoundTenant(db: Db, id: Id)
    requires WellFormed(db) && id in db.tenants
    ensures FindTenant(db, db.tenants[id].name) == Some(id)
  {
  }

  lemma FoundWorkspace(db: Db, id: Id)
    requires WellFormed(db) && id in db.workspaces
    ensures FindWorkspace(db, db.workspaces[id].tenantId, db.workspaces[id].name) == Some(id)
  {
  }

  /** What a name finds, it still finds after anything that keeps the rows. */
  lemma FindsStay(before: Db, after: Db)
    requires WellFormed(after) && Keeps(before, after)
    ensures forall name :: FindPlugin(before, name).Some? ==> FindPlugin(after, name) == FindPlugin(before, name)
    ensures forall name :: FindTenant(before, name).Some? ==> FindTenant(after, name) == FindTenant(before, name)
    ensures forall tenant, name :: FindWorkspaceOf(before, tenant, name).Some? ==>
              FindWorkspaceOf(after, tenant, name) == FindWorkspaceOf(before, tenant, name)
  {
    forall name | FindPlugin(before, name).Some?
      ensures FindPlugin(after, name) == FindPlugin(before, name)
    {
      FoundPlugin(after, FindPlugin(before, name).value);
    }
    forall name | FindTenant(before, name).Some?
      ensures FindTenant(after, name) == FindTenant(before, name)
    {
      FoundTenant(after, FindTenant(before, name).value);
    }
    forall tenant, name | FindWorkspaceOf(before, tenant, name).Some?
      ensures FindWorkspaceOf(after, tenant, name) == FindWorkspaceOf(before, tenant, name)
    {
      FoundWorkspace(after, FindWorkspaceOf(before, tenant, name).value);
    }
  }

  lemma MoreIds(db: Db, plugins: map<Id, PluginRow>, tenants: map<Id, TenantRow>, workspaces: map<Id, WorkspaceRow>)
    requires WellFormed(db)
    ensures PluginsOk(db.plugins, db.nextId + 1) && TenantsOk(db.tenants, db.nextId + 1)
    ensures tenants.Keys >= db.tenants.Keys ==> WorkspacesOk(db.workspaces, tenants.Keys, db.nextId + 1)
    ensures workspaces.Keys >= db.workspaces.Keys && plugins.Keys >= db.plugins.Keys ==>
              BindingsOk(db.bindings.Keys, workspaces.Keys, plugins.Keys)
    ensures db.nextId !in db.plugins && db.nextId !in db.tenants && db.nextId !in db.workspaces
  {
  }

  lemma AddPlugin(plugins: map<Id, PluginRow>, nextId: Id, row: PluginRow)
    requires PluginsOk(plugins, nextId)
    requires forall id :: id in plugins ==> plugins[id].spec.name != row.spec.name
    ensures PluginsOk(plugins[nextId := row], nextId + 1)
  {
  }

  lemma SetPlugin(plugins: map<Id, PluginRow>, nextId: Id, id: Id, row: PluginRow)
    requires PluginsOk(plugins, nextId) && id in plugins && plugins[id].spec.name == row.spec.name
    ensures PluginsOk(plugins[id := row], nextId) && plugins[id := row].Keys == plugins.Keys
  {
  }

  lemma PluginOpWellFormed(db: Db, p: Plugin, now: Time)
    requires WellFormed(db)
    ensures WellFormed(UpsertPlugin(db, p, now).0)
  {
    hide FindPlugin, PluginsOk, TenantsOk, WorkspacesOk, BindingsOk;
    var after := UpsertPlugin(db, p, now).0;
    match FindPlugin(db, p.name)
    case Some(id) => SetPlugin(db.plugins, db.nextId, id, db.plugins[id].(spec := p, updatedAt := now));
    case None =>
      MoreIds(db, after.plugins, after.tenants, after.workspaces);
      AddPlugin(db.plugins, db.nextId, PluginRow(p, now, now, None));
  }

  lemma PluginOpKeeps(db: Db, p: Plugin, now: Time)
    requires WellFormed(db)
    ensures var after := UpsertPlugin(db, p, now).0;
            WellFormed(after) && Keeps(db, after) && Established(after, PutPlugin(p))
  {
    hide FindPlugin, WellFormed;
    var after := UpsertPlugin(db, p, now).0;
    MoreIdsKnown(db);
    PluginOpWellFormed(db, p, now);
    FoundPlugin(after, if FindPlugin(db, p.name).Some? then FindPlugin(db, p.name).value else db.nextId);
  }

  lemma MoreIdsKnown(db: Db)
    requires WellFormed(db)
    ensures db.nextId !in db.plugins && db.nextId !in db.tenants && db.nextId !in db.workspaces
  {
  }

  lemma AddTenant(tenants: map<Id, TenantRow>, nextId: Id, row: TenantRow)
    requires TenantsOk(tenants, nextId)
    requires forall id :: id in tenants ==> tenants[id].name != row.name
    ensures TenantsOk(tenants[nextId := row], nextId + 1)
  {
  }

  lemma TenantOpKeeps(db: Db, name: string, now: Time)
    requires WellFormed(db)
    ensures var after := UpsertTenant(db, name, now).0;
            WellFormed(after) && Keeps(db, after) && Established(after, PutTenant(name))
  {
    hide FindTenant, PluginsOk, TenantsOk, WorkspacesOk, BindingsOk;
    var after := UpsertTenant(db, name, now).0;
    MoreIds(db, after.plugins, after.tenants, after.workspaces);
    if FindTenant(db, name).None? {
      AddTenant(db.tenants, db.nextId, TenantRow(name, now, now));
    }
    FoundTenant(after, if FindTenant(db, name).Some? then FindTenant(db, name).value else db.nextId);
  }

  lemma AddWorkspace(workspaces: map<Id, WorkspaceRow>, tenantIds: set<Id>, nextId: Id, row: WorkspaceRow)
    requires WorkspacesOk(workspaces, tenantIds, nextId) && row.tenantId in tenantIds
    requires forall id :: id in workspaces ==> !SameSlot(workspaces[id], row)
    ensures WorkspacesOk(workspaces[nextId := row], tenantIds, nextId + 1)
  {
  }

  lemma WorkspaceAtKeeps(db: Db, t: Id, name: string, now: Time)
    requires WellFormed(db) && t in db.tenants
    ensures var after := UpsertWorkspace(db, t, name, now).0;
            WellFormed(after) && Keeps(db, after) && FindWorkspace(after, t, name).Some?
  {
    hide FindWorkspace, PluginsOk, TenantsOk, WorkspacesOk, BindingsOk;
    var after := UpsertWorkspace(db, t, name, now).0;
    MoreIds(db, after.plugins, after.tenants, after.workspaces);
    if FindWorkspace(db, t, name).None? {
      AddWorkspace(db.workspaces, db.tenants.Keys, db.nextId, WorkspaceRow(t, name, now, now));
    }
    FoundWorkspace(after, if FindWorkspace(db, t, name).Some? then FindWorkspace(db, t, name).value else db.nextId);
  }

  lemma WorkspaceOpKeeps(db: Db, tenant: string, name: string, now: Time)
    requires WellFormed(db) && FindTenant(db, tenant).Some?
    ensures var after := RunOp(db, PutWorkspace(tenant, name), now).0;
            WellFormed(after) && Keeps(db, after) && Established(after, PutWorkspace(tenant, name))
  {
    hide FindTenant, FindWorkspace, WellFormed, Keeps, UpsertWorkspace;
    var t := FindTenant(db, tenant).value;
    WorkspaceAtKeeps(db, t, name, now);
    FindsStay(db, RunOp(db, PutWorkspace(tenant, name), now).0);
  }

  lemma BindingAtKeeps(db: Db, k: (Id, Id), config: Option<Json>, now: Time)
    requires WellFormed(db) && k.0 in db.workspaces && k.1 in db.plugins
    ensures var after := UpsertBinding(db, k, config, now).0;
            WellFormed(after) && Keeps(db, after) && k in after.bindings && after.bindings[k].config == config
  {
    hide PluginsOk, TenantsOk, WorkspacesOk;
  }

  lemma BindingOpKeeps(db: Db, tenant: string, workspace: string, plugin: string, config: Option<Json>, now: Time)
    requires WellFormed(db) && Enabled(db, PutBinding(tenant, workspace, plugin, config))
    ensures var op := PutBinding(tenant, workspace, plugin, config);
            var after := RunOp(db, op, now).0;
            WellFormed(after) && Keeps(db, after) && Established(after, op)
  {
    hide FindWorkspaceOf, FindPlugin, WellFormed, Keeps, UpsertBinding;
    FindWorkspaceOfIsThere(db, tenant, workspace);
    BindingAtKeeps(db, (FindWorkspaceOf(db, tenant, workspace).value, FindPlugin(db, plugin).value), config, now);
    FindsStay(db, RunOp(db, PutBinding(tenant, workspace, plugin, config), now).0);
  }

  lemma FindWorkspaceOfIsThere(db: Db, tenant: string, workspace: string)
    ensures FindWorkspaceOf(db, tenant, workspace).Some? ==> FindWorkspaceOf(db, tenant, workspace).value in db.workspaces
  {
  }

  /** An enabled operation keeps the tables well formed and every row in place, and leaves itself established. */
  lemma OpKeeps(db: Db, op: Op, now: Time)
    requires WellFormed(db) && Enabled(db, op)
    ensures var after := RunOp(db, op, now).0; WellFormed(after) && Keeps(db, after) && Established(after, op)
  {
    hide WellFormed, Keeps, FindTenant, FindWorkspaceOf, FindPlugin, UpsertPlugin, UpsertTenant, UpsertWorkspace, UpsertBinding;
    match op
    case PutPlugin(p) => PluginOpKeeps(db, p, now);
    case PutTenant(name) => TenantOpKeeps(db, name, now);
    case PutWorkspace(tenant, name) => WorkspaceOpKeeps(db, tenant, name, now);
    case PutBinding(tenant, workspace, plugin, config) => BindingOpKeeps(db, tenant, workspace, plugin, config, now);
  }

  // --- What an operation leaves alone ---

  /** The operation is about the row with this plugin name. */
  predicate NamesPlugin(op: Op, name: string) {
    op.PutPlugin? && op.plugin.name == name
  }

  /** The operation is about the binding row under this key. */
  ghost predicate NamesBinding(db: Db, op: Op, k: (Id, Id)) {
    op.PutBinding? && FindWorkspaceOf(db, op.inTenant, op.inWorkspace) == Some(k.0) && FindPlugin(db, op.name) == Some(k.1)
  }

  lemma OpFrame(db: Db, op: Op, now: Time)
    ensures var after := RunOp(db, op, now).0;
            && (forall id :: id in db.plugins && !NamesPlugin(op, db.plugins[id].spec.name) && id != db.nextId ==>
                  id in after.plugins && after.plugins[id] == db.plugins[id])
            && (forall k :: k in db.bindings && !NamesBinding(db, op, k) ==>
                  k in after.bindings && after.bindings[k] == db.bindings[k])
  {
    hide FindPlugin, FindTenant, FindWorkspace;
  }

  /** Two operations that would put different things in one place. */
  predicate Clash(a: Op, b: Op) {
    && a != b
    && ((a.PutPlugin? && b.PutPlugin? && a.plugin.name == b.plugin.name)
        || (a.PutBinding? && b.PutBinding? && a.inTenant == b.inTenant && a.inWorkspace == b.inWorkspace && a.name == b.name))
  }

  lemma SamePlaceSameNames(db: Db, t1: string, w1: string, t2: string, w2: string)
    requires FindWorkspaceOf(db, t1, w1).Some? && FindWorkspaceOf(db, t1, w1) == FindWorkspaceOf(db, t2, w2)
    ensures t1 == t2 && w1 == w2
  {
  }

  /** What is established stays so through any later operation that does not clash with it. */
  lemma EstablishedStays(db: Db, op: Op, a: Op, now: Time)
    requires WellFormed(db) && Enabled(db, op) && Established(db, a) && !Clash(a, op)
    ensures Established(RunOp(db, op, now).0, a)
  {
    hide WellFormed, Keeps, FindPlugin, FindTenant, FindWorkspaceOf, RunOp;
    var after := RunOp(db, op, now).0;
    OpKeeps(db, op, now);
    FindsStay(db, after);
    match a
    case PutPlugin(p) => PluginStays(db, op, p, now);
    case PutBinding(t, w, p, config) => BindingStays(db, op, t, w, p, config, now);
    case _ =>
  }

  lemma PluginStays(db: Db, op: Op, p: Plugin, now: Time)
    requires WellFormed(db) && Enabled(db, op) && Established(db, PutPlugin(p)) && !Clash(PutPlugin(p), op)
    ensures Established(RunOp(db, op, now).0, PutPlugin(p))
  {
    hide WellFormed, Keeps, FindPlugin, FindTenant, FindWorkspaceOf, RunOp;
    MoreIdsKnown(db);
    OpKeeps(db, op, now);
    FindsStay(db, RunOp(db, op, now).0);
    if op != PutPlugin(p) {
      FindPluginIsThere(db, p.name);
      OpFrame(db, op, now);
    }
  }

  lemma FindPluginIsThere(db: Db, name: string)
    ensures FindPlugin(db, name).Some? ==>
              FindPlugin(db, name).value in db.plugins && db.plugins[FindPlugin(db, name).value].spec.name == name
  {
  }

  lemma BindingStays(db: Db, op: Op, t: string, w: string, p: string, config: Option<Json>, now: Time)
    requires WellFormed(db) && Enabled(db, op)
    requires Established(db, PutBinding(t, w, p, config)) && !Clash(PutBinding(t, w, p, config), op)
    ensures Established(RunOp(db, op, now).0, PutBinding(t, w, p, config))
  {
    hide WellFormed, Keeps, FindPlugin, FindTenant, FindWorkspaceOf, RunOp;
    OpKeeps(db, op, now);
    FindsStay(db, RunOp(db, op, now).0);
    var k := (FindWorkspaceOf(db, t, w).value, FindPlugin(db, p).value);
    OpFrame(db, op, now);
    FindPluginIsThere(db, p);
    if op.PutBinding? {
      FindPluginIsThere(db, op.name);
      if NamesBinding(db, op, k) {
        SamePlaceSameNames(db, t, w, op.inTenant, op.inWorkspace);
      }
    }
  }

  /** An operation that is established already changes nothing. */
  lemma EstablishedIsNoOp(db: Db, op: Op, now: Time)
    requires Established(db, op)
    ensures RunOp(db, op, now) == (db, if op.PutTenant? || op.PutWorkspace? then Updated else Unchanged)
  {
    hide FindPlugin, FindTenant, FindWorkspace;
  }

  // --- Runs of operations ---

  predicate Consistent(ops: seq<Op>) {
    forall i, j :: 0 <= i < |ops| && 0 <= j < |ops| ==> !Clash(ops[i], ops[j])
  }

  /** The rows an operation needs are put by earlier operations. */
  predicate Supplied(op: Op, earlier: set<Op>) {
    match op
    case PutWorkspace(t, _) => PutTenant(t) in earlier
    case PutBinding(t, w, p, _) =>
      PutTenant(t) in earlier && PutWorkspace(t, w) in earlier && exists q :: q in earlier && NamesPlugin(q, p)
    case _ => true
  }

  predicate Ordered(earlier: set<Op>, ops: seq<Op>) {
    forall i :: 0 <= i < |ops| ==> Supplied(ops[i], earlier + set j | 0 <= j < i :: ops[j])
  }

  ghost predicate AllEstablished(db: Db, ops: seq<Op>) {
    forall i :: 0 <= i < |ops| ==> Established(db, ops[i])
  }

  /** The rows the operation is about are there, whatever they hold. */
  ghost predicate Placed(db: Db, op: Op) {
    match op
    case PutPlugin(p) => FindPlugin(db, p.name).Some?
    case PutTenant(name) => FindTenant(db, name).Some?
    case PutWorkspace(tenant, name) => FindWorkspaceOf(db, tenant, name).Some?
    case PutBinding(tenant, workspace, plugin, _) => FindWorkspaceOf(db, tenant, workspace).Some? && FindPlugin(db, plugin).Some?
  }

  ghost predicate AllPlaced(db: Db, ops: seq<Op>) {
    forall i :: 0 <= i < |ops| ==> Placed(db, ops[i])
  }

  lemma SuppliedIsEnabled(db: Db, op: Op, earlier: set<Op>)
    requires Supplied(op, earlier) && forall q :: q in earlier ==> Placed(db, q)
    ensures Enabled(db, op)
  {
    hide FindPlugin, FindTenant, FindWorkspaceOf;
    if op.PutBinding? {
      var q :| q in earlier && NamesPlugin(q, op.name);
      assert Placed(db, q);
    }
  }

  lemma EstablishedIsPlaced(db: Db, op: Op)
    requires Established(db, op)
    ensures Placed(db, op)
  {
    hide FindPlugin, FindTenant, FindWorkspaceOf;
  }

  lemma PlacedStays(before: Db, after: Db, op: Op)
    requires WellFormed(after) && Keeps(before, after) && Placed(before, op)
    ensures Placed(after, op)
  {
    hide FindPlugin, FindTenant, FindWorkspaceOf, WellFormed, Keeps;
    FindsStay(before, after);
  }

  /** Operations in order keep the tables well formed, every row in place, and leave their own rows there. */
  lemma {:induction false} RunPlaces(db: Db, ops: seq<Op>, now: Time)
    requires WellFormed(db) && Ordered({}, ops)
    ensures var after := RunOps(db, ops, now).0; WellFormed(after) && Keeps(db, after) && AllPlaced(after, ops)
  {
    hide WellFormed, Keeps, Established, RunOp, Enabled, Supplied, Placed;
    if ops == [] {
      KeepsSelf(db);
    } else {
      var n := |ops| - 1;
      OrderedInit(ops);
      RunPlaces(db, ops[..n], now);
      var mid := RunOps(db, ops[..n], now).0;
      var after := RunOps(db, ops, now).0;
      LastIsEnabled(db, ops, now);
      OpKeeps(mid, ops[n], now);
      EstablishedIsPlaced(after, ops[n]);
      KeepsTrans(db, mid, after);
      forall i | 0 <= i < n
        ensures Placed(after, ops[i])
      {
        assert ops[..n][i] == ops[i];
        PlacedStays(mid, after, ops[i]);
      }
    }
  }

  lemma LastIsEnabled(db: Db, ops: seq<Op>, now: Time)
    requires ops != [] && Ordered({}, ops)
    requires AllPlaced(RunOps(db, ops[..|ops| - 1], now).0, ops[..|ops| - 1])
    ensures Enabled(RunOps(db, ops[..|ops| - 1], now).0, ops[|ops| - 1])
  {
    hide Enabled, Supplied, Placed, RunOps;
    var n := |ops| - 1;
    assert Supplied(ops[n], {} + set j | 0 <= j < n :: ops[j]);
    EarlierPlaced(RunOps(db, ops[..n], now).0, ops);
    SuppliedIsEnabled(RunOps(db, ops[..n], now).0, ops[n], {} + set j | 0 <= j < n :: ops[j]);
  }

  lemma EarlierPlaced(db: Db, ops: seq<Op>)
    requires ops != [] && AllPlaced(db, ops[..|ops| - 1])
    ensures forall q :: q in ({} + set j | 0 <= j < |ops| - 1 :: ops[j]) ==> Placed(db, q)
  {
    hide Placed;
    forall j | 0 <= j < |ops| - 1
      ensures Placed(db, ops[j])
    {
      assert ops[..|ops| - 1][j] == ops[j];
    }
  }

  /** And if no two of them clash, each leaves its own content there too. */
  lemma {:induction false} RunEstablishes(db: Db, ops: seq<Op>, now: Time)
    requires WellFormed(db) && Consistent(ops) && Ordered({}, ops)
    ensures var after := RunOps(db, ops, now).0; WellFormed(after) && Keeps(db, after) && AllEstablished(after, ops)
  {
    hide WellFormed, Keeps, Established, RunOp, Enabled, Supplied, Clash, Placed;
    RunPlaces(db, ops, now);
    if ops != [] {
      var n := |ops| - 1;
      OrderedInit(ops);
      ConsistentInit(ops);
      RunEstablishes(db, ops[..n], now);
      RunPlaces(db, ops[..n], now);
      var mid := RunOps(db, ops[..n], now).0;
      LastIsEnabled(db, ops, now);
      OpKeeps(mid, ops[n], now);
      forall i | 0 <= i < n
        ensures Established(RunOps(db, ops, now).0, ops[i])
      {
        assert ops[..n][i] == ops[i];
        EstablishedStays(mid, ops[n], ops[i], now);
      }
    }
  }

  /** Clashes or not, an operation that no later one clashes with is in force in the end. */
  lemma {:induction false} LaterWins(db: Db, ops: seq<Op>, now: Time, i: nat)
    requires WellFormed(db) && Ordered({}, ops)
    requires i < |ops| && forall j :: i < j < |ops| ==> !Clash(ops[i], ops[j])
    ensures Established(RunOps(db, ops, now).0, ops[i])
  {
    hide WellFormed, Keeps, Established, RunOp, Enabled, Supplied, Clash, Placed;
    var n := |ops| - 1;
    OrderedInit(ops);
    RunPlaces(db, ops[..n], now);
    var mid := RunOps(db, ops[..n], now).0;
    LastIsEnabled(db, ops, now);
    if i == n {
      OpKeeps(mid, ops[n], now);
    } else {
      assert ops[..n][i] == ops[i];
      LaterWins(db, ops[..n], now, i);
      EstablishedStays(mid, ops[n], ops[i], now);
    }
  }

  lemma ConsistentInit(ops: seq<Op>)
    requires ops != [] && Consistent(ops)
    ensures Consistent(ops[..|ops| - 1])
  {
  }

  lemma ClashesAreNotBothEstablished(db: Db, a: Op, b: Op)
    requires Established(db, a) && Established(db, b)
    ensures !Clash(a, b)
  {
    hide FindPlugin, FindTenant, FindWorkspaceOf;
  }

  /** A run leaves every one of its operations established exactly when no two of them clash. */
  lemma EstablishedIff(db: Db, ops: seq<Op>, now: Time)
    requires WellFormed(db) && Ordered({}, ops)
    ensures AllEstablished(RunOps(db, ops, now).0, ops) <==> Consistent(ops)
  {
    hide WellFormed, Established, RunOps, Ordered, Clash;
    if Consistent(ops) {
      RunEstablishes(db, ops, now);
    }
    var after := RunOps(db, ops, now).0;
    if AllEstablished(after, ops) {
      forall i, j | 0 <= i < |ops| && 0 <= j < |ops|
        ensures !Clash(ops[i], ops[j])
      {
        ClashesAreNotBothEstablished(after, ops[i], ops[j]);
      }
    }
  }

  lemma OrderedInit(ops: seq<Op>)
    requires ops != [] && Ordered({}, ops)
    ensures Ordered({}, ops[..|ops| - 1])
  {
    hide Supplied;
    var init := ops[..|ops| - 1];
    forall i | 0 <= i < |init|
      ensures Supplied(init[i], {} + set j | 0 <= j < i :: init[j])
    {
      assert (set j | 0 <= j < i :: init[j]) == (set j | 0 <= j < i :: ops[j]);
      assert Supplied(ops[i], {} + set j | 0 <= j < i :: ops[j]);
    }
  }

  lemma KeepsSelf(db: Db)
    ensures Keeps(db, db)
  {
  }

  lemma KeepsTrans(a: Db, b: Db, c: Db)
    requires Keeps(a, b) && Keeps(b, c)
    ensures Keeps(a, c)
  {
  }

  // --- What a run leaves alone ---

  /** The operation names the binding row's tenant, workspace and plugin. */
  predicate NamesRow(db: Db, op: Op, k: (Id, Id))
    requires k.0 in db.workspaces && k.1 in db.plugins && db.workspaces[k.0].tenantId in db.tenants
  {
    && op.PutBinding? && op.inTenant == db.tenants[db.workspaces[k.0].tenantId].name
    && op.inWorkspace == db.workspaces[k.0].name && op.name == db.plugins[k.1].spec.name
  }

  lemma RefsHold(db: Db)
    requires WellFormed(db)
    ensures forall k :: k in db.bindings ==> k.0 in db.workspaces && k.1 in db.plugins && db.workspaces[k.0].tenantId in db.tenants
  {
  }

  /** No operation of the list names this plugin row, or this binding row. */
  ghost predicate LeavesPlugin(ops: seq<Op>, name: string) {
    forall i :: 0 <= i < |ops| ==> !NamesPlugin(ops[i], name)
  }

  ghost predicate LeavesBinding(db: Db, ops: seq<Op>, k: (Id, Id))
    requires k.0 in db.workspaces && k.1 in db.plugins && db.workspaces[k.0].tenantId in db.tenants
  {
    forall i :: 0 <= i < |ops| ==> !NamesRow(db, ops[i], k)
  }

  lemma {:induction false} RunLeavesPlugin(db: Db, ops: seq<Op>, now: Time, id: Id)
    requires WellFormed(db) && Ordered({}, ops)
    requires id in db.plugins && LeavesPlugin(ops, db.plugins[id].spec.name)
    ensures var after := RunOps(db, ops, now).0; id in after.plugins && after.plugins[id] == db.plugins[id]
  {
    hide WellFormed, Keeps, Established, RunOp, Supplied, Clash, NamesPlugin, NamesBinding;
    if ops != [] {
      var n := |ops| - 1;
      OrderedInit(ops);
      assert LeavesPlugin(ops[..n], db.plugins[id].spec.name);
      RunLeavesPlugin(db, ops[..n], now, id);
      RunPlaces(db, ops[..n], now);
      var mid := RunOps(db, ops[..n], now).0;
      MoreIdsKnown(mid);
      OpFrame(mid, ops[n], now);
    }
  }

  lemma NamedByNames(db: Db, op: Op, k: (Id, Id))
    requires k.0 in db.workspaces && k.1 in db.plugins && db.workspaces[k.0].tenantId in db.tenants
    ensures NamesBinding(db, op, k) ==> NamesRow(db, op, k)
  {
  }

  lemma {:induction false} RunLeavesBinding(db: Db, ops: seq<Op>, now: Time, k: (Id, Id))
    requires WellFormed(db) && Ordered({}, ops)
    requires k in db.bindings && k.0 in db.workspaces && k.1 in db.plugins && db.workspaces[k.0].tenantId in db.tenants
    requires LeavesBinding(db, ops, k)
    ensures var after := RunOps(db, ops, now).0; k in after.bindings && after.bindings[k] == db.bindings[k]
  {
    hide WellFormed, Established, RunOp, Supplied, Clash, NamesPlugin, NamesBinding;
    if ops != [] {
      var n := |ops| - 1;
      OrderedInit(ops);
      assert LeavesBinding(db, ops[..n], k);
      RunLeavesBinding(db, ops[..n], now, k);
      RunPlaces(db, ops[..n], now);
      var mid := RunOps(db, ops[..n], now).0;
      NamedByNames(mid, ops[n], k);
      OpFrame(mid, ops[n], now);
    }
  }

  // --- What the stats say ---

  /** The tables have grown by what the stats call inserted. */
  predicate Grown(before: Db, after: Db, s: Stats) {
    && |after.plugins| == |before.plugins| + s.pluginsInserted
    && |after.tenants| == |before.tenants| + s.tenantsInserted
    && |after.workspaces| == |before.workspaces| + s.workspacesInserted
    && |after.bindings| == |before.bindings| + s.bindingsInserted
  }

  lemma PluginUpsertGrows(db: Db, p: Plugin, now: Time)
    requires db.nextId !in db.plugins
    ensures var (after, outcome) := UpsertPlugin(db, p, now);
            after == db.(plugins := after.plugins, nextId := after.nextId) && outcome != Dangling
            && |after.plugins| == |db.plugins| + if outcome == Inserted then 1 else 0
  {
    hide FindPlugin;
  }

  lemma TenantUpsertGrows(db: Db, name: string, now: Time)
    requires db.nextId !in db.tenants
    ensures var (after, outcome) := UpsertTenant(db, name, now);
            after == db.(tenants := after.tenants, nextId := after.nextId)
            && |after.tenants| == |db.tenants| + if outcome == Inserted then 1 else 0
  {
    hide FindTenant;
  }

  lemma WorkspaceUpsertGrows(db: Db, t: Id, name: string, now: Time)
    requires db.nextId !in db.workspaces
    ensures var (after, outcome) := UpsertWorkspace(db, t, name, now);
            after == db.(workspaces := after.workspaces, nextId := after.nextId)
            && |after.workspaces| == |db.workspaces| + if outcome == Inserted then 1 else 0
  {
    hide FindWorkspace;
  }

  lemma BindingUpsertGrows(db: Db, k: (Id, Id), config: Option<Json>, now: Time)
    ensures var (after, outcome) := UpsertBinding(db, k, config, now);
            after == db.(bindings := after.bindings)
            && |after.bindings| == |db.bindings| + if outcome == Inserted then 1 else 0
  {
  }

  lemma OpGrows(db: Db, op: Op, now: Time, stats: Stats, start: Db)
    requires db.nextId !in db.plugins && db.nextId !in db.tenants && db.nextId !in db.workspaces
    requires Grown(start, db, stats) && Enabled(db, op)
    ensures Grown(start, RunOp(db, op, now).0, Tally(stats, op, RunOp(db, op, now).1))
  {
    hide FindPlugin, FindTenant, FindWorkspaceOf, UpsertPlugin, UpsertTenant, UpsertWorkspace, UpsertBinding;
    match op
    case PutPlugin(p) => PluginUpsertGrows(db, p, now);
    case PutTenant(name) => TenantUpsertGrows(db, name, now);
    case PutWorkspace(tenant, name) => WorkspaceUpsertGrows(db, FindTenant(db, tenant).value, name, now);
    case PutBinding(tenant, workspace, plugin, config) =>
      BindingUpsertGrows(db, (FindWorkspaceOf(db, tenant, workspace).value, FindPlugin(db, plugin).value), config, now);
  }

  /** Each tenant and workspace upsert counts once, as inserted or as updated; and inserted rows are new rows. */
  lemma {:induction false} StatsBalance(db: Db, ops: seq<Op>, now: Time)
    requires WellFormed(db) && Ordered({}, ops)
    ensures var (after, s) := RunOps(db, ops, now);
            && Grown(db, after, s)
            && s.tenantsInserted + s.tenantsUpdated == CountTenants(ops)
            && s.workspacesInserted + s.workspacesUpdated == CountWorkspaces(ops)
  {
    hide WellFormed, Keeps, Established, RunOp, Enabled, Supplied, Placed, Grown;
    if ops == [] {
      NothingGrown(db);
    } else {
      var n := |ops| - 1;
      OrderedInit(ops);
      StatsBalance(db, ops[..n], now);
      RunPlaces(db, ops[..n], now);
      LastIsEnabled(db, ops, now);
      var (mid, stats) := RunOps(db, ops[..n], now);
      MoreIdsKnown(mid);
      OpGrows(mid, ops[n], now, stats, db);
    }
  }

  lemma NothingGrown(db: Db)
    ensures Grown(db, db, NO_STATS)
  {
  }

  // --- Running again ---

  function CountTenants(ops: seq<Op>): nat {
    if ops == [] then 0 else CountTenants(ops[..|ops| - 1]) + if ops[|ops| - 1].PutTenant? then 1 else 0
  }

  function CountWorkspaces(ops: seq<Op>): nat {
    if ops == [] then 0 else CountWorkspaces(ops[..|ops| - 1]) + if ops[|ops| - 1].PutWorkspace? then 1 else 0
  }

  /** Operations that are all established change nothing, at whatever time they run, and say so in the stats. */
  lemma {:induction false} RunAgainChangesNothing(db: Db, ops: seq<Op>, now: Time)
    requires AllEstablished(db, ops)
    ensures RunOps(db, ops, now)
            == (db, NO_STATS.(tenantsUpdated := CountTenants(ops), workspacesUpdated := CountWorkspaces(ops)))
  {
    hide Established, RunOp;
    if ops != [] {
      var n := |ops| - 1;
      assert AllEstablished(db, ops[..n]);
      RunAgainChangesNothing(db, ops[..n], now);
      EstablishedIsNoOp(db, ops[n], now);
    }
  }

  /** A run that reports no insertion and no changed row. */
  predicate Quiet(s: Stats) {
    && s.tenantsInserted == 0 && s.workspacesInserted == 0 && s.pluginsInserted == 0 && s.bindingsInserted == 0
    && s.pluginsUpdated == 0 && s.bindingsUpdated == 0
  }

  lemma QuietOpIsEstablished(db: Db, op: Op, now: Time, stats: Stats)
    requires Placed(db, op) && Quiet(Tally(stats, op, RunOp(db, op, now).1))
    ensures Quiet(stats) && RunOp(db, op, now).0 == db && Established(db, op)
  {
    hide FindPlugin, FindTenant, FindWorkspace;
  }

  /** Over rows that are there, only established operations are quiet. */
  lemma {:induction false} QuietRunIsEstablished(db: Db, ops: seq<Op>, now: Time)
    requires AllPlaced(db, ops) && Quiet(RunOps(db, ops, now).1)
    ensures RunOps(db, ops, now).0 == db && AllEstablished(db, ops)
  {
    hide Established, RunOp, Placed, Quiet, Tally;
    if ops != [] {
      var n := |ops| - 1;
      var (mid, stats) := RunOps(db, ops[..n], now);
      assert AllPlaced(db, ops[..n]) by {
        forall i | 0 <= i < n ensures Placed(db, ops[..n][i]) { assert ops[..n][i] == ops[i]; }
      }
      QuietInit(mid, ops[n], now, stats);
      QuietRunIsEstablished(db, ops[..n], now);
      QuietOpIsEstablished(mid, ops[n], now, stats);
      forall i | 0 <= i < |ops|
        ensures Established(db, ops[i])
      {
        if i < n {
          assert ops[..n][i] == ops[i];
        }
      }
    }
  }

  lemma QuietInit(db: Db, op: Op, now: Time, stats: Stats)
    requires Quiet(Tally(stats, op, RunOp(db, op, now).1))
    ensures Quiet(stats)
  {
    hide RunOp;
  }

  /** An established binding is the one row the join selects, with the plugin's present spec. */
  lemma EstablishedJoins(db: Db, tenant: string, workspace: string, p: Plugin, config: Option<Json>)
    requires WellFormed(db)
    requires Established(db, PutPlugin(p)) && Established(db, PutBinding(tenant, workspace, p.name, config))
    ensures exists k :: Join(db, tenant, workspace, p.name) == {k}
              && k in db.bindings && db.bindings[k].config == config && k.1 in db.plugins && db.plugins[k.1].spec == p
  {
    hide PluginsOk, TenantsOk, WorkspacesOk;
    var k := (FindWorkspaceOf(db, tenant, workspace).value, FindPlugin(db, p.name).value);
    forall j | j in Join(db, tenant, workspace, p.name)
      ensures j == k
    {
      FoundTenant(db, db.workspaces[j.0].tenantId);
      FoundWorkspace(db, j.0);
      FoundPlugin(db, j.1);
    }
    RefsHold(db);
    assert k in Join(db, tenant, workspace, p.name);
    assert Join(db, tenant, workspace, p.name) == {k};
  }
}
