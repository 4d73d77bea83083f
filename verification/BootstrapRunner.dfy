/** The apply itself: nested loops over the tree that upsert rows in place, inside one transaction. */
module BootstrapRunner {
  import opened Wrappers
  import opened PluginSpec
  import opened BootstrapConfig
  import opened BootstrapTables
  import opened BootstrapApply

  datatype UnknownRef = UnknownRef(tenant: string, workspace: string, plugin: string)

  /** The same names are found after an enabled operation, under the same ids. */
  lemma OpIsStable(db: Db, op: Op, now: Time)
    requires WellFormed(db) && Enabled(db, op)
    ensures var after := RunOp(db, op, now).0;
            && WellFormed(after) && Keeps(db, after)
            && (forall name :: FindPlugin(db, name).Some? ==> FindPlugin(after, name) == FindPlugin(db, name))
            && (forall name :: FindTenant(db, name).Some? ==> FindTenant(after, name) == FindTenant(db, name))
            && (forall tenant, name :: FindWorkspaceOf(db, tenant, name).Some? ==>
                  FindWorkspaceOf(after, tenant, name) == FindWorkspaceOf(db, tenant, name))
  {
    hide *;
    OpKeeps(db, op, now);
    FindsStay(db, RunOp(db, op, now).0);
  }

  lemma RunSnoc(db: Db, ops: seq<Op>, op: Op, now: Time)
    ensures var (mid, stats) := RunOps(db, ops, now);
            RunOps(db, ops + [op], now) == (RunOp(mid, op, now).0, Tally(stats, op, RunOp(mid, op, now).1))
  {
    hide RunOp, Tally;
    assert (ops + [op])[..|ops|] == ops;
  }

  class Database {
    var plugins: map<Id, PluginRow>
    var tenants: map<Id, TenantRow>
    var workspaces: map<Id, WorkspaceRow>
    var bindings: map<(Id, Id), BindingRow>
    var nextId: Id

    constructor ()
      ensures View() == Db(map[], map[], map[], map[], 0) && WellFormed(View())
    {
      plugins, tenants, workspaces, bindings, nextId := map[], map[], map[], map[], 0;
    }

    ghost function View(): Db
      reads this
    {
      Db(plugins, tenants, workspaces, bindings, nextId)
    }

    /** Compares the stored spec field by field and takes over what differs. */
    static method Diff(stored: Plugin, entry: Plugin) returns (spec: Plugin, changed: bool)
      requires stored.name == entry.name
      ensures spec == entry && (changed <==> stored != entry)
    {
      spec, changed := stored, false;
      if stored.image != entry.image {
        spec, changed := spec.(image := entry.image), true;
      }
      if stored.port != entry.port {
        spec, changed := spec.(port := entry.port), true;
      }
      if stored.path != entry.path {
        spec, changed := spec.(path := entry.path), true;
      }
      if stored.upstreamAuth != entry.upstreamAuth {
        spec, changed := spec.(upstreamAuth := entry.upstreamAuth), true;
      }
      if stored.env != entry.env {
        spec, changed := spec.(env := entry.env), true;
      }
      if stored.resources != entry.resources {
        spec, changed := spec.(resources := entry.resources), true;
      }
      if stored.egress != entry.egress {
        spec, changed := spec.(egress := entry.egress), true;
      }
    }

    method UpsertPluginRow(entry: Plugin, now: Time) returns (id: Id, outcome: Outcome)
      requires WellFormed(View())
      modifies this
      ensures (View(), outcome) == RunOp(old(View()), PutPlugin(entry), now)
      ensures WellFormed(View()) && FindPlugin(View(), entry.name) == Some(id)
      ensures outcome == Inserted <==> forall other :: other in old(plugins) ==> old(plugins)[other].spec.name != entry.name
      ensures outcome == Inserted ==> id !in old(plugins) && plugins == old(plugins)[id := PluginRow(entry, now, now, None)]
      ensures outcome != Inserted ==>
                && id in old(plugins) && old(plugins)[id].spec.name == entry.name
                && (outcome == Unchanged <==> old(plugins)[id].spec == entry)
                && (outcome == Unchanged ==> plugins == old(plugins))
                && (outcome == Updated ==>
                      plugins == old(plugins)[id := PluginRow(entry, old(plugins)[id].createdAt, now, old(plugins)[id].facet)])
                && outcome in {Updated, Unchanged}
    {
      hide WellFormed, Keeps, FindPlugin;
      OpIsStable(View(), PutPlugin(entry), now);
      MoreIdsKnown(View());
      if found :| found in plugins && plugins[found].spec.name == entry.name {
        FoundPlugin(View(), found);
        id := found;
        var row := plugins[id];
        var spec, changed := Diff(row.spec, entry);
        if changed {
          plugins := plugins[id := row.(spec := spec, updatedAt := now)];
          return id, Updated;
        }
        return id, Unchanged;
      }
      id := nextId;
      plugins := plugins[id := PluginRow(entry, now, now, None)];
      nextId := nextId + 1;
      FoundPlugin(View(), id);
      return id, Inserted;
    }

    method UpsertTenantRow(name: string, now: Time) returns (id: Id, outcome: Outcome)
      requires WellFormed(View())
      modifies `tenants, `nextId
      ensures (View(), outcome) == RunOp(old(View()), PutTenant(name), now)
      ensures WellFormed(View()) && FindTenant(View(), name) == Some(id)
      ensures if forall other :: other in old(tenants) ==> old(tenants)[other].name != name then
                outcome == Inserted && id !in old(tenants) && tenants == old(tenants)[id := TenantRow(name, now, now)]
              else outcome == Updated && id in old(tenants) && old(tenants)[id].name == name && tenants == old(tenants)
    {
      hide WellFormed, Keeps, FindTenant;
      OpIsStable(View(), PutTenant(name), now);
      MoreIdsKnown(View());
      if found :| found in tenants && tenants[found].name == name {
        FoundTenant(View(), found);
        return found, Updated;
      }
      id := nextId;
      tenants := tenants[id := TenantRow(name, now, now)];
      nextId := nextId + 1;
      FoundTenant(View(), id);
      return id, Inserted;
    }

    method UpsertWorkspaceRow(ghost tenant: string, tenantId: Id, name: string, now: Time) returns (id: Id, outcome: Outcome)
      requires WellFormed(View()) && FindTenant(View(), tenant) == Some(tenantId)
      modifies `workspaces, `nextId
      ensures (View(), outcome) == RunOp(old(View()), PutWorkspace(tenant, name), now)
      ensures WellFormed(View()) && FindTenant(View(), tenant) == Some(tenantId) && FindWorkspaceOf(View(), tenant, name) == Some(id)
      ensures if forall other :: other in old(workspaces) ==> old(workspaces)[other].tenantId != tenantId || old(workspaces)[other].name != name
              then outcome == Inserted && id !in old(workspaces)
                   && workspaces == old(workspaces)[id := WorkspaceRow(tenantId, name, now, now)]
              else outcome == Updated && id in old(workspaces) && old(workspaces)[id].tenantId == tenantId
                   && old(workspaces)[id].name == name && workspaces == old(workspaces)
    {
      hide WellFormed, Keeps, FindTenant, FindWorkspace;
      OpIsStable(View(), PutWorkspace(tenant, name), now);
      MoreIdsKnown(View());
      if found :| found in workspaces && workspaces[found].tenantId == tenantId && workspaces[found].name == name {
        FoundWorkspace(View(), found);
        return found, Updated;
      }
      id := nextId;
      workspaces := workspaces[id := WorkspaceRow(tenantId, name, now, now)];
      nextId := nextId + 1;
      FoundWorkspace(View(), id);
      return id, Inserted;
    }

    method UpsertBindingRow(workspaceId: Id, pluginId: Id, config: Option<Json>, now: Time) returns (outcome: Outcome)
      modifies `bindings
      ensures (View(), outcome) == UpsertBinding(old(View()), (workspaceId, pluginId), config, now)
      ensures var key := (workspaceId, pluginId);
              if key !in old(bindings) then outcome == Inserted && bindings == old(bindings)[key := BindingRow(config, now, now)]
              else if old(bindings)[key].config == config then outcome == Unchanged && bindings == old(bindings)
              else outcome == Updated && bindings == old(bindings)[key := BindingRow(config, old(bindings)[key].createdAt, now)]
    {
      var key := (workspaceId, pluginId);
      if key in bindings {
        var row := bindings[key];
        var changed := false;
        if row.config != config {
          row := row.(config := config);
          changed := true;
        }
        if changed {
          bindings := bindings[key := row.(updatedAt := now)];
          return Updated;
        }
        return Unchanged;
      }
      bindings := bindings[key := BindingRow(config, now, now)];
      return Inserted;
    }

    /** The ids map agrees with the table. */
    ghost predicate IdsAgree(ids: map<string, Id>)
      reads this
    {
      forall name :: name in ids ==> FindPlugin(View(), name) == Some(ids[name])
    }

    method ApplyPlugins(entries: seq<Plugin>, now: Time) returns (ids: map<string, Id>, stats: Stats)
      requires WellFormed(View())
      modifies this
      ensures (View(), stats) == RunOps(old(View()), PluginOps(entries), now)
      ensures WellFormed(View()) && IdsAgree(ids) && ids.Keys == PluginNames(entries)
    {
      hide WellFormed, Keeps, FindPlugin, RunOp, RunOps, PluginNames;
      ids := map[];
      stats := NO_STATS;
      PluginsSoFar(entries, 0);
      RunsNothing(View(), now);
      for i := 0 to |entries|
        invariant WellFormed(View()) && IdsAgree(ids) && ids.Keys == PluginNames(entries[..i])
        invariant (View(), stats) == RunOps(old(View()), PluginOps(entries[..i]), now)
      {
        PluginsSoFar(entries, i + 1);
        OpIsStable(View(), PutPlugin(entries[i]), now);
        RunSnoc(old(View()), PluginOps(entries[..i]), PutPlugin(entries[i]), now);
        var id, outcome := UpsertPluginRow(entries[i], now);
        match outcome {
          case Inserted => stats := stats.(pluginsInserted := stats.pluginsInserted + 1);
          case Updated => stats := stats.(pluginsUpdated := stats.pluginsUpdated + 1);
          case _ =>
        }
        ids := ids[entries[i].name := id];
      }
      assert entries[..|entries|] == entries;
    }

    /**
     * The bindings of one workspace, carrying the ids found so far; a name that no plugin id is known for stops
     * the apply. `done` lists the operations already made, from the tables as they were at the start.
     */
    method ApplyBindings(tenant: string, workspace: string, workspaceId: Id, entries: seq<BindingEntry>, ids: map<string, Id>,
                         before: Stats, now: Time, ghost start: Db, ghost done: seq<Op>)
      returns (r: Result<Stats, UnknownRef>)
      requires WellFormed(View()) && IdsAgree(ids) && FindWorkspaceOf(View(), tenant, workspace) == Some(workspaceId)
      requires RunOps(start, done, now) == (View(), before)
      modifies this
      ensures r.Ok? ==> (View(), r.value) == RunOps(start, done + BindingOps(tenant, workspace, entries), now)
      ensures r.Ok? ==> WellFormed(View()) && IdsAgree(ids) && Keeps(old(View()), View())
      ensures BindingsResolve(ids.Keys, entries) ==> r.Ok?
    {
      hide WellFormed, Keeps, FindPlugin, FindTenant, FindWorkspaceOf, RunOps, UpsertBinding;
      var stats := before;
      KeepsSelf(View());
      BindingsSoFar(tenant, workspace, entries, 0, done);
      for k := 0 to |entries|
        invariant WellFormed(View()) && IdsAgree(ids) && FindWorkspaceOf(View(), tenant, workspace) == Some(workspaceId)
        invariant Keeps(old(View()), View())
        invariant RunOps(start, done + BindingOps(tenant, workspace, entries[..k]), now) == (View(), stats)
      {
        var binding := entries[k];
        if binding.name !in ids {
          return Err(UnknownRef(tenant, workspace, binding.name));
        }
        ghost var op := PutBinding(tenant, workspace, binding.name, binding.config);
        ghost var mid := View();
        BindingsSoFar(tenant, workspace, entries, k + 1, done);
        OpIsStable(mid, op, now);
        KeepsTrans(old(View()), mid, RunOp(mid, op, now).0);
        RunSnoc(start, done + BindingOps(tenant, workspace, entries[..k]), op, now);
        var outcome := UpsertBindingRow(workspaceId, ids[binding.name], binding.config, now);
        match outcome {
          case Inserted => stats := stats.(bindingsInserted := stats.bindingsInserted + 1);
          case Updated => stats := stats.(bindingsUpdated := stats.bindingsUpdated + 1);
          case _ =>
        }
      }
      assert entries[..|entries|] == entries;
      return Ok(stats);
    }

    method ApplyWorkspaces(tenant: string, tenantId: Id, entries: seq<WorkspaceEntry>, ids: map<string, Id>,
                           before: Stats, now: Time, ghost start: Db, ghost done: seq<Op>)
      returns (r: Result<Stats, UnknownRef>)
      requires WellFormed(View()) && IdsAgree(ids) && FindTenant(View(), tenant) == Some(tenantId)
      requires RunOps(start, done, now) == (View(), before)
      modifies this
      ensures r.Ok? ==> (View(), r.value) == RunOps(start, done + WorkspaceOps(tenant, entries), now)
      ensures r.Ok? ==> WellFormed(View()) && IdsAgree(ids)
      ensures WorkspacesResolve(ids.Keys, entries) ==> r.Ok?
    {
      hide WellFormed, Keeps, FindPlugin, FindTenant, FindWorkspaceOf, RunOps, UpsertWorkspace, WorkspaceOps, BindingOps, BindingsResolve;
      var stats := before;
      WorkspacesSoFar(tenant, entries, 0, done);
      for j := 0 to |entries|
        invariant WellFormed(View()) && IdsAgree(ids) && FindTenant(View(), tenant) == Some(tenantId)
        invariant RunOps(start, done + WorkspaceOps(tenant, entries[..j]), now) == (View(), stats)
      {
        var workspace := entries[j];
        ghost var soFar := done + WorkspaceOps(tenant, entries[..j]);
        ghost var op := PutWorkspace(tenant, workspace.name);
        OpIsStable(View(), op, now);
        RunSnoc(start, soFar, op, now);
        var workspaceId, outcome := UpsertWorkspaceRow(tenant, tenantId, workspace.name, now);
        if outcome == Inserted {
          stats := stats.(workspacesInserted := stats.workspacesInserted + 1);
        } else {
          stats := stats.(workspacesUpdated := stats.workspacesUpdated + 1);
        }
        ghost var mid := View();
        var bound := ApplyBindings(tenant, workspace.name, workspaceId, workspace.plugins, ids, stats, now, start, soFar + [op]);
        if bound.Err? {
          return bound;
        }
        FindsStay(mid, View());
        stats := bound.value;
        WorkspacesSoFar(tenant, entries, j + 1, done);
      }
      assert entries[..|entries|] == entries;
      return Ok(stats);
    }

    /** The whole tree in one transaction: a reference to an unknown plugin undoes everything. */
    method Apply(config: Config, now: Time) returns (r: Result<Stats, UnknownRef>)
      requires WellFormed(View())
      modifies this
      ensures r.Ok? ==> (View(), r.value) == RunOps(old(View()), Ops(config), now) && WellFormed(View())
      ensures r.Err? ==> View() == old(View())
      ensures Resolves(config) ==> r.Ok?
      ensures Resolves(config) ==> RowsStamped(old(View()), View(), now)
    {
      hide WellFormed, Keeps, FindPlugin, FindTenant, RunOps, UpsertTenant, PluginOps, TenantOps, WorkspaceOps, WorkspacesResolve, RowsStamped;
      var saved := (plugins, tenants, workspaces, bindings, nextId);
      ghost var start := View();
      var ids, stats := ApplyPlugins(config.plugins, now);
      ghost var done := PluginOps(config.plugins);
      var entries := config.tenants;
      TenantsSoFar(entries, 0, done);
      for i := 0 to |entries|
        invariant WellFormed(View()) && IdsAgree(ids) && ids.Keys == PluginNames(config.plugins)
        invariant RunOps(start, done + TenantOps(entries[..i]), now) == (View(), stats)
      {
        var tenant := entries[i];
        ghost var soFar := done + TenantOps(entries[..i]);
        ghost var op := PutTenant(tenant.name);
        OpIsStable(View(), op, now);
        RunSnoc(start, soFar, op, now);
        var tenantId, outcome := UpsertTenantRow(tenant.name, now);
        if outcome == Inserted {
          stats := stats.(tenantsInserted := stats.tenantsInserted + 1);
        } else {
          stats := stats.(tenantsUpdated := stats.tenantsUpdated + 1);
        }
        var applied := ApplyWorkspaces(tenant.name, tenantId, tenant.workspaces, ids, stats, now, start, soFar + [op]);
        if applied.Err? {
          plugins, tenants, workspaces, bindings, nextId := saved.0, saved.1, saved.2, saved.3, saved.4;
          return applied;
        }
        stats := applied.value;
        TenantsSoFar(entries, i + 1, done);
      }
      assert entries[..|entries|] == entries;
      if Resolves(config) {
        ApplyStampsRows(start, config, now);
      }
      return Ok(stats);
    }
  }

  lemma RunsNothing(db: Db, now: Time)
    ensures RunOps(db, [], now) == (db, NO_STATS)
  {
  }

  lemma PluginsSoFar(entries: seq<Plugin>, i: nat)
    requires i <= |entries|
    ensures i == 0 ==> PluginOps(entries[..i]) == [] && PluginNames(entries[..i]) == {}
    ensures i > 0 ==> PluginOps(entries[..i]) == PluginOps(entries[..i - 1]) + [PutPlugin(entries[i - 1])]
    ensures i > 0 ==> PluginNames(entries[..i]) == PluginNames(entries[..i - 1]) + {entries[i - 1].name}
  {
    if i > 0 {
      assert forall j :: 0 <= j < i - 1 ==> entries[..i][j] == entries[..i - 1][j];
      assert entries[..i][i - 1] == entries[i - 1];
    }
  }

  lemma BindingsSoFar(tenant: string, workspace: string, entries: seq<BindingEntry>, k: nat, done: seq<Op>)
    requires k <= |entries|
    ensures k == 0 ==> done + BindingOps(tenant, workspace, entries[..k]) == done
    ensures k > 0 ==>
              done + BindingOps(tenant, workspace, entries[..k])
              == done + BindingOps(tenant, workspace, entries[..k - 1])
                 + [PutBinding(tenant, workspace, entries[k - 1].name, entries[k - 1].config)]
  {
    if k > 0 {
      assert BindingOps(tenant, workspace, entries[..k])
          == BindingOps(tenant, workspace, entries[..k - 1]) + [PutBinding(tenant, workspace, entries[k - 1].name, entries[k - 1].config)];
    }
  }

  lemma WorkspacesSoFar(tenant: string, entries: seq<WorkspaceEntry>, j: nat, done: seq<Op>)
    requires j <= |entries|
    ensures j == 0 ==> done + WorkspaceOps(tenant, entries[..j]) == done
    ensures j > 0 ==>
              done + WorkspaceOps(tenant, entries[..j])
              == done + WorkspaceOps(tenant, entries[..j - 1]) + [PutWorkspace(tenant, entries[j - 1].name)]
                 + BindingOps(tenant, entries[j - 1].name, entries[j - 1].plugins)
  {
    hide BindingOps;
    if j > 0 {
      assert entries[..j][..j - 1] == entries[..j - 1];
    }
  }

  lemma TenantsSoFar(entries: seq<TenantEntry>, i: nat, done: seq<Op>)
    requires i <= |entries|
    ensures i == 0 ==> done + TenantOps(entries[..i]) == done
    ensures i > 0 ==>
              done + TenantOps(entries[..i])
              == done + TenantOps(entries[..i - 1]) + [PutTenant(entries[i - 1].name)]
                 + WorkspaceOps(entries[i - 1].name, entries[i - 1].workspaces)
  {
    hide WorkspaceOps;
    if i > 0 {
      assert entries[..i][..i - 1] == entries[..i - 1];
    }
  }
}
