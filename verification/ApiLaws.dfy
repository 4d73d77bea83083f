/** What each of the api's writes answers, and which rows it leaves, in the terms of the tables. */
module ApiLaws {
  import opened Wrappers
  import opened Text
  import Grammar
  import opened PluginSpec
  import opened BootstrapTables
  import opened ApiTables
  import opened ApiTheorems

  /** The id names no row of any table yet. */
  predicate Unused(db: Db, id: Id) {
    id !in db.tenants && id !in db.workspaces && id !in db.plugins
  }

  predicate TokenFits(token: Option<Time>, stamp: Time) {
    token == None || token == Some(stamp)
  }

  // --- Tenants ---

  predicate TenantElsewhere(db: Db, name: string, id: Option<Id>) {
    exists t :: t in db.tenants && id != Some(t) && Lower(db.tenants[t].name) == Lower(name)
  }

  /** Done for an allowed name no tenant has in any letter case; then one row is new, under an id not used before. */
  ghost predicate TenantPosted(before: Db, after: Db, reply: Reply, raw: string, now: Time) {
    var name := Trim(raw);
    && (reply == Done <==> Grammar.TenantNameAllowed(name) && !TenantElsewhere(before, name, None))
    && (reply == Refused <==> !Grammar.TenantNameAllowed(name))
    && (reply == Taken <==> Grammar.TenantNameAllowed(name) && TenantElsewhere(before, name, None))
    && (reply != Done ==> after == before)
    && (reply == Done ==>
          exists id: Id :: Unused(before, id) && id < after.nextId
            && after == before.(tenants := before.tenants[id := TenantRow(name, now, now)], nextId := after.nextId))
  }

  lemma PostTenantMeans(db: Db, raw: string, now: Time)
    requires Sound(db)
    ensures var (after, reply) := CreateTenant(db, raw, now); TenantPosted(db, after, reply, raw, now)
  {
    hide Trim, Lower, Grammar.ValidTenant, Grammar.PlainName;
    Grammar.NamesMean(Trim(raw));
    NextIsUnused(db);
  }

  lemma NextIsUnused(db: Db)
    requires Sound(db)
    ensures Unused(db, db.nextId)
  {
    hide TenantNamesDiffer, PluginNamesDiffer, WorkspaceNamesDiffer, TenantsThere, ParentsExist;
  }

  /** Done for an allowed name no other tenant has, on a row that is there and carries the token; it is renamed and stamped. */
  ghost predicate TenantPut(before: Db, after: Db, reply: Reply, id: Id, raw: string, token: Time, now: Time) {
    var name := Trim(raw);
    var there := id in before.tenants;
    var current := there && token == before.tenants[id].updatedAt;
    var elsewhere := TenantElsewhere(before, name, Some(id));
    && (reply == Done <==> Grammar.TenantNameAllowed(name) && current && !elsewhere)
    && (reply == Refused <==> !Grammar.TenantNameAllowed(name))
    && (reply == NotFound <==> Grammar.TenantNameAllowed(name) && !there)
    && (reply == Stale <==> Grammar.TenantNameAllowed(name) && there && !current)
    && (reply == Taken <==> Grammar.TenantNameAllowed(name) && current && elsewhere)
    && (reply != Done ==> after == before)
    && (reply == Done ==>
          after == before.(tenants := before.tenants[id := TenantRow(name, before.tenants[id].createdAt, now)]))
  }

  lemma PutTenantMeans(db: Db, id: Id, raw: string, token: Time, now: Time)
    ensures var (after, reply) := UpdateTenant(db, id, raw, token, now); TenantPut(db, after, reply, id, raw, token, now)
  {
    hide Trim, Lower, Grammar.ValidTenant, Grammar.PlainName;
    Grammar.NamesMean(Trim(raw));
  }

  /** Done on a row that is there, carries the token if one is given, and has no workspace; only that row goes. */
  ghost predicate TenantDropped(before: Db, after: Db, reply: Reply, id: Id, token: Option<Time>) {
    var there := id in before.tenants;
    var current := there && TokenFits(token, before.tenants[id].updatedAt);
    var used := exists w :: w in before.workspaces && before.workspaces[w].tenantId == id;
    && (reply == Done <==> current && !used)
    && (reply == NotFound <==> !there)
    && (reply == Stale <==> there && !current)
    && (reply == HasDependents <==> current && used)
    && after == if reply == Done then before.(tenants := before.tenants - {id}) else before
  }

  lemma DropTenantMeans(db: Db, id: Id, token: Option<Time>)
    ensures var (after, reply) := DeleteTenant(db, id, token); TenantDropped(db, after, reply, id, token)
  {
  }

  // --- Workspaces ---

  predicate WorkspaceElsewhere(db: Db, tenantId: Id, name: string, id: Option<Id>) {
    exists w :: w in db.workspaces && id != Some(w) && db.workspaces[w].tenantId == tenantId && Lower(db.workspaces[w].name) == Lower(name)
  }

  ghost predicate WorkspacePosted(before: Db, after: Db, reply: Reply, tenantId: Id, raw: string, now: Time) {
    var name := Trim(raw);
    var there := tenantId in before.tenants;
    var elsewhere := WorkspaceElsewhere(before, tenantId, name, None);
    && (reply == Done <==> Grammar.PlainName(name) && there && !elsewhere)
    && (reply == Refused <==> !Grammar.PlainName(name))
    && (reply == NotFound <==> Grammar.PlainName(name) && !there)
    && (reply == Taken <==> Grammar.PlainName(name) && there && elsewhere)
    && (reply != Done ==> after == before)
    && (reply == Done ==>
          exists id: Id :: Unused(before, id) && id < after.nextId
            && after == before.(workspaces := before.workspaces[id := WorkspaceRow(tenantId, name, now, now)], nextId := after.nextId))
  }

  lemma PostWorkspaceMeans(db: Db, tenantId: Id, raw: string, now: Time)
    requires Sound(db)
    ensures var (after, reply) := CreateWorkspace(db, tenantId, raw, now); WorkspacePosted(db, after, reply, tenantId, raw, now)
  {
    hide Trim, Lower, Grammar.ValidName, Grammar.PlainName;
    Grammar.NamesMean(Trim(raw));
    NextIsUnused(db);
  }

  ghost predicate WorkspacePut(before: Db, after: Db, reply: Reply, tenantId: Id, id: Id, raw: string, token: Time, now: Time) {
    var name := Trim(raw);
    var there := id in before.workspaces && before.workspaces[id].tenantId == tenantId;
    var current := there && token == before.workspaces[id].updatedAt;
    var elsewhere := WorkspaceElsewhere(before, tenantId, name, Some(id));
    && (reply == Done <==> Grammar.PlainName(name) && current && !elsewhere)
    && (reply == Refused <==> !Grammar.PlainName(name))
    && (reply == NotFound <==> Grammar.PlainName(name) && !there)
    && (reply == Stale <==> Grammar.PlainName(name) && there && !current)
    && (reply == Taken <==> Grammar.PlainName(name) && current && elsewhere)
    && (reply != Done ==> after == before)
    && (reply == Done ==>
          after == before.(workspaces := before.workspaces[id := WorkspaceRow(tenantId, name, before.workspaces[id].createdAt, now)]))
  }

  lemma PutWorkspaceMeans(db: Db, tenantId: Id, id: Id, raw: string, token: Time, now: Time)
    ensures var (after, reply) := UpdateWorkspace(db, tenantId, id, raw, token, now);
            WorkspacePut(db, after, reply, tenantId, id, raw, token, now)
  {
    hide Trim, Lower, Grammar.ValidName, Grammar.PlainName;
    Grammar.NamesMean(Trim(raw));
  }

  /** Done on the tenant's own row that carries the token, unless it has bindings and the gate fails; its bindings go with it. */
  ghost predicate WorkspaceDropped(before: Db, after: Db, reply: Reply, tenantId: Id, id: Id, token: Option<Time>, gate: Gate) {
    var there := id in before.workspaces && before.workspaces[id].tenantId == tenantId;
    var current := there && TokenFits(token, before.workspaces[id].updatedAt);
    var stuck := gate == Unreachable && exists k :: k in before.bindings && k.0 == id;
    && (reply == Done <==> current && !stuck)
    && (reply == NotFound <==> !there)
    && (reply == Stale <==> there && !current)
    && (reply == Unavailable <==> current && stuck)
    && (reply != Done ==> after == before)
    && (reply == Done ==>
          && after == before.(workspaces := before.workspaces - {id}, bindings := after.bindings)
          && (forall k :: k in after.bindings <==> k in before.bindings && k.0 != id)
          && (forall k :: k in after.bindings ==> after.bindings[k] == before.bindings[k]))
  }

  lemma DropWorkspaceMeans(db: Db, tenantId: Id, id: Id, token: Option<Time>, gate: Gate)
    ensures var (after, reply) := DeleteWorkspace(db, tenantId, id, token, gate);
            WorkspaceDropped(db, after, reply, tenantId, id, token, gate)
  {
    assert BindingsOf(db, id) != {} ==> exists k :: k in BindingsOf(db, id);
    assert forall k :: k in db.bindings && k.0 == id ==> k in BindingsOf(db, id);
  }

  // --- Plugins ---

  predicate PluginElsewhere(db: Db, name: string, id: Option<Id>) {
    exists p :: p in db.plugins && id != Some(p) && Lower(db.plugins[p].spec.name) == Lower(name)
  }

  /** The entry validates, to this spec, and its name is also one for paths. */
  predicate Specifies(serde: Serde, raw: RawPlugin, spec: Plugin) {
    CheckPlugin(serde, raw) == Ok(spec) && Grammar.PlainName(spec.name)
  }

  ghost predicate PluginPosted(before: Db, after: Db, reply: Reply, serde: Serde, raw: RawPlugin, now: Time) {
    && (reply == Refused <==> !exists spec :: Specifies(serde, raw, spec))
    && (forall spec :: Specifies(serde, raw, spec) ==>
          && (reply == Done <==> !PluginElsewhere(before, spec.name, None))
          && (reply == Taken <==> PluginElsewhere(before, spec.name, None))
          && (reply == Done ==>
                exists id: Id :: Unused(before, id) && id < after.nextId
                  && after == before.(plugins := before.plugins[id := PluginRow(spec, now, now, None)], nextId := after.nextId)))
    && (reply != Done ==> after == before)
  }

  lemma PostPluginMeans(db: Db, serde: Serde, raw: RawPlugin, now: Time)
    requires Sound(db)
    ensures var (after, reply) := CreatePlugin(db, serde, raw, now); PluginPosted(db, after, reply, serde, raw, now)
  {
    hide CheckPlugin, Lower, Grammar.ValidName, Grammar.PlainName;
    NextIsUnused(db);
    if CheckPlugin(serde, raw).Ok? {
      Grammar.NamesMean(CheckPlugin(serde, raw).value.name);
      assert Grammar.PlainName(CheckPlugin(serde, raw).value.name) ==> Specifies(serde, raw, CheckPlugin(serde, raw).value);
    }
  }

  ghost predicate PluginPut(before: Db, after: Db, reply: Reply, serde: Serde, id: Id, raw: RawPlugin, token: Time, now: Time) {
    var there := id in before.plugins;
    var current := there && token == before.plugins[id].updatedAt;
    var valid := CheckPlugin(serde, raw).Ok?;
    && (reply == NotFound <==> valid && !there)
    && (reply == Stale <==> valid && there && !current)
    && (reply == Refused <==> !valid || (current && !exists spec :: Specifies(serde, raw, spec)))
    && (forall spec :: Specifies(serde, raw, spec) && current ==>
          && (reply == Done <==> !PluginElsewhere(before, spec.name, Some(id)))
          && (reply == Taken <==> PluginElsewhere(before, spec.name, Some(id)))
          && (reply == Done ==>
                after == before.(plugins := before.plugins[id := PluginRow(spec, before.plugins[id].createdAt, now, before.plugins[id].facet)])))
    && (reply != Done ==> after == before)
  }

  lemma PutPluginMeans(db: Db, serde: Serde, id: Id, raw: RawPlugin, token: Time, now: Time)
    ensures var (after, reply) := UpdatePlugin(db, serde, id, raw, token, now); PluginPut(db, after, reply, serde, id, raw, token, now)
  {
    hide CheckPlugin, Lower, Grammar.ValidName, Grammar.PlainName;
    if CheckPlugin(serde, raw).Ok? {
      Grammar.NamesMean(CheckPlugin(serde, raw).value.name);
      assert Grammar.PlainName(CheckPlugin(serde, raw).value.name) ==> Specifies(serde, raw, CheckPlugin(serde, raw).value);
    }
  }

  ghost predicate PluginDropped(before: Db, after: Db, reply: Reply, id: Id, token: Option<Time>) {
    var there := id in before.plugins;
    var current := there && TokenFits(token, before.plugins[id].updatedAt);
    var used := exists k :: k in before.bindings && k.1 == id;
    && (reply == Done <==> current && !used)
    && (reply == NotFound <==> !there)
    && (reply == Stale <==> there && !current)
    && (reply == HasDependents <==> current && used)
    && after == if reply == Done then before.(plugins := before.plugins - {id}) else before
  }

  lemma DropPluginMeans(db: Db, id: Id, token: Option<Time>)
    ensures var (after, reply) := DeletePlugin(db, id, token); PluginDropped(db, after, reply, id, token)
  {
  }

  // --- Bindings ---

  /** Null, an empty object or nothing at all is stored as nothing, an object as itself; nothing else can be stored. */
  predicate StoredAs(config: Option<Json>, stored: Option<Json>) {
    || (stored == None && (config == None || config == Some(JNull) || config == Some(JObject(map[]))))
    || (stored == config && config.Some? && config.value.JObject? && config.value.fields != map[])
  }

  predicate Storable(config: Option<Json>) {
    config == None || config.value.JNull? || config.value.JObject?
  }

  lemma StorableMeans(config: Option<Json>)
    ensures Storable(config) <==> exists stored :: StoredAs(config, stored)
    ensures BindingConfig(config) == Err(Refused) || (BindingConfig(config).Ok? && StoredAs(config, BindingConfig(config).value))
    ensures BindingConfig(config).Ok? <==> Storable(config)
    ensures forall a, b :: StoredAs(config, a) && StoredAs(config, b) ==> a == b
  {
    if Storable(config) {
      assert StoredAs(config, if config.Some? && config.value.JObject? && config.value.fields != map[] then config else None);
    }
  }

  ghost predicate BindingPosted(before: Db, after: Db, reply: Reply, key: (Id, Id), config: Option<Json>, now: Time) {
    var there := key.0 in before.workspaces && before.workspaces[key.0].tenantId in before.tenants && key.1 in before.plugins;
    && (reply == NotFound <==> !there)
    && (reply == Taken <==> there && key in before.bindings)
    && (reply == Refused <==> there && key !in before.bindings && !Storable(config))
    && (reply == Done <==> there && key !in before.bindings && Storable(config))
    && (reply != Done ==> after == before)
    && (reply == Done ==>
          && key in after.bindings && StoredAs(config, after.bindings[key].config)
          && after == before.(bindings := before.bindings[key := BindingRow(after.bindings[key].config, now, now)]))
  }

  lemma PostBindingMeans(db: Db, key: (Id, Id), config: Option<Json>, now: Time)
    ensures var (after, reply) := CreateBinding(db, key, config, now); BindingPosted(db, after, reply, key, config, now)
  {
    hide BindingConfig, StoredAs, Storable;
    StorableMeans(config);
  }

  ghost predicate BindingPut(before: Db, after: Db, reply: Reply, key: (Id, Id), config: Option<Json>, token: Time, gate: Gate, now: Time) {
    var there := key in before.bindings;
    var current := there && token == before.bindings[key].updatedAt;
    && (reply == NotFound <==> !there)
    && (reply == Stale <==> there && !current)
    && (reply == Refused <==> current && !Storable(config))
    && (reply == Unavailable <==> current && Storable(config) && gate == Unreachable)
    && (reply == Done <==> current && Storable(config) && gate != Unreachable)
    && (reply != Done ==> after == before)
    && (reply == Done ==>
          && key in after.bindings && StoredAs(config, after.bindings[key].config)
          && after == before.(bindings := before.bindings[key := BindingRow(after.bindings[key].config, before.bindings[key].createdAt, now)]))
  }

  lemma PutBindingMeans(db: Db, key: (Id, Id), config: Option<Json>, token: Time, gate: Gate, now: Time)
    requires key in db.bindings ==> ParentsThere(db, key)
    ensures var (after, reply) := UpdateBinding(db, key, config, token, gate, now);
            BindingPut(db, after, reply, key, config, token, gate, now)
  {
    hide BindingConfig, StoredAs, Storable, ParentsThere;
    StorableMeans(config);
  }

  ghost predicate BindingDropped(before: Db, after: Db, reply: Reply, key: (Id, Id), token: Option<Time>, gate: Gate) {
    var there := key in before.bindings;
    var current := there && TokenFits(token, before.bindings[key].updatedAt);
    && (reply == NotFound <==> !there)
    && (reply == Stale <==> there && !current)
    && (reply == Unavailable <==> current && gate == Unreachable)
    && (reply == Done <==> current && gate != Unreachable)
    && after == if reply == Done then before.(bindings := before.bindings - {key}) else before
  }

  lemma DropBindingMeans(db: Db, key: (Id, Id), token: Option<Time>, gate: Gate)
    requires key in db.bindings ==> ParentsThere(db, key)
    ensures var (after, reply) := DeleteBinding(db, key, token, gate); BindingDropped(db, after, reply, key, token, gate)
  {
    hide ParentsThere;
  }
}
