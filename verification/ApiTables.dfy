/** The api's writes over the four tables, each as one serial transaction at the time `now`, in microseconds. */
module ApiTables {
  import opened Wrappers
  import opened Text
  import Grammar
  import opened PluginSpec
  import opened BootstrapTables

  datatype Reply = Done | NotFound | Stale | Taken | HasDependents | Refused | Unavailable

  /** How the live-session gate answered a write that asks it. */
  datatype Gate = Disabled | Cleared | Unreachable

  // --- Looking before writing ---

  /** The submitted token is the row's stored time, to the microsecond. */
  predicate LockHolds(token: Time, updatedAt: Time) {
    token == updatedAt
  }

  predicate OptionalLockHolds(token: Option<Time>, updatedAt: Time) {
    token.Some? ==> LockHolds(token.value, updatedAt)
  }

  predicate TenantNameTaken(db: Db, name: string, besides: Option<Id>) {
    exists id :: id in db.tenants && Some(id) != besides && Lower(db.tenants[id].name) == Lower(name)
  }

  predicate WorkspaceNameTaken(db: Db, tenantId: Id, name: string, besides: Option<Id>) {
    exists id :: id in db.workspaces && Some(id) != besides && db.workspaces[id].tenantId == tenantId
      && Lower(db.workspaces[id].name) == Lower(name)
  }

  predicate PluginNameTaken(db: Db, name: string, besides: Option<Id>) {
    exists id :: id in db.plugins && Some(id) != besides && Lower(db.plugins[id].spec.name) == Lower(name)
  }

  /** Null, absent and empty configs clear the column; only objects are stored. */
  function BindingConfig(config: Option<Json>): Result<Option<Json>, Reply> {
    match config
    case None => Ok(None)
    case Some(JNull) => Ok(None)
    case Some(JObject(fields)) => Ok(if fields == map[] then None else config)
    case Some(_) => Err(Refused)
  }

  // --- Tenants ---

  function CreateTenant(db: Db, raw: string, now: Time): (Db, Reply) {
    var name := Trim(raw);
    if !Grammar.ValidTenant(name) then (db, Refused)
    else if TenantNameTaken(db, name, None) then (db, Taken)
    else (db.(tenants := db.tenants[db.nextId := TenantRow(name, now, now)], nextId := db.nextId + 1), Done)
  }

  function UpdateTenant(db: Db, id: Id, raw: string, token: Time, now: Time): (Db, Reply) {
    var name := Trim(raw);
    if !Grammar.ValidTenant(name) then (db, Refused)
    else if id !in db.tenants then (db, NotFound)
    else if !LockHolds(token, db.tenants[id].updatedAt) then (db, Stale)
    else if TenantNameTaken(db, name, Some(id)) then (db, Taken)
    else (db.(tenants := db.tenants[id := db.tenants[id].(name := name, updatedAt := now)]), Done)
  }

  predicate HasWorkspaces(db: Db, id: Id) {
    exists w :: w in db.workspaces && db.workspaces[w].tenantId == id
  }

  function DeleteTenant(db: Db, id: Id, token: Option<Time>): (Db, Reply) {
    if id !in db.tenants then (db, NotFound)
    else if !OptionalLockHolds(token, db.tenants[id].updatedAt) then (db, Stale)
    else if HasWorkspaces(db, id) then (db, HasDependents)
    else (db.(tenants := db.tenants - {id}), Done)
  }

  // --- Workspaces; the path's tenant name has been resolved to `tenantId` ---

  function CreateWorkspace(db: Db, tenantId: Id, raw: string, now: Time): (Db, Reply) {
    var name := Trim(raw);
    if !Grammar.ValidName(name) then (db, Refused)
    else if tenantId !in db.tenants then (db, NotFound)
    else if WorkspaceNameTaken(db, tenantId, name, None) then (db, Taken)
    else (db.(workspaces := db.workspaces[db.nextId := WorkspaceRow(tenantId, name, now, now)], nextId := db.nextId + 1), Done)
  }

  function UpdateWorkspace(db: Db, tenantId: Id, id: Id, raw: string, token: Time, now: Time): (Db, Reply) {
    var name := Trim(raw);
    if !Grammar.ValidName(name) then (db, Refused)
    else if id !in db.workspaces || db.workspaces[id].tenantId != tenantId then (db, NotFound)
    else if !LockHolds(token, db.workspaces[id].updatedAt) then (db, Stale)
    else if WorkspaceNameTaken(db, tenantId, name, Some(id)) then (db, Taken)
    else (db.(workspaces := db.workspaces[id := db.workspaces[id].(name := name, updatedAt := now)]), Done)
  }

  /** The keys of a workspace's bindings, which the foreign key deletes along with it. */
  function BindingsOf(db: Db, id: Id): set<(Id, Id)> {
    set k | k in db.bindings && k.0 == id
  }

  function DeleteWorkspace(db: Db, tenantId: Id, id: Id, token: Option<Time>, gate: Gate): (Db, Reply) {
    if id !in db.workspaces || db.workspaces[id].tenantId != tenantId then (db, NotFound)
    else if !OptionalLockHolds(token, db.workspaces[id].updatedAt) then (db, Stale)
    else if gate == Unreachable && BindingsOf(db, id) != {} then (db, Unavailable)
    else (db.(workspaces := db.workspaces - {id}, bindings := db.bindings - BindingsOf(db, id)), Done)
  }

  // --- Plugins ---

  function CreatePlugin(db: Db, serde: Serde, raw: RawPlugin, now: Time): (Db, Reply) {
    match CheckPlugin(serde, raw)
    case Err(_) => (db, Refused)
    case Ok(p) =>
      if !Grammar.ValidName(p.name) then (db, Refused)
      else if PluginNameTaken(db, p.name, None) then (db, Taken)
      else (db.(plugins := db.plugins[db.nextId := PluginRow(p, now, now, None)], nextId := db.nextId + 1), Done)
  }

  function UpdatePlugin(db: Db, serde: Serde, id: Id, raw: RawPlugin, token: Time, now: Time): (Db, Reply) {
    match CheckPlugin(serde, raw)
    case Err(_) => (db, Refused)
    case Ok(p) =>
      if id !in db.plugins then (db, NotFound)
      else if !LockHolds(token, db.plugins[id].updatedAt) then (db, Stale)
      else if !Grammar.ValidName(p.name) then (db, Refused)
      else if PluginNameTaken(db, p.name, Some(id)) then (db, Taken)
      else (db.(plugins := db.plugins[id := db.plugins[id].(spec := p, updatedAt := now)]), Done)
  }

  predicate IsBound(db: Db, id: Id) {
    exists k :: k in db.bindings && k.1 == id
  }

  function DeletePlugin(db: Db, id: Id, token: Option<Time>): (Db, Reply) {
    if id !in db.plugins then (db, NotFound)
    else if !OptionalLockHolds(token, db.plugins[id].updatedAt) then (db, Stale)
    else if IsBound(db, id) then (db, HasDependents)
    else (db.(plugins := db.plugins - {id}), Done)
  }

  // --- Bindings ---

  predicate ParentsThere(db: Db, key: (Id, Id)) {
    key.0 in db.workspaces && db.workspaces[key.0].tenantId in db.tenants && key.1 in db.plugins
  }

  function CreateBinding(db: Db, key: (Id, Id), config: Option<Json>, now: Time): (Db, Reply) {
    if !ParentsThere(db, key) then (db, NotFound)
    else if key in db.bindings then (db, Taken)
    else
      match BindingConfig(config)
      case Err(reply) => (db, reply)
      case Ok(value) => (db.(bindings := db.bindings[key := BindingRow(value, now, now)]), Done)
  }

  function UpdateBinding(db: Db, key: (Id, Id), config: Option<Json>, token: Time, gate: Gate, now: Time): (Db, Reply) {
    if key !in db.bindings then (db, NotFound)
    else if !LockHolds(token, db.bindings[key].updatedAt) then (db, Stale)
    else
      match BindingConfig(config)
      case Err(reply) => (db, reply)
      case Ok(value) =>
        if !ParentsThere(db, key) then (db, NotFound)
        else if gate == Unreachable then (db, Unavailable)
        else (db.(bindings := db.bindings[key := db.bindings[key].(config := value, updatedAt := now)]), Done)
  }

  function DeleteBinding(db: Db, key: (Id, Id), token: Option<Time>, gate: Gate): (Db, Reply) {
    if key !in db.bindings then (db, NotFound)
    else if !OptionalLockHolds(token, db.bindings[key].updatedAt) then (db, Stale)
    else if !ParentsThere(db, key) then (db, NotFound)
    else if gate == Unreachable then (db, Unavailable)
    else (db.(bindings := db.bindings - {key}), Done)
  }

  // --- Runs ---

  /** A binding write is sent under the name of a tenant. */
  datatype Write =
    | PostTenant(name: string)
    | PutTenantName(id: Id, name: string, token: Time)
    | DropTenant(id: Id, ifSame: Option<Time>)
    | PostWorkspace(tenantId: Id, name: string)
    | PutWorkspaceName(tenantId: Id, id: Id, name: string, token: Time)
    | DropWorkspace(tenantId: Id, id: Id, ifSame: Option<Time>, gate: Gate)
    | PostPlugin(raw: RawPlugin)
    | PutPluginSpec(id: Id, raw: RawPlugin, token: Time)
    | DropPlugin(id: Id, ifSame: Option<Time>)
    | PostBinding(under: string, key: (Id, Id), config: Option<Json>)
    | PutBindingConfig(under: string, key: (Id, Id), config: Option<Json>, token: Time, gate: Gate)
    | DropBinding(under: string, key: (Id, Id), ifSame: Option<Time>, gate: Gate)

  function Perform(serde: Serde, db: Db, write: Write, now: Time): (Db, Reply) {
    match write
    case PostTenant(name) => CreateTenant(db, name, now)
    case PutTenantName(id, name, token) => UpdateTenant(db, id, name, token, now)
    case DropTenant(id, token) => DeleteTenant(db, id, token)
    case PostWorkspace(tenantId, name) => CreateWorkspace(db, tenantId, name, now)
    case PutWorkspaceName(tenantId, id, name, token) => UpdateWorkspace(db, tenantId, id, name, token, now)
    case DropWorkspace(tenantId, id, token, gate) => DeleteWorkspace(db, tenantId, id, token, gate)
    case PostPlugin(raw) => CreatePlugin(db, serde, raw, now)
    case PutPluginSpec(id, raw, token) => UpdatePlugin(db, serde, id, raw, token, now)
    case DropPlugin(id, token) => DeletePlugin(db, id, token)
    case PostBinding(_, key, config) => CreateBinding(db, key, config, now)
    case PutBindingConfig(_, key, config, token, gate) => UpdateBinding(db, key, config, token, gate, now)
    case DropBinding(_, key, token, gate) => DeleteBinding(db, key, token, gate)
  }

  /** Writes with the times they are made at. */
  type Run = seq<(Write, Time)>

  function After(serde: Serde, db: Db, run: Run): Db {
    if run == [] then db
    else
      var last := run[|run| - 1];
      Perform(serde, After(serde, db, run[..|run| - 1]), last.0, last.1).0
  }
}
