/** Lowering a parsed bootstrap tree into a validated one. */
module BootstrapConfig {
  import opened Wrappers
  import opened Text
  import opened PluginSpec

  datatype BindingRaw = BindingRaw(name: string, config: Option<Yaml>)
  datatype WorkspaceRaw = WorkspaceRaw(name: string, plugins: seq<BindingRaw>)
  datatype TenantRaw = TenantRaw(name: string, workspaces: seq<WorkspaceRaw>)
  datatype ConfigRaw = ConfigRaw(tenants: seq<TenantRaw>, plugins: seq<RawPlugin>)

  datatype BindingEntry = BindingEntry(name: string, config: Option<Json>)
  datatype WorkspaceEntry = WorkspaceEntry(name: string, plugins: seq<BindingEntry>)
  datatype TenantEntry = TenantEntry(name: string, workspaces: seq<WorkspaceEntry>)
  datatype Config = Config(tenants: seq<TenantEntry>, plugins: seq<Plugin>)

  function PluginNames(plugins: seq<Plugin>): set<string> {
    set i | 0 <= i < |plugins| :: plugins[i].name
  }

  // --- List by list; the names compared are the ones as written ---

  function LowerPlugins(serde: Serde, raws: seq<RawPlugin>): Result<seq<Plugin>, ValidationError> {
    if raws == [] then Ok([])
    else
      var n := |raws| - 1;
      var init := LowerPlugins(serde, raws[..n]);
      if init.Err? then init
      else
        match CheckPlugin(serde, raws[n])
        case Err(error) => Err(error)
        case Ok(p) =>
          if exists i :: 0 <= i < n && raws[i].name == raws[n].name then Err(DuplicatePlugin(raws[n].name))
          else Ok(init.value + [p])
  }

  function Context(tenant: string, workspace: string, binding: string): string {
    "tenant '" + tenant + "' workspace '" + workspace + "' plugin '" + binding + "'"
  }

  function LowerBinding(serde: Serde, tenant: string, workspace: string, known: set<string>, earlier: set<string>, raw: BindingRaw)
    : Result<BindingEntry, ValidationError>
  {
    var name := Trim(raw.name);
    if name == "" then Err(EmptyName("tenants[].workspaces[].plugins[].name"))
    else if raw.name in earlier then Err(DuplicateBinding(tenant, workspace, name))
    else if raw.name !in known then Err(UnknownPluginRef(tenant, workspace, name))
    else
      match CheckConfig(serde, Context(tenant, workspace, name), raw.config)
      case Err(error) => Err(error)
      case Ok(config) => Ok(BindingEntry(name, config))
  }

  function BindingNames(raws: seq<BindingRaw>): set<string> {
    set i | 0 <= i < |raws| :: raws[i].name
  }

  function LowerBindings(serde: Serde, tenant: string, workspace: string, known: set<string>, raws: seq<BindingRaw>)
    : Result<seq<BindingEntry>, ValidationError>
  {
    if raws == [] then Ok([])
    else
      var n := |raws| - 1;
      var init := LowerBindings(serde, tenant, workspace, known, raws[..n]);
      if init.Err? then init
      else
        match LowerBinding(serde, tenant, workspace, known, BindingNames(raws[..n]), raws[n])
        case Err(error) => Err(error)
        case Ok(entry) => Ok(init.value + [entry])
  }

  function LowerWorkspace(serde: Serde, tenant: string, known: set<string>, earlier: set<string>, raw: WorkspaceRaw)
    : Result<WorkspaceEntry, ValidationError>
  {
    var name := Trim(raw.name);
    if name == "" then Err(EmptyName("tenants[].workspaces[].name"))
    else if raw.name in earlier then Err(DuplicateWorkspace(tenant, name))
    else
      match LowerBindings(serde, tenant, name, known, raw.plugins)
      case Err(error) => Err(error)
      case Ok(bindings) => Ok(WorkspaceEntry(name, bindings))
  }

  function WorkspaceNames(raws: seq<WorkspaceRaw>): set<string> {
    set i | 0 <= i < |raws| :: raws[i].name
  }

  function LowerWorkspaces(serde: Serde, tenant: string, known: set<string>, raws: seq<WorkspaceRaw>)
    : Result<seq<WorkspaceEntry>, ValidationError>
  {
    if raws == [] then Ok([])
    else
      var n := |raws| - 1;
      var init := LowerWorkspaces(serde, tenant, known, raws[..n]);
      if init.Err? then init
      else
        match LowerWorkspace(serde, tenant, known, WorkspaceNames(raws[..n]), raws[n])
        case Err(error) => Err(error)
        case Ok(entry) => Ok(init.value + [entry])
  }

  function LowerTenant(serde: Serde, known: set<string>, earlier: set<string>, raw: TenantRaw): Result<TenantEntry, ValidationError> {
    var name := Trim(raw.name);
    if name == "" then Err(EmptyName("tenants[].name"))
    else if raw.name in earlier then Err(DuplicateTenant(name))
    else
      match LowerWorkspaces(serde, name, known, raw.workspaces)
      case Err(error) => Err(error)
      case Ok(workspaces) => Ok(TenantEntry(name, workspaces))
  }

  function TenantNames(raws: seq<TenantRaw>): set<string> {
    set i | 0 <= i < |raws| :: raws[i].name
  }

  function LowerTenants(serde: Serde, known: set<string>, raws: seq<TenantRaw>): Result<seq<TenantEntry>, ValidationError> {
    if raws == [] then Ok([])
    else
      var n := |raws| - 1;
      var init := LowerTenants(serde, known, raws[..n]);
      if init.Err? then init
      else
        match LowerTenant(serde, known, TenantNames(raws[..n]), raws[n])
        case Err(error) => Err(error)
        case Ok(entry) => Ok(init.value + [entry])
  }

  function FromRaw(serde: Serde, raw: ConfigRaw): Result<Config, ValidationError> {
    match LowerPlugins(serde, raw.plugins)
    case Err(error) => Err(error)
    case Ok(plugins) =>
      match LowerTenants(serde, PluginNames(plugins), raw.tenants)
      case Err(error) => Err(error)
      case Ok(tenants) => Ok(Config(tenants, plugins))
  }

  // --- What an accepted tree promises ---

  /** Every binding names a validated plugin and no two bindings of a workspace name the same one. */
  predicate BindingsResolve(known: set<string>, bindings: seq<BindingEntry>) {
    && (forall i :: 0 <= i < |bindings| ==> bindings[i].name in known)
    && (forall i, j :: 0 <= i < j < |bindings| ==> bindings[i].name != bindings[j].name)
  }

  predicate WorkspacesResolve(known: set<string>, workspaces: seq<WorkspaceEntry>) {
    forall i :: 0 <= i < |workspaces| ==> BindingsResolve(known, workspaces[i].plugins)
  }

  predicate Resolves(config: Config) {
    forall i :: 0 <= i < |config.tenants| ==> WorkspacesResolve(PluginNames(config.plugins), config.tenants[i].workspaces)
  }

  // --- How an accepted tree comes from the one as written ---

  predicate LowersBinding(serde: Serde, tenant: string, workspace: string, raw: BindingRaw, out: BindingEntry) {
    && out.name == raw.name == Trim(raw.name)
    && CheckConfig(serde, Context(tenant, workspace, out.name), raw.config) == Ok(out.config)
  }

  predicate LowersWorkspace(serde: Serde, tenant: string, raw: WorkspaceRaw, out: WorkspaceEntry) {
    && out.name == Trim(raw.name) && |out.plugins| == |raw.plugins|
    && forall k :: 0 <= k < |raw.plugins| ==> LowersBinding(serde, tenant, out.name, raw.plugins[k], out.plugins[k])
  }

  predicate LowersTenant(serde: Serde, raw: TenantRaw, out: TenantEntry) {
    && out.name == Trim(raw.name) && |out.workspaces| == |raw.workspaces|
    && forall j :: 0 <= j < |raw.workspaces| ==> LowersWorkspace(serde, out.name, raw.workspaces[j], out.workspaces[j])
  }

  /** Entry for entry the same tree: tenants and workspaces trimmed, bindings as written, configs converted. */
  predicate LowersTree(serde: Serde, raw: ConfigRaw, out: Config) {
    && |out.tenants| == |raw.tenants| && |out.plugins| == |raw.plugins|
    && (forall i :: 0 <= i < |raw.tenants| ==> LowersTenant(serde, raw.tenants[i], out.tenants[i]))
    && (forall m :: 0 <= m < |raw.plugins| ==>
          CheckPlugin(serde, raw.plugins[m]) == Ok(out.plugins[m]) && out.plugins[m].name == Trim(raw.plugins[m].name))
  }

  lemma {:induction false} PluginsAreValid(serde: Serde, raws: seq<RawPlugin>)
    requires LowerPlugins(serde, raws).Ok?
    ensures var plugins := LowerPlugins(serde, raws).value;
            |plugins| == |raws| && forall i :: 0 <= i < |raws| ==> CheckPlugin(serde, raws[i]) == Ok(plugins[i])
    ensures forall i, j :: 0 <= i < j < |raws| ==> raws[i].name != raws[j].name
  {
    hide CheckPlugin;
    if raws != [] {
      PluginsAreValid(serde, raws[..|raws| - 1]);
    }
  }

  /** The names plugins end up with are already trimmed. */
  lemma KnownAreTrimmed(serde: Serde, raws: seq<RawPlugin>)
    requires LowerPlugins(serde, raws).Ok?
    ensures forall name :: name in PluginNames(LowerPlugins(serde, raws).value) ==> Trim(name) == name
  {
    hide CheckPlugin, ValidPlugin, LowerPlugins;
    PluginsAreValid(serde, raws);
    var plugins := LowerPlugins(serde, raws).value;
    forall i | 0 <= i < |plugins|
      ensures Trim(plugins[i].name) == plugins[i].name
    {
      ValidatedIsValid(serde, raws[i]);
      PluginNameTrimmed(serde, plugins[i]);
    }
  }

  lemma PluginNameTrimmed(serde: Serde, p: Plugin)
    requires ValidPlugin(serde, p)
    ensures Trim(p.name) == p.name
  {
    hide ValidPath, ValidAuth, ValidEnv, ValidResources, ValidEgress, ValidName;
    NameIsTrimmed(p.name);
  }

  lemma BindingIsKnown(serde: Serde, tenant: string, workspace: string, known: set<string>, earlier: set<string>, raw: BindingRaw)
    requires forall name :: name in known ==> Trim(name) == name
    requires LowerBinding(serde, tenant, workspace, known, earlier, raw).Ok?
    ensures raw.name in known && raw.name !in earlier
    ensures LowersBinding(serde, tenant, workspace, raw, LowerBinding(serde, tenant, workspace, known, earlier, raw).value)
  {
    hide CheckConfig, Context, Trim;
  }

  lemma {:induction false} BindingsAreKnown(serde: Serde, tenant: string, workspace: string, known: set<string>, raws: seq<BindingRaw>)
    requires forall name :: name in known ==> Trim(name) == name
    requires LowerBindings(serde, tenant, workspace, known, raws).Ok?
    ensures var bindings := LowerBindings(serde, tenant, workspace, known, raws).value;
            && |bindings| == |raws| && BindingsResolve(known, bindings)
            && (forall i :: 0 <= i < |raws| ==> bindings[i].name == raws[i].name)
            && forall i :: 0 <= i < |raws| ==> LowersBinding(serde, tenant, workspace, raws[i], bindings[i])
  {
    hide LowerBinding, Trim, CheckConfig, Context;
    if raws != [] {
      var n := |raws| - 1;
      BindingsAreKnown(serde, tenant, workspace, known, raws[..n]);
      BindingIsKnown(serde, tenant, workspace, known, BindingNames(raws[..n]), raws[n]);
      assert forall i :: 0 <= i < n ==> raws[..n][i].name in BindingNames(raws[..n]);
    }
  }

  lemma {:induction false} WorkspacesAreKnown(serde: Serde, tenant: string, known: set<string>, raws: seq<WorkspaceRaw>)
    requires forall name :: name in known ==> Trim(name) == name
    requires LowerWorkspaces(serde, tenant, known, raws).Ok?
    ensures var workspaces := LowerWorkspaces(serde, tenant, known, raws).value;
            && |workspaces| == |raws| && WorkspacesResolve(known, workspaces)
            && forall i :: 0 <= i < |raws| ==> LowersWorkspace(serde, tenant, raws[i], workspaces[i])
  {
    hide LowerBindings, BindingsResolve, LowersBinding, Trim;
    if raws != [] {
      var n := |raws| - 1;
      WorkspacesAreKnown(serde, tenant, known, raws[..n]);
      BindingsAreKnown(serde, tenant, Trim(raws[n].name), known, raws[n].plugins);
    }
  }

  lemma {:induction false} TenantsAreKnown(serde: Serde, known: set<string>, raws: seq<TenantRaw>)
    requires forall name :: name in known ==> Trim(name) == name
    requires LowerTenants(serde, known, raws).Ok?
    ensures var tenants := LowerTenants(serde, known, raws).value;
            && |tenants| == |raws|
            && (forall i :: 0 <= i < |raws| ==> tenants[i].name == Trim(raws[i].name) && WorkspacesResolve(known, tenants[i].workspaces))
            && forall i :: 0 <= i < |raws| ==> LowersTenant(serde, raws[i], tenants[i])
  {
    hide LowerWorkspaces, WorkspacesResolve, LowersWorkspace, Trim;
    if raws != [] {
      var n := |raws| - 1;
      TenantsAreKnown(serde, known, raws[..n]);
      WorkspacesAreKnown(serde, Trim(raws[n].name), known, raws[n].workspaces);
    }
  }

  /**
   * In every accepted tree the binding names are trimmed already, though the duplicate checks look at them
   * untrimmed: each names a validated plugin, and they are distinct within their workspace. The tree is the one
   * as written, entry for entry.
   */
  lemma AcceptedResolves(serde: Serde, raw: ConfigRaw)
    requires FromRaw(serde, raw).Ok?
    ensures Resolves(FromRaw(serde, raw).value) && LowersTree(serde, raw, FromRaw(serde, raw).value)
  {
    hide LowerTenants, LowerPlugins, CheckPlugin, WorkspacesResolve, PluginNames, LowersTenant, Trim;
    var plugins := LowerPlugins(serde, raw.plugins).value;
    PluginsAreValid(serde, raw.plugins);
    KnownAreTrimmed(serde, raw.plugins);
    TenantsAreKnown(serde, PluginNames(plugins), raw.tenants);
    forall m | 0 <= m < |raw.plugins|
      ensures plugins[m].name == Trim(raw.plugins[m].name)
    {
      NameIsTrimmedRaw(serde, raw.plugins[m]);
    }
  }

  lemma NameIsTrimmedRaw(serde: Serde, raw: RawPlugin)
    requires CheckPlugin(serde, raw).Ok?
    ensures CheckPlugin(serde, raw).value.name == Trim(raw.name)
  {
    hide CheckPlugin, ValidPlugin, Trim;
    ValidatedIsValid(serde, raw);
  }

  // --- Exactly which trees are accepted ---

  predicate BindingIs(serde: Serde, tenant: string, workspace: string, known: set<string>, raw: BindingRaw, out: BindingEntry) {
    && out.name == Trim(raw.name) != "" && raw.name in known
    && CheckConfig(serde, Context(tenant, workspace, out.name), raw.config) == Ok(out.config)
  }

  predicate BindingsAre(serde: Serde, tenant: string, workspace: string, known: set<string>, raws: seq<BindingRaw>, outs: seq<BindingEntry>) {
    && |outs| == |raws| && (forall k :: 0 <= k < |raws| ==> BindingIs(serde, tenant, workspace, known, raws[k], outs[k]))
    && (forall k, l :: 0 <= k < l < |raws| ==> raws[k].name != raws[l].name)
  }

  predicate WorkspaceIs(serde: Serde, tenant: string, known: set<string>, raw: WorkspaceRaw, out: WorkspaceEntry) {
    out.name == Trim(raw.name) != "" && BindingsAre(serde, tenant, out.name, known, raw.plugins, out.plugins)
  }

  predicate WorkspacesAre(serde: Serde, tenant: string, known: set<string>, raws: seq<WorkspaceRaw>, outs: seq<WorkspaceEntry>) {
    && |outs| == |raws| && (forall j :: 0 <= j < |raws| ==> WorkspaceIs(serde, tenant, known, raws[j], outs[j]))
    && (forall j, l :: 0 <= j < l < |raws| ==> raws[j].name != raws[l].name)
  }

  predicate TenantIs(serde: Serde, known: set<string>, raw: TenantRaw, out: TenantEntry) {
    out.name == Trim(raw.name) != "" && WorkspacesAre(serde, out.name, known, raw.workspaces, out.workspaces)
  }

  predicate TenantsAre(serde: Serde, known: set<string>, raws: seq<TenantRaw>, outs: seq<TenantEntry>) {
    && |outs| == |raws| && (forall i :: 0 <= i < |raws| ==> TenantIs(serde, known, raws[i], outs[i]))
    && (forall i, l :: 0 <= i < l < |raws| ==> raws[i].name != raws[l].name)
  }

  predicate PluginsAre(serde: Serde, raws: seq<RawPlugin>, outs: seq<Plugin>) {
    && |outs| == |raws| && (forall m :: 0 <= m < |raws| ==> CheckPlugin(serde, raws[m]) == Ok(outs[m]))
    && (forall m, l :: 0 <= m < l < |raws| ==> raws[m].name != raws[l].name)
  }

  /**
   * No name is blank, no two names of a list are written alike, every binding names a validated plugin as it is
   * written, and every plugin and config is acceptable; the tree is then lowered entry for entry.
   */
  predicate TreeIs(serde: Serde, raw: ConfigRaw, out: Config) {
    PluginsAre(serde, raw.plugins, out.plugins) && TenantsAre(serde, PluginNames(out.plugins), raw.tenants, out.tenants)
  }

  lemma {:induction false} PluginsMean(serde: Serde, raws: seq<RawPlugin>, outs: seq<Plugin>)
    ensures LowerPlugins(serde, raws) == Ok(outs) <==> PluginsAre(serde, raws, outs)
    decreases |raws|
  {
    hide CheckPlugin;
    if raws != [] {
      var n := |raws| - 1;
      if |outs| == n + 1 {
        PluginsMean(serde, raws[..n], outs[..n]);
        assert outs == outs[..n] + [outs[n]];
      }
      if LowerPlugins(serde, raws[..n]).Ok? {
        PluginsMean(serde, raws[..n], LowerPlugins(serde, raws[..n]).value);
      }
    }
  }

  lemma BindingMeans(serde: Serde, tenant: string, workspace: string, known: set<string>, earlier: set<string>, raw: BindingRaw, out: BindingEntry)
    ensures LowerBinding(serde, tenant, workspace, known, earlier, raw) == Ok(out)
       <==> BindingIs(serde, tenant, workspace, known, raw, out) && raw.name !in earlier
  {
    hide CheckConfig, Context, Trim;
  }

  /** A sequence is another with one more element exactly when it is so piece by piece. */
  lemma SameSnoc<T>(outs: seq<T>, init: seq<T>)
    requires outs != []
    ensures forall e :: outs == init + [e] <==> init == outs[..|outs| - 1] && e == outs[|outs| - 1]
  {
    assert outs == outs[..|outs| - 1] + [outs[|outs| - 1]];
    forall e | outs == init + [e]
      ensures init == outs[..|outs| - 1] && e == outs[|outs| - 1]
    {
      assert (init + [e])[..|init|] == init && (init + [e])[|init|] == e;
    }
  }

  lemma BindingsSnoc(serde: Serde, tenant: string, workspace: string, known: set<string>, init: seq<BindingRaw>, last: BindingRaw, outs: seq<BindingEntry>, out: BindingEntry)
    ensures BindingsAre(serde, tenant, workspace, known, init + [last], outs + [out])
       <==> BindingsAre(serde, tenant, workspace, known, init, outs) && BindingIs(serde, tenant, workspace, known, last, out) && last.name !in BindingNames(init)
  {
    hide BindingIs;
    var raws, all := init + [last], outs + [out];
    assert raws[|init|] == last && all[|outs|] == out;
    assert forall i :: 0 <= i < |init| ==> raws[i] == init[i];
    assert forall i :: 0 <= i < |outs| ==> all[i] == outs[i];
  }

  lemma {:induction false} BindingsMean(serde: Serde, tenant: string, workspace: string, known: set<string>, raws: seq<BindingRaw>, outs: seq<BindingEntry>)
    ensures LowerBindings(serde, tenant, workspace, known, raws) == Ok(outs) <==> BindingsAre(serde, tenant, workspace, known, raws, outs)
    decreases |raws|
  {
    hide LowerBinding, BindingIs, BindingsAre, BindingNames;
    BindingsLong(serde, tenant, workspace, known, raws, outs);
    if raws != [] {
      var n := |raws| - 1;
      assert raws == raws[..n] + [raws[n]];
      if LowerBindings(serde, tenant, workspace, known, raws[..n]).Ok? {
        var init := LowerBindings(serde, tenant, workspace, known, raws[..n]).value;
        BindingsMean(serde, tenant, workspace, known, raws[..n], init);
        BindingsLong(serde, tenant, workspace, known, raws[..n], init);
      }
      if |outs| == n + 1 {
        assert outs == outs[..n] + [outs[n]];
        BindingsMean(serde, tenant, workspace, known, raws[..n], outs[..n]);
        BindingMeans(serde, tenant, workspace, known, BindingNames(raws[..n]), raws[n], outs[n]);
        BindingsSnoc(serde, tenant, workspace, known, raws[..n], raws[n], outs[..n], outs[n]);
        SameSnoc(outs, if LowerBindings(serde, tenant, workspace, known, raws[..n]).Ok? then LowerBindings(serde, tenant, workspace, known, raws[..n]).value else outs[..n]);
      }
    }
  }

  lemma BindingsLong(serde: Serde, tenant: string, workspace: string, known: set<string>, raws: seq<BindingRaw>, outs: seq<BindingEntry>)
    ensures BindingsAre(serde, tenant, workspace, known, raws, outs) ==> |outs| == |raws|
    ensures raws == [] ==> (BindingsAre(serde, tenant, workspace, known, raws, outs) <==> outs == [])
  {
    hide BindingIs;
  }

  lemma WorkspaceMeans(serde: Serde, tenant: string, known: set<string>, earlier: set<string>, raw: WorkspaceRaw, out: WorkspaceEntry)
    ensures LowerWorkspace(serde, tenant, known, earlier, raw) == Ok(out)
       <==> WorkspaceIs(serde, tenant, known, raw, out) && raw.name !in earlier
  {
    hide LowerBindings, BindingsAre, Trim;
    BindingsMean(serde, tenant, Trim(raw.name), known, raw.plugins, out.plugins);
  }

  lemma WorkspacesSnoc(serde: Serde, tenant: string, known: set<string>, init: seq<WorkspaceRaw>, last: WorkspaceRaw, outs: seq<WorkspaceEntry>, out: WorkspaceEntry)
    ensures WorkspacesAre(serde, tenant, known, init + [last], outs + [out])
       <==> WorkspacesAre(serde, tenant, known, init, outs) && WorkspaceIs(serde, tenant, known, last, out) && last.name !in WorkspaceNames(init)
  {
    hide WorkspaceIs;
    var raws, all := init + [last], outs + [out];
    assert raws[|init|] == last && all[|outs|] == out;
    assert forall i :: 0 <= i < |init| ==> raws[i] == init[i];
    assert forall i :: 0 <= i < |outs| ==> all[i] == outs[i];
  }

  lemma {:induction false} WorkspacesMean(serde: Serde, tenant: string, known: set<string>, raws: seq<WorkspaceRaw>, outs: seq<WorkspaceEntry>)
    ensures LowerWorkspaces(serde, tenant, known, raws) == Ok(outs) <==> WorkspacesAre(serde, tenant, known, raws, outs)
    decreases |raws|
  {
    hide LowerWorkspace, WorkspaceIs, WorkspacesAre, WorkspaceNames;
    WorkspacesLong(serde, tenant, known, raws, outs);
    if raws != [] {
      var n := |raws| - 1;
      assert raws == raws[..n] + [raws[n]];
      if LowerWorkspaces(serde, tenant, known, raws[..n]).Ok? {
        var init := LowerWorkspaces(serde, tenant, known, raws[..n]).value;
        WorkspacesMean(serde, tenant, known, raws[..n], init);
        WorkspacesLong(serde, tenant, known, raws[..n], init);
      }
      if |outs| == n + 1 {
        assert outs == outs[..n] + [outs[n]];
        WorkspacesMean(serde, tenant, known, raws[..n], outs[..n]);
        WorkspaceMeans(serde, tenant, known, WorkspaceNames(raws[..n]), raws[n], outs[n]);
        WorkspacesSnoc(serde, tenant, known, raws[..n], raws[n], outs[..n], outs[n]);
        SameSnoc(outs, if LowerWorkspaces(serde, tenant, known, raws[..n]).Ok? then LowerWorkspaces(serde, tenant, known, raws[..n]).value else outs[..n]);
      }
    }
  }

  lemma WorkspacesLong(serde: Serde, tenant: string, known: set<string>, raws: seq<WorkspaceRaw>, outs: seq<WorkspaceEntry>)
    ensures WorkspacesAre(serde, tenant, known, raws, outs) ==> |outs| == |raws|
    ensures raws == [] ==> (WorkspacesAre(serde, tenant, known, raws, outs) <==> outs == [])
  {
    hide WorkspaceIs;
  }

  lemma TenantMeans(serde: Serde, known: set<string>, earlier: set<string>, raw: TenantRaw, out: TenantEntry)
    ensures LowerTenant(serde, known, earlier, raw) == Ok(out) <==> TenantIs(serde, known, raw, out) && raw.name !in earlier
  {
    hide LowerWorkspaces, WorkspacesAre, Trim;
    WorkspacesMean(serde, Trim(raw.name), known, raw.workspaces, out.workspaces);
  }

  lemma TenantsSnoc(serde: Serde, known: set<string>, init: seq<TenantRaw>, last: TenantRaw, outs: seq<TenantEntry>, out: TenantEntry)
    ensures TenantsAre(serde, known, init + [last], outs + [out])
       <==> TenantsAre(serde, known, init, outs) && TenantIs(serde, known, last, out) && last.name !in TenantNames(init)
  {
    hide TenantIs;
    var raws, all := init + [last], outs + [out];
    assert raws[|init|] == last && all[|outs|] == out;
    assert forall i :: 0 <= i < |init| ==> raws[i] == init[i];
    assert forall i :: 0 <= i < |outs| ==> all[i] == outs[i];
  }

  lemma {:induction false} TenantsMean(serde: Serde, known: set<string>, raws: seq<TenantRaw>, outs: seq<TenantEntry>)
    ensures LowerTenants(serde, known, raws) == Ok(outs) <==> TenantsAre(serde, known, raws, outs)
    decreases |raws|
  {
    hide LowerTenant, TenantIs, TenantsAre, TenantNames;
    TenantsLong(serde, known, raws, outs);
    if raws != [] {
      var n := |raws| - 1;
      assert raws == raws[..n] + [raws[n]];
      if LowerTenants(serde, known, raws[..n]).Ok? {
        var init := LowerTenants(serde, known, raws[..n]).value;
        TenantsMean(serde, known, raws[..n], init);
        TenantsLong(serde, known, raws[..n], init);
      }
      if |outs| == n + 1 {
        assert outs == outs[..n] + [outs[n]];
        TenantsMean(serde, known, raws[..n], outs[..n]);
        TenantMeans(serde, known, TenantNames(raws[..n]), raws[n], outs[n]);
        TenantsSnoc(serde, known, raws[..n], raws[n], outs[..n], outs[n]);
        SameSnoc(outs, if LowerTenants(serde, known, raws[..n]).Ok? then LowerTenants(serde, known, raws[..n]).value else outs[..n]);
      }
    }
  }

  lemma TenantsLong(serde: Serde, known: set<string>, raws: seq<TenantRaw>, outs: seq<TenantEntry>)
    ensures TenantsAre(serde, known, raws, outs) ==> |outs| == |raws|
    ensures raws == [] ==> (TenantsAre(serde, known, raws, outs) <==> outs == [])
  {
    hide TenantIs;
  }

  /** A tree is accepted, and lowered to this one, exactly when the rules hold of it as written. */
  lemma AcceptedMeans(serde: Serde, raw: ConfigRaw, out: Config)
    ensures FromRaw(serde, raw) == Ok(out) <==> TreeIs(serde, raw, out)
  {
    hide LowerPlugins, LowerTenants, PluginsAre, TenantsAre, PluginNames;
    PluginsMean(serde, raw.plugins, out.plugins);
    TenantsMean(serde, PluginNames(out.plugins), raw.tenants, out.tenants);
  }

  /** Why one tenant, workspace or binding is refused, given the names before it in its list: each reason in its turn. */
  lemma FaultsMean(serde: Serde, known: set<string>, earlier: set<string>, t: TenantRaw, w: WorkspaceRaw, b: BindingRaw,
                   tenant: string, workspace: string)
    ensures var r := LowerTenant(serde, known, earlier, t);
            && (Trim(t.name) == "" ==> r == Err(EmptyName("tenants[].name")))
            && (Trim(t.name) != "" && t.name in earlier ==> r == Err(DuplicateTenant(Trim(t.name))))
    ensures var r := LowerWorkspace(serde, tenant, known, earlier, w);
            && (Trim(w.name) == "" ==> r == Err(EmptyName("tenants[].workspaces[].name")))
            && (Trim(w.name) != "" && w.name in earlier ==> r == Err(DuplicateWorkspace(tenant, Trim(w.name))))
    ensures var r := LowerBinding(serde, tenant, workspace, known, earlier, b);
            && (Trim(b.name) == "" ==> r == Err(EmptyName("tenants[].workspaces[].plugins[].name")))
            && (Trim(b.name) != "" && b.name in earlier ==> r == Err(DuplicateBinding(tenant, workspace, Trim(b.name))))
            && (Trim(b.name) != "" && b.name !in earlier && b.name !in known ==> r == Err(UnknownPluginRef(tenant, workspace, Trim(b.name))))
            && (Trim(b.name) != "" && b.name !in earlier && b.name in known && r.Err? ==>
                  CheckConfig(serde, "tenant '" + tenant + "' workspace '" + workspace + "' plugin '" + Trim(b.name) + "'", b.config) == Err(r.error))
  {
    hide Trim, CheckConfig, LowerBindings, LowerWorkspaces;
  }

  // --- What it does not promise ---

  predicate DistinctTenants(tenants: seq<TenantEntry>) {
    forall i, j :: 0 <= i < j < |tenants| ==> tenants[i].name != tenants[j].name
  }

  predicate DistinctWorkspaces(workspaces: seq<WorkspaceEntry>) {
    forall i, j :: 0 <= i < j < |workspaces| ==> workspaces[i].name != workspaces[j].name
  }

  predicate DistinctNames(config: Config) {
    && (forall i, j :: 0 <= i < j < |config.plugins| ==> config.plugins[i].name != config.plugins[j].name)
    && DistinctTenants(config.tenants)
    && (forall i :: 0 <= i < |config.tenants| ==> DistinctWorkspaces(config.tenants[i].workspaces))
  }

  predicate DistinctWrittenWorkspaces(workspaces: seq<WorkspaceRaw>) {
    forall i, j :: 0 <= i < j < |workspaces| ==> Trim(workspaces[i].name) != Trim(workspaces[j].name)
  }

  /** The names as written, of plugins, of tenants and of each tenant's workspaces, differ after trimming. */
  predicate DistinctWritten(raw: ConfigRaw) {
    && (forall i, j :: 0 <= i < j < |raw.plugins| ==> Trim(raw.plugins[i].name) != Trim(raw.plugins[j].name))
    && (forall i, j :: 0 <= i < j < |raw.tenants| ==> Trim(raw.tenants[i].name) != Trim(raw.tenants[j].name))
    && (forall i :: 0 <= i < |raw.tenants| ==> DistinctWrittenWorkspaces(raw.tenants[i].workspaces))
  }

  /** The names of an accepted tree are distinct exactly when the names as written differ after trimming. */
  lemma NamesDistinctIff(serde: Serde, raw: ConfigRaw)
    requires FromRaw(serde, raw).Ok?
    ensures DistinctNames(FromRaw(serde, raw).value) <==> DistinctWritten(raw)
  {
    hide FromRaw, LowersTenant, CheckPlugin, Trim, Resolves;
    AcceptedResolves(serde, raw);
    var config := FromRaw(serde, raw).value;
    forall i | 0 <= i < |raw.tenants|
      ensures config.tenants[i].name == Trim(raw.tenants[i].name)
      ensures DistinctWorkspaces(config.tenants[i].workspaces) <==> DistinctWrittenWorkspaces(raw.tenants[i].workspaces)
    {
      WorkspacesDistinctIff(serde, raw.tenants[i], config.tenants[i]);
    }
  }

  lemma WorkspacesDistinctIff(serde: Serde, raw: TenantRaw, out: TenantEntry)
    requires LowersTenant(serde, raw, out)
    ensures out.name == Trim(raw.name) && (DistinctWorkspaces(out.workspaces) <==> DistinctWrittenWorkspaces(raw.workspaces))
  {
    hide LowersBinding, Trim;
  }

  lemma TenantStep(serde: Serde, known: set<string>, raws: seq<TenantRaw>, last: TenantRaw, out: seq<TenantEntry>, entry: TenantEntry)
    requires LowerTenants(serde, known, raws) == Ok(out)
    requires LowerTenant(serde, known, TenantNames(raws), last) == Ok(entry)
    ensures LowerTenants(serde, known, raws + [last]) == Ok(out + [entry])
  {
    hide LowerTenant;
    assert (raws + [last])[..|raws|] == raws;
  }

  lemma TrimsToA()
    ensures Trim("a") == "a" && Trim(" a") == "a"
  {
    assert " a"[1..] == "a";
    assert TrimStart("a") == "a";
    assert TrimEnd("a") == "a";
  }

  /** One binding of the plugin in one workspace. */
  function OneBinding(p: Plugin, config: Option<Yaml>): seq<WorkspaceRaw> {
    [WorkspaceRaw("w", [BindingRaw(p.name, config)])]
  }

  function OneEntry(p: Plugin, config: Option<Json>): seq<WorkspaceEntry> {
    [WorkspaceEntry("w", [BindingEntry(p.name, config)])]
  }

  lemma OneBindingLowers(serde: Serde, tenant: string, p: Plugin, raw: Option<Yaml>, config: Option<Json>)
    requires Trim(p.name) == p.name != "" && CheckConfig(serde, Context(tenant, "w", p.name), raw) == Ok(config)
    ensures LowerWorkspaces(serde, tenant, {p.name}, OneBinding(p, raw)) == Ok(OneEntry(p, config))
  {
    hide CheckConfig, Context, Trim;
    var binding, entry := BindingRaw(p.name, raw), BindingEntry(p.name, config);
    assert BindingNames([]) == {} && [binding][..0] == [];
    assert LowerBinding(serde, tenant, "w", {p.name}, {}, binding) == Ok(entry);
    assert LowerBindings(serde, tenant, "w", {p.name}, []) == Ok([]);
    assert LowerBindings(serde, tenant, "w", {p.name}, [binding]) == Ok([] + [entry]);
    assert [] + [entry] == [entry];
    TrimsToW();
    assert WorkspaceNames([]) == {} && OneBinding(p, raw)[..0] == [];
    assert LowerWorkspaces(serde, tenant, {p.name}, []) == Ok([]);
    assert OneBinding(p, raw)[0] == WorkspaceRaw("w", [binding]) && |"w"| == 1;
    assert LowerWorkspace(serde, tenant, {p.name}, {}, OneBinding(p, raw)[0]) == Ok(OneEntry(p, config)[0]);
    assert [] + [OneEntry(p, config)[0]] == OneEntry(p, config);
  }

  lemma TrimsToW()
    ensures Trim("w") == "w"
  {
    assert TrimStart("w") == "w";
    assert TrimEnd("w") == "w";
  }

  /** Two spellings of one tenant, each with one binding of one plugin. */
  function Twins(rawPlugin: RawPlugin, p: Plugin, first: Option<Yaml>, second: Option<Yaml>): ConfigRaw {
    ConfigRaw([TenantRaw("a", OneBinding(p, first)), TenantRaw(" a", OneBinding(p, second))], [rawPlugin])
  }

  function LoweredTwins(p: Plugin, first: Option<Json>, second: Option<Json>): Config {
    Config([TenantEntry("a", OneEntry(p, first)), TenantEntry("a", OneEntry(p, second))], [p])
  }

  /** Two spellings of one name get past the duplicate check and come out the same. */
  lemma SpacedDuplicateIsAccepted(serde: Serde)
    ensures var raw := ConfigRaw([TenantRaw("a", []), TenantRaw(" a", [])], []);
            FromRaw(serde, raw) == Ok(Config([TenantEntry("a", []), TenantEntry("a", [])], []))
  {
    hide Trim;
    assert PluginNames([]) == {};
    TwoSpellings(serde, {}, [], [], [], []);
  }

  lemma TwinsAreAccepted(serde: Serde, rawPlugin: RawPlugin, p: Plugin, raw1: Option<Yaml>, raw2: Option<Yaml>, c1: Option<Json>, c2: Option<Json>)
    requires CheckPlugin(serde, rawPlugin) == Ok(p)
    requires CheckConfig(serde, Context("a", "w", p.name), raw1) == Ok(c1) && CheckConfig(serde, Context("a", "w", p.name), raw2) == Ok(c2)
    ensures FromRaw(serde, Twins(rawPlugin, p, raw1, raw2)) == Ok(LoweredTwins(p, c1, c2))
  {
    hide CheckPlugin, CheckConfig, Context, Trim, ValidPlugin, LowerPlugins, LowerTenants, LowerWorkspaces, OneBinding, OneEntry, PluginNames;
    ValidatedIsValid(serde, rawPlugin);
    PluginNameTrimmed(serde, p);
    PluginNameThere(serde, p);
    OneBindingLowers(serde, "a", p, raw1, c1);
    OneBindingLowers(serde, "a", p, raw2, c2);
    OnePluginLowers(serde, rawPlugin, p);
    TwoSpellings(serde, {p.name}, OneBinding(p, raw1), OneBinding(p, raw2), OneEntry(p, c1), OneEntry(p, c2));
  }

  lemma OnePluginLowers(serde: Serde, raw: RawPlugin, p: Plugin)
    requires CheckPlugin(serde, raw) == Ok(p)
    ensures LowerPlugins(serde, [raw]) == Ok([p]) && PluginNames([p]) == {p.name}
  {
    hide CheckPlugin;
    assert [raw][..0] == [] && [] + [p] == [p];
    assert LowerPlugins(serde, []) == Ok([]);
    assert [p][0].name in PluginNames([p]);
  }

  lemma PluginNameThere(serde: Serde, p: Plugin)
    requires ValidPlugin(serde, p)
    ensures p.name != ""
  {
    hide ValidPath, ValidAuth, ValidEnv, ValidResources, ValidEgress;
  }

  /** Two spellings of one tenant name get past the duplicate check and come out the same. */
  lemma TwoSpellings(serde: Serde, known: set<string>, raw1: seq<WorkspaceRaw>, raw2: seq<WorkspaceRaw>,
                     out1: seq<WorkspaceEntry>, out2: seq<WorkspaceEntry>)
    requires LowerWorkspaces(serde, "a", known, raw1) == Ok(out1) && LowerWorkspaces(serde, "a", known, raw2) == Ok(out2)
    ensures LowerTenants(serde, known, [TenantRaw("a", raw1), TenantRaw(" a", raw2)])
            == Ok([TenantEntry("a", out1), TenantEntry("a", out2)])
  {
    hide LowerWorkspaces, Trim;
    var plain, spaced := TenantRaw("a", raw1), TenantRaw(" a", raw2);
    TrimsToA();
    assert TenantNames([]) == {};
    TenantStep(serde, known, [], plain, [], TenantEntry("a", out1));
    assert [] + [plain] == [plain] && [] + [TenantEntry("a", out1)] == [TenantEntry("a", out1)];
    assert TenantNames([plain]) == {"a"};
    assert spaced.name[0] != "a"[0];
    TenantStep(serde, known, [plain], spaced, [TenantEntry("a", out1)], TenantEntry("a", out2));
    assert [plain] + [spaced] == [plain, spaced];
    assert [TenantEntry("a", out1)] + [TenantEntry("a", out2)] == [TenantEntry("a", out1), TenantEntry("a", out2)];
  }

  // --- The walk as it runs ---

  lemma {:induction false} PluginsFail(serde: Serde, raws: seq<RawPlugin>, i: nat)
    requires i <= |raws| && LowerPlugins(serde, raws[..i]).Err?
    ensures LowerPlugins(serde, raws) == LowerPlugins(serde, raws[..i])
  {
    hide CheckPlugin;
    if i == |raws| {
      assert raws[..i] == raws;
    } else {
      assert raws[..|raws| - 1][..i] == raws[..i];
      PluginsFail(serde, raws[..|raws| - 1], i);
    }
  }

  lemma {:induction false} BindingsFail(serde: Serde, tenant: string, workspace: string, known: set<string>, raws: seq<BindingRaw>, i: nat)
    requires i <= |raws| && LowerBindings(serde, tenant, workspace, known, raws[..i]).Err?
    ensures LowerBindings(serde, tenant, workspace, known, raws) == LowerBindings(serde, tenant, workspace, known, raws[..i])
  {
    hide LowerBinding;
    if i == |raws| {
      assert raws[..i] == raws;
    } else {
      assert raws[..|raws| - 1][..i] == raws[..i];
      BindingsFail(serde, tenant, workspace, known, raws[..|raws| - 1], i);
    }
  }

  lemma {:induction false} WorkspacesFail(serde: Serde, tenant: string, known: set<string>, raws: seq<WorkspaceRaw>, i: nat)
    requires i <= |raws| && LowerWorkspaces(serde, tenant, known, raws[..i]).Err?
    ensures LowerWorkspaces(serde, tenant, known, raws) == LowerWorkspaces(serde, tenant, known, raws[..i])
  {
    hide LowerWorkspace;
    if i == |raws| {
      assert raws[..i] == raws;
    } else {
      assert raws[..|raws| - 1][..i] == raws[..i];
      WorkspacesFail(serde, tenant, known, raws[..|raws| - 1], i);
    }
  }

  lemma {:induction false} TenantsFail(serde: Serde, known: set<string>, raws: seq<TenantRaw>, i: nat)
    requires i <= |raws| && LowerTenants(serde, known, raws[..i]).Err?
    ensures LowerTenants(serde, known, raws) == LowerTenants(serde, known, raws[..i])
  {
    hide LowerTenant;
    if i == |raws| {
      assert raws[..i] == raws;
    } else {
      assert raws[..|raws| - 1][..i] == raws[..i];
      TenantsFail(serde, known, raws[..|raws| - 1], i);
    }
  }

  lemma PluginStep(serde: Serde, raws: seq<RawPlugin>, i: nat, plugins: seq<Plugin>)
    requires i < |raws| && LowerPlugins(serde, raws[..i]) == Ok(plugins)
    ensures LowerPlugins(serde, raws[..i + 1])
            == match CheckPlugin(serde, raws[i])
               case Err(error) => Err(error)
               case Ok(p) =>
                 if raws[i].name in (set j | 0 <= j < i :: raws[j].name) then Err(DuplicatePlugin(raws[i].name)) else Ok(plugins + [p])
  {
    hide CheckPlugin;
    var upto := raws[..i + 1];
    assert upto[..i] == raws[..i];
    assert forall j :: 0 <= j < i ==> upto[j] == raws[j];
    assert (exists j :: 0 <= j < i && upto[j].name == upto[i].name) <==> raws[i].name in (set j | 0 <= j < i :: raws[j].name);
  }

  /** In each list the first entry at fault, given the names before it, decides the answer. */
  lemma FirstAtFault(serde: Serde, tenant: string, workspace: string, known: set<string>,
                     ts: seq<TenantRaw>, ws: seq<WorkspaceRaw>, bs: seq<BindingRaw>, i: nat)
    ensures i < |ts| && LowerTenants(serde, known, ts[..i]).Ok? && LowerTenant(serde, known, TenantNames(ts[..i]), ts[i]).Err? ==>
              LowerTenants(serde, known, ts) == Err(LowerTenant(serde, known, TenantNames(ts[..i]), ts[i]).error)
    ensures i < |ws| && LowerWorkspaces(serde, tenant, known, ws[..i]).Ok?
            && LowerWorkspace(serde, tenant, known, WorkspaceNames(ws[..i]), ws[i]).Err? ==>
              LowerWorkspaces(serde, tenant, known, ws) == Err(LowerWorkspace(serde, tenant, known, WorkspaceNames(ws[..i]), ws[i]).error)
    ensures i < |bs| && LowerBindings(serde, tenant, workspace, known, bs[..i]).Ok?
            && LowerBinding(serde, tenant, workspace, known, BindingNames(bs[..i]), bs[i]).Err? ==>
              LowerBindings(serde, tenant, workspace, known, bs)
              == Err(LowerBinding(serde, tenant, workspace, known, BindingNames(bs[..i]), bs[i]).error)
  {
    hide *;
    if i < |ts| && LowerTenants(serde, known, ts[..i]).Ok? && LowerTenant(serde, known, TenantNames(ts[..i]), ts[i]).Err? {
      FirstTenantAtFault(serde, known, ts, i);
    }
    if i < |ws| && LowerWorkspaces(serde, tenant, known, ws[..i]).Ok?
       && LowerWorkspace(serde, tenant, known, WorkspaceNames(ws[..i]), ws[i]).Err? {
      FirstWorkspaceAtFault(serde, tenant, known, ws, i);
    }
    if i < |bs| && LowerBindings(serde, tenant, workspace, known, bs[..i]).Ok?
       && LowerBinding(serde, tenant, workspace, known, BindingNames(bs[..i]), bs[i]).Err? {
      FirstBindingAtFault(serde, tenant, workspace, known, bs, i);
    }
  }

  lemma FirstTenantAtFault(serde: Serde, known: set<string>, ts: seq<TenantRaw>, i: nat)
    requires i < |ts| && LowerTenants(serde, known, ts[..i]).Ok? && LowerTenant(serde, known, TenantNames(ts[..i]), ts[i]).Err?
    ensures LowerTenants(serde, known, ts) == Err(LowerTenant(serde, known, TenantNames(ts[..i]), ts[i]).error)
  {
    hide LowerTenant, TenantNames;
    assert ts[..i + 1][..i] == ts[..i];
    TenantsFail(serde, known, ts, i + 1);
  }

  lemma FirstWorkspaceAtFault(serde: Serde, tenant: string, known: set<string>, ws: seq<WorkspaceRaw>, i: nat)
    requires i < |ws| && LowerWorkspaces(serde, tenant, known, ws[..i]).Ok?
    requires LowerWorkspace(serde, tenant, known, WorkspaceNames(ws[..i]), ws[i]).Err?
    ensures LowerWorkspaces(serde, tenant, known, ws) == Err(LowerWorkspace(serde, tenant, known, WorkspaceNames(ws[..i]), ws[i]).error)
  {
    hide LowerWorkspace, WorkspaceNames;
    assert ws[..i + 1][..i] == ws[..i];
    WorkspacesFail(serde, tenant, known, ws, i + 1);
  }

  lemma FirstBindingAtFault(serde: Serde, tenant: string, workspace: string, known: set<string>, bs: seq<BindingRaw>, i: nat)
    requires i < |bs| && LowerBindings(serde, tenant, workspace, known, bs[..i]).Ok?
    requires LowerBinding(serde, tenant, workspace, known, BindingNames(bs[..i]), bs[i]).Err?
    ensures LowerBindings(serde, tenant, workspace, known, bs)
         == Err(LowerBinding(serde, tenant, workspace, known, BindingNames(bs[..i]), bs[i]).error)
  {
    hide LowerBinding, BindingNames;
    assert bs[..i + 1][..i] == bs[..i];
    BindingsFail(serde, tenant, workspace, known, bs, i + 1);
  }

  method WalkPlugins(serde: Serde, raws: seq<RawPlugin>) returns (r: Result<seq<Plugin>, ValidationError>)
    ensures r == LowerPlugins(serde, raws)
  {
    hide CheckPlugin, LowerPlugins;
    var plugins: seq<Plugin> := [];
    var seen: set<string> := {};
    NoPlugins(serde, raws);
    for i := 0 to |raws|
      invariant LowerPlugins(serde, raws[..i]) == Ok(plugins)
      invariant seen == set j | 0 <= j < i :: raws[j].name
    {
      PluginStep(serde, raws, i, plugins);
      if LowerPlugins(serde, raws[..i + 1]).Err? {
        PluginsFail(serde, raws, i + 1);
      }
      var validated := ValidateOne(serde, raws[i]);
      if validated.Err? {
        return Err(validated.error);
      }
      if raws[i].name in seen {
        return Err(DuplicatePlugin(raws[i].name));
      }
      seen := seen + {raws[i].name};
      plugins := plugins + [validated.value];
    }
    assert raws[..|raws|] == raws;
    return Ok(plugins);
  }

  lemma NoPlugins(serde: Serde, raws: seq<RawPlugin>)
    ensures LowerPlugins(serde, raws[..0]) == Ok([])
  {
  }

  method WalkBindings(serde: Serde, tenant: string, workspace: string, known: set<string>, raws: seq<BindingRaw>)
    returns (r: Result<seq<BindingEntry>, ValidationError>)
    ensures r == LowerBindings(serde, tenant, workspace, known, raws)
  {
    hide CheckConfig, Context, Trim;
    var bindings: seq<BindingEntry> := [];
    var seen: set<string> := {};
    for i := 0 to |raws|
      invariant LowerBindings(serde, tenant, workspace, known, raws[..i]) == Ok(bindings)
      invariant seen == BindingNames(raws[..i])
    {
      assert raws[..i + 1][..i] == raws[..i];
      if LowerBinding(serde, tenant, workspace, known, BindingNames(raws[..i]), raws[i]).Err? {
        BindingsFail(serde, tenant, workspace, known, raws, i + 1);
      }
      var binding := raws[i];
      var name := Trim(binding.name);
      if name == "" {
        return Err(EmptyName("tenants[].workspaces[].plugins[].name"));
      }
      if binding.name in seen {
        return Err(DuplicateBinding(tenant, workspace, name));
      }
      BindingNamesGrow(raws, i);
      seen := seen + {binding.name};
      if binding.name !in known {
        return Err(UnknownPluginRef(tenant, workspace, name));
      }
      var config := CheckConfig(serde, Context(tenant, workspace, name), binding.config);
      if config.Err? {
        return Err(config.error);
      }
      bindings := bindings + [BindingEntry(name, config.value)];
    }
    assert raws[..|raws|] == raws;
    return Ok(bindings);
  }

  lemma BindingNamesGrow(raws: seq<BindingRaw>, i: nat)
    requires i < |raws|
    ensures BindingNames(raws[..i + 1]) == BindingNames(raws[..i]) + {raws[i].name}
  {
    assert forall j :: 0 <= j < i ==> raws[..i + 1][j] == raws[..i][j];
    assert raws[..i + 1][i] == raws[i];
  }

  method WalkWorkspaces(serde: Serde, tenant: string, known: set<string>, raws: seq<WorkspaceRaw>)
    returns (r: Result<seq<WorkspaceEntry>, ValidationError>)
    ensures r == LowerWorkspaces(serde, tenant, known, raws)
  {
    hide Trim, LowerBindings;
    var workspaces: seq<WorkspaceEntry> := [];
    var seen: set<string> := {};
    for i := 0 to |raws|
      invariant LowerWorkspaces(serde, tenant, known, raws[..i]) == Ok(workspaces)
      invariant seen == WorkspaceNames(raws[..i])
    {
      assert raws[..i + 1][..i] == raws[..i];
      if LowerWorkspace(serde, tenant, known, WorkspaceNames(raws[..i]), raws[i]).Err? {
        WorkspacesFail(serde, tenant, known, raws, i + 1);
      }
      var name := Trim(raws[i].name);
      if name == "" {
        return Err(EmptyName("tenants[].workspaces[].name"));
      }
      if raws[i].name in seen {
        return Err(DuplicateWorkspace(tenant, name));
      }
      WorkspaceNamesGrow(raws, i);
      seen := seen + {raws[i].name};
      var bindings := WalkBindings(serde, tenant, name, known, raws[i].plugins);
      if bindings.Err? {
        return Err(bindings.error);
      }
      workspaces := workspaces + [WorkspaceEntry(name, bindings.value)];
    }
    assert raws[..|raws|] == raws;
    return Ok(workspaces);
  }

  lemma WorkspaceNamesGrow(raws: seq<WorkspaceRaw>, i: nat)
    requires i < |raws|
    ensures WorkspaceNames(raws[..i + 1]) == WorkspaceNames(raws[..i]) + {raws[i].name}
  {
    assert forall j :: 0 <= j < i ==> raws[..i + 1][j] == raws[..i][j];
    assert raws[..i + 1][i] == raws[i];
  }

  /** The nested walk over the tree, checking names as it goes and stopping at the first fault. */
  method Lower(serde: Serde, raw: ConfigRaw) returns (r: Result<Config, ValidationError>)
    ensures r == FromRaw(serde, raw)
  {
    hide Trim, LowerWorkspaces, LowerPlugins;
    var plugins := WalkPlugins(serde, raw.plugins);
    if plugins.Err? {
      return Err(plugins.error);
    }
    var known := PluginNames(plugins.value);
    var raws := raw.tenants;
    var tenants: seq<TenantEntry> := [];
    var seen: set<string> := {};
    for i := 0 to |raws|
      invariant LowerTenants(serde, known, raws[..i]) == Ok(tenants)
      invariant seen == TenantNames(raws[..i])
    {
      assert raws[..i + 1][..i] == raws[..i];
      if LowerTenant(serde, known, TenantNames(raws[..i]), raws[i]).Err? {
        TenantsFail(serde, known, raws, i + 1);
      }
      var name := Trim(raws[i].name);
      if name == "" {
        return Err(EmptyName("tenants[].name"));
      }
      if raws[i].name in seen {
        return Err(DuplicateTenant(name));
      }
      TenantNamesGrow(raws, i);
      seen := seen + {raws[i].name};
      var workspaces := WalkWorkspaces(serde, name, known, raws[i].workspaces);
      if workspaces.Err? {
        return Err(workspaces.error);
      }
      tenants := tenants + [TenantEntry(name, workspaces.value)];
    }
    assert raws[..|raws|] == raws;
    return Ok(Config(tenants, plugins.value));
  }

  lemma TenantNamesGrow(raws: seq<TenantRaw>, i: nat)
    requires i < |raws|
    ensures TenantNames(raws[..i + 1]) == TenantNames(raws[..i]) + {raws[i].name}
  {
    assert forall j :: 0 <= j < i ==> raws[..i + 1][j] == raws[..i][j];
    assert raws[..i + 1][i] == raws[i];
  }
}
