/** Applying a validated bootstrap tree to the tables. */
module BootstrapApply {
  import opened Wrappers
  import opened Text
  import opened PluginSpec
  import opened BootstrapConfig
  import opened BootstrapTables

  // --- The upserts an apply makes, in order ---

  function PluginOps(plugins: seq<Plugin>): seq<Op> {
    seq(|plugins|, i requires 0 <= i < |plugins| => PutPlugin(plugins[i]))
  }

  function BindingOps(tenant: string, workspace: string, bindings: seq<BindingEntry>): seq<Op> {
    seq(|bindings|, i requires 0 <= i < |bindings| => PutBinding(tenant, workspace, bindings[i].name, bindings[i].config))
  }

  function WorkspaceOps(tenant: string, workspaces: seq<WorkspaceEntry>): seq<Op> {
    if workspaces == [] then []
    else
      var last := workspaces[|workspaces| - 1];
      WorkspaceOps(tenant, workspaces[..|workspaces| - 1])
      + ([PutWorkspace(tenant, last.name)] + BindingOps(tenant, last.name, last.plugins))
  }

  function TenantOps(tenants: seq<TenantEntry>): seq<Op> {
    if tenants == [] then []
    else
      var last := tenants[|tenants| - 1];
      TenantOps(tenants[..|tenants| - 1]) + ([PutTenant(last.name)] + WorkspaceOps(last.name, last.workspaces))
  }

  function Ops(config: Config): seq<Op> {
    PluginOps(config.plugins) + TenantOps(config.tenants)
  }

  // --- Order: what an upsert refers to has been put before ---

  function Elements(ops: seq<Op>): set<Op> {
    set i | 0 <= i < |ops| :: ops[i]
  }

  lemma SuppliedMore(op: Op, earlier: set<Op>, more: set<Op>)
    requires Supplied(op, earlier) && earlier <= more
    ensures Supplied(op, more)
  {
  }

  lemma OrderedConcat(earlier: set<Op>, a: seq<Op>, b: seq<Op>)
    requires Ordered(earlier, a) && Ordered(earlier + Elements(a), b)
    ensures Ordered(earlier, a + b)
  {
    hide Supplied;
    var ops := a + b;
    forall i | 0 <= i < |ops|
      ensures Supplied(ops[i], earlier + set j | 0 <= j < i :: ops[j])
    {
      if i < |a| {
        assert Supplied(a[i], earlier + set j | 0 <= j < i :: a[j]);
        assert (set j | 0 <= j < i :: a[j]) <= (set j | 0 <= j < i :: ops[j]) by {
          forall j | 0 <= j < i ensures a[j] == ops[j] {}
        }
        SuppliedMore(a[i], earlier + set j | 0 <= j < i :: a[j], earlier + set j | 0 <= j < i :: ops[j]);
      } else {
        var k := i - |a|;
        var before := earlier + Elements(a) + set j | 0 <= j < k :: b[j];
        assert Supplied(b[k], before);
        forall q | q in before
          ensures q in earlier + set j | 0 <= j < i :: ops[j]
        {
          if q in Elements(a) {
            var j :| 0 <= j < |a| && a[j] == q;
            assert ops[j] == q;
          } else if q !in earlier {
            var j :| 0 <= j < k && b[j] == q;
            assert ops[|a| + j] == q;
          }
        }
        SuppliedMore(b[k], before, earlier + set j | 0 <= j < i :: ops[j]);
      }
    }
  }

  /** Every name in `known` has a plugin upsert among the earlier operations. */
  ghost predicate Covers(earlier: set<Op>, known: set<string>) {
    forall name :: name in known ==> exists q :: q in earlier && NamesPlugin(q, name)
  }

  lemma CoversMore(earlier: set<Op>, more: set<Op>, known: set<string>)
    requires Covers(earlier, known) && earlier <= more
    ensures Covers(more, known)
  {
    forall name | name in known
      ensures exists q :: q in more && NamesPlugin(q, name)
    {
      var q :| q in earlier && NamesPlugin(q, name);
      assert q in more;
    }
  }

  lemma BindingsOrdered(earlier: set<Op>, known: set<string>, tenant: string, workspace: string, bindings: seq<BindingEntry>)
    requires Covers(earlier, known) && BindingsResolve(known, bindings)
    requires PutTenant(tenant) in earlier && PutWorkspace(tenant, workspace) in earlier
    ensures Ordered(earlier, BindingOps(tenant, workspace, bindings))
  {
    var ops := BindingOps(tenant, workspace, bindings);
    forall i | 0 <= i < |ops|
      ensures Supplied(ops[i], earlier + set j | 0 <= j < i :: ops[j])
    {
      var q :| q in earlier && NamesPlugin(q, bindings[i].name);
    }
  }

  lemma {:induction false} WorkspacesOrdered(earlier: set<Op>, known: set<string>, tenant: string, workspaces: seq<WorkspaceEntry>)
    requires Covers(earlier, known) && WorkspacesResolve(known, workspaces) && PutTenant(tenant) in earlier
    ensures Ordered(earlier, WorkspaceOps(tenant, workspaces))
  {
    hide Supplied, Covers, BindingsResolve, BindingOps;
    if workspaces != [] {
      var n := |workspaces| - 1;
      var last := workspaces[n];
      var init := WorkspaceOps(tenant, workspaces[..n]);
      WorkspacesOrdered(earlier, known, tenant, workspaces[..n]);
      var mid := earlier + Elements(init);
      var head := [PutWorkspace(tenant, last.name)];
      OneOrdered(mid, head[0]);
      CoversMore(earlier, mid + Elements(head), known);
      assert head[0] in Elements(head);
      BindingsOrdered(mid + Elements(head), known, tenant, last.name, last.plugins);
      OrderedConcat(mid, head, BindingOps(tenant, last.name, last.plugins));
      OrderedConcat(earlier, init, head + BindingOps(tenant, last.name, last.plugins));
    }
  }

  lemma OneOrdered(earlier: set<Op>, op: Op)
    requires op.PutTenant? || op.PutPlugin? || (op.PutWorkspace? && PutTenant(op.ofTenant) in earlier)
    ensures Ordered(earlier, [op])
  {
  }

  lemma {:induction false} TenantsOrdered(earlier: set<Op>, known: set<string>, tenants: seq<TenantEntry>)
    requires Covers(earlier, known)
    requires forall i :: 0 <= i < |tenants| ==> WorkspacesResolve(known, tenants[i].workspaces)
    ensures Ordered(earlier, TenantOps(tenants))
  {
    hide Supplied, Covers, WorkspacesResolve, WorkspaceOps;
    if tenants != [] {
      var n := |tenants| - 1;
      var last := tenants[n];
      var init := TenantOps(tenants[..n]);
      TenantsOrdered(earlier, known, tenants[..n]);
      var mid := earlier + Elements(init);
      var head := [PutTenant(last.name)];
      OneOrdered(mid, head[0]);
      CoversMore(earlier, mid + Elements(head), known);
      assert head[0] in Elements(head);
      WorkspacesOrdered(mid + Elements(head), known, last.name, last.workspaces);
      OrderedConcat(mid, head, WorkspaceOps(last.name, last.workspaces));
      OrderedConcat(earlier, init, head + WorkspaceOps(last.name, last.workspaces));
    }
  }

  lemma PluginsCover(plugins: seq<Plugin>)
    ensures Covers(Elements(PluginOps(plugins)), PluginNames(plugins)) && Ordered({}, PluginOps(plugins))
  {
    forall name | name in PluginNames(plugins)
      ensures exists q :: q in Elements(PluginOps(plugins)) && NamesPlugin(q, name)
    {
      var i :| 0 <= i < |plugins| && plugins[i].name == name;
      assert PluginOps(plugins)[i] in Elements(PluginOps(plugins));
      assert NamesPlugin(PluginOps(plugins)[i], name);
    }
  }

  /** In an accepted tree every upsert finds what it refers to already put. */
  lemma OpsOrdered(config: Config)
    requires Resolves(config)
    ensures Ordered({}, Ops(config))
  {
    hide Supplied, Covers, PluginOps, TenantOps, WorkspacesResolve;
    PluginsCover(config.plugins);
    assert {} + Elements(PluginOps(config.plugins)) == Elements(PluginOps(config.plugins));
    TenantsOrdered(Elements(PluginOps(config.plugins)), PluginNames(config.plugins), config.tenants);
    OrderedConcat({}, PluginOps(config.plugins), TenantOps(config.tenants));
  }

  // --- Consistency: no two upserts put different things in one place ---

  /** The binding upsert comes from this entry of the tree. */
  ghost predicate ComesFrom(op: Op, tenants: seq<TenantEntry>) {
    op.PutBinding? ==> exists i, j, k :: FromEntry(op, tenants, i, j, k)
  }

  predicate FromEntry(op: Op, tenants: seq<TenantEntry>, i: int, j: int, k: int) {
    && op.PutBinding? && 0 <= i < |tenants| && tenants[i].name == op.inTenant
    && 0 <= j < |tenants[i].workspaces| && tenants[i].workspaces[j].name == op.inWorkspace
    && 0 <= k < |tenants[i].workspaces[j].plugins| && tenants[i].workspaces[j].plugins[k] == BindingEntry(op.name, op.config)
  }

  ghost predicate ComesFromWorkspaces(op: Op, tenant: string, workspaces: seq<WorkspaceEntry>) {
    && !op.PutPlugin?
    && (op.PutBinding? ==> op.inTenant == tenant && exists j, k :: FromWorkspace(op, workspaces, j, k))
  }

  predicate FromWorkspace(op: Op, workspaces: seq<WorkspaceEntry>, j: int, k: int) {
    && op.PutBinding? && 0 <= j < |workspaces| && workspaces[j].name == op.inWorkspace
    && 0 <= k < |workspaces[j].plugins| && workspaces[j].plugins[k] == BindingEntry(op.name, op.config)
  }

  lemma {:induction false} WorkspaceOpsComeFrom(tenant: string, workspaces: seq<WorkspaceEntry>, op: Op)
    requires op in WorkspaceOps(tenant, workspaces)
    ensures ComesFromWorkspaces(op, tenant, workspaces)
  {
    var n := |workspaces| - 1;
    var last := workspaces[n];
    if op in WorkspaceOps(tenant, workspaces[..n]) {
      WorkspaceOpsComeFrom(tenant, workspaces[..n], op);
      if op.PutBinding? {
        var j, k :| FromWorkspace(op, workspaces[..n], j, k);
        assert FromWorkspace(op, workspaces, j, k);
      }
    } else if op in BindingOps(tenant, last.name, last.plugins) {
      var k :| 0 <= k < |last.plugins| && BindingOps(tenant, last.name, last.plugins)[k] == op;
      assert FromWorkspace(op, workspaces, n, k);
    }
  }

  lemma {:induction false} TenantOpsComeFrom(tenants: seq<TenantEntry>, op: Op)
    requires op in TenantOps(tenants)
    ensures !op.PutPlugin? && ComesFrom(op, tenants)
  {
    var n := |tenants| - 1;
    var last := tenants[n];
    if op in TenantOps(tenants[..n]) {
      TenantOpsComeFrom(tenants[..n], op);
      if op.PutBinding? {
        var i, j, k :| FromEntry(op, tenants[..n], i, j, k);
        assert FromEntry(op, tenants, i, j, k);
      }
    } else if op in WorkspaceOps(last.name, last.workspaces) {
      WorkspaceOpsComeFrom(last.name, last.workspaces, op);
      if op.PutBinding? {
        var j, k :| FromWorkspace(op, last.workspaces, j, k);
        assert FromEntry(op, tenants, n, j, k);
      }
    }
  }

  /** In a tree with distinct names, one tenant, workspace and plugin name lead to one entry. */
  lemma SameNamesSameEntry(config: Config, a: Op, b: Op, i: int, j: int, k: int, i2: int, j2: int, k2: int)
    requires Resolves(config) && DistinctNames(config)
    requires FromEntry(a, config.tenants, i, j, k) && FromEntry(b, config.tenants, i2, j2, k2)
    requires a.inTenant == b.inTenant && a.inWorkspace == b.inWorkspace && a.name == b.name
    ensures a == b
  {
    assert i == i2;
    assert DistinctWorkspaces(config.tenants[i].workspaces);
    assert j == j2;
    assert WorkspacesResolve(PluginNames(config.plugins), config.tenants[i].workspaces);
    assert BindingsResolve(PluginNames(config.plugins), config.tenants[i].workspaces[j].plugins);
    assert k == k2;
  }

  lemma BindingsDoNotClash(config: Config, a: Op, b: Op)
    requires Resolves(config) && DistinctNames(config)
    requires a in TenantOps(config.tenants) && b in TenantOps(config.tenants)
    ensures !Clash(a, b)
  {
    hide TenantOps, Resolves, DistinctNames, FromEntry;
    TenantOpsComeFrom(config.tenants, a);
    TenantOpsComeFrom(config.tenants, b);
    if a.PutBinding? && b.PutBinding? && a.inTenant == b.inTenant && a.inWorkspace == b.inWorkspace && a.name == b.name {
      var i, j, k :| FromEntry(a, config.tenants, i, j, k);
      var i2, j2, k2 :| FromEntry(b, config.tenants, i2, j2, k2);
      SameNamesSameEntry(config, a, b, i, j, k, i2, j2, k2);
    }
  }

  lemma OpsConsistent(config: Config)
    requires Resolves(config) && DistinctNames(config)
    ensures Consistent(Ops(config))
  {
    hide TenantOps, Resolves, Clash;
    var ops := Ops(config);
    forall i, j | 0 <= i < |ops| && 0 <= j < |ops|
      ensures !Clash(ops[i], ops[j])
    {
      OpsPairDoesNotClash(config, i, j);
    }
  }

  lemma OpsPairDoesNotClash(config: Config, i: nat, j: nat)
    requires Resolves(config) && DistinctNames(config) && i < |Ops(config)| && j < |Ops(config)|
    ensures !Clash(Ops(config)[i], Ops(config)[j])
  {
    hide TenantOps, Resolves;
    var n := |config.plugins|;
    var a, b := Ops(config)[i], Ops(config)[j];
    if i >= n {
      assert a == TenantOps(config.tenants)[i - n];
      TenantOpsComeFrom(config.tenants, a);
    }
    if j >= n {
      assert b == TenantOps(config.tenants)[j - n];
      TenantOpsComeFrom(config.tenants, b);
    }
    if i >= n && j >= n {
      BindingsDoNotClash(config, a, b);
    }
  }

  // --- Reading an applied tree back ---

  /** The tree has this binding of this tenant and workspace. */
  predicate HasBinding(config: Config, i: nat, j: nat, k: nat) {
    i < |config.tenants| && j < |config.tenants[i].workspaces| && k < |config.tenants[i].workspaces[j].plugins|
  }

  lemma {:induction false} WorkspaceOpsHave(tenant: string, workspaces: seq<WorkspaceEntry>, j: nat, k: nat)
    requires j < |workspaces| && k < |workspaces[j].plugins|
    ensures PutBinding(tenant, workspaces[j].name, workspaces[j].plugins[k].name, workspaces[j].plugins[k].config)
            in WorkspaceOps(tenant, workspaces)
  {
    var n := |workspaces| - 1;
    if j < n {
      WorkspaceOpsHave(tenant, workspaces[..n], j, k);
    } else {
      assert BindingOps(tenant, workspaces[n].name, workspaces[n].plugins)[k] in BindingOps(tenant, workspaces[n].name, workspaces[n].plugins);
    }
  }

  lemma {:induction false} TenantOpsHave(tenants: seq<TenantEntry>, i: nat, j: nat, k: nat)
    requires i < |tenants| && j < |tenants[i].workspaces| && k < |tenants[i].workspaces[j].plugins|
    ensures var b := tenants[i].workspaces[j].plugins[k];
            PutBinding(tenants[i].name, tenants[i].workspaces[j].name, b.name, b.config) in TenantOps(tenants)
  {
    hide WorkspaceOps;
    var n := |tenants| - 1;
    if i < n {
      TenantOpsHave(tenants[..n], i, j, k);
    } else {
      WorkspaceOpsHave(tenants[n].name, tenants[n].workspaces, j, k);
    }
  }

  lemma PluginOf(config: Config, i: nat, j: nat, k: nat) returns (m: nat)
    requires Resolves(config) && HasBinding(config, i, j, k)
    ensures m < |config.plugins| && config.plugins[m].name == config.tenants[i].workspaces[j].plugins[k].name
  {
    assert WorkspacesResolve(PluginNames(config.plugins), config.tenants[i].workspaces);
    assert BindingsResolve(PluginNames(config.plugins), config.tenants[i].workspaces[j].plugins);
    m :| 0 <= m < |config.plugins| && config.plugins[m].name == config.tenants[i].workspaces[j].plugins[k].name;
  }

  ghost predicate ResolvesTo(db: Db, tenant: string, workspace: string, p: Plugin, config: Option<Json>) {
    exists k :: Join(db, tenant, workspace, p.name) == {k}
      && k in db.bindings && db.bindings[k].config == config && k.1 in db.plugins && db.plugins[k.1].spec == p
  }

  /**
   * After applying an accepted tree with distinct names to any well-formed tables, the resolve join gives, for
   * every binding of the tree, exactly one row: the validated plugin of that name and that binding's config.
   */
  lemma AppliedTreeResolves(db: Db, config: Config, now: Time, i: nat, j: nat, k: nat)
    requires WellFormed(db) && Resolves(config) && DistinctNames(config) && HasBinding(config, i, j, k)
    ensures var after := RunOps(db, Ops(config), now).0;
            var binding := config.tenants[i].workspaces[j].plugins[k];
            WellFormed(after)
            && exists m :: 0 <= m < |config.plugins| && config.plugins[m].name == binding.name
                 && ResolvesTo(after, config.tenants[i].name, config.tenants[i].workspaces[j].name, config.plugins[m], binding.config)
  {
    hide WellFormed, Established, Consistent, Ordered, TenantOps, Resolves, DistinctNames, Join, RunOps;
    var ops := Ops(config);
    OpsOrdered(config);
    OpsConsistent(config);
    RunEstablishes(db, ops, now);
    var after := RunOps(db, ops, now).0;
    var binding := config.tenants[i].workspaces[j].plugins[k];
    var m := PluginOf(config, i, j, k);
    TenantOpsHave(config.tenants, i, j, k);
    var n :| 0 <= n < |TenantOps(config.tenants)| && TenantOps(config.tenants)[n]
      == PutBinding(config.tenants[i].name, config.tenants[i].workspaces[j].name, binding.name, binding.config);
    assert Established(after, ops[|config.plugins| + n]);
    assert Established(after, ops[m]);
    EstablishedJoins(after, config.tenants[i].name, config.tenants[i].workspaces[j].name, config.plugins[m], binding.config);
  }

  /**
   * Applying an accepted tree leaves each row that was there as it was, or changed and stamped with the apply's time;
   * creation times, names and facets are kept, and new rows carry that time twice.
   */
  lemma ApplyStampsRows(db: Db, config: Config, now: Time)
    requires WellFormed(db) && Resolves(config)
    ensures RowsStamped(db, RunOps(db, Ops(config), now).0, now)
  {
    hide WellFormed, Resolves, Ops, Ordered, RunOps, RowsStamped;
    OpsOrdered(config);
    RunStampsRows(db, Ops(config), now);
  }

  /** Rows the tree does not name are unchanged, and no row is deleted or renamed. */
  lemma AppliedTreeLeavesTheRest(db: Db, config: Config, now: Time)
    requires WellFormed(db) && Resolves(config)
    ensures var after := RunOps(db, Ops(config), now).0;
            && Keeps(db, after)
            && (forall id :: id in db.plugins && LeavesPlugin(Ops(config), db.plugins[id].spec.name) ==> after.plugins[id] == db.plugins[id])
            && (forall k ::
                  (k in db.bindings && k.0 in db.workspaces && k.1 in db.plugins && db.workspaces[k.0].tenantId in db.tenants
                   && LeavesBinding(db, Ops(config), k)) ==>
                    after.bindings[k] == db.bindings[k])
  {
    hide WellFormed, Ops, Resolves, Ordered, LeavesPlugin, LeavesBinding, RunOps;
    var ops := Ops(config);
    OpsOrdered(config);
    RunPlaces(db, ops, now);
    var after := RunOps(db, ops, now).0;
    forall id | id in db.plugins && LeavesPlugin(ops, db.plugins[id].spec.name)
      ensures after.plugins[id] == db.plugins[id]
    {
      RunLeavesPlugin(db, ops, now, id);
    }
    forall k | k in db.bindings && k.0 in db.workspaces && k.1 in db.plugins && db.workspaces[k.0].tenantId in db.tenants
               && LeavesBinding(db, ops, k)
      ensures after.bindings[k] == db.bindings[k]
    {
      RunLeavesBinding(db, ops, now, k);
    }
  }

  // --- Applying twice ---

  function WorkspaceTotal(tenants: seq<TenantEntry>): nat {
    if tenants == [] then 0 else WorkspaceTotal(tenants[..|tenants| - 1]) + |tenants[|tenants| - 1].workspaces|
  }

  lemma {:induction false} CountsConcat(a: seq<Op>, b: seq<Op>)
    ensures CountTenants(a + b) == CountTenants(a) + CountTenants(b)
    ensures CountWorkspaces(a + b) == CountWorkspaces(a) + CountWorkspaces(b)
  {
    if b == [] {
      assert a + b == a;
    } else {
      assert (a + b)[..|a + b| - 1] == a + b[..|b| - 1];
      CountsConcat(a, b[..|b| - 1]);
    }
  }

  lemma {:induction false} CountsNone(ops: seq<Op>)
    requires forall i :: 0 <= i < |ops| ==> !ops[i].PutTenant? && !ops[i].PutWorkspace?
    ensures CountTenants(ops) == 0 && CountWorkspaces(ops) == 0
  {
    if ops != [] {
      CountsNone(ops[..|ops| - 1]);
    }
  }

  lemma CountsOne(op: Op)
    ensures CountTenants([op]) == (if op.PutTenant? then 1 else 0) && CountWorkspaces([op]) == if op.PutWorkspace? then 1 else 0
  {
    assert [op][..0] == [];
  }

  lemma {:induction false} WorkspaceCounts(tenant: string, workspaces: seq<WorkspaceEntry>)
    ensures CountTenants(WorkspaceOps(tenant, workspaces)) == 0
    ensures CountWorkspaces(WorkspaceOps(tenant, workspaces)) == |workspaces|
  {
    hide CountTenants, CountWorkspaces;
    if workspaces == [] {
      CountsNone(WorkspaceOps(tenant, workspaces));
    } else {
      var n := |workspaces| - 1;
      var last := workspaces[n];
      var head, tail := [PutWorkspace(tenant, last.name)], BindingOps(tenant, last.name, last.plugins);
      WorkspaceCounts(tenant, workspaces[..n]);
      CountsOne(head[0]);
      CountsNone(tail);
      CountsConcat(head, tail);
      CountsConcat(WorkspaceOps(tenant, workspaces[..n]), head + tail);
    }
  }

  lemma {:induction false} TenantCounts(tenants: seq<TenantEntry>)
    ensures CountTenants(TenantOps(tenants)) == |tenants| && CountWorkspaces(TenantOps(tenants)) == WorkspaceTotal(tenants)
  {
    hide CountTenants, CountWorkspaces;
    if tenants == [] {
      CountsNone(TenantOps(tenants));
    } else {
      var n := |tenants| - 1;
      var last := tenants[n];
      var head, tail := [PutTenant(last.name)], WorkspaceOps(last.name, last.workspaces);
      TenantCounts(tenants[..n]);
      CountsOne(head[0]);
      WorkspaceCounts(last.name, last.workspaces);
      CountsConcat(head, tail);
      CountsConcat(TenantOps(tenants[..n]), head + tail);
    }
  }

  /**
   * Applying an accepted tree with distinct names again, at any later time, leaves the tables as they are,
   * timestamps and spent ids included, and reports nothing but its tenants and workspaces as updated.
   */
  lemma ApplyingTwiceIsApplyingOnce(db: Db, config: Config, now: Time, later: Time)
    requires WellFormed(db) && Resolves(config) && DistinctNames(config)
    ensures var once := RunOps(db, Ops(config), now).0;
            RunOps(once, Ops(config), later)
            == (once, NO_STATS.(tenantsUpdated := |config.tenants|, workspacesUpdated := WorkspaceTotal(config.tenants)))
  {
    hide WellFormed, Established, Consistent, Ordered, Resolves, DistinctNames, RunOps, TenantOps, PluginOps;
    var ops := Ops(config);
    OpsOrdered(config);
    OpsConsistent(config);
    RunEstablishes(db, ops, now);
    RunAgainChangesNothing(RunOps(db, ops, now).0, ops, later);
    PluginCounts(config.plugins);
    TenantCounts(config.tenants);
    CountsConcat(PluginOps(config.plugins), TenantOps(config.tenants));
  }

  /**
   * The stats of applying any accepted tree add up: the tables have grown by the rows reported inserted, and every
   * tenant and workspace of the tree is reported once.
   */
  lemma ApplyStatsBalance(db: Db, config: Config, now: Time)
    requires WellFormed(db) && Resolves(config)
    ensures var (after, s) := RunOps(db, Ops(config), now);
            && Grown(db, after, s)
            && s.tenantsInserted + s.tenantsUpdated == |config.tenants|
            && s.workspacesInserted + s.workspacesUpdated == WorkspaceTotal(config.tenants)
  {
    hide WellFormed, Ordered, Resolves, RunOps, TenantOps, PluginOps, Grown, CountTenants, CountWorkspaces;
    OpsOrdered(config);
    StatsBalance(db, Ops(config), now);
    PluginCounts(config.plugins);
    TenantCounts(config.tenants);
    CountsConcat(PluginOps(config.plugins), TenantOps(config.tenants));
  }

  lemma PluginCounts(plugins: seq<Plugin>)
    ensures CountTenants(PluginOps(plugins)) == 0 && CountWorkspaces(PluginOps(plugins)) == 0
  {
    CountsNone(PluginOps(plugins));
  }

  /**
   * The same for any accepted tree, distinct names or not: applying it again is quiet, inserting and changing no
   * row, exactly when no two of its plugins of one name, and no two of its bindings of one place, differ.
   */
  lemma QuietAgainIff(db: Db, config: Config, now: Time, later: Time)
    requires WellFormed(db) && Resolves(config)
    ensures Quiet(RunOps(RunOps(db, Ops(config), now).0, Ops(config), later).1) <==> Consistent(Ops(config))
  {
    hide WellFormed, Established, Consistent, Ordered, Resolves, RunOps, Ops, AllPlaced, AllEstablished;
    var ops := Ops(config);
    OpsOrdered(config);
    RunPlaces(db, ops, now);
    EstablishedIff(db, ops, now);
    var once := RunOps(db, ops, now).0;
    if Quiet(RunOps(once, ops, later).1) {
      QuietRunIsEstablished(once, ops, later);
    }
    if AllEstablished(once, ops) {
      RunAgainChangesNothing(once, ops, later);
    }
  }

  // --- From the tree as written ---

  predicate WrittenBinding(raw: ConfigRaw, i: nat, j: nat, k: nat) {
    i < |raw.tenants| && j < |raw.tenants[i].workspaces| && k < |raw.tenants[i].workspaces[j].plugins|
  }

  function WrittenAt(raw: ConfigRaw, i: nat, j: nat, k: nat): BindingRaw
    requires WrittenBinding(raw, i, j, k)
  {
    raw.tenants[i].workspaces[j].plugins[k]
  }

  /** The stored form of a config; what is refused has none. */
  function ConfigAsWritten(serde: Serde, raw: Option<Yaml>): Option<Json> {
    match CheckConfig(serde, "", raw)
    case Ok(config) => config
    case Err(_) => None
  }

  /** The join gives one row for the binding: a plugin of the list, validated, and the binding's own config. */
  ghost predicate ResolvesAsWritten(serde: Serde, raw: ConfigRaw, db: Db, i: nat, j: nat, k: nat)
    requires WrittenBinding(raw, i, j, k)
  {
    exists m: nat :: m < |raw.plugins| && ResolvesWith(serde, raw, db, i, j, k, m)
  }

  ghost predicate ResolvesWith(serde: Serde, raw: ConfigRaw, db: Db, i: nat, j: nat, k: nat, m: nat)
    requires WrittenBinding(raw, i, j, k) && m < |raw.plugins|
  {
    var tenant := raw.tenants[i];
    var workspace := tenant.workspaces[j];
    var binding := workspace.plugins[k];
    var p := CheckPlugin(serde, raw.plugins[m]);
    && p.Ok? && p.value.name == binding.name
    && ResolvesTo(db, Trim(tenant.name), Trim(workspace.name), p.value, ConfigAsWritten(serde, binding.config))
  }

  lemma ConfigIsAsWritten(serde: Serde, context: string, raw: Option<Yaml>)
    requires CheckConfig(serde, context, raw).Ok?
    ensures ConfigAsWritten(serde, raw) == CheckConfig(serde, context, raw).value
  {
  }

  lemma BindingAsWritten(serde: Serde, raw: ConfigRaw, config: Config, i: nat, j: nat, k: nat)
    requires LowersTree(serde, raw, config)
    ensures WrittenBinding(raw, i, j, k) <==> HasBinding(config, i, j, k)
    ensures WrittenBinding(raw, i, j, k) ==>
              && config.tenants[i].name == Trim(raw.tenants[i].name)
              && config.tenants[i].workspaces[j].name == Trim(raw.tenants[i].workspaces[j].name)
              && var binding := raw.tenants[i].workspaces[j].plugins[k];
              && config.tenants[i].workspaces[j].plugins[k] == BindingEntry(binding.name, ConfigAsWritten(serde, binding.config))
  {
    hide CheckConfig, CheckPlugin, Trim, ConfigAsWritten, Context;
    if i < |raw.tenants| {
      assert LowersTenant(serde, raw.tenants[i], config.tenants[i]);
      if j < |raw.tenants[i].workspaces| {
        var tenant, workspace := config.tenants[i], config.tenants[i].workspaces[j];
        assert LowersWorkspace(serde, tenant.name, raw.tenants[i].workspaces[j], workspace);
        if k < |workspace.plugins| {
          var binding := raw.tenants[i].workspaces[j].plugins[k];
          assert LowersBinding(serde, tenant.name, workspace.name, binding, workspace.plugins[k]);
          ConfigIsAsWritten(serde, Context(tenant.name, workspace.name, binding.name), binding.config);
        }
      }
    }
  }

  /**
   * Validation, application and the resolve join together: whatever tree is accepted whose names as written differ
   * after trimming, the join gives each binding as written its own config and the plugin it names.
   */
  lemma WrittenTreeResolves(serde: Serde, raw: ConfigRaw, db: Db, now: Time, i: nat, j: nat, k: nat)
    requires WellFormed(db) && FromRaw(serde, raw).Ok?
    requires DistinctWritten(raw) && WrittenBinding(raw, i, j, k)
    ensures ResolvesAsWritten(serde, raw, RunOps(db, Ops(FromRaw(serde, raw).value), now).0, i, j, k)
  {
    hide FromRaw, WellFormed, Resolves, DistinctNames, DistinctWritten, CheckPlugin, RunOps, Ops, ResolvesTo, Trim, ConfigAsWritten,
         LowersTenant;
    var config := FromRaw(serde, raw).value;
    AcceptedResolves(serde, raw);
    NamesDistinctIff(serde, raw);
    BindingAsWritten(serde, raw, config, i, j, k);
    AppliedTreeResolves(db, config, now, i, j, k);
    var after := RunOps(db, Ops(config), now).0;
    var binding := config.tenants[i].workspaces[j].plugins[k];
    var m :| 0 <= m < |config.plugins| && config.plugins[m].name == binding.name
      && ResolvesTo(after, config.tenants[i].name, config.tenants[i].workspaces[j].name, config.plugins[m], binding.config);
    assert ResolvesWith(serde, raw, after, i, j, k, m);
  }

  // --- Exactly which trees resolve ---

  predicate SamePlaceWritten(raw: ConfigRaw, i: nat, j: nat, k: nat, i2: nat, j2: nat, k2: nat)
    requires WrittenBinding(raw, i, j, k) && WrittenBinding(raw, i2, j2, k2)
  {
    && Trim(raw.tenants[i].name) == Trim(raw.tenants[i2].name)
    && Trim(raw.tenants[i].workspaces[j].name) == Trim(raw.tenants[i2].workspaces[j2].name)
    && WrittenAt(raw, i, j, k).name == WrittenAt(raw, i2, j2, k2).name
  }

  /** No two bindings written for one place, under whatever spellings of its names, have different configs. */
  ghost predicate OneConfigEach(serde: Serde, raw: ConfigRaw) {
    forall i: nat, j: nat, k: nat, i2: nat, j2: nat, k2: nat ::
      (WrittenBinding(raw, i, j, k) && WrittenBinding(raw, i2, j2, k2) && SamePlaceWritten(raw, i, j, k, i2, j2, k2)) ==>
        ConfigAsWritten(serde, WrittenAt(raw, i, j, k).config)
        == ConfigAsWritten(serde, WrittenAt(raw, i2, j2, k2).config)
  }

  /**
   * Every binding of an accepted tree resolves as it is written, whatever the tables were before, if and only if no
   * two bindings for one place have different configs.
   */
  lemma WrittenTreeResolvesIff(serde: Serde, raw: ConfigRaw, db: Db, now: Time)
    requires WellFormed(db) && FromRaw(serde, raw).Ok?
    ensures var after := RunOps(db, Ops(FromRaw(serde, raw).value), now).0;
            (forall i: nat, j: nat, k: nat :: WrittenBinding(raw, i, j, k) ==> ResolvesAsWritten(serde, raw, after, i, j, k))
            <==> OneConfigEach(serde, raw)
  {
    hide FromRaw, WellFormed, RunOps, Ops, ResolvesAsWritten, SamePlaceWritten, ConfigAsWritten;
    var after := RunOps(db, Ops(FromRaw(serde, raw).value), now).0;
    if OneConfigEach(serde, raw) {
      forall i: nat, j: nat, k: nat | WrittenBinding(raw, i, j, k)
        ensures ResolvesAsWritten(serde, raw, after, i, j, k)
      {
        OneConfigResolves(serde, raw, db, now, i, j, k);
      }
    }
    forall i: nat, j: nat, k: nat, i2: nat, j2: nat, k2: nat |
        WrittenBinding(raw, i, j, k) && WrittenBinding(raw, i2, j2, k2) && SamePlaceWritten(raw, i, j, k, i2, j2, k2)
        && ResolvesAsWritten(serde, raw, after, i, j, k) && ResolvesAsWritten(serde, raw, after, i2, j2, k2)
      ensures ConfigAsWritten(serde, WrittenAt(raw, i, j, k).config)
              == ConfigAsWritten(serde, WrittenAt(raw, i2, j2, k2).config)
    {
      BothResolve(serde, raw, after, i, j, k, i2, j2, k2);
    }
  }

  lemma BothResolve(serde: Serde, raw: ConfigRaw, db: Db, i: nat, j: nat, k: nat, i2: nat, j2: nat, k2: nat)
    requires WrittenBinding(raw, i, j, k) && WrittenBinding(raw, i2, j2, k2) && SamePlaceWritten(raw, i, j, k, i2, j2, k2)
    requires ResolvesAsWritten(serde, raw, db, i, j, k) && ResolvesAsWritten(serde, raw, db, i2, j2, k2)
    ensures ConfigAsWritten(serde, WrittenAt(raw, i, j, k).config)
            == ConfigAsWritten(serde, WrittenAt(raw, i2, j2, k2).config)
  {
    hide CheckPlugin, Trim, ConfigAsWritten, ResolvesTo;
    var m: nat :| m < |raw.plugins| && ResolvesWith(serde, raw, db, i, j, k, m);
    var m2: nat :| m2 < |raw.plugins| && ResolvesWith(serde, raw, db, i2, j2, k2, m2);
    OneConfigResolved(db, Trim(raw.tenants[i].name), Trim(raw.tenants[i].workspaces[j].name),
                      CheckPlugin(serde, raw.plugins[m]).value, ConfigAsWritten(serde, WrittenAt(raw, i, j, k).config),
                      CheckPlugin(serde, raw.plugins[m2]).value, ConfigAsWritten(serde, WrittenAt(raw, i2, j2, k2).config));
  }

  /** A place resolves to one config only. */
  lemma OneConfigResolved(db: Db, tenant: string, workspace: string, p: Plugin, config: Option<Json>, q: Plugin, other: Option<Json>)
    requires p.name == q.name && ResolvesTo(db, tenant, workspace, p, config) && ResolvesTo(db, tenant, workspace, q, other)
    ensures config == other
  {
    hide Join;
    var k :| Join(db, tenant, workspace, p.name) == {k} && k in db.bindings && db.bindings[k].config == config;
    var j :| Join(db, tenant, workspace, q.name) == {j} && j in db.bindings && db.bindings[j].config == other;
    assert k in {j};
  }

  /** The last plugin of a name in the list. */
  lemma LastNamed(plugins: seq<Plugin>, name: string) returns (m: nat)
    requires name in PluginNames(plugins)
    ensures m < |plugins| && plugins[m].name == name && forall n :: m < n < |plugins| ==> plugins[n].name != name
  {
    m :| m < |plugins| && plugins[m].name == name;
    var i := m;
    while i < |plugins|
      invariant m <= i <= |plugins| && m < |plugins| && plugins[m].name == name
      invariant forall n :: m < n < i ==> plugins[n].name != name
    {
      if plugins[i].name == name {
        m := i;
      }
      i := i + 1;
    }
  }

  /** In an accepted tree, the last plugin of a name is in force in the end. */
  lemma LastPluginWins(db: Db, config: Config, now: Time, m: nat)
    requires WellFormed(db) && Resolves(config)
    requires m < |config.plugins| && forall n :: m < n < |config.plugins| ==> config.plugins[n].name != config.plugins[m].name
    ensures Established(RunOps(db, Ops(config), now).0, PutPlugin(config.plugins[m]))
  {
    hide WellFormed, Resolves, Established, RunOps, TenantOps, Ordered;
    var ops, count := Ops(config), |config.plugins|;
    OpsOrdered(config);
    assert ops[m] == PutPlugin(config.plugins[m]);
    forall j | m < j < |ops|
      ensures !Clash(ops[m], ops[j])
    {
      if j >= count {
        assert ops[j] == TenantOps(config.tenants)[j - count];
        TenantOpsComeFrom(config.tenants, ops[j]);
      }
    }
    LaterWins(db, ops, now, m);
  }

  /** So is a binding whose place no other binding gives another config. */
  lemma LoneBindingWins(db: Db, config: Config, now: Time, i: nat, j: nat, k: nat)
    requires WellFormed(db) && Resolves(config) && HasBinding(config, i, j, k)
    requires forall i2: nat, j2: nat, k2: nat :: HasBinding(config, i2, j2, k2) && SamePlace(config, i, j, k, i2, j2, k2) ==>
               config.tenants[i2].workspaces[j2].plugins[k2].config == config.tenants[i].workspaces[j].plugins[k].config
    ensures var b := config.tenants[i].workspaces[j].plugins[k];
            Established(RunOps(db, Ops(config), now).0,
                        PutBinding(config.tenants[i].name, config.tenants[i].workspaces[j].name, b.name, b.config))
  {
    hide WellFormed, Resolves, Established, RunOps, TenantOps, Ordered, Clash;
    var ops, count := Ops(config), |config.plugins|;
    OpsOrdered(config);
    var b := config.tenants[i].workspaces[j].plugins[k];
    var a := PutBinding(config.tenants[i].name, config.tenants[i].workspaces[j].name, b.name, b.config);
    TenantOpsHave(config.tenants, i, j, k);
    var n: nat :| n < |TenantOps(config.tenants)| && TenantOps(config.tenants)[n] == a;
    assert ops[count + n] == a;
    forall q | count + n < q < |ops|
      ensures !Clash(a, ops[q])
    {
      assert ops[q] == TenantOps(config.tenants)[q - count];
      TenantOpsComeFrom(config.tenants, ops[q]);
      NoClashWith(config, i, j, k, ops[q]);
    }
    LaterWins(db, ops, now, count + n);
  }

  predicate SamePlace(config: Config, i: nat, j: nat, k: nat, i2: nat, j2: nat, k2: nat)
    requires HasBinding(config, i, j, k) && HasBinding(config, i2, j2, k2)
  {
    && config.tenants[i].name == config.tenants[i2].name
    && config.tenants[i].workspaces[j].name == config.tenants[i2].workspaces[j2].name
    && config.tenants[i].workspaces[j].plugins[k].name == config.tenants[i2].workspaces[j2].plugins[k2].name
  }

  lemma NoClashWith(config: Config, i: nat, j: nat, k: nat, op: Op)
    requires HasBinding(config, i, j, k) && ComesFrom(op, config.tenants) && !op.PutPlugin?
    requires forall i2: nat, j2: nat, k2: nat :: HasBinding(config, i2, j2, k2) && SamePlace(config, i, j, k, i2, j2, k2) ==>
               config.tenants[i2].workspaces[j2].plugins[k2].config == config.tenants[i].workspaces[j].plugins[k].config
    ensures var b := config.tenants[i].workspaces[j].plugins[k];
            !Clash(PutBinding(config.tenants[i].name, config.tenants[i].workspaces[j].name, b.name, b.config), op)
  {
    var b := config.tenants[i].workspaces[j].plugins[k];
    if op.PutBinding? && op.inTenant == config.tenants[i].name && op.inWorkspace == config.tenants[i].workspaces[j].name && op.name == b.name {
      var i2, j2, k2 :| FromEntry(op, config.tenants, i2, j2, k2);
      assert HasBinding(config, i2, j2, k2) && SamePlace(config, i, j, k, i2, j2, k2);
    }
  }

  lemma OneConfigResolves(serde: Serde, raw: ConfigRaw, db: Db, now: Time, i: nat, j: nat, k: nat)
    requires WellFormed(db) && FromRaw(serde, raw).Ok? && OneConfigEach(serde, raw) && WrittenBinding(raw, i, j, k)
    ensures ResolvesAsWritten(serde, raw, RunOps(db, Ops(FromRaw(serde, raw).value), now).0, i, j, k)
  {
    hide FromRaw, WellFormed, Resolves, CheckPlugin, RunOps, Ops, Trim, ConfigAsWritten, LowersTenant, Established, PluginNames, Join;
    var config := FromRaw(serde, raw).value;
    var after := RunOps(db, Ops(config), now).0;
    AcceptedResolves(serde, raw);
    OpsOrdered(config);
    RunPlaces(db, Ops(config), now);
    BindingAsWritten(serde, raw, config, i, j, k);
    forall i2: nat, j2: nat, k2: nat | HasBinding(config, i2, j2, k2) && SamePlace(config, i, j, k, i2, j2, k2)
      ensures config.tenants[i2].workspaces[j2].plugins[k2].config == config.tenants[i].workspaces[j].plugins[k].config
    {
      BindingAsWritten(serde, raw, config, i2, j2, k2);
      assert SamePlaceWritten(raw, i, j, k, i2, j2, k2);
    }
    LoneBindingWins(db, config, now, i, j, k);
    NamedIsKnown(config, i, j, k);
    var b := config.tenants[i].workspaces[j].plugins[k];
    var m := LastNamed(config.plugins, b.name);
    LastPluginWins(db, config, now, m);
    EstablishedJoins(after, config.tenants[i].name, config.tenants[i].workspaces[j].name, config.plugins[m], b.config);
    assert ResolvesWith(serde, raw, after, i, j, k, m);
  }

  lemma NamedIsKnown(config: Config, i: nat, j: nat, k: nat)
    requires Resolves(config) && HasBinding(config, i, j, k)
    ensures config.tenants[i].workspaces[j].plugins[k].name in PluginNames(config.plugins)
  {
    hide PluginNames;
    assert WorkspacesResolve(PluginNames(config.plugins), config.tenants[i].workspaces);
    assert BindingsResolve(PluginNames(config.plugins), config.tenants[i].workspaces[j].plugins);
  }

  // --- A lost binding ---

  /** The last upsert of the two spellings' tree is the second spelling's binding. */
  lemma TwinsEnd(p: Plugin, c1: Option<Json>, c2: Option<Json>)
    ensures var ops := Ops(LoweredTwins(p, c1, c2)); ops != [] && ops[|ops| - 1] == PutBinding("a", "w", p.name, c2)
  {
    var config := LoweredTwins(p, c1, c2);
    var entries := OneEntry(p, c2);
    assert entries[|entries| - 1] == WorkspaceEntry("w", [BindingEntry(p.name, c2)]);
    var bindings := BindingOps("a", "w", entries[0].plugins);
    assert |bindings| == 1 && bindings[0] == PutBinding("a", "w", p.name, c2);
    var tail := WorkspaceOps("a", entries);
    assert tail[|tail| - 1] == bindings[0];
    var ops := TenantOps(config.tenants);
    assert config.tenants[|config.tenants| - 1] == TenantEntry("a", entries);
    assert ops[|ops| - 1] == tail[|tail| - 1];
  }

  /**
   * A tree with two spellings of one tenant is accepted, and the binding of the first resolves to the config of
   * the second.
   */
  lemma TwinsLoseABinding(serde: Serde, rawPlugin: RawPlugin, p: Plugin, raw1: Option<Yaml>, raw2: Option<Yaml>,
                          c1: Option<Json>, c2: Option<Json>, db: Db, now: Time)
    requires WellFormed(db) && CheckPlugin(serde, rawPlugin) == Ok(p) && c1 != c2
    requires CheckConfig(serde, Context("a", "w", p.name), raw1) == Ok(c1) && CheckConfig(serde, Context("a", "w", p.name), raw2) == Ok(c2)
    ensures var raw := Twins(rawPlugin, p, raw1, raw2);
            && FromRaw(serde, raw) == Ok(LoweredTwins(p, c1, c2))
            && var after := RunOps(db, Ops(LoweredTwins(p, c1, c2)), now).0;
            && ResolvesTo(after, "a", "w", p, c2) && !ResolvesTo(after, "a", "w", p, c1)
  {
    hide FromRaw, WellFormed, Resolves, CheckPlugin, CheckConfig, Context, Established, RunOps, Ops, Ordered, Join, LowersTree, Clash,
         ResolvesTo;
    var raw, config := Twins(rawPlugin, p, raw1, raw2), LoweredTwins(p, c1, c2);
    TwinsAreAccepted(serde, rawPlugin, p, raw1, raw2, c1, c2);
    AcceptedResolves(serde, raw);
    OpsOrdered(config);
    TwinsEnd(p, c1, c2);
    var ops := Ops(config);
    RunPlaces(db, ops, now);
    LaterWins(db, ops, now, |ops| - 1);
    LastPluginWins(db, config, now, 0);
    var after := RunOps(db, ops, now).0;
    EstablishedResolves(after, "a", "w", p, c2);
    if ResolvesTo(after, "a", "w", p, c1) {
      OneConfigResolved(after, "a", "w", p, c1, p, c2);
    }
  }

  lemma EstablishedResolves(db: Db, tenant: string, workspace: string, p: Plugin, config: Option<Json>)
    requires WellFormed(db)
    requires Established(db, PutPlugin(p)) && Established(db, PutBinding(tenant, workspace, p.name, config))
    ensures ResolvesTo(db, tenant, workspace, p, config)
  {
    hide WellFormed, Established, Join;
    EstablishedJoins(db, tenant, workspace, p, config);
  }

  const SOME_CONFIG := JObject(map["k" := JNull])

  /**
   * Such a tree, in full: the binding written first has no config, the one written second the mapping of `k` to
   * null, under any conversion that takes that mapping to the object with the same field.
   */
  lemma SpacedTenantLosesBinding(serde: Serde, db: Db, now: Time)
    requires WellFormed(db)
    requires serde.toJson(Mapping([(YString("k"), YNull)])) == Some(SOME_CONFIG) && serde.size(SOME_CONFIG) <= MAX_VALUE_BYTES
    ensures var rawPlugin := RawPlugin("p", Some("i"), None, None, None, None, None, Some(YString("none")), None);
            var p := Plugin("p", "i", 8000, "/", "none", [], None, Mode(false));
            var binding := BindingRaw("p", None);
            var other := BindingRaw("p", Some(Mapping([(YString("k"), YNull)])));
            var raw := ConfigRaw([TenantRaw("a", [WorkspaceRaw("w", [binding])]), TenantRaw(" a", [WorkspaceRaw("w", [other])])], [rawPlugin]);
            && FromRaw(serde, raw).Ok?
            && var after := RunOps(db, Ops(FromRaw(serde, raw).value), now).0;
            && ResolvesTo(after, "a", "w", p, Some(SOME_CONFIG)) && !ResolvesTo(after, "a", "w", p, None)
  {
    hide FromRaw, RunOps, Ops, ResolvesTo, CheckPlugin, Context, LoweredTwins, WellFormed;
    var rawPlugin := RawPlugin("p", Some("i"), None, None, None, None, None, Some(YString("none")), None);
    var p := Plugin("p", "i", 8000, "/", "none", [], None, Mode(false));
    ShortNames();
    AbsentFieldsDefault(serde, "p", "i");
    assert "k" in map["k" := JNull];
    TwinsLoseABinding(serde, rawPlugin, p, None, Some(Mapping([(YString("k"), YNull)])), None, Some(SOME_CONFIG), db, now);
  }

  lemma ShortNames()
    ensures ValidName("p") && Trimmed("i")
  {
  }
}
