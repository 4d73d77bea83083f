/**
 * Live sessions over runs of api writes. A session is known by the names its binding had when it started; a gated
 * write asks the control plane by the names of its own moment.
 */
module LiveSessions {
  import opened Wrappers
  import opened Text
  import opened PluginSpec
  import opened BootstrapTables
  import opened ApiTables
  import opened ApiTheorems
  import opened LiveGate

  /** `startedFor` notes for good which binding a session was started for; session ids are not drawn twice. */
  datatype World = World(db: Db, sessions: Sessions, startedFor: map<string, (Id, Id)>)

  /** `lost` are sessions that end although a call of the write's fails. */
  datatype Event =
    | Act(write: Write, now: Time, lost: set<string>)
    | Start(id: string, key: (Id, Id))
    | End(id: string)

  /** The bindings whose sessions a write ends first. */
  function Affected(db: Db, write: Write): set<(Id, Id)> {
    match write
    case DropWorkspace(_, id, _, _) => BindingsOf(db, id)
    case PutBindingConfig(_, key, _, _, _) => if key in db.bindings then {key} else {}
    case DropBinding(_, key, _, _) => if key in db.bindings then {key} else {}
    case _ => {}
  }

  /** The names it asks the control plane about. */
  ghost function AskedAbout(db: Db, write: Write): set<Triple> {
    set k | k in Affected(db, write) && ParentsThere(db, k) :: TripleOf(db, k)
  }

  function SessionsAfter(sessions: Sessions, triples: set<Triple>, disabled: bool, reply: Reply, lost: set<string>): Sessions {
    if disabled then sessions
    else if reply == Done then sessions - Matching(sessions, triples)
    else if reply == Unavailable then sessions - Matching(sessions, triples) * lost
    else sessions
  }

  /** These are the ways in which the handlers' gate may treat the sessions, and no others. */
  lemma GateKeptIff(disabled: bool, before: Sessions, after: Sessions, triples: set<Triple>, reply: Reply)
    ensures GateKept(disabled, before, after, triples, reply)
       <==> exists lost :: after == SessionsAfter(before, triples, disabled, reply, lost)
  {
    if GateKept(disabled, before, after, triples, reply) {
      assert after == SessionsAfter(before, triples, disabled, reply, before.Keys - after.Keys);
    }
  }

  ghost function Next(serde: Serde, disabled: bool, w: World, e: Event): World {
    match e
    case Act(write, now, lost) =>
      var (db, reply) := Perform(serde, w.db, write, now);
      w.(db := db, sessions := SessionsAfter(w.sessions, AskedAbout(w.db, write), disabled, reply, lost))
    case Start(id, key) =>
      if id in w.startedFor || key !in w.db.bindings || !ParentsThere(w.db, key) then w
      else w.(sessions := w.sessions[id := TripleOf(w.db, key)], startedFor := w.startedFor[id := key])
    case End(id) => w.(sessions := w.sessions - {id})
  }

  ghost function Exec(serde: Serde, disabled: bool, w: World, run: seq<Event>): World {
    if run == [] then w else Next(serde, disabled, Exec(serde, disabled, w, run[..|run| - 1]), run[|run| - 1])
  }

  predicate NothingLive(w: World) {
    w.sessions == map[] && w.startedFor == map[]
  }

  // --- From a live session back to its start ---

  /** Event `n` starts this session for the binding. */
  ghost predicate StartedAt(serde: Serde, disabled: bool, w: World, run: seq<Event>, n: nat, id: string, key: (Id, Id)) {
    && n < |run| && run[n] == Start(id, key)
    && var moment := Exec(serde, disabled, w, run[..n]);
    && id !in moment.startedFor && key in moment.db.bindings && ParentsThere(moment.db, key)
  }

  /** The names the binding had when the session was started. */
  ghost function StartNames(serde: Serde, disabled: bool, w: World, run: seq<Event>, n: nat, id: string, key: (Id, Id)): Triple
    requires StartedAt(serde, disabled, w, run, n, id, key)
  {
    TripleOf(Exec(serde, disabled, w, run[..n]).db, key)
  }

  /** An event starts a session, or leaves what is known of it alone. */
  lemma SessionFrom(serde: Serde, disabled: bool, w: World, e: Event, id: string)
    ensures var after := Next(serde, disabled, w, e);
            && (id in w.startedFor ==> id in after.startedFor && after.startedFor[id] == w.startedFor[id])
            && (id in w.startedFor && id in after.sessions ==> id in w.sessions && after.sessions[id] == w.sessions[id])
            && (id !in w.startedFor && id in after.startedFor ==>
                  && e.Start? && e.id == id && e.key in w.db.bindings && ParentsThere(w.db, e.key)
                  && after.startedFor[id] == e.key && id in after.sessions && after.sessions[id] == TripleOf(w.db, e.key))
            && (id !in w.startedFor && id !in w.sessions && id !in after.startedFor ==> id !in after.sessions)
  {
    hide Perform, AskedAbout, ParentsThere, TripleOf;
  }

  lemma {:induction false} StartTraced(serde: Serde, disabled: bool, w: World, run: seq<Event>, id: string) returns (n: nat)
    requires NothingLive(w)
    ensures var t := Exec(serde, disabled, w, run);
            && (id in t.sessions ==> id in t.startedFor)
            && (id in t.startedFor ==> StartedAt(serde, disabled, w, run, n, id, t.startedFor[id]))
            && (id in t.sessions ==> t.sessions[id] == StartNames(serde, disabled, w, run, n, id, t.startedFor[id]))
  {
    hide Next, TripleOf, ParentsThere;
    n := 0;
    if run != [] {
      var m := |run| - 1;
      n := StartTraced(serde, disabled, w, run[..m], id);
      SessionFrom(serde, disabled, Exec(serde, disabled, w, run[..m]), run[m], id);
      if id in Exec(serde, disabled, w, run[..m]).startedFor {
        assert run[..m][..n] == run[..n];
      } else {
        n := m;
      }
    }
  }

  lemma {:induction false} StartLasts(serde: Serde, disabled: bool, w: World, run: seq<Event>, n: nat, id: string, key: (Id, Id))
    requires StartedAt(serde, disabled, w, run, n, id, key)
    ensures var t := Exec(serde, disabled, w, run);
            && id in t.startedFor && t.startedFor[id] == key
            && (id in t.sessions ==> t.sessions[id] == StartNames(serde, disabled, w, run, n, id, key))
  {
    hide Next, TripleOf, ParentsThere;
    var m := |run| - 1;
    if n == m {
      StartTakes(serde, disabled, Exec(serde, disabled, w, run[..m]), id, key);
    } else {
      assert run[..m][..n] == run[..n];
      StartLasts(serde, disabled, w, run[..m], n, id, key);
      SessionFrom(serde, disabled, Exec(serde, disabled, w, run[..m]), run[m], id);
    }
  }

  lemma StartTakes(serde: Serde, disabled: bool, w: World, id: string, key: (Id, Id))
    requires id !in w.startedFor && key in w.db.bindings && ParentsThere(w.db, key)
    ensures var t := Next(serde, disabled, w, Start(id, key));
            id in t.startedFor && t.startedFor[id] == key && id in t.sessions && t.sessions[id] == TripleOf(w.db, key)
  {
    hide Perform, AskedAbout, ParentsThere, TripleOf;
  }

  // --- Which sessions a gated write ends ---

  lemma DoneEnds(serde: Serde, w: World, write: Write, now: Time, lost: set<string>)
    requires Perform(serde, w.db, write, now).1 == Done
    ensures var after := Next(serde, false, w, Act(write, now, lost));
            && after.sessions == w.sessions - Matching(w.sessions, AskedAbout(w.db, write))
            && after.startedFor == w.startedFor && after.db == Perform(serde, w.db, write, now).0
  {
    hide Perform, AskedAbout;
  }

  /**
   * After any run, a write that goes through with the gate enabled ends a live session if and only if the names it
   * asks about are those the session was started under, whichever binding that was for.
   */
  lemma SessionEndsIff(serde: Serde, w: World, run: seq<Event>, write: Write, now: Time, n: nat, id: string, key: (Id, Id))
    requires NothingLive(w) && StartedAt(serde, false, w, run, n, id, key) && id in Exec(serde, false, w, run).sessions
    requires Perform(serde, Exec(serde, false, w, run).db, write, now).1 == Done
    ensures id !in Next(serde, false, Exec(serde, false, w, run), Act(write, now, {})).sessions
       <==> StartNames(serde, false, w, run, n, id, key) in AskedAbout(Exec(serde, false, w, run).db, write)
  {
    hide Exec, Next, Perform, StartedAt, AskedAbout, StartNames;
    StartLasts(serde, false, w, run, n, id, key);
    DoneEnds(serde, Exec(serde, false, w, run), write, now, {});
  }

  ghost predicate NoneLeft(w: World, key: (Id, Id)) {
    forall id :: id in w.sessions && id in w.startedFor ==> w.startedFor[id] != key
  }

  /**
   * After any run, a gated write that goes through with the gate enabled leaves no session started for a binding it
   * affects if and only if all those still live were started under names it asks about. For a write to one binding
   * these are the binding's present names.
   */
  lemma GatedWriteIsFinalIff(serde: Serde, w: World, run: seq<Event>, write: Write, now: Time, key: (Id, Id))
    requires NothingLive(w) && key in Affected(Exec(serde, false, w, run).db, write)
    requires Perform(serde, Exec(serde, false, w, run).db, write, now).1 == Done
    ensures NoneLeft(Next(serde, false, Exec(serde, false, w, run), Act(write, now, {})), key)
       <==> forall n: nat, id: string :: StartedAt(serde, false, w, run, n, id, key) && id in Exec(serde, false, w, run).sessions ==>
              StartNames(serde, false, w, run, n, id, key) in AskedAbout(Exec(serde, false, w, run).db, write)
    ensures var db := Exec(serde, false, w, run).db;
            write.DropBinding? || write.PutBindingConfig? ==> ParentsThere(db, key) && AskedAbout(db, write) == {TripleOf(db, key)}
  {
    hide Exec, Next, Perform, StartedAt, AskedAbout, StartNames, Affected;
    var t := Exec(serde, false, w, run);
    var after := Next(serde, false, t, Act(write, now, {}));
    DoneEnds(serde, t, write, now, {});
    forall id | id in t.sessions
      ensures id in t.startedFor
      ensures t.startedFor[id] == key ==> exists n: nat :: StartedAt(serde, false, w, run, n, id, key)
    {
      var n := StartTraced(serde, false, w, run, id);
    }
    forall n: nat, id: string | StartedAt(serde, false, w, run, n, id, key) && id in t.sessions
      ensures t.startedFor[id] == key
      ensures id !in after.sessions <==> StartNames(serde, false, w, run, n, id, key) in AskedAbout(t.db, write)
    {
      StartLasts(serde, false, w, run, n, id, key);
      SessionEndsIff(serde, w, run, write, now, n, id, key);
    }
    OneAsked(serde, t.db, write, now, key);
  }

  lemma OneAsked(serde: Serde, db: Db, write: Write, now: Time, key: (Id, Id))
    requires key in Affected(db, write) && Perform(serde, db, write, now).1 == Done
    ensures write.DropBinding? || write.PutBindingConfig? ==> ParentsThere(db, key) && AskedAbout(db, write) == {TripleOf(db, key)}
  {
    hide TripleOf, ParentsThere, BindingsOf;
  }

  // --- Runs without renames ---

  /** No row that is still there has another name or place. */
  predicate NamesKept(before: Db, after: Db) {
    && (forall t :: t in before.tenants && t in after.tenants ==> after.tenants[t].name == before.tenants[t].name)
    && (forall p :: p in before.plugins && p in after.plugins ==> after.plugins[p].spec.name == before.plugins[p].spec.name)
    && (forall v :: v in before.workspaces && v in after.workspaces ==>
          after.workspaces[v].tenantId == before.workspaces[v].tenantId && after.workspaces[v].name == before.workspaces[v].name)
  }

  ghost predicate NoRenames(serde: Serde, w: World, run: seq<Event>) {
    forall n :: 0 <= n < |run| ==> NamesKept(Exec(serde, false, w, run[..n]).db, Exec(serde, false, w, run[..n + 1]).db)
  }

  /** Every live session runs under its binding's present names. */
  ghost predicate InStep(w: World) {
    forall id :: id in w.sessions ==>
      && id in w.startedFor && w.startedFor[id] in w.db.bindings && ParentsThere(w.db, w.startedFor[id])
      && w.sessions[id] == TripleOf(w.db, w.startedFor[id])
  }

  /** Bindings go only with a write that asks about them first. */
  lemma GoneIsAffected(serde: Serde, db: Db, write: Write, now: Time, k: (Id, Id))
    requires k in db.bindings && k !in Perform(serde, db, write, now).0.bindings
    ensures Perform(serde, db, write, now).1 == Done && k in Affected(db, write)
  {
    hide Trim, CheckPlugin, TenantNameTaken, WorkspaceNameTaken, PluginNameTaken, BindingConfig, ParentsThere;
  }

  lemma SameTriple(before: Db, after: Db, k: (Id, Id))
    requires NamesKept(before, after) && ParentsThere(before, k) && ParentsThere(after, k)
    ensures TripleOf(after, k) == TripleOf(before, k)
  {
  }

  lemma AskedOne(db: Db, write: Write, k: (Id, Id))
    requires k in Affected(db, write) && ParentsThere(db, k)
    ensures TripleOf(db, k) in AskedAbout(db, write)
  {
    hide TripleOf, ParentsThere, Affected;
  }

  lemma ActStaysInStep(serde: Serde, w: World, write: Write, now: Time, lost: set<string>)
    requires InStep(w) && Sound(w.db) && NamesKept(w.db, Next(serde, false, w, Act(write, now, lost)).db)
    ensures InStep(Next(serde, false, w, Act(write, now, lost)))
  {
    hide Perform, Sound, AskedAbout, NamesKept, TripleOf, ParentsThere, Affected;
    var after := Next(serde, false, w, Act(write, now, lost));
    WriteKeepsSound(serde, w.db, write, now);
    BindingsHaveParents(after.db);
    forall id | id in after.sessions
      ensures id in after.startedFor && after.startedFor[id] in after.db.bindings && ParentsThere(after.db, after.startedFor[id])
      ensures after.sessions[id] == TripleOf(after.db, after.startedFor[id])
    {
      var k := w.startedFor[id];
      if k !in after.db.bindings {
        GoneIsAffected(serde, w.db, write, now, k);
        AskedOne(w.db, write, k);
      }
      SameTriple(w.db, after.db, k);
    }
  }

  lemma StepStaysInStep(serde: Serde, w: World, e: Event)
    requires InStep(w) && Sound(w.db) && NamesKept(w.db, Next(serde, false, w, e).db)
    ensures InStep(Next(serde, false, w, e)) && Sound(Next(serde, false, w, e).db)
  {
    hide Perform, Sound, AskedAbout, NamesKept, TripleOf, ParentsThere, SessionsAfter;
    if e.Act? {
      ActStaysInStep(serde, w, e.write, e.now, e.lost);
      WriteKeepsSound(serde, w.db, e.write, e.now);
    }
  }

  lemma {:induction false} RunStaysInStep(serde: Serde, w: World, run: seq<Event>)
    requires NothingLive(w) && Sound(w.db) && NoRenames(serde, w, run)
    ensures InStep(Exec(serde, false, w, run)) && Sound(Exec(serde, false, w, run).db)
  {
    hide Next, Sound, NamesKept, InStep;
    if run == [] {
      NothingIsInStep(w);
    } else {
      var n := |run| - 1;
      forall m | 0 <= m < n
        ensures NamesKept(Exec(serde, false, w, run[..n][..m]).db, Exec(serde, false, w, run[..n][..m + 1]).db)
      {
        assert run[..n][..m] == run[..m] && run[..n][..m + 1] == run[..m + 1];
      }
      RunStaysInStep(serde, w, run[..n]);
      assert run[..n + 1] == run;
      StepStaysInStep(serde, Exec(serde, false, w, run[..n]), run[n]);
    }
  }

  lemma NothingIsInStep(w: World)
    requires NothingLive(w)
    ensures InStep(w)
  {
  }

  /** In well-formed tables two bindings have different names. */
  lemma TriplesDiffer(db: Db, j: (Id, Id), k: (Id, Id))
    requires Sound(db) && ParentsThere(db, j) && ParentsThere(db, k) && TripleOf(db, j) == TripleOf(db, k)
    ensures j == k
  {
    hide ParentsExist, IdsBelow, TenantsThere;
    assert SamePlace(db.workspaces[j.0], db.workspaces[k.0]);
  }

  /**
   * In a run without renames, with the gate enabled, a write that goes through ends exactly the sessions started for
   * the bindings it affects: none of them is left, and no other has ended.
   */
  lemma UnrenamedGateIsExact(serde: Serde, w: World, run: seq<Event>, write: Write, now: Time, id: string)
    requires NothingLive(w) && Sound(w.db) && NoRenames(serde, w, run) && id in Exec(serde, false, w, run).sessions
    requires Perform(serde, Exec(serde, false, w, run).db, write, now).1 == Done
    ensures var t := Exec(serde, false, w, run);
            && id in t.startedFor
            && (id !in Next(serde, false, t, Act(write, now, {})).sessions <==> t.startedFor[id] in Affected(t.db, write))
  {
    hide Exec, Next, Perform, Sound, NoRenames, AskedAbout, TripleOf, ParentsThere, Affected;
    var t := Exec(serde, false, w, run);
    RunStaysInStep(serde, w, run);
    DoneEnds(serde, t, write, now, {});
    AskedIffAffected(t.db, write, t.startedFor[id]);
  }

  lemma AskedIffAffected(db: Db, write: Write, k: (Id, Id))
    requires Sound(db) && ParentsThere(db, k)
    ensures TripleOf(db, k) in AskedAbout(db, write) <==> k in Affected(db, write)
  {
    hide Sound, TripleOf, ParentsThere, Affected;
    if TripleOf(db, k) in AskedAbout(db, write) {
      var j :| j in Affected(db, write) && ParentsThere(db, j) && TripleOf(db, j) == TripleOf(db, k);
      TriplesDiffer(db, j, k);
    }
  }

  // --- A session that outlives its binding ---

  /** A session is started, its tenant renamed and its binding deleted, all with success: the session is left. */
  lemma RenamedSessionIsLeft(serde: Serde, spec: Plugin, config: Option<Json>, t: Time, later: Time, last: Time)
    ensures var w := World(OneBinding("a", spec, config, t), map[], map[]);
            var rename, delete := PutTenantName(2, "b", t), DropBinding("b", (3, 1), None, Cleared);
            var run := [Start("s", (3, 1)), Act(rename, later, {})];
            var before := Exec(serde, false, w, run);
            var after := Next(serde, false, before, Act(delete, last, {}));
            && Sound(w.db) && NothingLive(w)
            && Perform(serde, w.db, rename, later).1 == Done && Perform(serde, before.db, delete, last).1 == Done
            && (3, 1) !in after.db.bindings && !NoneLeft(after, (3, 1))
  {
    hide Sound, Perform, Exec, OneBinding, NoneLeft;
    var db := OneBinding("a", spec, config, t);
    var w := World(db, map[], map[]);
    OneBindingIsSound("a", spec, config, t);
    StepRuns(serde, w, [], Start("s", (3, 1)));
    StepRuns(serde, w, [Start("s", (3, 1))], Act(PutTenantName(2, "b", t), later, {}));
    assert [] + [Start("s", (3, 1))] == [Start("s", (3, 1))];
    assert [Start("s", (3, 1))] + [Act(PutTenantName(2, "b", t), later, {})] == [Start("s", (3, 1)), Act(PutTenantName(2, "b", t), later, {})];
    StartRuns(serde, spec, config, t);
    RenameRuns(serde, spec, config, t, later);
    DeleteRuns(serde, spec, config, t, later, last);
  }

  lemma StepRuns(serde: Serde, w: World, run: seq<Event>, e: Event)
    ensures Exec(serde, false, w, []) == w
    ensures Exec(serde, false, w, run + [e]) == Next(serde, false, Exec(serde, false, w, run), e)
  {
    hide Next;
    assert (run + [e])[..|run|] == run;
  }

  /** The session started under the tenant's first name; `db` is as it was then or since. */
  function Started(db: Db, spec: Plugin): World {
    World(db, map["s" := Triple("a", "w", spec.name)], map["s" := (3, 1)])
  }

  function Renamed(spec: Plugin, config: Option<Json>, t: Time, later: Time): Db {
    OneBinding("a", spec, config, t).(tenants := map[2 := TenantRow("b", t, later)])
  }

  lemma StartRuns(serde: Serde, spec: Plugin, config: Option<Json>, t: Time)
    ensures var db := OneBinding("a", spec, config, t);
            Next(serde, false, World(db, map[], map[]), Start("s", (3, 1))) == Started(db, spec)
  {
    hide Perform;
  }

  lemma RenameRuns(serde: Serde, spec: Plugin, config: Option<Json>, t: Time, later: Time)
    ensures var db := OneBinding("a", spec, config, t);
            var rename := PutTenantName(2, "b", t);
            && Perform(serde, db, rename, later) == (Renamed(spec, config, t, later), Done)
            && Next(serde, false, Started(db, spec), Act(rename, later, {})) == Started(Renamed(spec, config, t, later), spec)
  {
    var db := OneBinding("a", spec, config, t);
    RenameDone(db, t, later);
    NoneAsked(db, PutTenantName(2, "b", t));
    assert db.tenants[2 := TenantRow("b", t, later)] == map[2 := TenantRow("b", t, later)];
  }

  lemma NoneAsked(db: Db, write: Write)
    requires Affected(db, write) == {}
    ensures forall sessions :: sessions - Matching(sessions, AskedAbout(db, write)) == sessions
  {
    assert AskedAbout(db, write) == {};
  }

  lemma RenameDone(db: Db, t: Time, later: Time)
    requires db.tenants == map[2 := TenantRow("a", t, t)]
    ensures UpdateTenant(db, 2, "b", t, later) == (db.(tenants := db.tenants[2 := TenantRow("b", t, later)]), Done)
  {
    hide Lower;
    TrimFixed("b");
    ShortNamesAreValid("b");
  }

  lemma DeleteRuns(serde: Serde, spec: Plugin, config: Option<Json>, t: Time, later: Time, last: Time)
    ensures var w := Started(Renamed(spec, config, t, later), spec);
            var delete := DropBinding("b", (3, 1), None, Cleared);
            var after := Next(serde, false, w, Act(delete, last, {}));
            Perform(serde, w.db, delete, last).1 == Done && (3, 1) !in after.db.bindings && !NoneLeft(after, (3, 1))
  {
    var w := Started(Renamed(spec, config, t, later), spec);
    var delete := DropBinding("b", (3, 1), None, Cleared);
    assert ParentsThere(w.db, (3, 1));
    assert AskedAbout(w.db, delete) == {Triple("b", "w", spec.name)};
    assert "a"[0] != "b"[0];
    assert "s" in Next(serde, false, w, Act(delete, last, {})).sessions;
  }
}
