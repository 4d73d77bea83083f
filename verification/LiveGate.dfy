/**
 * The live-session gate: before a binding changes or goes, the control plane is asked to end the sessions that
 * run under it. Calls to the control plane may fail, with or without having taken effect.
 */
module LiveGate {
  import opened Wrappers
  import opened BootstrapTables
  import opened ApiTables
  import opened ApiTheorems

  datatype Triple = Triple(tenant: string, workspace: string, plugin: string)

  datatype GateError = GateDisabled | GateUnavailable

  /** What becomes of one call: answered, refused, or carried out with the answer lost. */
  datatype Call = Answered | Failed | AnswerLost

  type Sessions = map<string, Triple>

  function Matching(sessions: Sessions, triples: set<Triple>): set<string> {
    set id | id in sessions && sessions[id] in triples
  }

  /** Some sessions of these triples are gone, and nothing else has changed. */
  predicate Pruned(before: Sessions, after: Sessions, triples: set<Triple>) {
    && (forall id :: id in after ==> id in before && after[id] == before[id])
    && (forall id :: id in before && before[id] !in triples ==> id in after)
  }

  /** All sessions of these triples are gone, and nothing else has changed. */
  predicate Ended(before: Sessions, after: Sessions, triples: set<Triple>) {
    after == before - Matching(before, triples)
  }

  lemma PrunedTwice(a: Sessions, b: Sessions, c: Sessions, triples: set<Triple>, more: set<Triple>)
    requires Pruned(a, b, triples) && Pruned(b, c, more)
    ensures Pruned(a, c, triples + more)
  {
  }

  lemma EndedTwice(a: Sessions, b: Sessions, c: Sessions, triples: set<Triple>, more: set<Triple>)
    requires Ended(a, b, triples) && Ended(b, c, more)
    ensures Ended(a, c, triples + more)
  {
  }

  /** The next so many calls are answered; once the fates run out every call is. */
  predicate AllAnswered(fates: seq<Call>, calls: nat) {
    forall i :: 0 <= i < calls && i < |fates| ==> fates[i].Answered?
  }

  function Later(fates: seq<Call>, calls: nat): seq<Call> {
    if calls <= |fates| then fates[calls..] else []
  }

  lemma AnsweredOn(fates: seq<Call>, a: nat, b: nat)
    ensures AllAnswered(fates, a) && AllAnswered(Later(fates, a), b) <==> AllAnswered(fates, a + b)
    ensures Later(Later(fates, a), b) == Later(fates, a + b)
  {
    if a <= |fates| {
      assert forall i :: 0 <= i < b && i < |fates| - a ==> fates[a..][i] == fates[a + i];
      if AllAnswered(Later(fates, a), b) && AllAnswered(fates, a) {
        assert forall i :: a <= i < a + b && i < |fates| ==> fates[i] == fates[a..][i - a];
      }
    }
  }

  class ControlPlane {
    const disabled: bool
    var sessions: Sessions
    /** The fate of the calls to come; once they run out every call is answered. */
    var fates: seq<Call>

    constructor (disabled: bool, sessions: Sessions, fates: seq<Call>)
      ensures this.disabled == disabled && this.sessions == sessions && this.fates == fates
    {
      this.disabled, this.sessions, this.fates := disabled, sessions, fates;
    }

    method NextCall() returns (call: Call)
      modifies `fates
      ensures call == if old(fates) == [] then Answered else old(fates)[0]
      ensures fates == Later(old(fates), 1)
    {
      if fates == [] {
        return Answered;
      }
      call := fates[0];
      fates := fates[1..];
    }

    /** The live sessions of the triple, each once, in no particular order. */
    method ListSessionsFor(triple: Triple) returns (r: Result<seq<string>, GateError>)
      modifies `fates
      ensures r == Err(GateDisabled) <==> disabled
      ensures r == Err(GateUnavailable) <==> !disabled && !AllAnswered(old(fates), 1)
      ensures fates == if disabled then old(fates) else Later(old(fates), 1)
      ensures r.Ok? ==> (forall id :: id in r.value <==> id in sessions && sessions[id] == triple)
      ensures r.Ok? ==> forall i, j :: 0 <= i < j < |r.value| ==> r.value[i] != r.value[j]
    {
      if disabled {
        return Err(GateDisabled);
      }
      var call := NextCall();
      if !call.Answered? {
        return Err(GateUnavailable);
      }
      var left := sessions.Keys;
      var live: seq<string> := [];
      while left != {}
        invariant left <= sessions.Keys
        invariant forall id :: id in live <==> id in sessions && id !in left && sessions[id] == triple
        invariant forall i, j :: 0 <= i < j < |live| ==> live[i] != live[j]
        decreases |left|
      {
        var id :| id in left;
        left := left - {id};
        if sessions[id] == triple {
          live := live + [id];
        }
      }
      return Ok(live);
    }

    /** A session that is gone already counts as deleted. */
    method DeleteSession(id: string) returns (r: Result<(), GateError>)
      modifies `fates, `sessions
      ensures r == Err(GateDisabled) <==> disabled
      ensures r == Err(GateUnavailable) <==> !disabled && !AllAnswered(old(fates), 1)
      ensures fates == if disabled then old(fates) else Later(old(fates), 1)
      ensures r.Ok? ==> sessions == old(sessions) - {id}
      ensures sessions == if disabled || (old(fates) != [] && old(fates)[0].Failed?) then old(sessions) else old(sessions) - {id}
    {
      if disabled {
        return Err(GateDisabled);
      }
      var call := NextCall();
      match call {
        case Answered =>
          sessions := sessions - {id};
          return Ok(());
        case Failed =>
          return Err(GateUnavailable);
        case AnswerLost =>
          sessions := sessions - {id};
          return Err(GateUnavailable);
      }
    }

    /**
     * Lists and then deletes one by one, stopping at the first call that fails. It gets through exactly when the
     * listing and the delete of every session of the triple are answered.
     */
    method TerminateLiveSessions(triple: Triple) returns (r: Result<nat, GateError>)
      modifies `fates, `sessions
      ensures r == Err(GateDisabled) <==> disabled
      ensures r == Err(GateUnavailable) <==> !disabled && !AllAnswered(old(fates), CallsFor(old(sessions), triple))
      ensures disabled ==> sessions == old(sessions) && fates == old(fates)
      ensures r.Ok? ==> Ended(old(sessions), sessions, {triple}) && r.value == |Matching(old(sessions), {triple})|
      ensures r.Ok? ==> fates == Later(old(fates), CallsFor(old(sessions), triple))
      ensures Pruned(old(sessions), sessions, {triple})
    {
      hide AllAnswered, Later, Listed, Matching;
      var live := ListSessionsFor(triple);
      if disabled {
        return Err(GateDisabled);
      }
      AnsweredOn(old(fates), 1, |Matching(old(sessions), {triple})|);
      if live.Err? {
        assert live.error != GateDisabled;
        return Err(live.error);
      }
      var ids := live.value;
      ListedAreAll(ids, sessions, triple);
      var count := 0;
      for i := 0 to |ids|
        invariant count == i
        invariant sessions == old(sessions) - Listed(ids, i)
        invariant AllAnswered(old(fates), 1 + i) && fates == Later(old(fates), 1 + i)
      {
        AnsweredOn(old(fates), 1 + i, 1);
        AnsweredOn(old(fates), 1 + i + 1, |ids| - i - 1);
        ListedGrows(ids, i, old(sessions));
        ListedArePruned(ids, i, old(sessions), triple);
        ListedArePruned(ids, i + 1, old(sessions), triple);
        var deleted := DeleteSession(ids[i]);
        if deleted.Err? {
          assert deleted.error != GateDisabled;
          return Err(deleted.error);
        }
        count := count + 1;
      }
      ListedArePruned(ids, |ids|, old(sessions), triple);
      return Ok(count);
    }
  }

  /** The calls it takes to end a triple's sessions: the listing and one delete for each. */
  function CallsFor(sessions: Sessions, triple: Triple): (n: nat)
    ensures n > 0
  {
    1 + |Matching(sessions, {triple})|
  }

  function Listed(ids: seq<string>, n: nat): set<string>
    requires n <= |ids|
  {
    set i | 0 <= i < n :: ids[i]
  }

  lemma ListedGrows(ids: seq<string>, n: nat, sessions: Sessions)
    requires n < |ids|
    ensures Listed(ids, 0) == {} && sessions - Listed(ids, 0) == sessions
    ensures Listed(ids, n + 1) == Listed(ids, n) + {ids[n]}
    ensures sessions - Listed(ids, n + 1) == (sessions - Listed(ids, n)) - {ids[n]}
  {
  }

  lemma {:induction false} ListedSize(ids: seq<string>, n: nat)
    requires n <= |ids| && forall i, j :: 0 <= i < j < |ids| ==> ids[i] != ids[j]
    ensures |Listed(ids, n)| == n
  {
    if n > 0 {
      ListedSize(ids, n - 1);
      ListedGrows(ids, n - 1, map[]);
    }
  }

  lemma ListedArePruned(ids: seq<string>, n: nat, sessions: Sessions, triple: Triple)
    requires n <= |ids| && forall id :: id in ids ==> id in sessions && sessions[id] == triple
    ensures Pruned(sessions, sessions - Listed(ids, n), {triple})
  {
  }

  lemma ListedAreAll(ids: seq<string>, sessions: Sessions, triple: Triple)
    requires forall id :: id in ids <==> id in sessions && sessions[id] == triple
    requires forall i, j :: 0 <= i < j < |ids| ==> ids[i] != ids[j]
    ensures sessions - Listed(ids, 0) == sessions
    ensures Ended(sessions, sessions - Listed(ids, |ids|), {triple}) && |ids| == |Matching(sessions, {triple})|
  {
    ListedSize(ids, |ids|);
    assert Listed(ids, |ids|) == Matching(sessions, {triple});
  }

  // --- Writes behind the gate ---

  /** The name triple of a binding, as the gate is asked about it. */
  function TripleOf(db: Db, k: (Id, Id)): (r: Triple)
    requires ParentsThere(db, k)
    ensures r.workspace == db.workspaces[k.0].name && r.plugin == db.plugins[k.1].spec.name
    ensures r.tenant == db.tenants[db.workspaces[k.0].tenantId].name
  {
    Triple(db.tenants[db.workspaces[k.0].tenantId].name, db.workspaces[k.0].name, db.plugins[k.1].spec.name)
  }

  ghost function TriplesOf(db: Db, keys: set<(Id, Id)>): set<Triple>
    requires forall k :: k in keys ==> ParentsThere(db, k)
  {
    set k | k in keys :: TripleOf(db, k)
  }

  /** What a gated write did to the sessions of the triples it affects, given how it answered. */
  ghost predicate GateKept(disabled: bool, before: Sessions, after: Sessions, triples: set<Triple>, reply: Reply) {
    && (disabled ==> after == before)
    && (!disabled && reply == Done ==> Ended(before, after, triples))
    && (reply == Unavailable ==> Pruned(before, after, triples))
    && (reply != Done && reply != Unavailable ==> after == before)
  }

  lemma BindingsHaveParents(db: Db)
    requires Sound(db)
    ensures forall k :: k in db.bindings ==> ParentsThere(db, k)
    ensures forall w :: w in db.workspaces ==> db.workspaces[w].tenantId in db.tenants
  {
    hide TenantNamesDiffer, PluginNamesDiffer, WorkspaceNamesDiffer, IdsBelow;
  }
}
