/** The vault handle and the broker's store and delete handlers as they change the file in place. */
module SecretStore {
  import opened Wrappers
  import opened BrokerState
  import S = Secrets

  /** What one request does when nothing comes between its steps: the file and counter it leaves, and its answer. */
  function Served(contents: S.Contents, generation: nat, op: S.WriteOp): (S.Contents, nat, S.Reply) {
    match S.Refusal(contents, op)
    case Some(reply) => (contents, generation, reply)
    case None =>
      if generation == S.MAX_GENERATION then (S.Effect(contents, op), generation, S.InternalError)
      else (S.Effect(contents, op), generation + 1, S.Success(contents, op))
  }

  function Request(w: nat, op: S.WriteOp): seq<S.Step> {
    [S.Arrive(w, op, true)] + [S.TakeTenantLock(w)] + [S.ReadFile(w, false)] + [S.PeekGeneration(w, false)] + [S.Acquire(w)]
    + [S.WriteFile(w)] + [S.Bump(w)]
  }

  predicate Settled(s: S.State) {
    s.fileLock == None && s.tenantLock == None && s.writes == s.generation
  }

  lemma OpenSteps(s: S.State, w: nat, op: S.WriteOp)
    requires Settled(s) && w !in s.writers && !op.Edit?
    ensures var t := S.DoReadFile(S.DoTakeTenantLock(S.DoArrive(s, w, op, true), w), w, false);
            t == s.(tenantLock := Some(w), writers := s.writers[w := S.Writer(op, true, S.Reading(s.contents, s.writes))])
  {
    var a := S.DoArrive(s, w, op, true);
    assert a.writers[w := a.writers[w].(stage := S.Locked)][w := S.Writer(op, true, S.Reading(s.contents, s.writes))]
        == s.writers[w := S.Writer(op, true, S.Reading(s.contents, s.writes))];
  }

  /** A request that is not refused, from the generation read to the lock held, the file written and the counter bumped. */
  lemma HoldingSteps(s: S.State, w: nat, op: S.WriteOp, t: S.State)
    requires Settled(s) && w !in s.writers && S.Refusal(s.contents, op).None?
    requires t == s.(tenantLock := Some(w), writers := s.writers[w := S.Writer(op, true, S.Reading(s.contents, s.writes))])
    ensures var u := S.DoAcquire(S.DoPeekGeneration(t, w, false), w);
            && (u.contents, u.generation, u.fileLock, u.tenantLock) == (s.contents, s.generation, Some(w), Some(w))
            && w in u.writers && u.writers[w] == S.Writer(op, true, S.Holding(s.contents, s.writes, s.generation))
  {
    hide S.Refusal, Served;
    assert S.DoPeekGeneration(t, w, false) == S.Move(t, w, S.Opened(s.contents, s.writes, s.generation));
  }

  lemma BumpSteps(u: S.State, w: nat, op: S.WriteOp)
    requires w in u.writers && u.writers[w].stage.Holding? && u.writers[w].op == op && !op.Edit?
    requires u.writers[w].ofBroker && u.tenantLock == Some(w)
    requires S.Refusal(u.writers[w].stage.snapshot, op).None?
    ensures var v := S.DoBump(S.DoWriteFile(u, w), w);
            var served := Served(u.writers[w].stage.snapshot, u.generation, op);
            && (v.contents, v.generation) == (served.0, served.1)
            && w in v.writers && v.writers[w].stage == S.Finished(served.2)
            && v.fileLock == None && v.tenantLock == None
  {
    hide S.Effect, S.Refusal, S.Success;
  }

  lemma WriteSteps(s: S.State, w: nat, op: S.WriteOp, t: S.State)
    requires Settled(s) && w !in s.writers && !op.Edit?
    requires t == s.(tenantLock := Some(w), writers := s.writers[w := S.Writer(op, true, S.Reading(s.contents, s.writes))])
    ensures var u := S.DoBump(S.DoWriteFile(S.DoAcquire(S.DoPeekGeneration(t, w, false), w), w), w);
            && (u.contents, u.generation) == (Served(s.contents, s.generation, op).0, Served(s.contents, s.generation, op).1)
            && w in u.writers && u.writers[w].stage == S.Finished(Served(s.contents, s.generation, op).2)
            && u.fileLock == None && u.tenantLock == None
  {
    hide S.Effect, S.Refusal, S.Success;
    if S.Refusal(s.contents, op).None? {
      hide S.DoPeekGeneration, S.DoAcquire, S.DoWriteFile, S.DoBump, Served;
      HoldingSteps(s, w, op, t);
      BumpSteps(S.DoAcquire(S.DoPeekGeneration(t, w, false), w), w, op);
    } else {
      var u := S.DoPeekGeneration(t, w, false);
      assert u == S.Answer(t, w, S.Refusal(s.contents, op).value);
      assert w in u.writers && u.writers[w].stage.Finished?;
    }
  }

  /** The steps of one request, run without interruption, do what the whole request is said to do. */
  lemma RequestRunsWhole(s: S.State, w: nat, op: S.WriteOp)
    requires Settled(s) && w !in s.writers && !op.Edit?
    ensures var t := S.Exec(s, Request(w, op));
            && (t.contents, t.generation) == (Served(s.contents, s.generation, op).0, Served(s.contents, s.generation, op).1)
            && w in t.writers && t.writers[w].stage == S.Finished(Served(s.contents, s.generation, op).2)
  {
    hide S.DoArrive, S.DoTakeTenantLock, S.DoReadFile, S.DoPeekGeneration, S.DoAcquire, S.DoWriteFile, S.DoBump, Served;
    OpenSteps(s, w, op);
    WriteSteps(s, w, op, S.DoReadFile(S.DoTakeTenantLock(S.DoArrive(s, w, op, true), w), w, false));
    var p1 := [S.Arrive(w, op, true)];
    assert p1 == [] + p1 && S.Exec(s, []) == s;
    S.ExecSnoc(s, [], S.Arrive(w, op, true));
    S.ExecSnoc(s, p1, S.TakeTenantLock(w));
    var p2 := p1 + [S.TakeTenantLock(w)];
    S.ExecSnoc(s, p2, S.ReadFile(w, false));
    var p3 := p2 + [S.ReadFile(w, false)];
    S.ExecSnoc(s, p3, S.PeekGeneration(w, false));
    var p4 := p3 + [S.PeekGeneration(w, false)];
    S.ExecSnoc(s, p4, S.Acquire(w));
    S.ExecSnoc(s, p4 + [S.Acquire(w)], S.WriteFile(w));
    S.ExecSnoc(s, p4 + [S.Acquire(w)] + [S.WriteFile(w)], S.Bump(w));
  }

  datatype VaultError = NotInitialized | NotOpened | Missing | WriteConflict(expected: nat, found: nat) | CounterOverflow

  /** The key has the entry that was sent, but for the creation time if it had one; every other key is as before. */
  predicate PutThere(before: S.Contents, after: S.Contents, key: SecretKey, entry: S.Entry) {
    && key in after
    && after[key] == entry.(createdAt := if key in before then before[key].createdAt else entry.createdAt)
    && after == before[key := after[key]]
  }

  /** The vault's file and its generation sidecar. */
  class Disk {
    var present: bool
    var contents: S.Contents
    var generation: nat

    constructor (contents: S.Contents, generation: nat)
      ensures present && this.contents == contents && this.generation == generation
    {
      present, this.contents, this.generation := true, contents, generation;
    }
  }

  /** A handle: the decrypted contents and the generation it expects, once it has been unlocked. */
  class Vault {
    const disk: Disk
    var unlocked: bool
    var contents: S.Contents
    var generation: nat

    constructor (disk: Disk)
      ensures this.disk == disk && !unlocked
    {
      this.disk := disk;
      unlocked, contents, generation := false, map[], 0;
    }

    /** `authentic`: the master derived from the lease's key opens the file. */
    method UnlockMaster(authentic: bool) returns (r: Result<(), VaultError>)
      modifies this
      ensures r.Ok? <==> disk.present && authentic
      ensures r.Ok? ==> unlocked && contents == disk.contents && generation == disk.generation
      ensures r.Err? ==> unlocked == old(unlocked) && contents == old(contents) && generation == old(generation)
    {
      if !disk.present {
        return Err(VaultError.NotInitialized);
      }
      if !authentic {
        return Err(NotOpened);
      }
      unlocked, contents, generation := true, disk.contents, disk.generation;
      return Ok(());
    }

    /** Writes the handle's contents out, provided no other writer has bumped the counter since it was read. */
    method Persist() returns (r: Result<(), VaultError>)
      requires unlocked
      modifies this`generation, disk
      ensures disk.present == old(disk.present)
      ensures r.Err? && r.error.WriteConflict? <==> old(generation) != old(disk.generation)
      ensures r.Err? && r.error.WriteConflict? ==> disk.contents == old(disk.contents) && disk.generation == old(disk.generation)
      ensures !(r.Err? && r.error.WriteConflict?) ==> disk.contents == contents
      ensures r.Ok? <==> old(generation) == old(disk.generation) != S.MAX_GENERATION
      ensures r.Ok? ==> disk.generation == old(disk.generation) + 1 && generation == disk.generation
      ensures r.Err? ==> disk.generation == old(disk.generation) && (r.error.WriteConflict? || r.error == CounterOverflow)
    {
      var found := disk.generation;
      if found != generation {
        return Err(WriteConflict(generation, found));
      }
      disk.contents := contents;
      if found == S.MAX_GENERATION {
        return Err(CounterOverflow);
      }
      disk.generation := found + 1;
      generation := found + 1;
      return Ok(());
    }

    method HasSecret(key: SecretKey) returns (found: bool)
      requires unlocked
      ensures found <==> key in contents
    {
      found := key in contents;
    }

    /** The creation time of a key that is there already is kept; everything else is the new entry's. */
    method PutSecret(key: SecretKey, entry: S.Entry) returns (r: Result<(), VaultError>)
      requires unlocked
      modifies this, disk
      ensures disk.present == old(disk.present) && unlocked
      ensures contents == S.Effect(old(contents), S.Store(key, entry, true))
      ensures PutThere(old(contents), contents, key, entry)
      ensures old(generation) != old(disk.generation) <==> r.Err? && r.error.WriteConflict?
      ensures disk.contents == if old(generation) == old(disk.generation) then contents else old(disk.contents)
      ensures r.Ok? <==> old(generation) == old(disk.generation) != S.MAX_GENERATION
      ensures disk.generation == old(disk.generation) + if r.Ok? then 1 else 0
    {
      var createdAt := if key in contents then contents[key].createdAt else entry.createdAt;
      contents := contents[key := entry.(createdAt := createdAt)];
      r := Persist();
    }

    method DeleteSecret(key: SecretKey) returns (r: Result<(), VaultError>)
      requires unlocked
      modifies this, disk
      ensures disk.present == old(disk.present) && unlocked
      ensures contents == old(contents) - {key}
      ensures key !in old(contents) <==> r == Err(Missing)
      ensures key !in old(contents) ==> disk.contents == old(disk.contents) && disk.generation == old(disk.generation)
      ensures key in old(contents) ==>
                && (old(generation) != old(disk.generation) <==> r.Err? && r.error.WriteConflict?)
                && disk.contents == (if old(generation) == old(disk.generation) then contents else old(disk.contents))
                && (r.Ok? <==> old(generation) == old(disk.generation) != S.MAX_GENERATION)
                && disk.generation == old(disk.generation) + if r.Ok? then 1 else 0
    {
      if key !in contents {
        contents := contents - {key};
        return Err(Missing);
      }
      contents := contents - {key};
      r := Persist();
    }
  }

  /** The store handler, from taking the tenant's lock to answering. */
  method Store(disk: Disk, authentic: bool, key: SecretKey, entry: S.Entry, overwrite: bool) returns (reply: S.Reply)
    modifies disk
    ensures disk.present == old(disk.present)
    ensures !disk.present || !authentic ==>
              reply == S.InternalError && disk.contents == old(disk.contents) && disk.generation == old(disk.generation)
    ensures disk.present && authentic ==>
              (disk.contents, disk.generation, reply) == Served(old(disk.contents), old(disk.generation), S.Store(key, entry, overwrite))
    ensures old(disk.present) && authentic ==>
              && (reply == S.Exists <==> key in old(disk.contents) && !overwrite)
              && (reply.Stored? <==> (key !in old(disk.contents) || overwrite) && old(disk.generation) != 0xFFFF_FFFF_FFFF_FFFF)
              && (reply.Stored? ==> reply.created == (key !in old(disk.contents)) && disk.generation == old(disk.generation) + 1)
              && (reply.Stored? || reply == S.InternalError ==> PutThere(old(disk.contents), disk.contents, key, entry))
              && (reply == S.Exists ==> disk.contents == old(disk.contents))
              && (!reply.Stored? ==> disk.generation == old(disk.generation))
              && (reply.Stored? || reply == S.Exists || reply == S.InternalError)
  {
    var vault := new Vault(disk);
    var unlock := vault.UnlockMaster(authentic);
    if unlock.Err? {
      return S.InternalError;
    }
    var alreadyExists := vault.HasSecret(key);
    if alreadyExists && !overwrite {
      return S.Exists;
    }
    var put := vault.PutSecret(key, entry);
    match put {
      case Ok(_) => reply := S.Stored(!alreadyExists);
      case Err(error) => reply := if error.WriteConflict? then S.Conflict else S.InternalError;
    }
  }

  /** The delete handler, likewise. */
  method DeleteSecret(disk: Disk, authentic: bool, key: SecretKey) returns (reply: S.Reply)
    modifies disk
    ensures disk.present == old(disk.present)
    ensures !disk.present || !authentic ==>
              reply == S.InternalError && disk.contents == old(disk.contents) && disk.generation == old(disk.generation)
    ensures disk.present && authentic ==>
              (disk.contents, disk.generation, reply) == Served(old(disk.contents), old(disk.generation), S.Delete(key))
    ensures old(disk.present) && authentic ==>
              && (reply == S.NotFound <==> key !in old(disk.contents))
              && (reply == S.Deleted <==> key in old(disk.contents) && old(disk.generation) != 0xFFFF_FFFF_FFFF_FFFF)
              && disk.contents == old(disk.contents) - {key}
              && disk.generation == old(disk.generation) + (if reply == S.Deleted then 1 else 0)
              && reply in {S.NotFound, S.Deleted, S.InternalError}
  {
    var vault := new Vault(disk);
    var unlock := vault.UnlockMaster(authentic);
    if unlock.Err? {
      return S.InternalError;
    }
    var deleted := vault.DeleteSecret(key);
    match deleted {
      case Ok(_) => reply := S.Deleted;
      case Err(error) => reply := if error.Missing? then S.NotFound else if error.WriteConflict? then S.Conflict else S.InternalError;
    }
  }
}
