/**
 * Writers of one tenant's vault: the broker's store and delete requests, which hold the tenant's write lock
 * from before they open the vault to after they have written it, and outside writers, which do not. All of
 * them open the file and only then read its generation, and write under the file lock when the generation
 * still is the one they read. Each of these accesses is a step; steps of different writers interleave freely.
 */
module Secrets {
  import opened Wrappers
  import opened Base64
  import opened BrokerState

  const MAX_GENERATION: nat := 0xFFFF_FFFF_FFFF_FFFF

  datatype Entry = Entry(kind: string, value: Bytes, consumers: seq<string>, tags: seq<string>, createdAt: Time, updatedAt: Time)

  type Contents = map<SecretKey, Entry>

  /** An outside writer may change any keys at once. */
  datatype WriteOp =
    | Store(key: SecretKey, entry: Entry, overwrite: bool)
    | Delete(key: SecretKey)
    | Edit(puts: Contents, removes: set<SecretKey>)

  datatype Reply = Stored(created: bool) | Exists | Deleted | NotFound | Conflict | InternalError | Edited

  /** What a file holds once the operation has been applied to what it held; a replaced key keeps its creation time. */
  function Effect(contents: Contents, op: WriteOp): Contents {
    match op
    case Store(key, entry, _) =>
      contents[key := if key in contents then entry.(createdAt := contents[key].createdAt) else entry]
    case Delete(key) => contents - {key}
    case Edit(puts, removes) => (contents - removes) + puts
  }

  /** The reply that stops an operation before it writes, if there is one. */
  function Refusal(contents: Contents, op: WriteOp): Option<Reply> {
    match op
    case Store(key, _, overwrite) => if key in contents && !overwrite then Some(Exists) else None
    case Delete(key) => if key !in contents then Some(NotFound) else None
    case Edit(_, _) => None
  }

  function Success(contents: Contents, op: WriteOp): Reply {
    match op
    case Store(key, _, _) => Stored(key !in contents)
    case Delete(_) => Deleted
    case Edit(_, _) => Edited
  }

  /** Where a writer stands. `snapshot` is the file as read, `seen` how often the file had been written by then. */
  datatype Stage =
    | Waiting
    | Locked
    | Reading(snapshot: Contents, seen: nat)
    | Opened(snapshot: Contents, seen: nat, generation: nat)
    | Holding(snapshot: Contents, seen: nat, generation: nat)
    | Written(reply: Reply)
    | Finished(reply: Reply)

  datatype Writer = Writer(op: WriteOp, ofBroker: bool, stage: Stage)

  /**
   * A file write in the order it happened; `intact` when the writer's snapshot was the file's latest. `seen` and
   * `generation` are those of the handle that wrote.
   */
  datatype Commit = Commit(writer: nat, op: WriteOp, reply: Reply, intact: bool, seen: nat, generation: nat)

  /** `writes` counts the writes of the file since the generation was zero. */
  datatype State = State(
    contents: Contents, writes: nat, generation: nat, fileLock: Option<nat>, tenantLock: Option<nat>,
    writers: map<nat, Writer>, commits: seq<Commit>)

  datatype Step =
    | Arrive(w: nat, op: WriteOp, ofBroker: bool)
    | TakeTenantLock(w: nat)
    | ReadFile(w: nat, fails: bool)
    | PeekGeneration(w: nat, fails: bool)
    | Acquire(w: nat)
    | WriteFile(w: nat)
    | Bump(w: nat)

  function Move(s: State, w: nat, stage: Stage): State
    requires w in s.writers
  {
    s.(writers := s.writers[w := s.writers[w].(stage := stage)])
  }

  /** A request answers and lets go of the tenant's lock. */
  function Answer(s: State, w: nat, reply: Reply): State
    requires w in s.writers
  {
    Move(s, w, Finished(reply)).(tenantLock := if s.tenantLock == Some(w) then None else s.tenantLock)
  }

  function DoArrive(s: State, w: nat, op: WriteOp, ofBroker: bool): State {
    if w in s.writers || (ofBroker && op.Edit?) then s
    else s.(writers := s.writers[w := Writer(op, ofBroker, if ofBroker then Waiting else Locked)])
  }

  function DoTakeTenantLock(s: State, w: nat): State {
    if w !in s.writers || !s.writers[w].stage.Waiting? || s.tenantLock.Some? then s
    else Move(s, w, Locked).(tenantLock := Some(w))
  }

  function DoReadFile(s: State, w: nat, fails: bool): State {
    if w !in s.writers || !s.writers[w].stage.Locked? then s
    else if fails then Answer(s, w, InternalError)
    else Move(s, w, Reading(s.contents, s.writes))
  }

  /** The handle is open; the request is refused or goes on to write. */
  function DoPeekGeneration(s: State, w: nat, fails: bool): State {
    if w !in s.writers || !s.writers[w].stage.Reading? then s
    else if fails then Answer(s, w, InternalError)
    else
      var at := s.writers[w].stage;
      match Refusal(at.snapshot, s.writers[w].op)
      case Some(reply) => Answer(s, w, reply)
      case None => Move(s, w, Opened(at.snapshot, at.seen, s.generation))
  }

  function DoAcquire(s: State, w: nat): State {
    if w !in s.writers || !s.writers[w].stage.Opened? || s.fileLock.Some? then s
    else
      var at := s.writers[w].stage;
      if s.generation != at.generation then Answer(s, w, Conflict)
      else Move(s, w, Holding(at.snapshot, at.seen, at.generation)).(fileLock := Some(w))
  }

  function Committing(w: nat, op: WriteOp, at: Stage, writes: nat): Commit
    requires at.Holding?
  {
    Commit(w, op, Success(at.snapshot, op), at.seen == writes, at.seen, at.generation)
  }

  function DoWriteFile(s: State, w: nat): State {
    if w !in s.writers || !s.writers[w].stage.Holding? then s
    else
      var at := s.writers[w].stage;
      var op := s.writers[w].op;
      var reply := Success(at.snapshot, op);
      Move(s, w, Written(reply)).(contents := Effect(at.snapshot, op), writes := s.writes + 1,
                                  commits := s.commits + [Committing(w, op, at, s.writes)])
  }

  /** The counter does not wrap: at its maximum the bump fails although the file has been written. */
  function DoBump(s: State, w: nat): State {
    if w !in s.writers || !s.writers[w].stage.Written? then s
    else if s.generation == MAX_GENERATION then Answer(s, w, InternalError).(fileLock := None)
    else Answer(s, w, s.writers[w].stage.reply).(generation := s.generation + 1, fileLock := None)
  }

  function Apply(s: State, step: Step): State {
    match step
    case Arrive(w, op, ofBroker) => DoArrive(s, w, op, ofBroker)
    case TakeTenantLock(w) => DoTakeTenantLock(s, w)
    case ReadFile(w, fails) => DoReadFile(s, w, fails)
    case PeekGeneration(w, fails) => DoPeekGeneration(s, w, fails)
    case Acquire(w) => DoAcquire(s, w)
    case WriteFile(w) => DoWriteFile(s, w)
    case Bump(w) => DoBump(s, w)
  }

  function Exec(s: State, steps: seq<Step>): State {
    if steps == [] then s else Apply(Exec(s, steps[..|steps| - 1]), steps[|steps| - 1])
  }

  predicate Initial(s: State) {
    s.writes == s.generation <= MAX_GENERATION && s.fileLock == None && s.tenantLock == None && s.writers == map[] && s.commits == []
  }

  // --- The sequence of atomic operations ---

  function Replay(contents: Contents, commits: seq<Commit>): Contents {
    if commits == [] then contents
    else Effect(Replay(contents, commits[..|commits| - 1]), commits[|commits| - 1].op)
  }

  predicate AllIntact(commits: seq<Commit>) {
    forall i :: 0 <= i < |commits| ==> commits[i].intact
  }

  // --- Invariant ---

  /** A writer's view: never ahead of the file, and equal to it when nothing was written since. */
  predicate ViewOk(s: State, snapshot: Contents, seen: nat) {
    seen <= s.writes && (seen == s.writes ==> snapshot == s.contents)
  }

  predicate WriterOk(s: State, w: nat, writer: Writer) {
    match writer.stage
    case Reading(snapshot, seen) => ViewOk(s, snapshot, seen)
    case Opened(snapshot, seen, generation) =>
      ViewOk(s, snapshot, seen) && generation <= s.generation && Refusal(snapshot, writer.op).None?
    case Holding(snapshot, seen, generation) =>
      ViewOk(s, snapshot, seen) && generation == s.generation && s.fileLock == Some(w) && Refusal(snapshot, writer.op).None?
    case Written(_) => s.fileLock == Some(w)
    case _ => true
  }

  /** While the counter is below its maximum, it and the file move together, save between a write and its bump. */
  predicate CountersOk(s: State) {
    && (s.fileLock.Some? ==>
          (s.fileLock.value in s.writers
           && (s.writers[s.fileLock.value].stage.Holding? || s.writers[s.fileLock.value].stage.Written?)))
    && (s.generation < MAX_GENERATION ==>
          s.writes == s.generation + if s.fileLock.Some? && s.writers[s.fileLock.value].stage.Written? then 1 else 0)
    && s.generation <= MAX_GENERATION && s.generation <= s.writes
  }

  /** Up to the first commit that was not intact, each commit did to the file what it would do all at once. */
  predicate CommitOk(init: Contents, commits: seq<Commit>, i: nat)
    requires i < |commits|
  {
    AllIntact(commits[..i + 1]) ==>
      && Refusal(Replay(init, commits[..i]), commits[i].op).None?
      && commits[i].reply == Success(Replay(init, commits[..i]), commits[i].op)
  }

  predicate Committed(commits: seq<Commit>, w: nat, reply: Reply) {
    exists i :: 0 <= i < |commits| && commits[i].writer == w && commits[i].reply == reply
  }

  predicate Succeeds(reply: Reply) {
    reply.Stored? || reply.Deleted? || reply.Edited?
  }

  /** A writer has written the file when it says so, and at most once. */
  predicate AccountOk(s: State) {
    && (forall w :: w in s.writers && s.writers[w].stage.Written? ==>
          Succeeds(s.writers[w].stage.reply) && Committed(s.commits, w, s.writers[w].stage.reply))
    && (forall w :: w in s.writers && s.writers[w].stage.Finished? && Succeeds(s.writers[w].stage.reply) ==>
          Committed(s.commits, w, s.writers[w].stage.reply))
    && (forall i :: 0 <= i < |s.commits| ==>
          s.commits[i].writer in s.writers && s.commits[i].op == s.writers[s.commits[i].writer].op
          && (s.writers[s.commits[i].writer].stage.Written? || s.writers[s.commits[i].writer].stage.Finished?))
    && (forall i, j :: 0 <= i < j < |s.commits| ==> s.commits[i].writer != s.commits[j].writer)
  }

  ghost predicate WritersOk(s: State) {
    forall w :: w in s.writers ==> WriterOk(s, w, s.writers[w])
  }

  ghost predicate HistoryOk(init: Contents, s: State) {
    && (forall i :: 0 <= i < |s.commits| ==> CommitOk(init, s.commits, i))
    && (AllIntact(s.commits) ==> s.contents == Replay(init, s.commits))
  }

  ghost predicate Inv(init: Contents, s: State) {
    CountersOk(s) && WritersOk(s) && HistoryOk(init, s) && AccountOk(s)
  }

  // --- Every step keeps the invariant ---

  /** A step of one writer that leaves the file, its counter and the commits as they are. */
  lemma MoveKeeps(init: Contents, s: State, t: State, w: nat)
    requires Inv(init, s) && w in s.writers && w in t.writers
    requires t.contents == s.contents && t.writes == s.writes && t.generation == s.generation && t.commits == s.commits
    requires t.writers == s.writers[w := t.writers[w]] && t.writers[w].op == s.writers[w].op
    requires t.fileLock == s.fileLock || (s.fileLock == None && t.fileLock == Some(w) && t.writers[w].stage.Holding?)
    requires !s.writers[w].stage.Holding? && !s.writers[w].stage.Written? && !s.writers[w].stage.Finished?
    requires !t.writers[w].stage.Written? && (t.writers[w].stage.Finished? ==> !Succeeds(t.writers[w].stage.reply))
    requires WriterOk(t, w, t.writers[w])
    ensures Inv(init, t)
  {
    hide Refusal, Effect, Success;
    assert s.fileLock != Some(w);
    assert CountersOk(t);
    forall v | v in t.writers
      ensures WriterOk(t, v, t.writers[v])
    {
      if v != w {
        assert WriterOk(s, v, s.writers[v]);
      }
    }
    assert AccountOk(t);
  }

  lemma ArriveKeeps(init: Contents, s: State, w: nat, op: WriteOp, ofBroker: bool)
    requires Inv(init, s)
    ensures Inv(init, DoArrive(s, w, op, ofBroker))
  {
    hide Refusal, Effect, Success;
    var t := DoArrive(s, w, op, ofBroker);
    forall v | v in t.writers
      ensures WriterOk(t, v, t.writers[v])
    {
      if v in s.writers {
        assert WriterOk(s, v, s.writers[v]);
      }
    }
  }

  lemma TakeKeeps(init: Contents, s: State, w: nat)
    requires Inv(init, s)
    ensures Inv(init, DoTakeTenantLock(s, w))
  {
    hide Inv, Refusal;
    var t := DoTakeTenantLock(s, w);
    if t != s {
      MoveKeeps(init, s, t, w);
    }
  }

  lemma ReadKeeps(init: Contents, s: State, w: nat, fails: bool)
    requires Inv(init, s)
    ensures Inv(init, DoReadFile(s, w, fails))
  {
    hide Inv, Refusal;
    var t := DoReadFile(s, w, fails);
    if t != s {
      MoveKeeps(init, s, t, w);
    }
  }

  lemma WriterOf(init: Contents, s: State, w: nat)
    requires Inv(init, s) && w in s.writers
    ensures WriterOk(s, w, s.writers[w])
  {
  }

  lemma RefusalFails(contents: Contents, op: WriteOp)
    ensures Refusal(contents, op).Some? ==> !Succeeds(Refusal(contents, op).value)
  {
  }

  lemma PeekKeeps(init: Contents, s: State, w: nat, fails: bool)
    requires Inv(init, s)
    ensures Inv(init, DoPeekGeneration(s, w, fails))
  {
    hide Inv, Refusal;
    var t := DoPeekGeneration(s, w, fails);
    if t != s {
      WriterOf(init, s, w);
      RefusalFails(s.writers[w].stage.snapshot, s.writers[w].op);
      MoveKeeps(init, s, t, w);
    }
  }

  lemma AcquireKeeps(init: Contents, s: State, w: nat)
    requires Inv(init, s)
    ensures Inv(init, DoAcquire(s, w))
  {
    hide Inv, Refusal;
    var t := DoAcquire(s, w);
    if t != s {
      WriterOf(init, s, w);
      MoveKeeps(init, s, t, w);
    }
  }

  lemma ReplaySnoc(init: Contents, commits: seq<Commit>, last: Commit)
    ensures Replay(init, commits + [last]) == Effect(Replay(init, commits), last.op)
    ensures AllIntact(commits + [last]) <==> AllIntact(commits) && last.intact
  {
    hide Effect;
    assert (commits + [last])[..|commits|] == commits;
    assert (commits + [last])[|commits|] == last;
    assert forall i :: 0 <= i < |commits| ==> (commits + [last])[i] == commits[i];
  }

  /** Appending an intact commit that did to the replayed file what it would do all at once. */
  lemma HistoryGrows(init: Contents, s: State, t: State, last: Commit)
    requires HistoryOk(init, s) && t.commits == s.commits + [last]
    requires last.intact ==>
               t.contents == Effect(s.contents, last.op) && Refusal(s.contents, last.op).None? && last.reply == Success(s.contents, last.op)
    ensures HistoryOk(init, t)
  {
    hide Effect, Refusal, Success;
    ReplaySnoc(init, s.commits, last);
    forall i | 0 <= i < |t.commits|
      ensures CommitOk(init, t.commits, i)
    {
      assert t.commits[..i] == if i < |s.commits| then s.commits[..i] else s.commits;
      if i < |s.commits| {
        assert CommitOk(init, s.commits, i);
        assert t.commits[..i + 1] == s.commits[..i + 1];
      } else {
        assert t.commits[..i + 1] == t.commits;
      }
    }
  }

  lemma SuccessSucceeds(contents: Contents, op: WriteOp)
    ensures Succeeds(Success(contents, op))
  {
  }

  lemma CommittedGrows(commits: seq<Commit>, last: Commit)
    ensures Committed(commits + [last], last.writer, last.reply)
    ensures forall w, reply :: Committed(commits, w, reply) ==> Committed(commits + [last], w, reply)
  {
    assert (commits + [last])[|commits|] == last;
    forall w, reply | Committed(commits, w, reply)
      ensures Committed(commits + [last], w, reply)
    {
      var i :| 0 <= i < |commits| && commits[i].writer == w && commits[i].reply == reply;
      assert (commits + [last])[i] == commits[i];
    }
  }

  lemma WriteKeepsAccount(s: State, w: nat)
    requires AccountOk(s) && w in s.writers && s.writers[w].stage.Holding?
    ensures AccountOk(DoWriteFile(s, w))
  {
    hide Effect, Refusal, Success, Committed, Succeeds;
    var at := s.writers[w].stage;
    var op := s.writers[w].op;
    SuccessSucceeds(at.snapshot, op);
    CommittedGrows(s.commits, Committing(w, op, at, s.writes));
  }

  lemma WriteKeeps(init: Contents, s: State, w: nat)
    requires Inv(init, s)
    ensures Inv(init, DoWriteFile(s, w))
  {
    hide Effect, Refusal, Success, AccountOk, HistoryOk;
    var t := DoWriteFile(s, w);
    if t != s {
      var at := s.writers[w].stage;
      var op := s.writers[w].op;
      WriterOf(init, s, w);
      HistoryGrows(init, s, t, Committing(w, op, at, s.writes));
      WriteKeepsAccount(s, w);
      forall v | v in t.writers
        ensures WriterOk(t, v, t.writers[v])
      {
        assert WriterOk(s, v, s.writers[v]);
      }
    }
  }

  lemma BumpKeeps(init: Contents, s: State, w: nat)
    requires Inv(init, s)
    ensures Inv(init, DoBump(s, w))
  {
    hide Effect, Refusal, Success, HistoryOk, Committed;
    var t := DoBump(s, w);
    if t != s {
      WriterOf(init, s, w);
      HistorySame(init, s, t);
      forall v | v in t.writers
        ensures WriterOk(t, v, t.writers[v])
      {
        assert WriterOk(s, v, s.writers[v]);
      }
    }
  }

  lemma HistorySame(init: Contents, s: State, t: State)
    requires HistoryOk(init, s) && t.commits == s.commits && t.contents == s.contents
    ensures HistoryOk(init, t)
  {
  }

  lemma StepKeeps(init: Contents, s: State, step: Step)
    requires Inv(init, s)
    ensures Inv(init, Apply(s, step))
  {
    hide Inv, DoArrive, DoTakeTenantLock, DoReadFile, DoPeekGeneration, DoAcquire, DoWriteFile, DoBump;
    match step
    case Arrive(w, op, ofBroker) => ArriveKeeps(init, s, w, op, ofBroker);
    case TakeTenantLock(w) => TakeKeeps(init, s, w);
    case ReadFile(w, fails) => ReadKeeps(init, s, w, fails);
    case PeekGeneration(w, fails) => PeekKeeps(init, s, w, fails);
    case Acquire(w) => AcquireKeeps(init, s, w);
    case WriteFile(w) => WriteKeeps(init, s, w);
    case Bump(w) => BumpKeeps(init, s, w);
  }

  lemma {:induction false} RunKeeps(s: State, steps: seq<Step>)
    requires Initial(s)
    ensures Inv(s.contents, Exec(s, steps))
  {
    hide Apply;
    if steps == [] {
    } else {
      var n := |steps| - 1;
      RunKeeps(s, steps[..n]);
      StepKeeps(s.contents, Exec(s, steps[..n]), steps[n]);
    }
  }

  // --- Runs are sequences of atomic operations ---

  /**
   * In every run whose commits are intact, the file holds what applying the committed operations to it one by
   * one gives: no successful write is lost. Each of them was applied to the file of its moment, created a key
   * exactly when the file had none, and never replaced one it was not told to overwrite.
   */
  lemma CommitsReplay(s: State, steps: seq<Step>, i: nat)
    requires Initial(s) && AllIntact(Exec(s, steps).commits)
    ensures var t := Exec(s, steps);
            t.contents == Replay(s.contents, t.commits)
    ensures var t := Exec(s, steps);
            i < |t.commits| ==>
              && var before := Replay(s.contents, t.commits[..i]);
              && var op := t.commits[i].op;
              && (op.Store? ==> (t.commits[i].reply == Stored(true) <==> op.key !in before))
              && (op.Store? && !op.overwrite ==> op.key !in before)
              && (op.Delete? ==> op.key in before)
  {
    hide Exec, Effect;
    RunKeeps(s, steps);
    var t := Exec(s, steps);
    if i < |t.commits| {
      assert CommitOk(s.contents, t.commits, i);
    }
  }

  /** A writer's success means that it wrote the file exactly once; a refusal or a conflict, that it never did. */
  lemma AnswersTellTheTruth(s: State, steps: seq<Step>, w: nat)
    requires Initial(s) && w in Exec(s, steps).writers && Exec(s, steps).writers[w].stage.Finished?
    ensures var t := Exec(s, steps);
            && var reply := t.writers[w].stage.reply;
            && (Succeeds(reply) ==> Committed(t.commits, w, reply))
            && (forall i, j :: 0 <= i < |t.commits| && 0 <= j < |t.commits| && t.commits[i].writer == w == t.commits[j].writer ==> i == j)
  {
    hide Exec;
    RunKeeps(s, steps);
  }

  // --- Torn handles ---

  /** Some writer's whole write fell between this handle's reading of the file and of its generation. */
  predicate Torn(stage: Stage) {
    stage.Opened? && stage.seen < stage.generation
  }

  // --- From the schedule to the commits ---

  /** At step `n` the writer, which has read the file, reads the generation. */
  predicate OpensAt(s: State, steps: seq<Step>, n: nat, w: nat) {
    && n < |steps| && steps[n].PeekGeneration? && steps[n].w == w
    && w in Exec(s, steps[..n]).writers && Exec(s, steps[..n]).writers[w].stage.Reading?
  }

  /** The handle of that step: how often the file had been written when it was read, and the generation read now. */
  predicate OpenedWith(s: State, steps: seq<Step>, n: nat, w: nat, seen: nat, generation: nat) {
    OpensAt(s, steps, n, w) && seen == Exec(s, steps[..n]).writers[w].stage.seen && generation == Exec(s, steps[..n]).generation
  }

  /** Since it read the file, another writer has bumped the generation. */
  predicate TornAt(s: State, steps: seq<Step>, n: nat, w: nat) {
    OpensAt(s, steps, n, w) && Exec(s, steps[..n]).writers[w].stage.seen < Exec(s, steps[..n]).generation
  }

  ghost predicate Untorn(s: State, steps: seq<Step>) {
    forall n: nat, w: nat :: !TornAt(s, steps, n, w)
  }

  predicate Wrote(commits: seq<Commit>, w: nat) {
    exists i :: 0 <= i < |commits| && commits[i].writer == w
  }

  /** The handle with which `w` writes, or has written, is this one. */
  predicate HandleIs(s: State, w: nat, seen: nat, generation: nat) {
    && w in s.writers
    && (match s.writers[w].stage
        case Opened(_, a, b) => a == seen && b == generation
        case Holding(_, a, b) => a == seen && b == generation
        case Written(_) => true
        case Finished(_) => true
        case _ => false)
    && forall i :: 0 <= i < |s.commits| && s.commits[i].writer == w ==> s.commits[i].seen == seen && s.commits[i].generation == generation
  }

  lemma HandleStays(s: State, step: Step, w: nat, seen: nat, generation: nat)
    requires HandleIs(s, w, seen, generation)
    ensures HandleIs(Apply(s, step), w, seen, generation)
  {
    hide Effect, Refusal, Success;
  }

  lemma HandleComes(init: Contents, s: State, w: nat, fails: bool)
    requires Inv(init, s) && w in s.writers && s.writers[w].stage.Reading?
    ensures HandleIs(DoPeekGeneration(s, w, fails), w, s.writers[w].stage.seen, s.generation)
  {
    hide Effect, Refusal, Success, WritersOk, HistoryOk, CountersOk;
  }

  /** The handle a step opens is the one its writer has, and will have written with, for the rest of the run. */
  lemma {:induction false} HandleLasts(s: State, steps: seq<Step>, n: nat, w: nat, seen: nat, generation: nat)
    requires Initial(s) && OpenedWith(s, steps, n, w, seen, generation)
    ensures HandleIs(Exec(s, steps), w, seen, generation)
  {
    hide Apply, Inv, HandleIs, Initial;
    var m := |steps| - 1;
    if n == m {
      RunKeeps(s, steps[..m]);
      PeekIsApplied(Exec(s, steps[..m]), steps[m]);
      HandleComes(s.contents, Exec(s, steps[..m]), w, steps[m].fails);
    } else {
      assert steps[..m][..n] == steps[..n];
      HandleLasts(s, steps[..m], n, w, seen, generation);
      HandleStays(Exec(s, steps[..m]), steps[m], w, seen, generation);
    }
  }

  lemma PeekIsApplied(s: State, step: Step)
    requires step.PeekGeneration?
    ensures Apply(s, step) == DoPeekGeneration(s, step.w, step.fails)
  {
    hide DoPeekGeneration;
  }

  predicate HasHandle(s: State, w: nat, seen: nat, generation: nat) {
    && w in s.writers
    && (match s.writers[w].stage
        case Opened(_, a, b) => a == seen && b == generation
        case Holding(_, a, b) => a == seen && b == generation
        case _ => false)
  }

  /** A handle is had before, or opened by this step. */
  lemma HandleFrom(s: State, step: Step, w: nat, seen: nat, generation: nat)
    requires HasHandle(Apply(s, step), w, seen, generation)
    ensures HasHandle(s, w, seen, generation)
            || (step.PeekGeneration? && step.w == w && w in s.writers && s.writers[w].stage.Reading?
                && seen == s.writers[w].stage.seen && generation == s.generation)
  {
    hide Effect, Refusal, Success;
  }

  /** A commit is there before, or made by this step with the handle its writer has. */
  lemma CommitFrom(s: State, step: Step, i: nat)
    requires i < |Apply(s, step).commits|
    ensures i < |s.commits| ==> Apply(s, step).commits[i] == s.commits[i]
    ensures var c := Apply(s, step).commits[i]; i < |s.commits| || HasHandle(s, c.writer, c.seen, c.generation)
  {
    hide Effect, Refusal, Success;
  }

  ghost predicate Traced(s: State, steps: seq<Step>, w: nat, seen: nat, generation: nat) {
    exists n: nat :: OpenedWith(s, steps, n, w, seen, generation)
  }

  lemma TracedLonger(s: State, steps: seq<Step>, w: nat, seen: nat, generation: nat)
    requires steps != [] && Traced(s, steps[..|steps| - 1], w, seen, generation)
    ensures Traced(s, steps, w, seen, generation)
  {
    hide Exec;
    var m := |steps| - 1;
    var n: nat :| OpenedWith(s, steps[..m], n, w, seen, generation);
    assert steps[..m][..n] == steps[..n];
    assert OpenedWith(s, steps, n, w, seen, generation);
  }

  /** Every handle goes back to the step that opened it. */
  lemma {:induction false} HandleTraced(s: State, steps: seq<Step>, w: nat, seen: nat, generation: nat)
    requires Initial(s) && HasHandle(Exec(s, steps), w, seen, generation)
    ensures Traced(s, steps, w, seen, generation)
  {
    hide Apply, HasHandle, Traced;
    if steps == [] {
      NoHandle(s, w, seen, generation);
    } else {
      var m := |steps| - 1;
      HandleFrom(Exec(s, steps[..m]), steps[m], w, seen, generation);
      if HasHandle(Exec(s, steps[..m]), w, seen, generation) {
        HandleTraced(s, steps[..m], w, seen, generation);
        TracedLonger(s, steps, w, seen, generation);
      } else {
        TracedNow(s, steps, m, w, seen, generation);
      }
    }
  }

  lemma NoHandle(s: State, w: nat, seen: nat, generation: nat)
    requires Initial(s)
    ensures !HasHandle(s, w, seen, generation)
  {
  }

  lemma TracedNow(s: State, steps: seq<Step>, n: nat, w: nat, seen: nat, generation: nat)
    requires OpenedWith(s, steps, n, w, seen, generation)
    ensures Traced(s, steps, w, seen, generation)
  {
    hide OpenedWith;
  }

  /** Every commit goes back to the step that opened the handle it was made with. */
  lemma {:induction false} CommitTraced(s: State, steps: seq<Step>, i: nat)
    requires Initial(s) && i < |Exec(s, steps).commits|
    ensures var c := Exec(s, steps).commits[i]; Traced(s, steps, c.writer, c.seen, c.generation)
  {
    hide Apply, HasHandle, Traced;
    if steps != [] {
      var m := |steps| - 1;
      CommitFrom(Exec(s, steps[..m]), steps[m], i);
      var c := Exec(s, steps).commits[i];
      if i < |Exec(s, steps[..m]).commits| {
        CommitTraced(s, steps[..m], i);
      } else {
        HandleTraced(s, steps[..m], c.writer, c.seen, c.generation);
      }
      TracedLonger(s, steps, c.writer, c.seen, c.generation);
    }
  }

  // --- What the records of the commits say ---

  /** Below the counter's maximum, a commit is intact when its generation was read no later than its file. */
  predicate RecordsOk(s: State) {
    forall i :: 0 <= i < |s.commits| ==>
      s.commits[i].generation <= s.generation
      && (s.commits[i].generation < MAX_GENERATION ==> (s.commits[i].intact <==> s.commits[i].generation <= s.commits[i].seen))
  }

  lemma RecordsStay(init: Contents, s: State, step: Step)
    requires Inv(init, s) && RecordsOk(s)
    ensures RecordsOk(Apply(s, step))
  {
    hide Effect, Refusal, Success, Inv;
    if step.WriteFile? && step.w in s.writers && s.writers[step.w].stage.Holding? {
      HoldingIsInStep(init, s, step.w);
    }
  }

  lemma HoldingIsInStep(init: Contents, s: State, w: nat)
    requires Inv(init, s) && w in s.writers && s.writers[w].stage.Holding?
    ensures s.writers[w].stage.generation == s.generation && s.writers[w].stage.seen <= s.writes
    ensures s.generation < MAX_GENERATION ==> s.writes == s.generation
  {
    hide Effect, Refusal, HistoryOk, AccountOk;
    WriterOf(init, s, w);
  }

  lemma {:induction false} RunRecords(s: State, steps: seq<Step>)
    requires Initial(s)
    ensures RecordsOk(Exec(s, steps))
  {
    hide Apply, Inv, RecordsOk;
    if steps == [] {
      assert RecordsOk(s) by { NothingRecorded(s); }
    } else {
      var m := |steps| - 1;
      RunKeeps(s, steps[..m]);
      RunRecords(s, steps[..m]);
      RecordsStay(s.contents, Exec(s, steps[..m]), steps[m]);
    }
  }

  lemma NothingRecorded(s: State)
    requires Initial(s)
    ensures RecordsOk(s)
  {
  }

  /**
   * Which schedules are intact, outside writers or not: below the counter's maximum, every commit of a run is
   * intact if and only if no handle that was torn when it was opened got to write.
   */
  lemma IntactIffUntorn(s: State, steps: seq<Step>)
    requires Initial(s) && Exec(s, steps).generation < MAX_GENERATION
    ensures AllIntact(Exec(s, steps).commits)
       <==> forall n: nat, w: nat :: TornAt(s, steps, n, w) ==> !Wrote(Exec(s, steps).commits, w)
  {
    hide Exec, OpenedWith, TornAt, HandleIs, Initial;
    RunRecords(s, steps);
    var commits := Exec(s, steps).commits;
    forall n: nat, w: nat, i: nat | TornAt(s, steps, n, w) && i < |commits| && commits[i].writer == w
      ensures !commits[i].intact
    {
      TornCommit(s, steps, n, w, i);
    }
    forall i: nat | i < |commits| && !commits[i].intact
      ensures exists n: nat :: TornAt(s, steps, n, commits[i].writer)
    {
      CommitTraced(s, steps, i);
      var n: nat :| OpenedWith(s, steps, n, commits[i].writer, commits[i].seen, commits[i].generation);
      TornHandle(s, steps, n, commits[i].writer, commits[i].seen, commits[i].generation);
    }
    WroteMeans(commits);
  }

  lemma WroteMeans(commits: seq<Commit>)
    ensures forall i: nat :: i < |commits| ==> Wrote(commits, commits[i].writer)
  {
  }

  lemma TornHandle(s: State, steps: seq<Step>, n: nat, w: nat, seen: nat, generation: nat)
    requires OpenedWith(s, steps, n, w, seen, generation)
    ensures TornAt(s, steps, n, w) <==> seen < generation
  {
    hide Exec;
  }

  lemma TornCommit(s: State, steps: seq<Step>, n: nat, w: nat, i: nat)
    requires Initial(s) && RecordsOk(Exec(s, steps)) && Exec(s, steps).generation < MAX_GENERATION
    requires TornAt(s, steps, n, w) && i < |Exec(s, steps).commits| && Exec(s, steps).commits[i].writer == w
    ensures !Exec(s, steps).commits[i].intact
  {
    hide Exec, Initial;
    HandleLasts(s, steps, n, w, Exec(s, steps[..n]).writers[w].stage.seen, Exec(s, steps[..n]).generation);
  }

  lemma UntornIsIntact(s: State, steps: seq<Step>)
    requires Initial(s) && Untorn(s, steps) && Exec(s, steps).generation < MAX_GENERATION
    ensures AllIntact(Exec(s, steps).commits)
  {
    hide Exec, TornAt, AllIntact;
    IntactIffUntorn(s, steps);
  }

  /**
   * Outside writers or not, in every run in which no handle is torn when it is opened, the file holds what
   * applying the committed operations to it one by one gives: no successful write is lost. Each of them was
   * applied to the file of its moment, created a key exactly when the file had none, and never replaced one it
   * was not told to overwrite.
   */
  lemma UntornRunIsAtomic(s: State, steps: seq<Step>, i: nat)
    requires Initial(s) && Untorn(s, steps) && Exec(s, steps).generation < MAX_GENERATION
    ensures var t := Exec(s, steps);
            t.contents == Replay(s.contents, t.commits)
    ensures var t := Exec(s, steps);
            i < |t.commits| ==>
              && var before := Replay(s.contents, t.commits[..i]);
              && var op := t.commits[i].op;
              && (op.Store? ==> (t.commits[i].reply == Stored(true) <==> op.key !in before))
              && (op.Store? && !op.overwrite ==> op.key !in before)
              && (op.Delete? ==> op.key in before)
  {
    hide Exec, Replay, Untorn, AllIntact;
    UntornIsIntact(s, steps);
    CommitsReplay(s, steps, i);
  }

  // --- Opening a vault in one go ---

  /** No generation is bumped between a writer's reading of the file and of the generation. */
  predicate Undisturbed(steps: seq<Step>) {
    forall i, k, j :: 0 <= i < k < j < |steps| && steps[i].ReadFile? && steps[j].PeekGeneration? && steps[i].w == steps[j].w
      ==> !steps[k].Bump?
  }

  lemma OnlyBumpsCount(s: State, step: Step)
    ensures !step.Bump? ==> Apply(s, step).generation == s.generation
  {
    hide Effect, Refusal, Success;
  }

  lemma {:induction false} NothingBumped(s: State, steps: seq<Step>, i: nat, j: nat)
    requires i <= j <= |steps| && forall k :: i <= k < j ==> !steps[k].Bump?
    ensures Exec(s, steps[..j]).generation == Exec(s, steps[..i]).generation
    decreases j
  {
    hide Apply;
    if i < j {
      NothingBumped(s, steps, i, j - 1);
      assert steps[..j][..j - 1] == steps[..j - 1];
      OnlyBumpsCount(Exec(s, steps[..j - 1]), steps[j - 1]);
    }
  }

  predicate HasRead(s: State, w: nat, seen: nat) {
    w in s.writers && s.writers[w].stage.Reading? && s.writers[w].stage.seen == seen
  }

  lemma ReadFrom(s: State, step: Step, w: nat, seen: nat)
    requires HasRead(Apply(s, step), w, seen)
    ensures HasRead(s, w, seen) || (step.ReadFile? && step.w == w && seen == s.writes && Apply(s, step).generation == s.generation)
  {
    hide Effect, Refusal, Success;
  }

  /** A writer that has read the file did so in some step, which saw the file as it then was. */
  lemma {:induction false} ReadTraced(s: State, steps: seq<Step>, w: nat, seen: nat) returns (i: nat)
    requires Initial(s) && HasRead(Exec(s, steps), w, seen)
    ensures i < |steps| && steps[i].ReadFile? && steps[i].w == w
    ensures seen == Exec(s, steps[..i]).writes && Exec(s, steps[..i + 1]).generation == Exec(s, steps[..i]).generation
  {
    hide Apply;
    var m := |steps| - 1;
    ReadFrom(Exec(s, steps[..m]), steps[m], w, seen);
    if HasRead(Exec(s, steps[..m]), w, seen) {
      i := ReadTraced(s, steps[..m], w, seen);
      assert steps[..m][..i] == steps[..i] && steps[..m][..i + 1] == steps[..i + 1];
    } else {
      i := m;
      assert steps[..m + 1] == steps;
    }
  }

  /**
   * A run in which no bump falls between a writer's two reads, as when opening a vault is one atomic read, has
   * no torn handles, whatever its writers do otherwise.
   */
  lemma UndisturbedIsUntorn(s: State, steps: seq<Step>)
    requires Initial(s) && Undisturbed(steps)
    ensures Untorn(s, steps)
  {
    hide Exec, Initial;
    forall n: nat, w: nat | OpensAt(s, steps, n, w)
      ensures !TornAt(s, steps, n, w)
    {
      var seen := Exec(s, steps[..n]).writers[w].stage.seen;
      var i := ReadTraced(s, steps[..n], w, seen);
      assert steps[..n][..i] == steps[..i] && steps[..n][..i + 1] == steps[..i + 1];
      NothingBumped(s, steps, i + 1, n);
      RunKeeps(s, steps[..i]);
    }
  }

  /**
   * Below the counter's maximum, a handle that gets to write commits intact if and only if it is not torn: when
   * its generation was read no later than its file, in the order of the file's writes.
   */
  lemma TornIff(s: State, steps: seq<Step>, w: nat)
    requires Initial(s)
    requires var t := Exec(s, steps); w in t.writers && t.writers[w].stage.Holding? && t.generation < MAX_GENERATION
    ensures var t := Exec(s, steps);
            var at := t.writers[w].stage;
            t.generation == at.generation
            && DoWriteFile(t, w).commits == t.commits + [Committing(w, t.writers[w].op, at, t.writes)]
            && (Committing(w, t.writers[w].op, at, t.writes).intact <==> !Torn(Opened(at.snapshot, at.seen, at.generation)))
  {
    hide Exec, Refusal, Effect, Success;
    RunKeeps(s, steps);
    WriterOf(s.contents, Exec(s, steps), w);
  }

  /** Two files agree on everything the operation takes over from the file it is applied to. */
  predicate SameUnder(a: Contents, b: Contents, op: WriteOp) {
    match op
    case Store(key, entry, _) =>
      a - {key} == b - {key}
      && (if key in a then a[key].createdAt else entry.createdAt) == (if key in b then b[key].createdAt else entry.createdAt)
    case Delete(key) => a - {key} == b - {key}
    case Edit(puts, removes) => a - removes - puts.Keys == b - removes - puts.Keys
  }

  /**
   * What a write leaves in the file is what its operation would do to the file's present contents, if and only
   * if the writer's snapshot agrees with them on everything but what the operation itself sets. A torn handle
   * whose snapshot is out of date elsewhere therefore undoes another writer's change, though both succeed.
   */
  lemma WriteIsAtomicIff(s: State, w: nat)
    requires w in s.writers && s.writers[w].stage.Holding?
    ensures DoWriteFile(s, w).contents == Effect(s.contents, s.writers[w].op)
       <==> SameUnder(s.writers[w].stage.snapshot, s.contents, s.writers[w].op)
  {
    EffectSameIff(s.writers[w].stage.snapshot, s.contents, s.writers[w].op);
  }

  lemma EffectSameIff(a: Contents, b: Contents, op: WriteOp)
    ensures Effect(a, op) == Effect(b, op) <==> SameUnder(a, b, op)
  {
    match op
    case Store(key, entry, _) => StoreSameIff(a, b, key, entry);
    case Delete(_) =>
    case Edit(puts, removes) => EditSameIff(a, b, puts, removes);
  }

  lemma StoreSameIff(a: Contents, b: Contents, key: SecretKey, entry: Entry)
    ensures var op := Store(key, entry, true); Effect(a, op) == Effect(b, op) <==> SameUnder(a, b, op)
  {
    var op := Store(key, entry, true);
    var x, y := Effect(a, op), Effect(b, op);
    assert x[key].createdAt == if key in a then a[key].createdAt else entry.createdAt;
    assert y[key].createdAt == if key in b then b[key].createdAt else entry.createdAt;
    assert x - {key} == a - {key} && y - {key} == b - {key};
    if SameUnder(a, b, op) {
      assert x[key] == y[key];
      forall k
        ensures k in x <==> k in y
        ensures k in x && k in y ==> x[k] == y[k]
      {
        if k != key {
          assert k in x <==> k in a - {key};
          assert k in y <==> k in b - {key};
        }
      }
      assert x == y;
    }
  }

  lemma EditSameIff(a: Contents, b: Contents, puts: Contents, removes: set<SecretKey>)
    ensures var op := Edit(puts, removes); Effect(a, op) == Effect(b, op) <==> SameUnder(a, b, op)
  {
    var x, y := (a - removes) + puts, (b - removes) + puts;
    assert x - puts.Keys == a - removes - puts.Keys;
    assert y - puts.Keys == b - removes - puts.Keys;
    if a - removes - puts.Keys == b - removes - puts.Keys {
      assert x == (a - removes - puts.Keys) + puts;
      assert y == (b - removes - puts.Keys) + puts;
    }
  }

  // --- The broker alone ---

  predicate Busy(stage: Stage) {
    !stage.Waiting? && !stage.Finished?
  }

  /** Every writer is a broker request; the one at work holds the tenant's lock and sees the file as it is. */
  predicate AloneOk(s: State) {
    && AllIntact(s.commits)
    && (forall w :: w in s.writers ==>
          && s.writers[w].ofBroker && s.writers[w].stage != Finished(Conflict)
          && (Busy(s.writers[w].stage) ==> s.tenantLock == Some(w))
          && (s.writers[w].stage.Reading? ==> s.writers[w].stage.seen == s.writes)
          && (s.writers[w].stage.Opened? ==> s.writers[w].stage.seen == s.writes && s.writers[w].stage.generation == s.generation)
          && (s.writers[w].stage.Holding? ==> s.writers[w].stage.seen == s.writes))
  }

  predicate FromBroker(steps: seq<Step>) {
    forall i :: 0 <= i < |steps| ==> steps[i].Arrive? ==> steps[i].ofBroker
  }

  lemma RefusalIsNoConflict(contents: Contents, op: WriteOp)
    ensures Refusal(contents, op) != Some(Conflict) && Success(contents, op) != Conflict
  {
  }

  lemma WrittenSucceeds(init: Contents, s: State, w: nat)
    requires Inv(init, s) && w in s.writers && s.writers[w].stage.Written?
    ensures Succeeds(s.writers[w].stage.reply)
  {
    hide Committed, WritersOk, HistoryOk, CountersOk;
  }

  lemma AloneStep(init: Contents, s: State, step: Step)
    requires AloneOk(s) && Inv(init, s) && (step.Arrive? ==> step.ofBroker)
    ensures AloneOk(Apply(s, step))
  {
    hide Refusal, Effect, Success, Inv;
    var t := Apply(s, step);
    if step.PeekGeneration? && step.w in s.writers && s.writers[step.w].stage.Reading? {
      RefusalIsNoConflict(s.writers[step.w].stage.snapshot, s.writers[step.w].op);
    }
    if step.Bump? && step.w in s.writers && s.writers[step.w].stage.Written? {
      WrittenSucceeds(init, s, step.w);
    }
    assert AllIntact(t.commits);
  }

  /**
   * With no outside writers, every interleaving of stores and deletes is a sequence of atomic operations: every
   * commit is intact, and no request is ever told that its write conflicted.
   */
  lemma {:induction false} BrokerAloneIsAtomic(s: State, steps: seq<Step>)
    requires Initial(s) && FromBroker(steps)
    ensures AloneOk(Exec(s, steps))
    ensures Exec(s, steps).contents == Replay(s.contents, Exec(s, steps).commits)
  {
    hide Apply, Inv, AloneOk, Replay;
    if steps == [] {
      StartsAlone(s);
    } else {
      var n := |steps| - 1;
      assert FromBroker(steps[..n]);
      BrokerAloneIsAtomic(s, steps[..n]);
      RunKeeps(s, steps[..n]);
      AloneStep(s.contents, Exec(s, steps[..n]), steps[n]);
    }
    RunKeeps(s, steps);
    AloneReplays(s.contents, Exec(s, steps));
  }

  lemma StartsAlone(s: State)
    requires Initial(s)
    ensures AloneOk(s)
  {
  }

  lemma AloneReplays(init: Contents, s: State)
    requires Inv(init, s) && AloneOk(s)
    ensures s.contents == Replay(init, s.commits)
  {
  }

  // --- Counting keys and finding the last write ---

  /** How many keys the broker's commit adds: one for a created key, minus one for a deleted one. */
  function Delta(reply: Reply): int {
    match reply
    case Stored(created) => if created then 1 else 0
    case Deleted => -1
    case _ => 0
  }

  function NetKeys(contents: Contents, commits: seq<Commit>): int {
    if commits == [] then 0
    else
      var init, last := commits[..|commits| - 1], commits[|commits| - 1];
      NetKeys(contents, init)
      + if last.op.Edit? then |Replay(contents, commits)| - |Replay(contents, init)| else Delta(last.reply)
  }

  lemma EffectSize(contents: Contents, op: WriteOp)
    requires Refusal(contents, op).None? && !op.Edit?
    ensures |Effect(contents, op)| == |contents| + Delta(Success(contents, op))
  {
    match op
    case Store(key, _, _) => assert Effect(contents, op).Keys == contents.Keys + {key};
    case Delete(key) => assert Effect(contents, op).Keys == contents.Keys - {key};
  }

  /**
   * In a run whose commits are intact the file's key count has changed by the created stores, minus the
   * successful deletes, plus whatever each outside edit changed when it was made.
   */
  lemma {:induction false} KeyCountBalances(contents: Contents, commits: seq<Commit>)
    requires AllIntact(commits) && forall i :: 0 <= i < |commits| ==> CommitOk(contents, commits, i)
    ensures |Replay(contents, commits)| == |contents| + NetKeys(contents, commits)
  {
    hide Effect, Refusal, Success;
    if commits != [] {
      var n := |commits| - 1;
      var init := commits[..n];
      forall i | 0 <= i < n
        ensures CommitOk(contents, init, i)
      {
        assert CommitOk(contents, commits, i);
        assert init[..i] == commits[..i] && init[..i + 1] == commits[..i + 1];
      }
      KeyCountBalances(contents, init);
      assert CommitOk(contents, commits, n);
      assert commits[..n + 1] == commits;
      if !commits[n].op.Edit? {
        EffectSize(Replay(contents, init), commits[n].op);
      }
    }
  }

  lemma CommitsBalance(s: State, steps: seq<Step>)
    requires Initial(s) && AllIntact(Exec(s, steps).commits)
    ensures |Exec(s, steps).contents| == |s.contents| + NetKeys(s.contents, Exec(s, steps).commits)
  {
    hide Exec, Replay;
    RunKeeps(s, steps);
    KeyCountBalances(s.contents, Exec(s, steps).commits);
  }

  /** Outside writers or not, the key count balances in every run in which no handle is torn when it is opened. */
  lemma RunBalances(s: State, steps: seq<Step>)
    requires Initial(s) && Untorn(s, steps) && Exec(s, steps).generation < MAX_GENERATION
    ensures |Exec(s, steps).contents| == |s.contents| + NetKeys(s.contents, Exec(s, steps).commits)
  {
    hide Exec, Replay, Untorn, AllIntact;
    UntornIsIntact(s, steps);
    CommitsBalance(s, steps);
  }

  predicate Mentions(op: WriteOp, key: SecretKey) {
    match op
    case Store(k, _, _) => k == key
    case Delete(k) => k == key
    case Edit(puts, removes) => key in puts || key in removes
  }

  /** A stored entry, with the creation time its key had, stays in the file until a later commit names its key. */
  lemma {:induction false} StoreStays(contents: Contents, commits: seq<Commit>, i: nat, key: SecretKey)
    requires i < |commits| && commits[i].op.Store? && commits[i].op.key == key
    requires forall j :: i < j < |commits| ==> !Mentions(commits[j].op, key)
    ensures key in Replay(contents, commits)
    ensures var before := Replay(contents, commits[..i]);
            var entry := commits[i].op.entry;
            Replay(contents, commits)[key] == entry.(createdAt := if key in before then before[key].createdAt else entry.createdAt)
  {
    hide Effect, Mentions;
    assert commits[..i + 1][..i] == commits[..i];
    EffectAt(Replay(contents, commits[..i]), commits[i].op, key);
    UnmentionedStays(contents, commits, i + 1, key);
  }

  /** What one operation does at one key: store, delete, and an edit's puts over its removals. */
  lemma EffectAt(contents: Contents, op: WriteOp, key: SecretKey)
    ensures var after := Effect(contents, op);
            && (op.Store? && op.key == key ==>
                  key in after
                  && after[key] == op.entry.(createdAt := if key in contents then contents[key].createdAt else op.entry.createdAt))
            && (op.Delete? && op.key == key ==> key !in after)
            && (op.Edit? && key in op.puts ==> key in after && after[key] == op.puts[key])
            && (op.Edit? && key !in op.puts && key in op.removes ==> key !in after)
            && (!Mentions(op, key) ==> (key in after <==> key in contents) && (key in after ==> after[key] == contents[key]))
  {
  }

  lemma {:induction false} UnmentionedStays(contents: Contents, commits: seq<Commit>, i: nat, key: SecretKey)
    requires i <= |commits| && forall j :: i <= j < |commits| ==> !Mentions(commits[j].op, key)
    ensures var before, after := Replay(contents, commits[..i]), Replay(contents, commits);
            (key in after <==> key in before) && (key in after ==> after[key] == before[key])
  {
    hide Effect, Mentions;
    if i == |commits| {
      assert commits[..i] == commits;
    } else {
      var n := |commits| - 1;
      assert commits[..n][..i] == commits[..i];
      UnmentionedStays(contents, commits[..n], i, key);
      EffectAt(Replay(contents, commits[..n]), commits[n].op, key);
    }
  }

  /**
   * The last commit that names a key decides what the file holds for it: a store its entry, with the creation time
   * the key had, a delete nothing, an edit what it puts or removes. A key no commit names is as it was at first.
   */
  lemma LastWordIsKept(contents: Contents, commits: seq<Commit>, i: nat, key: SecretKey)
    requires i < |commits| ==> Mentions(commits[i].op, key) && forall j :: i < j < |commits| ==> !Mentions(commits[j].op, key)
    requires i >= |commits| ==> forall j :: 0 <= j < |commits| ==> !Mentions(commits[j].op, key)
    ensures var after := Replay(contents, commits);
            if i < |commits| then
              match commits[i].op
              case Store(_, entry, _) =>
                var before := Replay(contents, commits[..i]);
                key in after && after[key] == entry.(createdAt := if key in before then before[key].createdAt else entry.createdAt)
              case Delete(_) => key !in after
              case Edit(puts, _) => if key in puts then key in after && after[key] == puts[key] else key !in after
            else (key in after <==> key in contents) && (key in after ==> after[key] == contents[key])
  {
    hide Effect;
    if i < |commits| {
      assert commits[..i + 1][..i] == commits[..i];
      EffectAt(Replay(contents, commits[..i]), commits[i].op, key);
      UnmentionedStays(contents, commits, i + 1, key);
    } else {
      assert commits[..0] == [];
      UnmentionedStays(contents, commits, 0, key);
    }
  }

  // --- A lost update ---

  lemma ExecSnoc(s: State, steps: seq<Step>, step: Step)
    ensures Exec(s, steps + [step]) == Apply(Exec(s, steps), step)
  {
    hide Apply;
    assert (steps + [step])[..|steps|] == steps;
  }

  function Quiescent(contents: Contents, generation: nat): State {
    State(contents, generation, generation, None, None, map[], [])
  }

  /** The broker's request has read the file but not yet its generation. */
  function HalfOpen(contents: Contents, generation: nat, op: WriteOp): State {
    Quiescent(contents, generation).(tenantLock := Some(0), writers := map[0 := Writer(op, true, Reading(contents, generation))])
  }

  function Opening(op: WriteOp): seq<Step> {
    [Arrive(0, op, true)] + [TakeTenantLock(0)] + [ReadFile(0, false)]
  }

  lemma OpeningSteps(contents: Contents, generation: nat, op: WriteOp)
    requires op.Store?
    ensures DoReadFile(DoTakeTenantLock(DoArrive(Quiescent(contents, generation), 0, op, true), 0), 0, false)
            == HalfOpen(contents, generation, op)
  {
  }

  lemma OpeningRuns(contents: Contents, generation: nat, op: WriteOp)
    requires op.Store?
    ensures Exec(Quiescent(contents, generation), Opening(op)) == HalfOpen(contents, generation, op)
  {
    hide DoArrive, DoTakeTenantLock, DoReadFile, Quiescent, HalfOpen;
    OpeningSteps(contents, generation, op);
    var s := Quiescent(contents, generation);
    assert Exec(s, []) == s;
    assert [Arrive(0, op, true)] == [] + [Arrive(0, op, true)];
    ExecSnoc(s, [], Arrive(0, op, true));
    ExecSnoc(s, [Arrive(0, op, true)], TakeTenantLock(0));
    ExecSnoc(s, [Arrive(0, op, true)] + [TakeTenantLock(0)], ReadFile(0, false));
  }

  /** Meanwhile an outside writer opens, writes and bumps. */
  function ThenOutside(before: seq<Step>, op: WriteOp): seq<Step> {
    before + [Arrive(1, op, false)] + [ReadFile(1, false)] + [PeekGeneration(1, false)] + [Acquire(1)] + [WriteFile(1)] + [Bump(1)]
  }

  function Overtaken(contents: Contents, generation: nat, op: WriteOp, edit: WriteOp): State {
    State(Effect(contents, edit), generation + 1, generation + 1, None, Some(0),
          map[0 := Writer(op, true, Reading(contents, generation)), 1 := Writer(edit, false, Finished(Edited))],
          [Commit(1, edit, Edited, true, generation, generation)])
  }

  lemma OutsideSteps(contents: Contents, generation: nat, op: WriteOp, edit: WriteOp)
    requires edit.Edit? && generation < MAX_GENERATION
    ensures var s := DoReadFile(DoArrive(HalfOpen(contents, generation, op), 1, edit, false), 1, false);
            DoBump(DoWriteFile(DoAcquire(DoPeekGeneration(s, 1, false), 1), 1), 1) == Overtaken(contents, generation, op, edit)
  {
    hide Effect;
    var first := Writer(op, true, Reading(contents, generation));
    var s := DoReadFile(DoArrive(HalfOpen(contents, generation, op), 1, edit, false), 1, false);
    assert s.writers == map[0 := first, 1 := Writer(edit, false, Reading(contents, generation))];
    var t := DoAcquire(DoPeekGeneration(s, 1, false), 1);
    assert t.writers == map[0 := first, 1 := Writer(edit, false, Holding(contents, generation, generation))];
    assert t.fileLock == Some(1);
  }

  lemma OutsideRuns(contents: Contents, generation: nat, op: WriteOp, edit: WriteOp, before: seq<Step>, s: State)
    requires edit.Edit? && generation < MAX_GENERATION
    requires Exec(s, before) == HalfOpen(contents, generation, op)
    ensures Exec(s, ThenOutside(before, edit)) == Overtaken(contents, generation, op, edit)
  {
    hide Exec, Effect, HalfOpen, Overtaken, DoArrive, DoReadFile, DoPeekGeneration, DoAcquire, DoWriteFile, DoBump;
    OutsideSteps(contents, generation, op, edit);
    var b := before;
    ExecSnoc(s, b, Arrive(1, edit, false));
    var b1 := b + [Arrive(1, edit, false)];
    ExecSnoc(s, b1, ReadFile(1, false));
    var b2 := b1 + [ReadFile(1, false)];
    ExecSnoc(s, b2, PeekGeneration(1, false));
    var b3 := b2 + [PeekGeneration(1, false)];
    ExecSnoc(s, b3, Acquire(1));
    var b4 := b3 + [Acquire(1)];
    ExecSnoc(s, b4, WriteFile(1));
    var b5 := b4 + [WriteFile(1)];
    ExecSnoc(s, b5, Bump(1));
  }

  /** And the broker's request reads the new generation, so that its check passes. */
  function ThenClosing(before: seq<Step>): seq<Step> {
    before + [PeekGeneration(0, false)] + [Acquire(0)] + [WriteFile(0)] + [Bump(0)]
  }

  lemma ClosingRuns(contents: Contents, generation: nat, op: WriteOp, edit: WriteOp, before: seq<Step>, s: State)
    requires op.Store? && op.key !in contents && generation + 1 < MAX_GENERATION
    requires Exec(s, before) == Overtaken(contents, generation, op, edit)
    ensures var t := Exec(s, ThenClosing(before));
            && t.contents == Effect(contents, op)
            && 0 in t.writers && t.writers[0].stage == Finished(Stored(true))
            && 1 in t.writers && t.writers[1].stage == Finished(Edited)
            && t.commits == [Commit(1, edit, Edited, true, generation, generation), Commit(0, op, Stored(true), false, generation, generation + 1)]
  {
    hide Exec, Effect;
    var b := before;
    ExecSnoc(s, b, PeekGeneration(0, false));
    var b1 := b + [PeekGeneration(0, false)];
    ExecSnoc(s, b1, Acquire(0));
    var b2 := b1 + [Acquire(0)];
    ExecSnoc(s, b2, WriteFile(0));
    var b3 := b2 + [WriteFile(0)];
    ExecSnoc(s, b3, Bump(0));
  }

  /**
   * The generation check does not rule out a lost update: when an outside writer's whole write falls between the
   * broker's reading of the file and of its generation, both report success and the outside writer's key is gone.
   */
  lemma OutsideWriteIsLost(contents: Contents, generation: nat, key: SecretKey, entry: Entry, other: SecretKey, theirs: Entry)
    requires key != other && key !in contents && other !in contents && generation + 1 < MAX_GENERATION
    ensures var s := Quiescent(contents, generation);
            var t := Exec(s, ThenClosing(ThenOutside(Opening(Store(key, entry, false)), Edit(map[other := theirs], {}))));
            && Initial(s)
            && 0 in t.writers && t.writers[0].stage == Finished(Stored(true))
            && 1 in t.writers && t.writers[1].stage == Finished(Edited)
            && other !in t.contents && key in t.contents
  {
    hide Exec;
    var op, edit := Store(key, entry, false), Edit(map[other := theirs], {});
    var s := Quiescent(contents, generation);
    OpeningRuns(contents, generation, op);
    OutsideRuns(contents, generation, op, edit, Opening(op), s);
    ClosingRuns(contents, generation, op, edit, ThenOutside(Opening(op), edit), s);
  }
}
