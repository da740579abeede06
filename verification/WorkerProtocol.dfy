/** Workers, the task table and the pair locks as one transition system (backend/internal/worker/processor.go,
    backend/internal/storage/postgres/pair_lock.go). Every SQL statement is one step; any number of workers,
    any deliveries (Kafka, polling, duplicates), crashes and lost connections, in any interleaving. */
module WorkerProtocol {
  import opened Common
  import opened TaskIds
  import opened TaskTable

  /** Where a worker is in Processor.Process. */
  datatype Phase =
    | Idle
    | Claimed(item: Task)                                // claim succeeded, waiting for the pair lock
    | Executing(item: Task, session: nat)                // lock taken, Execute running
    | Executed(item: Task, session: nat, failed: bool)   // Execute returned, Complete or Fail not yet sent
    | Unlocking(item: Task, session: nat)                // status written (or lost), deferred unlock pending

  /** A session-level advisory lock: the holding session, and how often it took the lock. */
  datatype Hold = Hold(session: nat, times: nat)

  /** locks is keyed by advisory key; closed are the database sessions that are gone. */
  datatype Sys = Sys(tasks: Table, workers: map<nat, Phase>, locks: map<int, Hold>, closed: set<nat>)

  datatype Step =
    | Schedule(batch: seq<Task>, now: int)                                  // the planner's Enqueue
    | Cleanup(removed: set<string>)                                         // PruneOldTasks
    | Start(w: nat, item: Task, name: string, now: int)                     // Claim answers
    | StartLost(item: Task, name: string, now: int)                         // Claim takes effect, its answer is lost
    | LockError(w: nat)                                                     // Lock returns an error
    | TakeLock(w: nat, session: nat)                                        // pg_advisory_lock returns
    | Return(w: nat, failed: bool)                                          // Execute returns
    | Finish(w: nat, error: string, retryAt: int, now: int, written: bool)  // Complete or Fail; written: took effect
    | Unlock(w: nat, released: bool)                                        // pg_advisory_unlock, or its failure
    | Crash(w: nat)                                                         // the worker's process and session die
    | SessionLost(session: nat)                                             // only the connection dies

  function PhaseOf(s: Sys, w: nat): Phase { if w in s.workers then s.workers[w] else Idle }

  /** The advisory key of a pair; the source hashes the symbol. */
  type KeyFunction = string -> int

  predicate UsesSession(p: Phase, session: nat) {
    (p.Executing? || p.Executed? || p.Unlocking?) && p.session == session
  }

  function Release(locks: map<int, Hold>, key: int, session: nat): map<int, Hold> {
    if key !in locks || locks[key].session != session then locks
    else if locks[key].times <= 1 then map k | k in locks && k != key :: locks[k]
    else locks[key := Hold(session, locks[key].times - 1)]
  }

  function CloseSession(s: Sys, session: nat): Sys {
    s.(locks := map k | k in s.locks && s.locks[k].session != session :: s.locks[k], closed := s.closed + {session})
  }

  /** Task ids start with the task type and a colon, and no type contains a colon. */
  predicate WellNamed(t: Task) { t.taskType == TypeOfId(t.id) }

  ghost predicate Enabled(s: Sys, step: Step, key: KeyFunction) {
    match step
    case Schedule(batch, _) => forall t :: t in batch ==> WellNamed(t)
    case Cleanup(_) => true
    case Start(w, _, _, _) => PhaseOf(s, w).Idle?
    case StartLost(_, _, _) => true
    case LockError(w) => PhaseOf(s, w).Claimed?
    case TakeLock(w, session) =>
      // a pooled connection serves one worker at a time; the lock is free or already this session's
      && PhaseOf(s, w).Claimed? && session !in s.closed
      && (forall v :: v in s.workers ==> !UsesSession(s.workers[v], session))
      && var k := key(PhaseOf(s, w).item.pair); k in s.locks ==> s.locks[k].session == session
    case Return(w, _) => PhaseOf(s, w).Executing?
    case Finish(w, _, _, _, _) => PhaseOf(s, w).Executed?
    case Unlock(w, _) => PhaseOf(s, w).Unlocking?
    case Crash(w) => !PhaseOf(s, w).Idle?
    case SessionLost(_) => true
  }

  ghost function Do(s: Sys, step: Step, key: KeyFunction): Sys
    requires Enabled(s, step, key)
  {
    match step
    case Schedule(batch, now) => s.(tasks := EnqueueAll(s.tasks, batch, now).0)
    case Cleanup(removed) => s.(tasks := Apply(s.tasks, Prune(removed)))
    case Start(w, item, name, now) =>
      if Claimable(s.tasks, item.id)
      then s.(tasks := ClaimRow(s.tasks, item.id, name, now), workers := s.workers[w := Claimed(item)])
      else s
    case StartLost(item, name, now) => s.(tasks := ClaimRow(s.tasks, item.id, name, now))
    case LockError(w) => s.(workers := s.workers[w := Idle])
    case TakeLock(w, session) =>
      var item := PhaseOf(s, w).item;
      var k := key(item.pair);
      s.(locks := s.locks[k := Hold(session, if k in s.locks then s.locks[k].times + 1 else 1)],
         workers := s.workers[w := Executing(item, session)])
    case Return(w, failed) =>
      var p := PhaseOf(s, w);
      s.(workers := s.workers[w := Executed(p.item, p.session, failed)])
    case Finish(w, error, retryAt, now, written) =>
      var p := PhaseOf(s, w);
      var tasks := if !written then s.tasks
                   else if p.failed then FailRow(s.tasks, p.item.id, error, retryAt, now)
                   else CompleteRow(s.tasks, p.item.id, now);
      s.(tasks := tasks, workers := s.workers[w := Unlocking(p.item, p.session)])
    case Unlock(w, released) =>
      var p := PhaseOf(s, w);
      var locks := if released && p.session !in s.closed then Release(s.locks, key(p.item.pair), p.session) else s.locks;
      s.(locks := locks, workers := s.workers[w := Idle])
    case Crash(w) =>
      var p := PhaseOf(s, w);
      var t := s.(workers := s.workers[w := Idle]);
      if p.Claimed? then t else CloseSession(t, p.session)
    case SessionLost(session) => CloseSession(s, session)
  }

  /** The states of a run: no worker busy and no lock held at first, then enabled steps. */
  ghost predicate IsRun(trace: seq<Sys>, steps: seq<Step>, key: KeyFunction) {
    && |trace| == |steps| + 1
    && trace[0].workers == map[] && trace[0].locks == map[]
    && (forall id :: id in trace[0].tasks ==> trace[0].tasks[id].taskType == TypeOfId(id))
    && forall i :: 0 <= i < |steps| ==> Enabled(trace[i], steps[i], key) && trace[i + 1] == Do(trace[i], steps[i], key)
  }

  // ---------- one delivery, undisturbed ----------

  /** The table after Process, when no one else touches it: the claim may be refused, the lock may fail,
      and Execute may return an error. */
  function Processed(tasks: Table, id: string, worker: string, locked: bool, failure: Option<string>, retryAt: int, now: int): Table {
    if !Claimable(tasks, id) then tasks
    else
      var claimed := ClaimRow(tasks, id, worker, now);
      if !locked then claimed
      else if failure.Some? then FailRow(claimed, id, failure.value, retryAt, now)
      else CompleteRow(claimed, id, now)
  }

  /** A waiting or failed task is claimed, and then stays running without its lock, is completed, or goes back to
      waiting or fails for good with the error counted; any other task, and every other row, is untouched. */
  ghost predicate AreProcessed(after: Table, before: Table, id: string, worker: string, locked: bool, failure: Option<string>) {
    && (forall other :: other != id ==> SameRow(after, before, other))
    && (id !in before || (before[id].status != Pending && before[id].status != Failed) ==> SameRow(after, before, id))
    && (id in before && (before[id].status == Pending || before[id].status == Failed) ==>
          && id in after && after[id].claimedBy == Some(worker) && after[id].claimedAt.Some?
          && (!locked ==> after[id].status == Running && after[id].retryCount == before[id].retryCount)
          && (locked && failure.None? ==> after[id].status == Completed && after[id].completedAt.Some?
                                          && after[id].retryCount == before[id].retryCount)
          && (locked && failure.Some? ==> (after[id].status == Pending || after[id].status == Failed)
                                          && after[id].lastError == failure && after[id].retryCount == before[id].retryCount + 1))
  }

  class Processor {
    const store: TaskRepository

    constructor (store: TaskRepository)
      ensures this.store == store
    {
      this.store := store;
    }

    /** locked: the advisory lock was obtained; failure: what Execute returns; an error is reported to the caller. */
    method Process(item: Task, locked: bool, failure: Option<string>, jitter: int, now: int) returns (ok: bool)
      requires store.Valid() && -300 <= jitter <= 300
      modifies store
      ensures store.Valid()
      ensures store.tasks == Processed(old(store.tasks), item.id, store.workerId, locked, failure, now + HOUR + jitter, now)
      ensures ok <==> !Claimable(old(store.tasks), item.id) || (locked && failure.None?)
      ensures AreProcessed(store.tasks, old(store.tasks), item.id, store.workerId, locked, failure)
    {
      var claimed := store.Claim(item.id, now);
      if !claimed {
        return true;
      }
      if !locked {
        return false;
      }
      if failure.Some? {
        store.Fail(item.id, failure.value, jitter, now);
        return false;
      }
      store.Complete(item.id, now);
      return true;
    }
  }

  /** A worker that has claimed the task and holds a fresh lock. */
  function Locked(s: Sys, key: KeyFunction, w: nat, item: Task, session: nat, name: string, now: int): Sys {
    s.(tasks := ClaimRow(s.tasks, item.id, name, now), workers := s.workers[w := Executing(item, session)],
       locks := s.locks[key(item.pair) := Hold(session, 1)])
  }

  lemma ClaimAndLock(s: Sys, key: KeyFunction, w: nat, item: Task, session: nat, name: string, now: int)
    requires PhaseOf(s, w).Idle? && Claimable(s.tasks, item.id)
    requires session !in s.closed && key(item.pair) !in s.locks
    requires forall v :: v in s.workers ==> !UsesSession(s.workers[v], session)
    ensures Enabled(s, Start(w, item, name, now), key)
    ensures
      var claimed := Do(s, Start(w, item, name, now), key);
      Enabled(claimed, TakeLock(w, session), key) &&
      Do(claimed, TakeLock(w, session), key) == Locked(s, key, w, item, session, name, now)
  {
    hide Claimable, ClaimRow;
    var claimed := Do(s, Start(w, item, name, now), key);
    assert claimed.workers[w := Executing(item, session)] == s.workers[w := Executing(item, session)];
  }

  lemma FinishAndUnlock(s: Sys, key: KeyFunction, w: nat, item: Task, session: nat, failure: Option<string>, retryAt: int, now: int,
                        locks: map<int, Hold>)
    requires PhaseOf(s, w) == Executing(item, session) && session !in s.closed
    requires key(item.pair) !in locks && s.locks == locks[key(item.pair) := Hold(session, 1)]
    ensures Enabled(s, Return(w, failure.Some?), key)
    ensures
      var returned := Do(s, Return(w, failure.Some?), key);
      var finish := Finish(w, failure.GetOr(""), retryAt, now, true);
      Enabled(returned, finish, key) &&
      var finished := Do(returned, finish, key);
      Enabled(finished, Unlock(w, true), key) &&
      Do(finished, Unlock(w, true), key) == s.(locks := locks, workers := s.workers[w := Idle],
        tasks := if failure.Some? then FailRow(s.tasks, item.id, failure.value, retryAt, now) else CompleteRow(s.tasks, item.id, now))
  {
    hide FailRow, CompleteRow;
    assert Release(s.locks, key(item.pair), session) == locks;
  }

  /** The five steps of a worker, taken without interference, are Process: the pair lock is free again. */
  lemma ProcessIsFiveSteps(s: Sys, key: KeyFunction, w: nat, item: Task, session: nat, name: string, failure: Option<string>,
                           retryAt: int, now: int)
    requires PhaseOf(s, w).Idle? && Claimable(s.tasks, item.id)
    requires session !in s.closed && key(item.pair) !in s.locks
    requires forall v :: v in s.workers ==> !UsesSession(s.workers[v], session)
    ensures Enabled(s, Start(w, item, name, now), key)
    ensures
      var claimed := Do(s, Start(w, item, name, now), key);
      Enabled(claimed, TakeLock(w, session), key) &&
      var running := Do(claimed, TakeLock(w, session), key);
      Enabled(running, Return(w, failure.Some?), key) &&
      var returned := Do(running, Return(w, failure.Some?), key);
      var finish := Finish(w, failure.GetOr(""), retryAt, now, true);
      Enabled(returned, finish, key) &&
      var finished := Do(returned, finish, key);
      Enabled(finished, Unlock(w, true), key) &&
      Do(finished, Unlock(w, true), key)
        == s.(tasks := Processed(s.tasks, item.id, name, true, failure, retryAt, now), workers := s.workers[w := Idle])
  {
    hide Claimable, ClaimRow, FailRow, CompleteRow, Do, Enabled, UsesSession;
    ClaimAndLock(s, key, w, item, session, name, now);
    var running := Locked(s, key, w, item, session, name, now);
    FinishAndUnlock(running, key, w, item, session, failure, retryAt, now, s.locks);
    assert running.workers[w := Idle] == s.workers[w := Idle];
  }

  // ---------- the invariants ----------

  /** Between Claim and Complete or Fail. */
  predicate Owns(p: Phase, id: string) { (p.Claimed? || p.Executing? || p.Executed?) && p.item.id == id }

  ghost predicate TypesAreNamed(s: Sys) { forall id :: id in s.tasks ==> s.tasks[id].taskType == TypeOfId(id) }

  ghost predicate RowIsRunning(s: Sys, id: string) { id in s.tasks && s.tasks[id].status.Running? }

  /** The task has at most one owner, and its row is running while it has one. */
  ghost predicate ExclusiveFor(s: Sys, id: string) {
    && (forall w :: Owns(PhaseOf(s, w), id) ==> RowIsRunning(s, id))
    && (forall v, w :: Owns(PhaseOf(s, v), id) && Owns(PhaseOf(s, w), id) ==> v == w)
  }

  /** A claimed task that is not a live ticker has a running row and one owner. */
  ghost predicate OwnersAreExclusive(s: Sys) { forall id :: TypeOfId(id) != REALTIME ==> ExclusiveFor(s, id) }

  /** A worker that took its lock over a live session holds the lock; no two workers share a session. */
  ghost predicate LocksAreHeld(s: Sys, key: KeyFunction) {
    && (forall w, session :: UsesSession(PhaseOf(s, w), session) && session !in s.closed ==>
          var k := key(PhaseOf(s, w).item.pair); k in s.locks && s.locks[k].session == session)
    && (forall v, w, session :: UsesSession(PhaseOf(s, v), session) && UsesSession(PhaseOf(s, w), session) ==> v == w)
    && (forall k :: k in s.locks ==> s.locks[k].session !in s.closed)
  }

  ghost predicate Inv(s: Sys, key: KeyFunction) { TypesAreNamed(s) && OwnersAreExclusive(s) && LocksAreHeld(s, key) }

  lemma {:induction false} EnqueueKeepsTypes(tasks: Table, batch: seq<Task>, now: int)
    requires forall id :: id in tasks ==> tasks[id].taskType == TypeOfId(id)
    requires forall t :: t in batch ==> WellNamed(t)
    ensures forall id :: id in EnqueueAll(tasks, batch, now).0 ==> EnqueueAll(tasks, batch, now).0[id].taskType == TypeOfId(id)
  {
    if batch != [] {
      var front, last := batch[..|batch| - 1], batch[|batch| - 1];
      assert batch == front + [last];
      assert forall t :: t in front ==> t in batch;
      assert WellNamed(last);
      EnqueueKeepsTypes(tasks, front, now);
    }
  }

  lemma StepKeepsTypes(s: Sys, step: Step, key: KeyFunction)
    requires TypesAreNamed(s) && Enabled(s, step, key)
    ensures TypesAreNamed(Do(s, step, key))
  {
    hide TypeOfId, EnqueueAll;
    match step {
      case Schedule(batch, now) => EnqueueKeepsTypes(s.tasks, batch, now);
      case _ =>
    }
  }

  /** A worker owns a task only by a claim that succeeded. */
  lemma OwnersClaimed(s: Sys, step: Step, key: KeyFunction, w: nat, id: string)
    requires Enabled(s, step, key)
    ensures Owns(PhaseOf(Do(s, step, key), w), id) ==>
      Owns(PhaseOf(s, w), id) || (step.Start? && step.w == w && step.item.id == id && Claimable(s.tasks, id))
    ensures Owns(PhaseOf(Do(s, step, key), w), id) && step.Finish? ==> step.w != w
  {
    hide TypeOfId, EnqueueAll, Release, UsesSession, Reopens;
    match step {
      case Start(_, _, _, _) =>
      case TakeLock(_, _) =>
      case Return(_, _) =>
      case Crash(_) =>
      case _ =>
    }
  }

  /** The step enqueues the task again although its row says running. */
  ghost predicate Reopening(s: Sys, step: Step, id: string) {
    && step.Schedule? && RowIsRunning(s, id)
    && !(id in EnqueueAll(s.tasks, step.batch, step.now).0 && EnqueueAll(s.tasks, step.batch, step.now).0[id] == s.tasks[id])
  }

  /** ... under a worker that still owns it. */
  ghost predicate Displaces(s: Sys, step: Step, id: string) {
    Reopening(s, step, id) && exists w :: Owns(PhaseOf(s, w), id)
  }

  /** Only live tickers are ever reopened while running, more than 30 seconds after their claim. */
  lemma ReopenedIsStale(s: Sys, step: Step, id: string)
    requires TypesAreNamed(s) && Reopening(s, step, id)
    ensures TypeOfId(id) == REALTIME && s.tasks[id].claimedAt.Some? && s.tasks[id].claimedAt.value < step.now - STALE_AFTER
  {
    hide EnqueueAll, TypeOfId;
    OnlyStaleTickersReopen(s.tasks, step.batch, step.now, id);
  }

  /** A running row does not change, unless it is reopened or a worker of the task writes its outcome. */
  lemma RowStaysRunning(s: Sys, step: Step, key: KeyFunction, id: string)
    requires Enabled(s, step, key) && RowIsRunning(s, id) && !Reopening(s, step, id)
    requires step.Finish? ==> PhaseOf(s, step.w).item.id != id
    ensures RowIsRunning(Do(s, step, key), id) && Do(s, step, key).tasks[id] == s.tasks[id]
  {
    hide TypeOfId, EnqueueAll, Release, UsesSession, Reopens;
    match step {
      case Start(_, _, _, _) =>
      case Finish(_, _, _, _, _) =>
      case Crash(_) =>
      case _ =>
    }
  }

  lemma ClaimMakesRunning(s: Sys, step: Step, key: KeyFunction)
    requires Enabled(s, step, key) && step.Start? && Claimable(s.tasks, step.item.id)
    ensures RowIsRunning(Do(s, step, key), step.item.id)
    ensures Do(s, step, key).tasks[step.item.id].claimedAt == Some(step.now)
  {
  }

  /** An owner before the step that is one after it keeps its row; a new owner has just made the row running. */
  lemma OwnersRow(s: Sys, step: Step, key: KeyFunction, w: nat, id: string)
    requires ExclusiveFor(s, id) && Enabled(s, step, key) && !Displaces(s, step, id)
    requires Owns(PhaseOf(Do(s, step, key), w), id)
    ensures RowIsRunning(Do(s, step, key), id)
    ensures Owns(PhaseOf(s, w), id) ==> Do(s, step, key).tasks[id] == s.tasks[id]
    ensures !Owns(PhaseOf(s, w), id) ==>
      step.Start? && step.w == w && step.item.id == id && Claimable(s.tasks, id)
      && Do(s, step, key).tasks[id].claimedAt == Some(step.now)
  {
    OwnersClaimed(s, step, key, w, id);
    hide TypeOfId, Do;
    if Owns(PhaseOf(s, w), id) {
      if step.Finish? {
        assert Owns(PhaseOf(s, step.w), PhaseOf(s, step.w).item.id);
      }
      RowStaysRunning(s, step, key, id);
    } else {
      ClaimMakesRunning(s, step, key);
    }
  }

  lemma StepKeepsExclusive(s: Sys, step: Step, key: KeyFunction, id: string)
    requires ExclusiveFor(s, id) && Enabled(s, step, key) && !Displaces(s, step, id)
    ensures ExclusiveFor(Do(s, step, key), id)
  {
    hide Do, TypeOfId, Displaces;
    var t := Do(s, step, key);
    forall w | Owns(PhaseOf(t, w), id) ensures RowIsRunning(t, id) {
      OwnersRow(s, step, key, w, id);
    }
    forall v, w | Owns(PhaseOf(t, v), id) && Owns(PhaseOf(t, w), id) ensures v == w {
      OwnersRow(s, step, key, v, id);
      OwnersRow(s, step, key, w, id);
    }
  }

  lemma StepKeepsOwners(s: Sys, step: Step, key: KeyFunction)
    requires TypesAreNamed(s) && OwnersAreExclusive(s) && Enabled(s, step, key)
    ensures OwnersAreExclusive(Do(s, step, key))
  {
    hide Do, TypeOfId, ExclusiveFor, TypesAreNamed, Reopening;
    forall id | TypeOfId(id) != REALTIME ensures ExclusiveFor(Do(s, step, key), id) {
      if Reopening(s, step, id) {
        ReopenedIsStale(s, step, id);
      }
      StepKeepsExclusive(s, step, key, id);
    }
  }

  /** A worker uses a session only after taking a lock on it. */
  lemma SessionsAreTaken(s: Sys, step: Step, key: KeyFunction, w: nat, session: nat)
    requires Enabled(s, step, key) && UsesSession(PhaseOf(Do(s, step, key), w), session)
    ensures UsesSession(PhaseOf(s, w), session) || step == TakeLock(w, session)
  {
    hide EnqueueAll, FailRow, CompleteRow, ClaimRow, Apply, Release;
    match step {
      case Start(_, _, _, _) =>
      case TakeLock(_, _) =>
      case _ =>
    }
  }

  /** The lock of a worker that keeps using a live session stays with that session. */
  lemma LockStays(s: Sys, step: Step, key: KeyFunction, w: nat, session: nat)
    requires LocksAreHeld(s, key) && Enabled(s, step, key)
    requires UsesSession(PhaseOf(Do(s, step, key), w), session) && session !in Do(s, step, key).closed
    ensures
      var t := Do(s, step, key);
      var k := key(PhaseOf(t, w).item.pair);
      k in t.locks && t.locks[k].session == session
  {
    SessionsAreTaken(s, step, key, w, session);
    hide EnqueueAll, FailRow, CompleteRow, ClaimRow, Apply;
    match step {
      case TakeLock(v, taken) =>
        if v != w {
          assert UsesSession(PhaseOf(s, w), session);
        }
      case Unlock(v, _) => assert UsesSession(PhaseOf(s, v), PhaseOf(s, v).session);
      case Crash(_) =>
      case SessionLost(_) =>
      case _ =>
    }
  }

  lemma LocksStayLive(s: Sys, step: Step, key: KeyFunction)
    requires LocksAreHeld(s, key) && Enabled(s, step, key)
    ensures var t := Do(s, step, key); forall k :: k in t.locks ==> t.locks[k].session !in t.closed
  {
    hide EnqueueAll, FailRow, CompleteRow, ClaimRow, Apply, UsesSession;
  }

  lemma StepKeepsLocks(s: Sys, step: Step, key: KeyFunction)
    requires LocksAreHeld(s, key) && Enabled(s, step, key)
    ensures LocksAreHeld(Do(s, step, key), key)
  {
    LocksStayLive(s, step, key);
    hide Do;
    var t := Do(s, step, key);
    forall w, session | UsesSession(PhaseOf(t, w), session) && session !in t.closed
      ensures var k := key(PhaseOf(t, w).item.pair); k in t.locks && t.locks[k].session == session
    {
      LockStays(s, step, key, w, session);
    }
    forall v, w, session | UsesSession(PhaseOf(t, v), session) && UsesSession(PhaseOf(t, w), session) ensures v == w {
      SessionsAreTaken(s, step, key, v, session);
      SessionsAreTaken(s, step, key, w, session);
    }
  }

  lemma {:induction false} RunsKeepInv(trace: seq<Sys>, steps: seq<Step>, key: KeyFunction, n: nat)
    requires IsRun(trace, steps, key) && n <= |steps|
    ensures Inv(trace[n], key)
  {
    hide Do, Enabled, TypeOfId, Owns, UsesSession;
    if n == 0 {
      FreshSystem(trace[0], key);
    } else {
      RunsKeepInv(trace, steps, key, n - 1);
      StepKeepsTypes(trace[n - 1], steps[n - 1], key);
      StepKeepsOwners(trace[n - 1], steps[n - 1], key);
      StepKeepsLocks(trace[n - 1], steps[n - 1], key);
    }
  }

  lemma FreshSystem(s: Sys, key: KeyFunction)
    requires s.workers == map[] && s.locks == map[] && TypesAreNamed(s)
    ensures Inv(s, key)
  {
    hide TypeOfId;
  }

  // ---------- what every run keeps ----------

  /** At most one worker is between Claim and Complete or Fail of a task that is not a live ticker,
      and the task's row is running all that time. */
  lemma ClaimsAreExclusive(trace: seq<Sys>, steps: seq<Step>, key: KeyFunction, n: nat, id: string)
    requires IsRun(trace, steps, key) && n <= |steps| && TypeOfId(id) != "live_ticker"
    ensures forall w :: Owns(PhaseOf(trace[n], w), id) ==> RowIsRunning(trace[n], id)
    ensures forall v, w :: Owns(PhaseOf(trace[n], v), id) && Owns(PhaseOf(trace[n], w), id) ==> v == w
  {
    RunsKeepInv(trace, steps, key, n);
  }

  /** Any task, live tickers included, has at most one owner as long as it is not reopened under one. */
  lemma {:induction false} ExclusiveUntilDisplaced(trace: seq<Sys>, steps: seq<Step>, key: KeyFunction, n: nat, id: string)
    requires IsRun(trace, steps, key) && n <= |steps|
    requires forall i :: 0 <= i < n ==> !Displaces(trace[i], steps[i], id)
    ensures ExclusiveFor(trace[n], id)
  {
    hide Do, Enabled, TypeOfId, Displaces;
    if n > 0 {
      ExclusiveUntilDisplaced(trace, steps, key, n - 1, id);
      StepKeepsExclusive(trace[n - 1], steps[n - 1], key, id);
    }
  }

  /** Until then the row carries the time of the owner's claim. */
  lemma {:induction false} OwnersClaim(trace: seq<Sys>, steps: seq<Step>, key: KeyFunction, n: nat, id: string, w: nat) returns (m: nat)
    requires IsRun(trace, steps, key) && n <= |steps| && Owns(PhaseOf(trace[n], w), id)
    requires forall i :: 0 <= i < n ==> !Displaces(trace[i], steps[i], id)
    ensures m < n && steps[m].Start? && steps[m].w == w && steps[m].item.id == id && Claimable(trace[m].tasks, id)
    ensures RowIsRunning(trace[n], id) && trace[n].tasks[id].claimedAt == Some(steps[m].now)
  {
    hide Do, Enabled, TypeOfId, Displaces, Claimable;
    assert n > 0;
    ExclusiveUntilDisplaced(trace, steps, key, n - 1, id);
    OwnersRow(trace[n - 1], steps[n - 1], key, w, id);
    if Owns(PhaseOf(trace[n - 1], w), id) {
      m := OwnersClaim(trace, steps, key, n - 1, id, w);
    } else {
      m := n - 1;
    }
  }

  /** Two workers own one task only if it is a live ticker that was enqueued again more than 30 seconds after the
      claim of a worker that still owned it. */
  lemma SharedOnlyIfDisplaced(trace: seq<Sys>, steps: seq<Step>, key: KeyFunction, n: nat, id: string, v: nat, w: nat)
    returns (m: nat, i: nat)
    requires IsRun(trace, steps, key) && n <= |steps|
    requires v != w && Owns(PhaseOf(trace[n], v), id) && Owns(PhaseOf(trace[n], w), id)
    ensures m < i < n && TypeOfId(id) == "live_ticker"
    ensures steps[m].Start? && steps[m].item.id == id && Claimable(trace[m].tasks, id)
    ensures Owns(PhaseOf(trace[i], steps[m].w), id) && Reopening(trace[i], steps[i], id) && steps[m].now < steps[i].now - 30
  {
    hide Do, Enabled, TypeOfId, Reopening, Claimable;
    i := FirstDisplaced(trace, steps, key, n, id, v, w);
    var x :| Owns(PhaseOf(trace[i], x), id);
    m := OwnersClaim(trace, steps, key, i, id, x);
    RunsKeepInv(trace, steps, key, i);
    ReopenedIsStale(trace[i], steps[i], id);
  }

  lemma FirstDisplaced(trace: seq<Sys>, steps: seq<Step>, key: KeyFunction, n: nat, id: string, v: nat, w: nat) returns (i: nat)
    requires IsRun(trace, steps, key) && n <= |steps|
    requires v != w && Owns(PhaseOf(trace[n], v), id) && Owns(PhaseOf(trace[n], w), id)
    ensures i < n && Displaces(trace[i], steps[i], id) && forall j :: 0 <= j < i ==> !Displaces(trace[j], steps[j], id)
  {
    hide Do, Enabled, TypeOfId, Displaces;
    i := 0;
    while i < n && !Displaces(trace[i], steps[i], id)
      invariant i <= n && forall j :: 0 <= j < i ==> !Displaces(trace[j], steps[j], id)
    {
      i := i + 1;
    }
    if i == n {
      ExclusiveUntilDisplaced(trace, steps, key, n, id);
    }
  }

  /** And whenever it is, the next idle worker to claim it is a second owner. */
  lemma DisplacedIsShared(s: Sys, step: Step, key: KeyFunction, id: string, w: nat, v: nat, item: Task, name: string, now: int)
    requires Enabled(s, step, key) && Displaces(s, step, id) && Owns(PhaseOf(s, w), id)
    requires PhaseOf(s, v).Idle? && item.id == id
    ensures
      var t := Do(s, step, key);
      Enabled(t, Start(v, item, name, now), key)
      && Owns(PhaseOf(Do(t, Start(v, item, name, now), key), v), id) && Owns(PhaseOf(Do(t, Start(v, item, name, now), key), w), id)
  {
    hide TypeOfId, Reopens;
    ReopenedIsPending(s.tasks, step.batch, step.now, id);
    hide EnqueueAll;
  }

  /** Two workers never execute for one pair (or for two pairs with one advisory key) at a time,
      unless the session of one of them was lost under it. */
  lemma PairsExecuteAlone(trace: seq<Sys>, steps: seq<Step>, key: KeyFunction, n: nat, v: nat, w: nat)
    requires IsRun(trace, steps, key) && n <= |steps|
    requires PhaseOf(trace[n], v).Executing? && PhaseOf(trace[n], w).Executing?
    requires key(PhaseOf(trace[n], v).item.pair) == key(PhaseOf(trace[n], w).item.pair)
    ensures v == w || PhaseOf(trace[n], v).session in trace[n].closed || PhaseOf(trace[n], w).session in trace[n].closed
  {
    RunsKeepInv(trace, steps, key, n);
    var p, q := PhaseOf(trace[n], v), PhaseOf(trace[n], w);
    assert UsesSession(p, p.session) && UsesSession(q, q.session);
  }

  /** No step closes a session but the loss of it or the crash of the worker that uses it. */
  lemma SessionsOutliveWorkers(s: Sys, step: Step, key: KeyFunction, w: nat)
    requires LocksAreHeld(s, key) && Enabled(s, step, key)
    requires PhaseOf(s, w).Executing? && PhaseOf(Do(s, step, key), w).Executing?
    requires PhaseOf(s, w).session !in s.closed
    ensures PhaseOf(Do(s, step, key), w).session == PhaseOf(s, w).session
    ensures PhaseOf(s, w).session in Do(s, step, key).closed <==> step == SessionLost(PhaseOf(s, w).session)
  {
    hide EnqueueAll, FailRow, CompleteRow, ClaimRow, Apply, Release, TypeOfId;
    assert UsesSession(PhaseOf(s, w), PhaseOf(s, w).session);
    match step {
      case Crash(v) =>
        if !PhaseOf(s, v).Claimed? {
          assert UsesSession(PhaseOf(s, v), PhaseOf(s, v).session);
        }
      case _ =>
    }
  }

  /** No connection is lost under a worker that is executing. */
  ghost predicate SessionsHold(trace: seq<Sys>, steps: seq<Step>) {
    |trace| > |steps| && forall i, w :: 0 <= i < |steps| && PhaseOf(trace[i], w).Executing? ==>
      steps[i] != SessionLost(PhaseOf(trace[i], w).session)
  }

  ghost predicate ExecutingSessionsLive(s: Sys) {
    forall w :: PhaseOf(s, w).Executing? ==> PhaseOf(s, w).session !in s.closed
  }

  lemma StepKeepsSessions(s: Sys, step: Step, key: KeyFunction)
    requires LocksAreHeld(s, key) && Enabled(s, step, key) && ExecutingSessionsLive(s)
    requires forall w :: PhaseOf(s, w).Executing? ==> step != SessionLost(PhaseOf(s, w).session)
    ensures ExecutingSessionsLive(Do(s, step, key))
  {
    hide EnqueueAll, FailRow, CompleteRow, ClaimRow, Apply, Release, TypeOfId, LocksAreHeld;
    var t := Do(s, step, key);
    forall w | PhaseOf(t, w).Executing? ensures PhaseOf(t, w).session !in t.closed {
      if PhaseOf(s, w).Executing? {
        SessionsOutliveWorkers(s, step, key, w);
      }
    }
  }

  lemma {:induction false} ExecutingSessionsStayLive(trace: seq<Sys>, steps: seq<Step>, key: KeyFunction, n: nat)
    requires IsRun(trace, steps, key) && SessionsHold(trace, steps) && n <= |steps|
    ensures ExecutingSessionsLive(trace[n])
  {
    hide Do, Enabled, TypeOfId, Inv;
    if n > 0 {
      ExecutingSessionsStayLive(trace, steps, key, n - 1);
      RunsKeepInv(trace, steps, key, n - 1);
      assert LocksAreHeld(trace[n - 1], key) by { LocksOfInv(trace[n - 1], key); }
      StepKeepsSessions(trace[n - 1], steps[n - 1], key);
    }
  }

  lemma LocksOfInv(s: Sys, key: KeyFunction)
    requires Inv(s, key)
    ensures LocksAreHeld(s, key)
  {
  }

  /** In every run in which connections hold, two workers never execute for one pair at a time. */
  lemma PairsExecuteAloneWhileSessionsHold(trace: seq<Sys>, steps: seq<Step>, key: KeyFunction, n: nat, v: nat, w: nat)
    requires IsRun(trace, steps, key) && SessionsHold(trace, steps) && n <= |steps|
    requires PhaseOf(trace[n], v).Executing? && PhaseOf(trace[n], w).Executing?
    requires key(PhaseOf(trace[n], v).item.pair) == key(PhaseOf(trace[n], w).item.pair)
    ensures v == w
  {
    hide IsRun;
    ExecutingSessionsStayLive(trace, steps, key, n);
    PairsExecuteAlone(trace, steps, key, n, v, w);
  }

  // ---------- stuck tasks ----------

  /** A running row that no worker is working on. */
  ghost predicate Orphaned(s: Sys, id: string) { RowIsRunning(s, id) && forall w :: !Owns(PhaseOf(s, w), id) }

  /** The steps after which an owned task has no owner although its row still says running. */
  predicate Strands(s: Sys, step: Step, id: string) {
    match step
    case LockError(w) => Owns(PhaseOf(s, w), id)
    case Crash(w) => Owns(PhaseOf(s, w), id)
    case Finish(w, _, _, _, written) => Owns(PhaseOf(s, w), id) && !written
    case _ => false
  }

  /** A task in progress is stranded exactly by a lock error, a crash or an unwritten outcome of its owner. */
  lemma StrandedExactlyWhen(s: Sys, step: Step, key: KeyFunction, id: string, w: nat)
    requires Inv(s, key) && Enabled(s, step, key)
    requires Owns(PhaseOf(s, w), id) && TypeOfId(id) != REALTIME
    ensures Orphaned(Do(s, step, key), id) <==> Strands(s, step, id)
  {
    hide TypeOfId, EnqueueAll, Release, UsesSession, LocksAreHeld;
    var t := Do(s, step, key);
    match step {
      case Schedule(batch, now) => RunningIsNotReopened(s.tasks, batch, now, id);
      case _ =>
    }
    assert !Strands(s, step, id) ==> Owns(PhaseOf(t, w), id) || !RowIsRunning(t, id);
    if Strands(s, step, id) {
      forall v ensures !Owns(PhaseOf(t, v), id) {
        assert Owns(PhaseOf(t, v), id) ==> Owns(PhaseOf(s, v), id);
      }
    }
  }

  lemma OrphanStaysOneStep(s: Sys, step: Step, key: KeyFunction, id: string)
    requires TypesAreNamed(s) && Enabled(s, step, key) && Orphaned(s, id) && TypeOfId(id) != REALTIME
    ensures Orphaned(Do(s, step, key), id)
  {
    hide TypeOfId, Do;
    if step.Finish? {
      assert Owns(PhaseOf(s, step.w), PhaseOf(s, step.w).item.id);
    }
    if Reopening(s, step, id) {
      ReopenedIsStale(s, step, id);
    }
    hide Reopening;
    RowStaysRunning(s, step, key, id);
    forall w ensures !Owns(PhaseOf(Do(s, step, key), w), id) {
      assert !Owns(PhaseOf(s, w), id);
      OwnersClaimed(s, step, key, w, id);
    }
  }

  /** A stranded task stays stranded: no later claim, enqueue or cleanup of any run touches it again. */
  lemma {:induction false} OrphansStay(trace: seq<Sys>, steps: seq<Step>, key: KeyFunction, from: nat, n: nat, id: string)
    requires IsRun(trace, steps, key) && from <= n <= |steps|
    requires Orphaned(trace[from], id) && TypeOfId(id) != REALTIME
    ensures Orphaned(trace[n], id)
  {
    hide Do, Enabled, TypeOfId, Orphaned;
    if n > from {
      OrphansStay(trace, steps, key, from, n - 1, id);
      RunsKeepInv(trace, steps, key, n - 1);
      OrphanStaysOneStep(trace[n - 1], steps[n - 1], key, id);
    }
  }

  // ---------- how often a task is executed ----------

  /** The step is a claim of the task that succeeds. */
  predicate Claims(s: Sys, step: Step, id: string) {
    (step.Start? || step.StartLost?) && step.item.id == id && Claimable(s.tasks, id)
  }

  /** The step enqueues the task (new or again), or records that an attempt at it failed. */
  ghost predicate Earns(s: Sys, step: Step, id: string) {
    || (step.Schedule? && exists t :: t in EnqueueAll(s.tasks, step.batch, step.now).1 && t.id == id)
    || (step.Finish? && step.written && PhaseOf(s, step.w).Executed? && PhaseOf(s, step.w).failed
        && PhaseOf(s, step.w).item.id == id)
  }

  ghost function ClaimCount(trace: seq<Sys>, steps: seq<Step>, id: string, n: nat): nat
    requires n <= |steps| < |trace|
  {
    if n == 0 then 0 else ClaimCount(trace, steps, id, n - 1) + if Claims(trace[n - 1], steps[n - 1], id) then 1 else 0
  }

  ghost function EarnedCount(trace: seq<Sys>, steps: seq<Step>, id: string, n: nat): nat
    requires n <= |steps| < |trace|
  {
    if n == 0 then 0 else EarnedCount(trace, steps, id, n - 1) + if Earns(trace[n - 1], steps[n - 1], id) then 1 else 0
  }

  lemma {:induction false} OnlyEnqueueOpens(tasks: Table, batch: seq<Task>, now: int, id: string)
    requires Claimable(EnqueueAll(tasks, batch, now).0, id)
    ensures Claimable(tasks, id) || exists t :: t in EnqueueAll(tasks, batch, now).1 && t.id == id
  {
    if batch != [] {
      var front, last := batch[..|batch| - 1], batch[|batch| - 1];
      var (before, accepted) := EnqueueAll(tasks, front, now);
      if Accepts(before, last, now) && last.id == id {
        assert last in EnqueueAll(tasks, batch, now).1;
      } else {
        OnlyEnqueueOpens(tasks, front, now, id);
        assert accepted <= EnqueueAll(tasks, batch, now).1;
      }
    }
  }

  lemma ClaimableIsEarned(s: Sys, step: Step, key: KeyFunction, id: string)
    requires Enabled(s, step, key)
    ensures Claimable(Do(s, step, key).tasks, id) ==> !Claims(s, step, id) && (Claimable(s.tasks, id) || Earns(s, step, id))
  {
    hide TypeOfId, EnqueueAll, Release, UsesSession;
    match step {
      case Schedule(batch, now) =>
        if Claimable(Do(s, step, key).tasks, id) {
          OnlyEnqueueOpens(s.tasks, batch, now, id);
        }
      case _ =>
    }
  }

  /** However often a task is delivered, it is claimed at most once for every time it was enqueued or an
      attempt at it failed (and once more if it was open at first). */
  lemma {:induction false} ClaimsAreEarned(trace: seq<Sys>, steps: seq<Step>, key: KeyFunction, n: nat, id: string)
    requires IsRun(trace, steps, key) && n <= |steps|
    ensures ClaimCount(trace, steps, id, n) + (if Claimable(trace[n].tasks, id) then 1 else 0)
      <= EarnedCount(trace, steps, id, n) + if Claimable(trace[0].tasks, id) then 1 else 0
  {
    hide Do, Enabled, Claims, Earns, Claimable;
    if n > 0 {
      ClaimsAreEarned(trace, steps, key, n - 1, id);
      ClaimableIsEarned(trace[n - 1], steps[n - 1], key, id);
      ClaimsNeedClaimable(trace[n - 1], steps[n - 1], id);
    }
  }

  lemma ClaimsNeedClaimable(s: Sys, step: Step, id: string)
    ensures Claims(s, step, id) ==> Claimable(s.tasks, id)
  {
  }

  // ---------- tasks that are only published ----------

  lemma {:induction false} EnqueueAddsOnlyItsIds(tasks: Table, batch: seq<Task>, now: int, id: string)
    requires id !in tasks && forall t :: t in batch ==> t.id != id
    ensures id !in EnqueueAll(tasks, batch, now).0
  {
    if batch != [] {
      EnqueueAddsOnlyItsIds(tasks, batch[..|batch| - 1], now, id);
    }
  }

  /** A task that is delivered but never enqueued, as portfolio recomputes are, is never claimed. */
  lemma {:induction false} UnplannedIsNeverClaimed(trace: seq<Sys>, steps: seq<Step>, key: KeyFunction, n: nat, id: string)
    requires IsRun(trace, steps, key) && n <= |steps| && id !in trace[0].tasks
    requires forall i, t :: 0 <= i < |steps| && steps[i].Schedule? && t in steps[i].batch ==> t.id != id
    ensures id !in trace[n].tasks && forall w :: !Owns(PhaseOf(trace[n], w), id)
  {
    hide TypeOfId, EnqueueAll, Release, UsesSession;
    if n > 0 {
      UnplannedIsNeverClaimed(trace, steps, key, n - 1, id);
      UnplannedStaysOut(trace[n - 1], steps[n - 1], key, id);
    }
  }

  lemma UnplannedStaysOut(s: Sys, step: Step, key: KeyFunction, id: string)
    requires Enabled(s, step, key) && id !in s.tasks && forall w :: !Owns(PhaseOf(s, w), id)
    requires step.Schedule? ==> forall t :: t in step.batch ==> t.id != id
    ensures id !in Do(s, step, key).tasks && forall w :: !Owns(PhaseOf(Do(s, step, key), w), id)
  {
    hide TypeOfId, EnqueueAll, Release, UsesSession;
    var t := Do(s, step, key);
    match step {
      case Schedule(batch, now) => EnqueueAddsOnlyItsIds(s.tasks, batch, now, id);
      case _ =>
    }
    forall w ensures !Owns(PhaseOf(t, w), id) {
      assert !Owns(PhaseOf(s, w), id);
    }
  }

  // ---------- where exclusion ends ----------

  lemma ExtendRun(trace: seq<Sys>, steps: seq<Step>, key: KeyFunction, step: Step)
    requires IsRun(trace, steps, key) && Enabled(trace[|steps|], step, key)
    ensures IsRun(trace + [Do(trace[|steps|], step, key)], steps + [step], key)
  {
    hide Do, Enabled, TypeOfId;
  }

  /** The run that starts from an empty table and takes the given steps. */
  ghost predicate Reaches(steps: seq<Step>, key: KeyFunction, s: Sys) {
    exists trace :: IsRun(trace, steps, key) && trace[|steps|] == s
  }

  lemma ReachStep(steps: seq<Step>, key: KeyFunction, s: Sys, step: Step)
    requires Reaches(steps, key, s) && Enabled(s, step, key)
    ensures Reaches(steps + [step], key, Do(s, step, key))
  {
    hide Do, Enabled;
    var trace :| IsRun(trace, steps, key) && trace[|steps|] == s;
    ExtendRun(trace, steps, key, step);
  }

  lemma EnqueueOfOne(tasks: Table, t: Task, now: int)
    ensures EnqueueAll(tasks, [t], now).0 == EnqueueOne(tasks, t, now)
  {
    assert [t][..0] == [];
  }

  const EMPTY := Sys(map[], map[], map[], {})

  lemma ReachEmpty(key: KeyFunction)
    ensures Reaches([], key, EMPTY)
  {
    assert IsRun([EMPTY], [], key);
  }

  /** Two workers own a live ticker at once: the row is reopened 31 seconds after its claim. */
  lemma LiveTickersAreShared(key: KeyFunction, t: Task, now: int)
    requires WellNamed(t) && t.taskType == REALTIME
    ensures exists steps, s :: Reaches(steps, key, s) && Owns(PhaseOf(s, 0), t.id) && Owns(PhaseOf(s, 1), t.id)
  {
    hide TypeOfId, IsRun, Reaches;
    ReachEmpty(key);
    var later := now + STALE_AFTER + 1;
    var c1, c2 := Schedule([t], now), Start(0, t, "a", now);
    var c3, c4 := Schedule([t], later), Start(1, t, "b", later);
    EnqueueOfOne(EMPTY.tasks, t, now);
    var s1 := Do(EMPTY, c1, key);
    ReachStep([], key, EMPTY, c1);
    var s2 := Do(s1, c2, key);
    ReachStep([] + [c1], key, s1, c2);
    EnqueueOfOne(s2.tasks, t, later);
    var s3 := Do(s2, c3, key);
    ReachStep([] + [c1] + [c2], key, s2, c3);
    var s4 := Do(s3, c4, key);
    ReachStep([] + [c1] + [c2] + [c3], key, s3, c4);
    assert Owns(PhaseOf(s4, 0), t.id) && Owns(PhaseOf(s4, 1), t.id);
  }

  /** A new task is planned, claimed by an idle worker, and executed over a fresh session. */
  lemma ExecutionStarts(steps: seq<Step>, key: KeyFunction, s: Sys, t: Task, w: nat, session: nat, now: int)
    returns (more: seq<Step>, r: Sys)
    requires Reaches(steps, key, s) && WellNamed(t) && t.id !in s.tasks && PhaseOf(s, w).Idle?
    requires session !in s.closed && key(t.pair) !in s.locks
    requires forall v :: v in s.workers ==> !UsesSession(s.workers[v], session)
    ensures Reaches(more, key, r) && r.tasks.Keys == s.tasks.Keys + {t.id} && r.closed == s.closed
    ensures r.workers == s.workers[w := Executing(t, session)] && r.locks == s.locks[key(t.pair) := Hold(session, 1)]
  {
    hide TypeOfId, Reaches, EnqueueAll;
    var c1, c2, c3 := Schedule([t], now), Start(w, t, "worker", now), TakeLock(w, session);
    EnqueueOfOne(s.tasks, t, now);
    var s1 := Do(s, c1, key);
    ReachStep(steps, key, s, c1);
    var s2 := Do(s1, c2, key);
    ReachStep(steps + [c1], key, s1, c2);
    assert s2.workers == s.workers[w := Claimed(t)];
    r := Do(s2, c3, key);
    ReachStep(steps + [c1] + [c2], key, s2, c3);
    more := steps + [c1] + [c2] + [c3];
  }

  lemma ReachedKeepsInv(steps: seq<Step>, key: KeyFunction, s: Sys)
    requires Reaches(steps, key, s)
    ensures Inv(s, key)
  {
    var trace :| IsRun(trace, steps, key) && trace[|steps|] == s;
    RunsKeepInv(trace, steps, key, |steps|);
  }

  /** And only then: wherever a worker loses its connection while executing, an idle worker can start to execute
      for the same pair before the first one is done. */
  lemma LossAllowsOverlap(steps: seq<Step>, key: KeyFunction, s: Sys, w: nat, v: nat, u: Task, session: nat, now: int)
    returns (more: seq<Step>, r: Sys)
    requires Reaches(steps, key, s) && PhaseOf(s, w).Executing? && PhaseOf(s, w).session !in s.closed
    requires v != w && PhaseOf(s, v).Idle? && WellNamed(u) && u.id !in s.tasks && u.pair == PhaseOf(s, w).item.pair
    requires session !in s.closed && session != PhaseOf(s, w).session
    requires forall x :: x in s.workers ==> !UsesSession(s.workers[x], session)
    ensures Reaches(more, key, r) && PhaseOf(r, w) == PhaseOf(s, w) && PhaseOf(r, v) == Executing(u, session)
  {
    var lost := SessionLost(PhaseOf(s, w).session);
    var t := Do(s, lost, key);
    assert key(u.pair) !in t.locks by {
      ReachedKeepsInv(steps, key, s);
      assert UsesSession(PhaseOf(s, w), PhaseOf(s, w).session);
    }
    hide TypeOfId, Reaches;
    ReachStep(steps, key, s, lost);
    more, r := ExecutionStarts(steps + [lost], key, t, u, v, session, now);
  }

  /** Losing a connection releases its lock while the worker goes on: then one pair is executed twice. */
  lemma LostSessionsOverlap(key: KeyFunction, t: Task, u: Task, now: int)
    requires WellNamed(t) && WellNamed(u) && t.id != u.id && t.pair == u.pair
    ensures exists steps, s :: Reaches(steps, key, s) && PhaseOf(s, 0) == Executing(t, 0) && PhaseOf(s, 1) == Executing(u, 1)
  {
    hide TypeOfId, Reaches;
    ReachEmpty(key);
    var steps, s := ExecutionStarts([], key, EMPTY, t, 0, 0, now);
    var more, r := LossAllowsOverlap(steps, key, s, 0, 1, u, 1, now);
    assert Reaches(more, key, r) && PhaseOf(r, 0) == Executing(t, 0) && PhaseOf(r, 1) == Executing(u, 1);
  }
}
