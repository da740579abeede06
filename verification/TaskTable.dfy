/** The task table (backend/internal/storage/postgres/task_repository.go), one atomic step per statement.
    Times are Unix seconds; `now` is the database clock of the statement. */
module TaskTable {
  import opened Common

  const BACKFILL := "historical_backfill"
  const CONSOLIDATE := "consolidation"
  const REALTIME := "live_ticker"
  const DATA_SANITY := "integrity_check"

  datatype Status = Pending | Running | Completed | Failed

  datatype Task = Task(id: string, taskType: string, pair: string, interval: string,
                       windowStart: int, windowEnd: int, description: string)

  datatype Row = Row(taskType: string, pair: string, interval: string, windowStart: int, windowEnd: int,
                     description: string, status: Status, retryCount: nat, retryAt: Option<int>,
                     lastError: Option<string>, claimedBy: Option<string>, claimedAt: Option<int>,
                     completedAt: Option<int>, createdAt: int, updatedAt: int)

  type Table = map<string, Row>

  const STALE_AFTER := 30

  // ---------- the statements ----------

  function FreshRow(t: Task, now: int): Row {
    Row(t.taskType, t.pair, t.interval, t.windowStart, t.windowEnd, t.description,
        Pending, 0, None, None, None, None, None, now, now)
  }

  /** The WHERE clause of the upsert: finished, a stale live ticker, or cooling down before a retry. */
  predicate Reopens(r: Row, now: int) {
    || r.status.Completed? || r.status.Failed?
    || (r.status.Running? && r.taskType == REALTIME && r.claimedAt.Some? && r.claimedAt.value < now - STALE_AFTER)
    || (r.status.Pending? && r.retryAt.Some? && r.retryAt.value > now)
  }

  function Reopened(r: Row, t: Task, now: int): Row {
    r.(status := Pending, windowStart := t.windowStart, windowEnd := t.windowEnd, description := t.description,
       retryCount := 0, retryAt := None, lastError := None, claimedBy := None, claimedAt := None,
       completedAt := None, updatedAt := now)
  }

  predicate Accepts(tasks: Table, t: Task, now: int) { t.id in tasks ==> Reopens(tasks[t.id], now) }

  function EnqueueOne(tasks: Table, t: Task, now: int): Table {
    if !Accepts(tasks, t, now) then tasks
    else if t.id in tasks then tasks[t.id := Reopened(tasks[t.id], t, now)]
    else tasks[t.id := FreshRow(t, now)]
  }

  /** The table after a batch, and the tasks reported as enqueued. */
  function EnqueueAll(tasks: Table, batch: seq<Task>, now: int): (Table, seq<Task>) {
    if batch == [] then (tasks, [])
    else
      var (before, accepted) := EnqueueAll(tasks, batch[..|batch| - 1], now);
      var t := batch[|batch| - 1];
      (EnqueueOne(before, t, now), if Accepts(before, t, now) then accepted + [t] else accepted)
  }

  predicate Claimable(tasks: Table, id: string) {
    id in tasks && (tasks[id].status.Pending? || tasks[id].status.Failed?)
  }

  function ClaimRow(tasks: Table, id: string, worker: string, now: int): Table {
    if Claimable(tasks, id)
    then tasks[id := tasks[id].(status := Running, claimedBy := Some(worker), claimedAt := Some(now), updatedAt := now)]
    else tasks
  }

  function CompleteRow(tasks: Table, id: string, now: int): Table {
    if id in tasks then tasks[id := tasks[id].(status := Completed, completedAt := Some(now), updatedAt := now)] else tasks
  }

  /** How many failures of a task go back to pending. */
  function Budget(interval: string): nat { if interval == "1h" then 24 else if interval == "1d" then 7 else 0 }

  function FailRow(tasks: Table, id: string, error: string, retryAt: int, now: int): Table {
    if id !in tasks then tasks
    else
      var r := tasks[id];
      var again := (r.interval == "1h" && r.retryCount < 24) || (r.interval == "1d" && r.retryCount < 7);
      tasks[id := r.(status := if again then Pending else Failed, retryAt := if again then Some(retryAt) else r.retryAt,
                     retryCount := r.retryCount + 1, lastError := Some(error), updatedAt := now)]
  }

  predicate Finished(r: Row) { r.status.Completed? || r.status.Failed? }

  // ---------- retry budget ----------

  /** A pending row has used at most its interval's retries. */
  ghost predicate WithinBudget(tasks: Table) {
    forall id :: id in tasks && tasks[id].status.Pending? ==> tasks[id].retryCount <= Budget(tasks[id].interval)
  }

  lemma {:induction false} EnqueueWithinBudget(tasks: Table, batch: seq<Task>, now: int)
    requires WithinBudget(tasks)
    ensures WithinBudget(EnqueueAll(tasks, batch, now).0)
  {
    if batch != [] {
      EnqueueWithinBudget(tasks, batch[..|batch| - 1], now);
    }
  }

  /** Anything that can happen to the table, in any order and for any ids. */
  datatype Op =
    | Enqueue(batch: seq<Task>, now: int)
    | Claim(id: string, worker: string, now: int)
    | Complete(id: string, now: int)
    | Fail(id: string, error: string, retryAt: int, now: int)
    | Prune(removed: set<string>)

  function Apply(tasks: Table, op: Op): Table {
    match op
    case Enqueue(batch, now) => EnqueueAll(tasks, batch, now).0
    case Claim(id, worker, now) => ClaimRow(tasks, id, worker, now)
    case Complete(id, now) => CompleteRow(tasks, id, now)
    case Fail(id, error, retryAt, now) => FailRow(tasks, id, error, retryAt, now)
    case Prune(removed) => map id | id in tasks && !(id in removed && Finished(tasks[id])) :: tasks[id]
  }

  function RunAll(tasks: Table, ops: seq<Op>): Table {
    if ops == [] then tasks else Apply(RunAll(tasks, ops[..|ops| - 1]), ops[|ops| - 1])
  }

  /** The retry budget holds in every reachable table. */
  lemma {:induction false} ReachableWithinBudget(ops: seq<Op>)
    ensures WithinBudget(RunAll(map[], ops))
    ensures
      var tasks := RunAll(map[], ops);
      forall id :: id in tasks && tasks[id].status == Pending ==>
        tasks[id].retryCount <= if tasks[id].interval == "1h" then 24 else if tasks[id].interval == "1d" then 7 else 0
  {
    if ops != [] {
      var before := RunAll(map[], ops[..|ops| - 1]);
      ReachableWithinBudget(ops[..|ops| - 1]);
      match ops[|ops| - 1] {
        case Enqueue(batch, now) => EnqueueWithinBudget(before, batch, now);
        case _ =>
      }
    }
  }

  /** One attempt at a task: a worker claims it, and later it fails. */
  datatype Attempt = Attempt(worker: string, claimedAt: int, error: string, retryAt: int, failedAt: int)

  function Attempts(tasks: Table, id: string, attempts: seq<Attempt>): Table {
    if attempts == [] then tasks
    else
      var a := attempts[|attempts| - 1];
      FailRow(ClaimRow(Attempts(tasks, id, attempts[..|attempts| - 1]), id, a.worker, a.claimedAt), id, a.error, a.retryAt, a.failedAt)
  }

  /** A fresh task goes back to pending exactly for its first 24, 7 or 0 failures, whoever attempts it and when; the
      next one is final. */
  lemma {:induction false} ExactlyBudgetRetries(t: Task, now: int, attempts: seq<Attempt>)
    requires attempts != []
    ensures
      var tasks := Attempts(map[t.id := FreshRow(t, now)], t.id, attempts);
      var last := attempts[|attempts| - 1];
      && t.id in tasks && tasks[t.id].interval == t.interval && tasks[t.id].retryCount == |attempts|
      && tasks[t.id].status == (if |attempts| <= (if t.interval == "1h" then 24 else if t.interval == "1d" then 7 else 0)
                                then Pending else Failed)
      && (tasks[t.id].status.Pending? ==> tasks[t.id].retryAt == Some(last.retryAt))
      && tasks[t.id].lastError == Some(last.error)
  {
    if |attempts| > 1 {
      ExactlyBudgetRetries(t, now, attempts[..|attempts| - 1]);
    }
  }

  // ---------- what a batch does, in statuses and times ----------

  /** A task of this id may be queued: there is no row, it is finished, it is a live ticker running for more than
      30 seconds, or it cools down before a retry. */
  ghost predicate Queueable(tasks: Table, id: string, now: int) {
    id in tasks ==>
      var r := tasks[id];
      || r.status == Completed || r.status == Failed
      || (r.status == Running && r.taskType == "live_ticker" && r.claimedAt.Some? && now - r.claimedAt.value > 30)
      || (r.status == Pending && r.retryAt.Some? && now < r.retryAt.value)
  }

  predicate FirstOfId(batch: seq<Task>, i: nat)
    requires i < |batch|
  {
    forall j :: 0 <= j < i ==> batch[j].id != batch[i].id
  }

  /** The row waits for a worker with the task's window; what else it held is gone, or as it was. */
  ghost predicate IsQueued(after: Table, before: Table, t: Task, now: int) {
    && t.id in after
    && var r := after[t.id];
       && r.status == Pending && r.windowStart == t.windowStart && r.windowEnd == t.windowEnd && r.description == t.description
       && r.retryCount == 0 && r.retryAt == None && r.lastError == None
       && r.claimedBy == None && r.claimedAt == None && r.completedAt == None && r.updatedAt == now
       && (t.id !in before ==> r.taskType == t.taskType && r.pair == t.pair && r.interval == t.interval && r.createdAt == now)
       && (t.id in before ==>
             var was := before[t.id];
             r.taskType == was.taskType && r.pair == was.pair && r.interval == was.interval && r.createdAt == was.createdAt)
  }

  predicate SameRow(after: Table, before: Table, id: string) {
    (id in after <==> id in before) && (id in after ==> after[id] == before[id])
  }

  predicate IsSubsequence(x: seq<Task>, y: seq<Task>) {
    || x == []
    || (y != [] && (IsSubsequence(x, y[..|y| - 1])
                    || (x[|x| - 1] == y[|y| - 1] && IsSubsequence(x[..|x| - 1], y[..|y| - 1]))))
  }

  /** Exactly the first tasks of their id whose id is queueable are reported, in the batch's order, and their rows
      are queued; every other row is untouched. */
  ghost predicate AreEnqueued(before: Table, batch: seq<Task>, now: int, after: Table, enqueued: seq<Task>) {
    && IsSubsequence(enqueued, batch) && (forall i, j :: 0 <= i < j < |enqueued| ==> enqueued[i].id != enqueued[j].id)
    && (forall t :: t in enqueued ==>
          exists i :: 0 <= i < |batch| && batch[i] == t && FirstOfId(batch, i) && Queueable(before, t.id, now))
    && (forall i :: 0 <= i < |batch| && FirstOfId(batch, i) && Queueable(before, batch[i].id, now) ==>
          batch[i] in enqueued && IsQueued(after, before, batch[i], now))
    && (forall id :: (!Queueable(before, id, now) || forall t :: t in batch ==> t.id != id) ==> SameRow(after, before, id))
  }

  /** After a batch, none of its tasks is accepted again at the same instant. */
  lemma {:induction false} EnqueuedIsClosed(tasks: Table, batch: seq<Task>, now: int)
    ensures forall t :: t in batch ==> !Accepts(EnqueueAll(tasks, batch, now).0, t, now)
  {
    if batch != [] {
      var front, last := batch[..|batch| - 1], batch[|batch| - 1];
      EnqueuedIsClosed(tasks, front, now);
      assert batch == front + [last];
      assert forall t :: t in batch ==> t in front || t == last;
    }
  }

  lemma FirstStays(batch: seq<Task>, i: nat)
    requires 0 < |batch| && i < |batch| - 1
    ensures FirstOfId(batch, i) <==> FirstOfId(batch[..|batch| - 1], i)
  {
  }

  /** A row that has been queued at this instant, or that was not queueable, refuses the next task of its id. */
  lemma {:induction false} RowAfterBatch(tasks: Table, batch: seq<Task>, now: int, i: nat)
    requires i < |batch| && FirstOfId(batch, i)
    ensures
      var (after, enqueued) := EnqueueAll(tasks, batch, now);
      if Queueable(tasks, batch[i].id, now) then IsQueued(after, tasks, batch[i], now) && batch[i] in enqueued
      else SameRow(after, tasks, batch[i].id) && forall t :: t in enqueued ==> t.id != batch[i].id
  {
    var front, last, id := batch[..|batch| - 1], batch[|batch| - 1], batch[i].id;
    var (before, accepted) := EnqueueAll(tasks, front, now);
    if i < |front| {
      FirstStays(batch, i);
      RowAfterBatch(tasks, front, now, i);
      hide EnqueueAll;
      assert last.id == id ==> !Accepts(before, last, now);
    } else {
      RowElsewhere(tasks, front, now, id);
    }
  }

  lemma {:induction false} RowElsewhere(tasks: Table, batch: seq<Task>, now: int, id: string)
    requires forall t :: t in batch ==> t.id != id
    ensures SameRow(EnqueueAll(tasks, batch, now).0, tasks, id)
    ensures forall t :: t in EnqueueAll(tasks, batch, now).1 ==> t.id != id
  {
    if batch != [] {
      var front, last := batch[..|batch| - 1], batch[|batch| - 1];
      assert batch == front + [last];
      RowElsewhere(tasks, front, now, id);
      assert last in batch;
    }
  }

  lemma {:induction false} FirstIndex(batch: seq<Task>, id: string) returns (i: nat)
    requires exists t :: t in batch && t.id == id
    ensures i < |batch| && batch[i].id == id && FirstOfId(batch, i)
  {
    var front := batch[..|batch| - 1];
    if exists t :: t in front && t.id == id {
      i := FirstIndex(front, id);
    } else {
      i := |batch| - 1;
      assert batch == front + [batch[i]];
      assert forall j :: 0 <= j < i ==> front[j] in front;
    }
  }

  lemma {:induction false} ReportsAreOrdered(tasks: Table, batch: seq<Task>, now: int)
    ensures IsSubsequence(EnqueueAll(tasks, batch, now).1, batch)
    ensures forall t :: t in EnqueueAll(tasks, batch, now).1 ==> t in batch
  {
    if batch != [] {
      var front, last := batch[..|batch| - 1], batch[|batch| - 1];
      ReportsAreOrdered(tasks, front, now);
      hide EnqueueOne, Accepts;
      var (before, accepted) := EnqueueAll(tasks, front, now);
      assert batch == front + [last];
      assert (accepted + [last])[..|accepted|] == accepted;
    }
  }

  lemma {:induction false} ReportsHaveOneId(tasks: Table, batch: seq<Task>, now: int)
    ensures
      var enqueued := EnqueueAll(tasks, batch, now).1;
      forall i, j :: 0 <= i < j < |enqueued| ==> enqueued[i].id != enqueued[j].id
  {
    if batch != [] {
      var front, last := batch[..|batch| - 1], batch[|batch| - 1];
      var (before, accepted) := EnqueueAll(tasks, front, now);
      ReportsHaveOneId(tasks, front, now);
      ReportsAreOrdered(tasks, front, now);
      EnqueuedIsClosed(tasks, front, now);
      forall t | t in accepted && Accepts(before, last, now) ensures t.id != last.id {
        assert !Accepts(before, t, now);
      }
      hide Reopens, EnqueueOne, IsSubsequence, Accepts;
      assert forall i :: 0 <= i < |accepted| ==> accepted[i] in accepted;
    }
  }

  lemma ReportedIsFirst(tasks: Table, batch: seq<Task>, now: int, t: Task)
    requires t in EnqueueAll(tasks, batch, now).1
    ensures exists i :: 0 <= i < |batch| && batch[i] == t && FirstOfId(batch, i) && Queueable(tasks, t.id, now)
  {
    hide EnqueueAll, Queueable, IsQueued, Accepts, IsSubsequence, FirstOfId;
    ReportsAreOrdered(tasks, batch, now);
    var i := FirstIndex(batch, t.id);
    RowAfterBatch(tasks, batch, now, i);
    var enqueued := EnqueueAll(tasks, batch, now).1;
    assert Queueable(tasks, t.id, now) && batch[i] in enqueued;
    ReportsHaveOneId(tasks, batch, now);
    var x :| 0 <= x < |enqueued| && enqueued[x] == t;
    var y :| 0 <= y < |enqueued| && enqueued[y] == batch[i];
    assert x == y;
  }

  lemma EnqueueMeans(tasks: Table, batch: seq<Task>, now: int)
    ensures AreEnqueued(tasks, batch, now, EnqueueAll(tasks, batch, now).0, EnqueueAll(tasks, batch, now).1)
  {
    hide EnqueueAll, Queueable, IsQueued, SameRow, IsSubsequence, Accepts;
    var (after, enqueued) := EnqueueAll(tasks, batch, now);
    ReportsAreOrdered(tasks, batch, now);
    ReportsHaveOneId(tasks, batch, now);
    forall t | t in enqueued
      ensures exists i :: 0 <= i < |batch| && batch[i] == t && FirstOfId(batch, i) && Queueable(tasks, t.id, now)
    {
      ReportedIsFirst(tasks, batch, now, t);
    }
    forall i | 0 <= i < |batch| && FirstOfId(batch, i) && Queueable(tasks, batch[i].id, now)
      ensures batch[i] in enqueued && IsQueued(after, tasks, batch[i], now)
    {
      RowAfterBatch(tasks, batch, now, i);
    }
    forall id | !Queueable(tasks, id, now) || forall t :: t in batch ==> t.id != id ensures SameRow(after, tasks, id) {
      if t :| t in batch && t.id == id {
        var i := FirstIndex(batch, id);
        RowAfterBatch(tasks, batch, now, i);
      } else {
        RowElsewhere(tasks, batch, now, id);
      }
    }
  }

  // ---------- idempotent enqueue ----------

  lemma {:induction false} NothingAccepted(tasks: Table, batch: seq<Task>, now: int)
    requires forall t :: t in batch ==> !Accepts(tasks, t, now)
    ensures EnqueueAll(tasks, batch, now) == (tasks, [])
  {
    if batch != [] {
      NothingAccepted(tasks, batch[..|batch| - 1], now);
    }
  }

  /** Enqueueing a batch twice at one instant is enqueueing it once, repeated ids or not. */
  lemma EnqueueIsIdempotent(tasks: Table, batch: seq<Task>, now: int)
    ensures EnqueueAll(EnqueueAll(tasks, batch, now).0, batch, now) == (EnqueueAll(tasks, batch, now).0, [])
  {
    EnqueuedIsClosed(tasks, batch, now);
    NothingAccepted(EnqueueAll(tasks, batch, now).0, batch, now);
  }

  /** A batch leaves a running row alone, or it is a live ticker claimed more than 30 seconds ago. */
  lemma {:induction false} OnlyStaleTickersReopen(tasks: Table, batch: seq<Task>, now: int, id: string)
    requires id in tasks && tasks[id].status.Running?
    ensures id in EnqueueAll(tasks, batch, now).0
    ensures
      || EnqueueAll(tasks, batch, now).0[id] == tasks[id]
      || (tasks[id].taskType == "live_ticker" && tasks[id].claimedAt.Some? && tasks[id].claimedAt.value < now - 30)
  {
    if batch != [] {
      OnlyStaleTickersReopen(tasks, batch[..|batch| - 1], now, id);
    }
  }

  /** And a row that a batch changes is pending afterwards. */
  lemma {:induction false} ReopenedIsPending(tasks: Table, batch: seq<Task>, now: int, id: string)
    requires id in tasks
    ensures id in EnqueueAll(tasks, batch, now).0
    ensures EnqueueAll(tasks, batch, now).0[id] == tasks[id] || EnqueueAll(tasks, batch, now).0[id].status.Pending?
  {
    if batch != [] {
      ReopenedIsPending(tasks, batch[..|batch| - 1], now, id);
    }
  }

  /** A running task that is not a live ticker is never reopened, whatever is enqueued and whenever. */
  lemma RunningIsNotReopened(tasks: Table, batch: seq<Task>, now: int, id: string)
    requires id in tasks && tasks[id].status.Running? && tasks[id].taskType != REALTIME
    ensures id in EnqueueAll(tasks, batch, now).0 && EnqueueAll(tasks, batch, now).0[id] == tasks[id]
  {
    hide EnqueueAll;
    OnlyStaleTickersReopen(tasks, batch, now, id);
  }

  // ---------- polling ----------

  predicate Due(r: Row, now: int) { r.status.Pending? && (r.retryAt.None? || r.retryAt.value <= now) }

  /** A row as the polling queries order it. */
  datatype Entry = Entry(id: string, row: Row)

  function OldestFirst(x: Entry, y: Entry): bool { x.row.createdAt <= y.row.createdAt }

  function Rank(taskType: string): int {
    if taskType == DATA_SANITY then 0 else if taskType == CONSOLIDATE then 1 else 2
  }

  function Before(a: (int, int, int), b: (int, int, int)): bool {
    a.0 < b.0 || (a.0 == b.0 && (a.1 < b.1 || (a.1 == b.1 && a.2 <= b.2)))
  }

  /** ORDER BY rank of the type, window start, creation. */
  function ByRank(x: Entry, y: Entry): bool {
    Before((Rank(x.row.taskType), x.row.windowStart, x.row.createdAt), (Rank(y.row.taskType), y.row.windowStart, y.row.createdAt))
  }

  /** The first `limit` of the candidates in the given order; ties are the database's choice. */
  ghost predicate IsTop(r: seq<Entry>, candidates: set<Entry>, leq: (Entry, Entry) -> bool, limit: int) {
    && Distinct(r) && (forall e :: e in r ==> e in candidates)
    && Sorted(r, leq)
    && |r| <= limit
    && (forall e, x :: e in r && x in candidates && x !in r ==> leq(e, x))
    && ((exists x :: x in candidates && x !in r) ==> |r| == limit)
  }

  method SelectTop(candidates: set<Entry>, leq: (Entry, Entry) -> bool, limit: nat) returns (r: seq<Entry>)
    requires WeakOrder(leq)
    ensures IsTop(r, candidates, leq, limit)
  {
    var list := Enumerate(candidates);
    var sorted := SortSlice(list, leq);
    DistinctPermutation(list, sorted);
    hide WeakOrder;
    var n := if limit < |sorted| then limit else |sorted|;
    r := sorted[..n];
    forall e, x | e in r && x in candidates && x !in r ensures leq(e, x) {
      var i :| 0 <= i < |r| && r[i] == e;
      assert x in sorted;
      var j :| 0 <= j < |sorted| && sorted[j] == x;
      assert j >= n ==> leq(sorted[i], sorted[j]);
      assert j < n ==> r[j] == x;
    }
    assert forall x :: x in candidates ==> x in sorted;
  }

  ghost function DueOf(tasks: Table, now: int): set<Entry> {
    set id | id in tasks && Due(tasks[id], now) :: Entry(id, tasks[id])
  }

  predicate IsLive(e: Entry) { e.row.taskType == REALTIME }
  predicate IsBackfill(e: Entry) { e.row.taskType == BACKFILL }

  function LiveOf(due: set<Entry>): set<Entry> { set e | e in due && IsLive(e) }
  function OtherOf(due: set<Entry>): set<Entry> { set e | e in due && !IsLive(e) && !IsBackfill(e) }
  function BackfillOf(due: set<Entry>): set<Entry> { set e | e in due && IsBackfill(e) }

  /** The three phases of one poll. */
  datatype Poll = Poll(live: seq<Entry>, other: seq<Entry>, backfill: seq<Entry>) {
    function Items(): seq<Entry> { live + other + backfill }
  }

  /** Live tickers first, then the other tasks, then backfills within their own limit. */
  ghost predicate IsPoll(p: Poll, due: set<Entry>, limit: int, backfillLimit: int) {
    && IsTop(p.live, LiveOf(due), OldestFirst, limit)
    && IsTop(p.other, OtherOf(due), ByRank, limit - |p.live|)
    && IsTop(p.backfill, BackfillOf(due), ByRank, MinInt(backfillLimit, limit - |p.live| - |p.other|))
  }

  lemma OrdersAreWeak()
    ensures WeakOrder(OldestFirst) && WeakOrder(ByRank)
  {
  }

  function Cap(limit: int, backfillLimit: int): int {
    if backfillLimit < 0 then 0 else MinInt(backfillLimit, limit)
  }

  lemma TopOfNone(candidates: set<Entry>, leq: (Entry, Entry) -> bool)
    ensures IsTop([], candidates, leq, 0)
  {
  }

  /** The row waits, and not for a later retry. */
  predicate Waits(r: Row, now: int) { r.status == Pending && (r.retryAt == None || (r.retryAt.Some? && r.retryAt.value <= now)) }

  /** Integrity checks go first, then consolidations; among equals the earlier window, then the older row. */
  ghost predicate NoLater(r: Row, x: Row) {
    || (r.taskType == "integrity_check" && x.taskType != "integrity_check")
    || (r.taskType == "consolidation" && x.taskType != "integrity_check" && x.taskType != "consolidation")
    || ((r.taskType == "integrity_check" <==> x.taskType == "integrity_check")
        && (r.taskType == "consolidation" <==> x.taskType == "consolidation")
        && (r.windowStart < x.windowStart || (r.windowStart == x.windowStart && r.createdAt <= x.createdAt)))
  }

  lemma RanksInTypes(x: Entry, y: Entry)
    ensures ByRank(x, y) <==> NoLater(x.row, y.row)
    ensures OldestFirst(x, y) <==> x.row.createdAt <= y.row.createdAt
  {
  }

  lemma PhasesInTypes(tasks: Table, now: int)
    ensures forall e :: e in LiveOf(DueOf(tasks, now)) <==>
      e.id in tasks && e.row == tasks[e.id] && Waits(e.row, now) && e.row.taskType == "live_ticker"
    ensures forall e :: e in OtherOf(DueOf(tasks, now)) <==>
      e.id in tasks && e.row == tasks[e.id] && Waits(e.row, now) && e.row.taskType !in {"live_ticker", "historical_backfill"}
    ensures forall e :: e in BackfillOf(DueOf(tasks, now)) <==>
      e.id in tasks && e.row == tasks[e.id] && Waits(e.row, now) && e.row.taskType == "historical_backfill"
  {
    forall e: Entry | e.id in tasks && e.row == tasks[e.id] && Waits(e.row, now) ensures e in DueOf(tasks, now) {
      assert e == Entry(e.id, tasks[e.id]);
    }
  }

  /** What a poll promises of a phase: its waiting rows in order, and what it leaves out comes no sooner. */
  ghost predicate IsPhase(r: seq<Entry>, tasks: Table, now: int, inPhase: string -> bool, limit: int) {
    && (forall i, j :: 0 <= i < j < |r| ==> r[i].id != r[j].id && NoLater(r[i].row, r[j].row))
    && (forall e :: e in r ==> e.id in tasks && e.row == tasks[e.id] && Waits(e.row, now) && inPhase(e.row.taskType))
    && |r| <= limit
    && (forall id :: id in tasks && Waits(tasks[id], now) && inPhase(tasks[id].taskType) && Entry(id, tasks[id]) !in r ==>
          |r| == limit && forall e :: e in r ==> NoLater(e.row, tasks[id]))
  }

  lemma TopIsPhase(r: seq<Entry>, candidates: set<Entry>, tasks: Table, now: int, inPhase: string -> bool, limit: int)
    requires IsTop(r, candidates, ByRank, limit)
    requires forall e :: e in candidates <==> e.id in tasks && e.row == tasks[e.id] && Waits(e.row, now) && inPhase(e.row.taskType)
    ensures IsPhase(r, tasks, now, inPhase, limit)
  {
    hide Waits;
    forall x: Entry, y: Entry ensures ByRank(x, y) <==> NoLater(x.row, y.row) {
      RanksInTypes(x, y);
    }
    hide ByRank, NoLater;
    forall i, j | 0 <= i < j < |r| ensures r[i].id != r[j].id && NoLater(r[i].row, r[j].row) {
      assert r[i] in r && r[j] in r && ByRank(r[i], r[j]);
    }
    forall id | id in tasks && Waits(tasks[id], now) && inPhase(tasks[id].taskType) && Entry(id, tasks[id]) !in r
      ensures |r| == limit && forall e :: e in r ==> NoLater(e.row, tasks[id])
    {
      var x := Entry(id, tasks[id]);
      assert x in candidates;
      assert forall e :: e in r ==> ByRank(e, x);
    }
  }

  /** What a poll promises: waiting tasks, each once, within both limits. Live tickers come first, oldest first, and
      are left out only for older live tickers; then the other tasks by rank, left out only for a full batch; then
      backfills, by window start, within what both limits leave. */
  ghost predicate IsFairPoll(p: Poll, tasks: Table, now: int, limit: int, backfillLimit: int) {
    && (forall i, j :: 0 <= i < j < |p.live| ==> p.live[i].id != p.live[j].id && p.live[i].row.createdAt <= p.live[j].row.createdAt)
    && (forall e :: e in p.live ==> e.id in tasks && e.row == tasks[e.id] && Waits(e.row, now) && e.row.taskType == "live_ticker")
    && |p.live| <= limit
    && (forall id :: id in tasks && Waits(tasks[id], now) && tasks[id].taskType == "live_ticker" && Entry(id, tasks[id]) !in p.live ==>
          |p.live| == limit && forall e :: e in p.live ==> e.row.createdAt <= tasks[id].createdAt)
    && IsPhase(p.other, tasks, now, t => t != "live_ticker" && t != "historical_backfill", limit - |p.live|)
    && IsPhase(p.backfill, tasks, now, t => t == "historical_backfill",
               MinInt(if backfillLimit < 0 then 0 else backfillLimit, limit - |p.live| - |p.other|))
  }

  lemma LiveIsOldest(r: seq<Entry>, tasks: Table, now: int, limit: int)
    requires IsTop(r, LiveOf(DueOf(tasks, now)), OldestFirst, limit)
    ensures forall i, j :: 0 <= i < j < |r| ==> r[i].id != r[j].id && r[i].row.createdAt <= r[j].row.createdAt
    ensures forall e :: e in r ==> e.id in tasks && e.row == tasks[e.id] && Waits(e.row, now) && e.row.taskType == "live_ticker"
    ensures forall id :: id in tasks && Waits(tasks[id], now) && tasks[id].taskType == "live_ticker" && Entry(id, tasks[id]) !in r ==>
      |r| == limit && forall e :: e in r ==> e.row.createdAt <= tasks[id].createdAt
  {
    PhasesInTypes(tasks, now);
    hide DueOf, LiveOf, Waits;
    forall i, j | 0 <= i < j < |r| ensures r[i].id != r[j].id && r[i].row.createdAt <= r[j].row.createdAt {
      assert r[i] in r && r[j] in r && OldestFirst(r[i], r[j]);
    }
    forall id | id in tasks && Waits(tasks[id], now) && tasks[id].taskType == "live_ticker" && Entry(id, tasks[id]) !in r
      ensures |r| == limit && forall e :: e in r ==> e.row.createdAt <= tasks[id].createdAt
    {
      var x := Entry(id, tasks[id]);
      assert x in LiveOf(DueOf(tasks, now));
      assert forall e :: e in r ==> OldestFirst(e, x);
    }
  }

  lemma PollPromises(p: Poll, tasks: Table, now: int, limit: int, backfillLimit: int)
    requires limit > 0 && IsPoll(p, DueOf(tasks, now), limit, Cap(limit, backfillLimit))
    ensures IsFairPoll(p, tasks, now, limit, backfillLimit)
    ensures Distinct(p.Items()) && |p.Items()| <= limit && |p.backfill| <= (if backfillLimit < 0 then 0 else backfillLimit)
    ensures forall id :: id in tasks && Waits(tasks[id], now) && Entry(id, tasks[id]) !in p.Items() ==>
      if tasks[id].taskType == "live_ticker" then |p.Items()| == limit && p.other == [] && p.backfill == []
      else if tasks[id].taskType != "historical_backfill" then |p.Items()| == limit && p.backfill == []
      else |p.Items()| == limit || |p.backfill| == (if backfillLimit < 0 then 0 else backfillLimit)
  {
    FairPoll(p, tasks, now, limit, backfillLimit);
    NothingTwice(p, tasks, now, limit, backfillLimit);
    hide IsPoll, Waits, Distinct;
    assert forall e :: e in p.Items() <==> e in p.live || e in p.other || e in p.backfill;
  }

  lemma NothingTwice(p: Poll, tasks: Table, now: int, limit: int, backfillLimit: int)
    requires IsFairPoll(p, tasks, now, limit, backfillLimit)
    ensures Distinct(p.Items())
  {
    hide Waits, NoLater;
    assert Distinct(p.live) && Distinct(p.other) && Distinct(p.backfill);
    forall e | e in p.live ensures e !in p.other && e !in p.backfill {
      assert e.row.taskType == "live_ticker";
    }
    forall e | e in p.other ensures e !in p.backfill {
      assert e.row.taskType != "historical_backfill";
    }
    DistinctConcat(p.live, p.other);
    DistinctConcat(p.live + p.other, p.backfill);
  }

  lemma FairPoll(p: Poll, tasks: Table, now: int, limit: int, backfillLimit: int)
    requires limit > 0 && IsPoll(p, DueOf(tasks, now), limit, Cap(limit, backfillLimit))
    ensures IsFairPoll(p, tasks, now, limit, backfillLimit)
  {
    PhasesInTypes(tasks, now);
    LiveIsOldest(p.live, tasks, now, limit);
    hide DueOf, Waits, LiveOf, OtherOf, BackfillOf, IsTop, IsPhase;
    assert |p.live| <= limit by {
      TopWithin(p.live, LiveOf(DueOf(tasks, now)), OldestFirst, limit);
    }
    TopIsPhase(p.other, OtherOf(DueOf(tasks, now)), tasks, now, t => t != "live_ticker" && t != "historical_backfill", limit - |p.live|);
    TopIsPhase(p.backfill, BackfillOf(DueOf(tasks, now)), tasks, now, t => t == "historical_backfill",
               MinInt(if backfillLimit < 0 then 0 else backfillLimit, limit - |p.live| - |p.other|));
  }

  lemma TopWithin(r: seq<Entry>, candidates: set<Entry>, leq: (Entry, Entry) -> bool, limit: int)
    requires IsTop(r, candidates, leq, limit)
    ensures |r| <= limit
  {
  }

  // ---------- pruning ----------

  function NewestFirst(x: Entry, y: Entry): bool { x.row.updatedAt >= y.row.updatedAt }

  lemma NewestFirstIsWeakOrder()
    ensures WeakOrder(NewestFirst)
  {
  }

  ghost function FinishedSince(tasks: Table, cutoff: int): set<Entry> {
    set id | id in tasks && (tasks[id].status == Completed || tasks[id].status == Failed) && tasks[id].updatedAt >= cutoff
      :: Entry(id, tasks[id])
  }

  ghost function FinishedIn(tasks: Table): set<Entry> {
    set id | id in tasks && (tasks[id].status == Completed || tasks[id].status == Failed) :: Entry(id, tasks[id])
  }

  /** What PruneOldTasks leaves: every unfinished row unchanged, and of the finished rows since the cutoff
      the newest keepMax (all of them if keepMax is not positive). */
  ghost predicate IsPruned(after: Table, before: Table, cutoff: int, keepMax: int) {
    var kept, recent := FinishedIn(after), FinishedSince(before, cutoff);
    && (forall id :: id in after ==> id in before && after[id] == before[id])
    && (forall id :: id in before && before[id].status != Completed && before[id].status != Failed ==> id in after)
    && kept <= recent
    && (keepMax <= 0 ==> kept == recent)
    && (keepMax > 0 ==> |kept| == MinInt(keepMax, |recent|)
                        && forall x, y :: x in recent - kept && y in kept ==> x.row.updatedAt <= y.row.updatedAt)
  }

  lemma TopCount(r: seq<Entry>, candidates: set<Entry>, leq: (Entry, Entry) -> bool, limit: int)
    requires IsTop(r, candidates, leq, limit)
    ensures |r| == MinInt(limit, |candidates|)
  {
    var s := set e | e in r;
    DistinctCount(r);
    assert s <= candidates;
    CountSubset(s, candidates);
    if |r| < limit {
      assert s == candidates;
    }
  }

  lemma CountSubset<T>(s: set<T>, t: set<T>)
    requires s <= t
    ensures |s| <= |t|
  {
    assert |t| == |s| + |t - s|;
  }

  lemma {:induction false} DistinctCount(r: seq<Entry>)
    requires Distinct(r)
    ensures |set e | e in r| == |r|
  {
    if r != [] {
      var front, last := r[..|r| - 1], r[|r| - 1];
      DistinctCount(front);
      assert r == front + [last];
      assert (set e | e in r) == (set e | e in front) + {last};
    }
  }

  lemma FinishedEntries(tasks: Table)
    ensures forall e :: e in FinishedIn(tasks) <==> e.id in tasks && Finished(e.row) && e.row == tasks[e.id]
  {
    forall e: Entry | e.id in tasks && Finished(e.row) && e.row == tasks[e.id] ensures e in FinishedIn(tasks) {
      assert e == Entry(e.id, tasks[e.id]);
    }
  }

  lemma AfterCutoff(before: Table, mid: Table, cutoff: int)
    requires mid == map id | id in before && !(Finished(before[id]) && before[id].updatedAt < cutoff) :: before[id]
    ensures FinishedIn(mid) == FinishedSince(before, cutoff)
  {
    FinishedEntries(mid);
    forall e | e in FinishedIn(mid) ensures e in FinishedSince(before, cutoff) {
      assert e == Entry(e.id, before[e.id]);
    }
  }

  lemma Pruned(after: Table, before: Table, mid: Table, cutoff: int, keepMax: int, kept: seq<Entry>)
    requires keepMax > 0
    requires mid == map id | id in before && !(Finished(before[id]) && before[id].updatedAt < cutoff) :: before[id]
    requires IsTop(kept, FinishedIn(mid), NewestFirst, keepMax)
    requires after == map id | id in mid && (!Finished(mid[id]) || Entry(id, mid[id]) in kept) :: mid[id]
    ensures IsPruned(after, before, cutoff, keepMax)
  {
    AfterCutoff(before, mid, cutoff);
    TopCount(kept, FinishedIn(mid), NewestFirst, keepMax);
    DistinctCount(kept);
    FinishedEntries(after);
    FinishedEntries(mid);
    forall e ensures e in FinishedIn(after) <==> e in kept {
      assert e == Entry(e.id, e.row);
    }
    assert FinishedIn(after) == set e | e in kept;
    forall x, y | x in FinishedIn(mid) && x !in kept && y in kept ensures x.row.updatedAt <= y.row.updatedAt {
      assert NewestFirst(y, x);
    }
  }

  lemma PrunedByTime(after: Table, before: Table, cutoff: int, keepMax: int)
    requires keepMax <= 0
    requires after == map id | id in before && !(Finished(before[id]) && before[id].updatedAt < cutoff) :: before[id]
    ensures IsPruned(after, before, cutoff, keepMax)
  {
    AfterCutoff(before, after, cutoff);
    hide FinishedIn, FinishedSince;
  }

  // ---------- the repository ----------

  class TaskRepository {
    var tasks: Table
    const workerId: string

    ghost predicate Valid()
      reads this
    {
      WithinBudget(tasks)
    }

    constructor (workerId: string)
      ensures Valid() && tasks == map[] && this.workerId == workerId
    {
      this.workerId, tasks := workerId, map[];
    }

    method Enqueue(batch: seq<Task>, now: int) returns (enqueued: seq<Task>)
      requires Valid()
      modifies this
      ensures Valid() && (tasks, enqueued) == EnqueueAll(old(tasks), batch, now)
      ensures AreEnqueued(old(tasks), batch, now, tasks, enqueued)
    {
      ghost var was := tasks;
      enqueued := [];
      for i := 0 to |batch|
        invariant (tasks, enqueued) == EnqueueAll(was, batch[..i], now)
      {
        assert batch[..i + 1][..i] == batch[..i];
        var t := batch[i];
        if t.id !in tasks {
          tasks := tasks[t.id := FreshRow(t, now)];
          enqueued := enqueued + [t];
        } else if Reopens(tasks[t.id], now) {
          tasks := tasks[t.id := Reopened(tasks[t.id], t, now)];
          enqueued := enqueued + [t];
        }
      }
      assert batch[..|batch|] == batch;
      EnqueueWithinBudget(was, batch, now);
      EnqueueMeans(was, batch, now);
    }

    method Claim(id: string, now: int) returns (claimed: bool)
      requires Valid()
      modifies this
      ensures Valid() && tasks == ClaimRow(old(tasks), id, workerId, now) && claimed == Claimable(old(tasks), id)
      ensures claimed <==> id in old(tasks) && (old(tasks)[id].status == Pending || old(tasks)[id].status == Failed)
      ensures claimed ==>
        tasks == old(tasks)[id := old(tasks)[id].(status := Running, claimedBy := Some(workerId), claimedAt := Some(now), updatedAt := now)]
      ensures !claimed ==> tasks == old(tasks)
    {
      claimed := id in tasks && (tasks[id].status.Pending? || tasks[id].status.Failed?);
      if claimed {
        tasks := tasks[id := tasks[id].(status := Running, claimedBy := Some(workerId), claimedAt := Some(now), updatedAt := now)];
      }
    }

    method Complete(id: string, now: int)
      requires Valid()
      modifies this
      ensures Valid() && tasks == CompleteRow(old(tasks), id, now)
      ensures id in tasks <==> id in old(tasks)
      ensures id in tasks ==> tasks[id] == old(tasks)[id].(status := Completed, completedAt := Some(now), updatedAt := now)
      ensures forall other :: other != id ==> SameRow(tasks, old(tasks), other)
    {
      if id in tasks {
        tasks := tasks[id := tasks[id].(status := Completed, completedAt := Some(now), updatedAt := now)];
      }
    }

    /** jitter: the random offset, -300 to 300 seconds, of the next retry. */
    method Fail(id: string, error: string, jitter: int, now: int)
      requires Valid() && -300 <= jitter <= 300
      modifies this
      ensures Valid() && tasks == FailRow(old(tasks), id, error, now + HOUR + jitter, now)
      ensures id in tasks <==> id in old(tasks)
      ensures id in tasks ==>
        var was := old(tasks)[id];
        var again := (was.interval == "1h" && was.retryCount < 24) || (was.interval == "1d" && was.retryCount < 7);
        && tasks[id].status == (if again then Pending else Failed)
        && tasks[id].retryAt == (if again then Some(now + 3600 + jitter) else was.retryAt)
        && tasks[id].retryCount == was.retryCount + 1 && tasks[id].lastError == Some(error) && tasks[id].updatedAt == now
        && tasks[id].(status := was.status, retryAt := was.retryAt, retryCount := was.retryCount,
                      lastError := was.lastError, updatedAt := was.updatedAt) == was
      ensures forall other :: other != id ==> SameRow(tasks, old(tasks), other)
    {
      var nextRetryAt := now + HOUR + jitter;
      if id in tasks {
        var r := tasks[id];
        if (r.interval == "1h" && r.retryCount < 24) || (r.interval == "1d" && r.retryCount < 7) {
          tasks := tasks[id := r.(status := Pending, retryAt := Some(nextRetryAt), retryCount := r.retryCount + 1,
                                  lastError := Some(error), updatedAt := now)];
        } else {
          tasks := tasks[id := r.(status := Failed, retryCount := r.retryCount + 1,
                                  lastError := Some(error), updatedAt := now)];
        }
      }
    }

    /** Pairs with a running, or pending and due, backfill. */
    method ActiveBackfillPairs(now: int) returns (active: set<string>)
      ensures forall p :: p in active <==>
        exists id :: id in tasks && tasks[id].taskType == "historical_backfill" && tasks[id].pair == p
          && (tasks[id].status == Running || Waits(tasks[id], now))
    {
      active := set id | id in tasks && tasks[id].taskType == BACKFILL
        && (tasks[id].status.Running? || Due(tasks[id], now)) :: tasks[id].pair;
    }

    method PendingPoll(limit: int, backfillLimit: int, now: int) returns (p: Poll)
      ensures limit <= 0 ==> p.Items() == []
      ensures limit > 0 ==> IsPoll(p, DueOf(tasks, now), limit, Cap(limit, backfillLimit))
      ensures limit > 0 ==> IsFairPoll(p, tasks, now, limit, backfillLimit)
    {
      if limit <= 0 {
        return Poll([], [], []);
      }
      var cap := if backfillLimit < 0 then 0 else if backfillLimit > limit then limit else backfillLimit;
      OrdersAreWeak();
      var due := set id | id in tasks && Due(tasks[id], now) :: Entry(id, tasks[id]);
      assert due == DueOf(tasks, now);
      var live := SelectTop(LiveOf(due), OldestFirst, limit);
      assert |live| <= limit;
      hide WeakOrder, Sorted, Distinct, IsFairPoll;
      var remaining := limit - |live|;
      if remaining <= 0 {
        TopOfNone(OtherOf(due), ByRank);
        TopOfNone(BackfillOf(due), ByRank);
        p := Poll(live, [], []);
        PollPromises(p, tasks, now, limit, backfillLimit);
        return;
      }
      var other := SelectTop(OtherOf(due), ByRank, remaining);
      remaining := limit - |live| - |other|;
      if remaining <= 0 || cap == 0 {
        TopOfNone(BackfillOf(due), ByRank);
        p := Poll(live, other, []);
        PollPromises(p, tasks, now, limit, backfillLimit);
        return;
      }
      if cap > remaining {
        cap := remaining;
      }
      var backfill := SelectTop(BackfillOf(due), ByRank, cap);
      p := Poll(live, other, backfill);
      PollPromises(p, tasks, now, limit, backfillLimit);
    }

    /** Deletes finished rows older than the cutoff, then all but the newest keepMax of the rest. */
    method PruneOldTasks(cutoff: int, keepMax: int) returns (deleted: nat)
      requires Valid()
      modifies this
      ensures Valid() && IsPruned(tasks, old(tasks), cutoff, keepMax) && deleted == |old(tasks)| - |tasks|
    {
      hide FinishedSince, IsPruned, IsTop, Sorted, Distinct;
      var before := tasks;
      tasks := map id | id in tasks && !(Finished(tasks[id]) && tasks[id].updatedAt < cutoff) :: tasks[id];
      if keepMax > 0 {
        var recent := set id | id in tasks && Finished(tasks[id]) :: Entry(id, tasks[id]);
        assert recent == FinishedIn(tasks);
        hide FinishedIn;
        NewestFirstIsWeakOrder();
        var kept := SelectTop(recent, NewestFirst, keepMax);
        ghost var mid := tasks;
        tasks := map id | id in tasks && (!Finished(tasks[id]) || Entry(id, tasks[id]) in kept) :: tasks[id];
        Pruned(tasks, before, mid, cutoff, keepMax, kept);
      } else {
        PrunedByTime(tasks, before, cutoff, keepMax);
      }
      CountSubset(tasks.Keys, before.Keys);
      deleted := |before| - |tasks|;
    }
  }
}
