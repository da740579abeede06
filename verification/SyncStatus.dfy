/** The planner-worker feedback loop through sync_status (backend/internal/storage/postgres/sync_repository.go,
    backend/internal/worker/backfill_executor.go). The table is a replay of the statements sent to it, and its
    columns are characterised by that history alone. */
module SyncStatus {
  import opened Common
  import opened TaskIds
  import opened TaskTable
  import opened Scheduler

  datatype SyncRow = SyncRow(hourlyLast: Option<int>, realtimeStarted: Option<int>, dailyLast: Option<int>,
                     hourlyDone: bool, dailyDone: bool, lastSynced: Option<int>, backfillCompleted: bool)

  type SyncTable = map<string, SyncRow>

  /** The column defaults. */
  const BLANK := SyncRow(None, None, None, false, false, None, false)

  /** One statement on a pair's row. */
  datatype Event =
    | Hourly(pair: string, end: int, completed: bool)   // UpsertProgress, "1h"
    | Daily(pair: string, end: int, completed: bool)    // UpsertProgress, "1d"
    | Live(pair: string, at: int)                       // MarkRealtimeStarted
    | Seeded(pair: string, since: Option<int>)             // MarkBackfillSeeded

  /** SQL's LEAST, which ignores NULL, and its COALESCE with the new value. */
  function Earlier(stored: Option<int>, t: int): Option<int> {
    if stored.Some? && stored.value <= t then stored else Some(t)
  }

  /** The CASE expression of the hourly upsert. */
  predicate HourlyDoneAfter(r: SyncRow, end: int, completed: bool) {
    if completed then true
    else if r.realtimeStarted.Some? && end >= r.realtimeStarted.value then true
    else r.hourlyDone
  }

  function ApplyEvent(rows: SyncTable, e: Event): SyncTable {
    match e
    case Daily(pair, end, completed) =>
      if pair !in rows then rows[pair := BLANK.(dailyLast := Some(end), dailyDone := completed, lastSynced := Some(end))]
      else
        var r := rows[pair];
        rows[pair := r.(dailyLast := Earlier(r.dailyLast, end), dailyDone := completed, backfillCompleted := r.hourlyDone && completed)]
    case Hourly(pair, end, completed) =>
      if pair !in rows then rows[pair := BLANK.(hourlyLast := Some(end), hourlyDone := completed, lastSynced := Some(end))]
      else
        var r := rows[pair];
        rows[pair := r.(hourlyLast := Earlier(r.hourlyLast, end), hourlyDone := HourlyDoneAfter(r, end, completed),
                        lastSynced := Earlier(r.lastSynced, end),
                        backfillCompleted := HourlyDoneAfter(r, end, completed) && r.dailyDone)]
    case Live(pair, at) =>
      if pair !in rows then rows[pair := BLANK.(realtimeStarted := Some(at))]
      else rows[pair := rows[pair].(realtimeStarted := Earlier(rows[pair].realtimeStarted, at))]
    case Seeded(pair, since) =>
      if pair !in rows then rows[pair := BLANK.(hourlyLast := since, lastSynced := since)] else rows
  }

  function Replay(history: seq<Event>): SyncTable {
    if history == [] then map[] else ApplyEvent(Replay(history[..|history| - 1]), history[|history| - 1])
  }

  // ---------- the columns, read off the history ----------

  /** The planner seeds rows without a time. */
  ghost predicate SeedsAreEmpty(history: seq<Event>) { forall e :: e in history && e.Seeded? ==> e.since.None? }

  ghost function HourlyEnds(history: seq<Event>, pair: string): set<int> {
    set e | e in history && e.Hourly? && e.pair == pair :: e.end
  }

  ghost function DailyEnds(history: seq<Event>, pair: string): set<int> {
    set e | e in history && e.Daily? && e.pair == pair :: e.end
  }

  ghost function Cutovers(history: seq<Event>, pair: string): set<int> {
    set e | e in history && e.Live? && e.pair == pair :: e.at
  }

  ghost predicate IsLeast(o: Option<int>, s: set<int>) {
    match o
    case None => s == {}
    case Some(t) => t in s && forall x :: x in s ==> t <= x
  }

  /** Report i was flagged complete, or ended at or after a cutover recorded before it. */
  ghost predicate Completes(history: seq<Event>, i: int, pair: string)
    requires 0 <= i < |history|
  {
    history[i].Hourly? && history[i].pair == pair
    && (history[i].completed || exists t :: t in Cutovers(history[..i], pair) && t <= history[i].end)
  }

  ghost predicate HourlyCompleted(history: seq<Event>, pair: string) {
    exists i :: 0 <= i < |history| && Completes(history, i, pair)
  }

  /** The flag of the latest daily report. */
  function DailyFlag(history: seq<Event>, pair: string): bool {
    if history == [] then false
    else
      var e := history[|history| - 1];
      if e.Daily? && e.pair == pair then e.completed else DailyFlag(history[..|history| - 1], pair)
  }

  function RowOf(rows: SyncTable, pair: string): SyncRow { if pair in rows then rows[pair] else BLANK }

  /** A row against the reported ends, the recorded cutovers and the two completion facts. */
  ghost predicate Meaning(r: SyncRow, hourly: set<int>, daily: set<int>, cutovers: set<int>, done: bool, flag: bool) {
    && IsLeast(r.hourlyLast, hourly) && IsLeast(r.dailyLast, daily) && IsLeast(r.realtimeStarted, cutovers)
    && r.hourlyDone == done && r.dailyDone == flag && r.backfillCompleted == (done && flag)
  }

  ghost predicate RowMeans(rows: SyncTable, history: seq<Event>, pair: string) {
    Meaning(RowOf(rows, pair), HourlyEnds(history, pair), DailyEnds(history, pair), Cutovers(history, pair),
            HourlyCompleted(history, pair), DailyFlag(history, pair))
  }

  lemma LeastGrows(stored: Option<int>, s: set<int>, t: int)
    requires IsLeast(stored, s)
    ensures IsLeast(Earlier(stored, t), s + {t})
  {
  }

  lemma SetsGrow(history: seq<Event>, e: Event, pair: string)
    ensures HourlyEnds(history + [e], pair) == HourlyEnds(history, pair) + if e.Hourly? && e.pair == pair then {e.end} else {}
    ensures DailyEnds(history + [e], pair) == DailyEnds(history, pair) + if e.Daily? && e.pair == pair then {e.end} else {}
    ensures Cutovers(history + [e], pair) == Cutovers(history, pair) + if e.Live? && e.pair == pair then {e.at} else {}
  {
    assert forall x :: x in history + [e] <==> x in history || x == e;
  }

  lemma CompletionGrows(history: seq<Event>, e: Event, pair: string)
    ensures HourlyCompleted(history + [e], pair) <==>
      HourlyCompleted(history, pair)
      || (e.Hourly? && e.pair == pair && (e.completed || exists t :: t in Cutovers(history, pair) && t <= e.end))
  {
    hide Cutovers;
    var all, n := history + [e], |history|;
    assert all[..n] == history && all[n] == e;
    assert forall i :: 0 <= i < n ==> all[..i] == history[..i] && all[i] == history[i];
    if HourlyCompleted(history, pair) {
      var i :| 0 <= i < n && Completes(history, i, pair);
      assert Completes(all, i, pair);
    }
    if HourlyCompleted(all, pair) {
      var i :| 0 <= i <= n && Completes(all, i, pair);
      assert i < n ==> Completes(history, i, pair);
    }
    if e.Hourly? && e.pair == pair && (e.completed || exists t :: t in Cutovers(history, pair) && t <= e.end) {
      assert Completes(all, n, pair);
    }
  }

  /** Every column after any history of statements, whatever their order: the cursors and the cutover are the
      least values reported; hourly completion is a report that reached a known cutover; backfill_completed is
      hourly and daily completion. */
  lemma {:induction false} ReplayMeans(history: seq<Event>, pair: string)
    requires SeedsAreEmpty(history)
    ensures RowMeans(Replay(history), history, pair)
  {
    if history != [] {
      var front, e := history[..|history| - 1], history[|history| - 1];
      assert history == front + [e];
      assert forall x :: x in front ==> x in history;
      assert e in history;
      ReplayMeans(front, pair);
      StepMeans(Replay(front), front, e, pair);
    }
  }

  lemma HourlyMeans(rows: SyncTable, e: Event, hourly: set<int>, daily: set<int>, cutovers: set<int>, done: bool, flag: bool)
    requires e.Hourly? && Meaning(RowOf(rows, e.pair), hourly, daily, cutovers, done, flag)
    ensures Meaning(RowOf(ApplyEvent(rows, e), e.pair), hourly + {e.end}, daily, cutovers,
                    done || e.completed || exists t :: t in cutovers && t <= e.end, flag)
  {
    var r := RowOf(rows, e.pair);
    LeastGrows(r.hourlyLast, hourly, e.end);
    hide IsLeast;
    assert (r.realtimeStarted.Some? && r.realtimeStarted.value <= e.end) == exists t :: t in cutovers && t <= e.end by {
      ReachesLeast(r.realtimeStarted, cutovers, e.end);
    }
  }

  lemma ReachesLeast(o: Option<int>, s: set<int>, end: int)
    requires IsLeast(o, s)
    ensures o.Some? && o.value <= end <==> exists t :: t in s && t <= end
  {
  }

  lemma DailyMeans(rows: SyncTable, e: Event, hourly: set<int>, daily: set<int>, cutovers: set<int>, done: bool, flag: bool)
    requires e.Daily? && Meaning(RowOf(rows, e.pair), hourly, daily, cutovers, done, flag)
    ensures Meaning(RowOf(ApplyEvent(rows, e), e.pair), hourly, daily + {e.end}, cutovers, done, e.completed)
  {
    LeastGrows(RowOf(rows, e.pair).dailyLast, daily, e.end);
    hide IsLeast;
  }

  lemma LiveMeans(rows: SyncTable, e: Event, hourly: set<int>, daily: set<int>, cutovers: set<int>, done: bool, flag: bool)
    requires e.Live? && Meaning(RowOf(rows, e.pair), hourly, daily, cutovers, done, flag)
    ensures Meaning(RowOf(ApplyEvent(rows, e), e.pair), hourly, daily, cutovers + {e.at}, done, flag)
  {
    LeastGrows(RowOf(rows, e.pair).realtimeStarted, cutovers, e.at);
    hide IsLeast;
  }

  lemma OtherRowsStay(rows: SyncTable, e: Event, pair: string)
    requires e.pair != pair || (e.Seeded? && e.since.None?)
    ensures RowOf(ApplyEvent(rows, e), pair) == RowOf(rows, pair)
  {
  }

  lemma FlagGrows(history: seq<Event>, e: Event, pair: string)
    ensures DailyFlag(history + [e], pair) == if e.Daily? && e.pair == pair then e.completed else DailyFlag(history, pair)
  {
    assert (history + [e])[..|history|] == history;
  }

  lemma StepMeans(rows: SyncTable, history: seq<Event>, e: Event, pair: string)
    requires RowMeans(rows, history, pair) && (e.Seeded? ==> e.since.None?)
    ensures RowMeans(ApplyEvent(rows, e), history + [e], pair)
  {
    SetsGrow(history, e, pair);
    CompletionGrows(history, e, pair);
    FlagGrows(history, e, pair);
    hide HourlyEnds, DailyEnds, Cutovers, HourlyCompleted, DailyFlag, Meaning, ApplyEvent, RowOf;
    var hourly, daily, cutovers := HourlyEnds(history, pair), DailyEnds(history, pair), Cutovers(history, pair);
    var done, flag := HourlyCompleted(history, pair), DailyFlag(history, pair);
    assert hourly + {} == hourly && daily + {} == daily && cutovers + {} == cutovers;
    if e.pair != pair || e.Seeded? {
      OtherRowsStay(rows, e, pair);
    } else if e.Hourly? {
      HourlyMeans(rows, e, hourly, daily, cutovers, done, flag);
    } else if e.Daily? {
      DailyMeans(rows, e, hourly, daily, cutovers, done, flag);
    } else {
      LiveMeans(rows, e, hourly, daily, cutovers, done, flag);
    }
  }

  /** Hourly completion never reverts: what a history has completed, every longer history has completed. */
  lemma HourlyCompletionIsFinal(history: seq<Event>, more: seq<Event>, pair: string)
    requires SeedsAreEmpty(history + more)
    requires RowOf(Replay(history), pair).hourlyDone
    ensures RowOf(Replay(history + more), pair).hourlyDone
  {
    hide ApplyEvent, Replay, Cutovers;
    assert forall e :: e in history ==> e in history + more;
    ReplayMeans(history, pair);
    ReplayMeans(history + more, pair);
    var i :| 0 <= i < |history| && Completes(history, i, pair);
    assert (history + more)[..i] == history[..i];
    assert Completes(history + more, i, pair);
  }

  /** The cursor does not depend on the order in which windows were reported. */
  lemma CursorIgnoresOrder(history: seq<Event>, other: seq<Event>, pair: string)
    requires SeedsAreEmpty(history) && SeedsAreEmpty(other)
    requires HourlyEnds(history, pair) == HourlyEnds(other, pair)
    ensures RowOf(Replay(history), pair).hourlyLast == RowOf(Replay(other), pair).hourlyLast
  {
    hide Replay, ApplyEvent, HourlyEnds;
    ReplayMeans(history, pair);
    ReplayMeans(other, pair);
  }

  // ---------- the repository ----------

  /** States: daily progress is hidden until hourly backfill is complete. */
  function StateIn(r: SyncRow): SyncState {
    SyncState(r.hourlyLast, r.realtimeStarted, if r.hourlyDone then r.dailyLast else None,
              r.hourlyDone, r.hourlyDone && r.dailyDone)
  }

  class SyncRepository {
    var rows: SyncTable

    constructor ()
      ensures rows == map[]
    {
      rows := map[];
    }

    method UpsertProgress(pair: string, interval: string, lastSynced: int, completed: bool)
      modifies this
      ensures rows == ApplyEvent(old(rows), if interval == "1d" then Daily(pair, lastSynced, completed) else Hourly(pair, lastSynced, completed))
      ensures pair in rows && rows.Keys == old(rows).Keys + {pair} && forall p :: p in old(rows) && p != pair ==> rows[p] == old(rows)[p]
      ensures
        var was := if pair in old(rows) then old(rows)[pair].lastSynced else None;
        rows[pair].lastSynced ==
          if was.Some? && (interval == "1d" || was.value <= lastSynced) then was
          else if interval == "1d" && pair in old(rows) then None
          else Some(lastSynced)
    {
      if interval == "1d" {
        if pair !in rows {
          rows := rows[pair := SyncRow(None, None, Some(lastSynced), false, completed, Some(lastSynced), false)];
        } else {
          var r := rows[pair];
          var daily := if r.dailyLast.Some? && r.dailyLast.value <= lastSynced then r.dailyLast else Some(lastSynced);
          rows := rows[pair := r.(dailyLast := daily, dailyDone := completed, backfillCompleted := r.hourlyDone && completed)];
        }
      } else {
        if pair !in rows {
          rows := rows[pair := SyncRow(Some(lastSynced), None, None, completed, false, Some(lastSynced), false)];
        } else {
          var r := rows[pair];
          var done := completed || (r.realtimeStarted.Some? && lastSynced >= r.realtimeStarted.value) || r.hourlyDone;
          rows := rows[pair := r.(hourlyLast := Earlier(r.hourlyLast, lastSynced), hourlyDone := done,
                                  lastSynced := Earlier(r.lastSynced, lastSynced), backfillCompleted := done && r.dailyDone)];
        }
      }
    }

    method MarkRealtimeStarted(pair: string, startedAt: int)
      modifies this
      ensures rows == ApplyEvent(old(rows), Live(pair, startedAt))
      ensures
        var was := if pair in old(rows) then old(rows)[pair] else SyncRow(None, None, None, false, false, None, false);
        var kept := was.realtimeStarted.Some? && was.realtimeStarted.value <= startedAt;
        rows == old(rows)[pair := if kept then was else was.(realtimeStarted := Some(startedAt))]
    {
      var r := if pair in rows then rows[pair] else BLANK;
      rows := rows[pair := r.(realtimeStarted := Earlier(r.realtimeStarted, startedAt))];
    }

    method MarkBackfillSeeded(pair: string, lastSynced: Option<int>)
      modifies this
      ensures rows == ApplyEvent(old(rows), Seeded(pair, lastSynced))
      ensures pair in old(rows) ==> rows == old(rows)
      ensures pair !in old(rows) ==>
        rows == old(rows)[pair := BLANK.(hourlyLast := lastSynced, lastSynced := lastSynced)] && !rows[pair].hourlyDone && !rows[pair].dailyDone
    {
      if pair !in rows {
        rows := rows[pair := SyncRow(lastSynced, None, None, false, false, lastSynced, false)];
      }
    }

    /** The planner sees every pair that has a row: its hourly columns as stored, and its daily progress only
        once hourly backfill is complete. */
    method States() returns (states: map<string, SyncState>)
      ensures states.Keys == rows.Keys
      ensures forall p :: p in rows ==>
        && states[p].hourlyLastSynced == rows[p].hourlyLast
        && states[p].hourlyRealtimeStartedAt == rows[p].realtimeStarted
        && states[p].hourlyCompleted == rows[p].hourlyDone
      ensures forall p :: p in rows && !rows[p].hourlyDone ==> states[p].dailyLastSynced == None && !states[p].dailyCompleted
      ensures forall p :: p in rows && rows[p].hourlyDone ==>
        states[p].dailyLastSynced == rows[p].dailyLast && states[p].dailyCompleted == rows[p].dailyDone
      ensures states == StatesOf(rows)
    {
      states := map[];
      var pairs := Enumerate(rows.Keys);
      for i := 0 to |pairs|
        invariant forall p :: p in states <==> p in pairs[..i]
        invariant forall p :: p in states ==> p in rows && states[p] == StateIn(rows[p])
      {
        assert pairs[..i + 1] == pairs[..i] + [pairs[i]];
        var r := rows[pairs[i]];
        var state := SyncState(r.hourlyLast, r.realtimeStarted, r.dailyLast, r.hourlyDone, r.dailyDone);
        if !state.hourlyCompleted {
          state := state.(dailyCompleted := false, dailyLastSynced := None);
        }
        states := states[pairs[i] := state];
      }
      assert pairs[..|pairs|] == pairs;
    }
  }

  function StatesOf(rows: SyncTable): map<string, SyncState> { map p | p in rows :: StateIn(rows[p]) }

  // ---------- planner and workers ----------

  datatype Kind = Initial | Probe | Consolidation

  /** A task the planner has issued, with the sync state and the time it was planned from. */
  datatype Issued = Issued(item: Task, kind: Kind, state: SyncState, now: int)

  /** history: the statements on sync_status so far; snapshots: the States results any planner still holds. */
  datatype Sys = Sys(history: seq<Event>, snapshots: set<map<string, SyncState>>, issued: set<Issued>, clock: int)

  datatype Step =
    | ReadStates
    | Seed(pair: string)
    | Plan(snapshot: map<string, SyncState>, pairs: seq<string>, coverage: map<string, set<int>>, active: set<string>,
           now: int, tasks: seq<Task>)
    | PlanProbe(snapshot: map<string, SyncState>, pair: string, id: string, now: int)
    | PlanConsolidation(snapshot: map<string, SyncState>, pair: string, now: int)
    | Report(done: Issued, completed: bool)      // updateSyncProgress
    | Cutover(pair: string, now: int)            // the realtime executor's cutover mark

  function ProbeTask(pair: string, id: string, cursor: int): Task {
    Task(id, BACKFILL, pair, "1h", cursor - HOUR, cursor, "")
  }

  function ConsolidationTask(pair: string, now: int): Task {
    Task(TaskId(CONSOLIDATE, pair, "1d", Trunc(now, DAY) - DAY, Trunc(now, DAY)), CONSOLIDATE, pair, "1d",
         Trunc(now, DAY) - DAY, Trunc(now, DAY), "")
  }

  function ReportOf(item: Task, completed: bool): Event {
    if item.interval == "1d" then Daily(item.pair, item.windowEnd, completed) else Hourly(item.pair, item.windowEnd, completed)
  }

  ghost predicate Enabled(s: Sys, step: Step) {
    match step
    case ReadStates => true
    case Seed(_) => true
    case Plan(snapshot, pairs, coverage, active, now, tasks) =>
      snapshot in s.snapshots && s.clock <= now && IsWalk(CursorsOf(pairs, snapshot, coverage, active, now), tasks)
    case PlanProbe(snapshot, pair, _, now) =>
      snapshot in s.snapshots && s.clock <= now && StateOf(snapshot, pair).hourlyLastSynced.Some?
    case PlanConsolidation(snapshot, pair, now) =>
      snapshot in s.snapshots && s.clock <= now && pair in snapshot
      && snapshot[pair].hourlyCompleted && snapshot[pair].dailyCompleted
    case Report(done, _) => done in s.issued
    case Cutover(_, now) => now <= s.clock
  }

  ghost function Do(s: Sys, step: Step): Sys
    requires Enabled(s, step)
  {
    match step
    case ReadStates => s.(snapshots := s.snapshots + {StatesOf(Replay(s.history))})
    case Seed(pair) => s.(history := s.history + [Seeded(pair, None)])
    case Plan(snapshot, _, _, _, now, tasks) =>
      s.(issued := s.issued + (set t | t in tasks :: Issued(t, Initial, StateOf(snapshot, t.pair), now)), clock := now)
    case PlanProbe(snapshot, pair, id, now) =>
      var st := StateOf(snapshot, pair);
      s.(issued := s.issued + {Issued(ProbeTask(pair, id, st.hourlyLastSynced.value), Probe, st, now)}, clock := now)
    case PlanConsolidation(snapshot, pair, now) =>
      s.(issued := s.issued + {Issued(ConsolidationTask(pair, now), Consolidation, snapshot[pair], now)}, clock := now)
    case Report(done, completed) => s.(history := s.history + [ReportOf(done.item, completed)])
    case Cutover(pair, now) => s.(history := s.history + [Live(pair, Trunc(now, HOUR))])
  }

  ghost predicate IsRun(trace: seq<Sys>, steps: seq<Step>) {
    && |trace| == |steps| + 1 && trace[0].history == [] && trace[0].snapshots == {} && trace[0].issued == {}
    && forall i :: 0 <= i < |steps| ==> Enabled(trace[i], steps[i]) && trace[i + 1] == Do(trace[i], steps[i])
  }

  // ---------- what every run keeps ----------

  ghost predicate AlignedEvent(e: Event) {
    match e
    case Hourly(_, end, _) => Aligned(end, HOUR)
    case Daily(_, end, _) => Aligned(end, HOUR)
    case Live(_, at) => Aligned(at, HOUR)
    case Seeded(_, since) => since.None?
  }

  ghost predicate AlignedHistory(history: seq<Event>) { forall e :: e in history ==> AlignedEvent(e) }

  ghost predicate AlignedSnapshots(snapshots: set<map<string, SyncState>>) {
    forall m, p :: m in snapshots && p in m ==> AlignedState(m[p])
  }

  /** Window bounds are whole hours; an initial window ends by yesterday and, if hourly, by the cutover known
      when it was planned; a probe is the hour before the cursor, and a consolidation the day before today. */
  ghost predicate WellPlanned(i: Issued, clock: int) {
    && Aligned(i.item.windowStart, HOUR) && Aligned(i.item.windowEnd, HOUR) && i.now <= clock
    && (i.kind.Initial? ==>
          i.item.windowEnd <= Yesterday(i.now)
          && (i.item.interval == "1h" && i.state.hourlyRealtimeStartedAt.Some? ==>
                i.item.windowEnd <= i.state.hourlyRealtimeStartedAt.value))
    && (i.kind.Probe? ==> i.state.hourlyLastSynced == Some(i.item.windowEnd) && i.item.windowStart == i.item.windowEnd - 3600)
    && (i.kind.Consolidation? ==>
          i.item.windowEnd % 86400 == 0 && i.item.windowEnd <= i.now < i.item.windowEnd + 86400
          && i.item.windowStart == i.item.windowEnd - 86400)
  }

  ghost predicate Inv(s: Sys) {
    AlignedHistory(s.history) && AlignedSnapshots(s.snapshots) && forall i :: i in s.issued ==> WellPlanned(i, s.clock)
  }

  /** From aligned statements only aligned cursors: they are among the reported values. */
  lemma CursorsAreAligned(history: seq<Event>, pair: string)
    requires AlignedHistory(history)
    ensures AlignedState(StateIn(RowOf(Replay(history), pair)))
  {
    hide Replay, ApplyEvent, Aligned;
    assert SeedsAreEmpty(history) by {
      forall e | e in history && e.Seeded? ensures e.since.None? { assert AlignedEvent(e); }
    }
    ReplayMeans(history, pair);
    var r := RowOf(Replay(history), pair);
    assert forall e :: e in history ==> AlignedEvent(e);
    assert forall t :: t in HourlyEnds(history, pair) ==> Aligned(t, HOUR);
    assert forall t :: t in DailyEnds(history, pair) ==> Aligned(t, HOUR);
    assert forall t :: t in Cutovers(history, pair) ==> Aligned(t, HOUR);
  }

  lemma StateIsAligned(s: Sys, snapshot: map<string, SyncState>, pair: string)
    requires AlignedSnapshots(s.snapshots) && snapshot in s.snapshots
    ensures AlignedState(StateOf(snapshot, pair))
  {
  }

  lemma PlanKeepsInv(s: Sys, step: Step)
    requires Inv(s) && Enabled(s, step) && (step.Plan? || step.PlanProbe? || step.PlanConsolidation?)
    ensures Inv(Do(s, step))
  {
    hide IsWalk, CursorsOf, AlignedState, Trunc, Aligned, Yesterday, AlignedHistory, AlignedSnapshots;
    var t := Do(s, step);
    forall i | i in t.issued ensures WellPlanned(i, t.clock) {
      if i !in s.issued {
        StateIsAligned(s, step.snapshot, i.item.pair);
        NewIsWellPlanned(s, step, i);
      }
    }
  }

  lemma NewIsWellPlanned(s: Sys, step: Step, i: Issued)
    requires Enabled(s, step) && (step.Plan? || step.PlanProbe? || step.PlanConsolidation?)
    requires i in Do(s, step).issued && i !in s.issued && AlignedState(StateOf(step.snapshot, i.item.pair))
    ensures WellPlanned(i, Do(s, step).clock)
  {
    hide IsWalk, CursorsOf, Trunc, Aligned, Yesterday;
    match step {
      case Plan(snapshot, pairs, coverage, active, now, tasks) =>
        PlannedWindows(pairs, snapshot, coverage, active, now, tasks, i.item);
      case PlanProbe(snapshot, pair, id, now) =>
        UnitsAreWholeHours();
        AlignedShift(i.item.windowEnd, HOUR, HOUR);
      case PlanConsolidation(snapshot, pair, now) =>
        TruncBounds(now, DAY);
        DaysAreWholeHours(Trunc(now, DAY));
        UnitsAreWholeHours();
        AlignedShift(Trunc(now, DAY), DAY, HOUR);
      case _ =>
    }
  }

  lemma StepKeepsInv(s: Sys, step: Step)
    requires Inv(s) && Enabled(s, step)
    ensures Inv(Do(s, step))
  {
    if step.Plan? || step.PlanProbe? || step.PlanConsolidation? {
      PlanKeepsInv(s, step);
    } else {
      hide AlignedState, Replay, IsWalk, CursorsOf, Trunc, Aligned;
      match step {
        case ReadStates =>
          var latest := StatesOf(Replay(s.history));
          forall p | p in latest ensures AlignedState(latest[p]) {
            CursorsAreAligned(s.history, p);
          }
        case Cutover(_, now) => TruncBounds(now, HOUR);
        case Report(done, completed) => assert WellPlanned(done, s.clock);
        case _ =>
      }
    }
  }

  /** All cursors and all issued windows are whole hours, and initial windows end in time, in every run. */
  lemma {:induction false} RunsKeepInv(trace: seq<Sys>, steps: seq<Step>, n: nat)
    requires IsRun(trace, steps) && n <= |steps|
    ensures Inv(trace[n])
    ensures forall pair :: AlignedState(StateIn(RowOf(Replay(trace[n].history), pair)))
  {
    hide Do, Enabled, AlignedState, WellPlanned, Replay;
    if n > 0 {
      RunsKeepInv(trace, steps, n - 1);
      StepKeepsInv(trace[n - 1], steps[n - 1]);
    }
    forall pair ensures AlignedState(StateIn(RowOf(Replay(trace[n].history), pair))) {
      CursorsAreAligned(trace[n].history, pair);
    }
  }

  /** An hourly completion stays complete along any run. */
  lemma {:induction false} HistoryGrows(trace: seq<Sys>, steps: seq<Step>, m: nat, n: nat)
    requires IsRun(trace, steps) && m <= n <= |steps|
    ensures trace[m].history <= trace[n].history
  {
    hide Replay, StatesOf, IsWalk, StateOf;
    if m < n {
      HistoryGrows(trace, steps, m, n - 1);
      assert trace[n] == Do(trace[n - 1], steps[n - 1]);
      assert trace[n - 1].history <= trace[n].history;
    }
  }

  lemma NeverRevertsInRuns(trace: seq<Sys>, steps: seq<Step>, m: nat, n: nat, pair: string)
    requires IsRun(trace, steps) && m <= n <= |steps| && RowOf(Replay(trace[m].history), pair).hourlyDone
    ensures RowOf(Replay(trace[n].history), pair).hourlyDone
  {
    hide Replay, AlignedState, ApplyEvent, WellPlanned, Do, Enabled;
    HistoryGrows(trace, steps, m, n);
    RunsKeepInv(trace, steps, n);
    var before, after := trace[m].history, trace[n].history;
    assert after == before + after[|before|..];
    assert SeedsAreEmpty(after) by {
      forall e | e in after && e.Seeded? ensures e.since.None? { assert AlignedEvent(e); }
    }
    HourlyCompletionIsFinal(before, after[|before|..], pair);
  }

  // ---------- what the worker's reports can and cannot do ----------

  /** backfillComplete is constantly false: workers never flag a report as complete. */
  predicate WorkersReport(steps: seq<Step>) { forall i :: 0 <= i < |steps| && steps[i].Report? ==> !steps[i].completed }

  lemma {:induction false} FlagsStayDown(history: seq<Event>, pair: string)
    requires forall e :: e in history && e.Daily? ==> !e.completed
    ensures !DailyFlag(history, pair)
  {
    if history != [] {
      assert history[|history| - 1] in history;
      FlagsStayDown(history[..|history| - 1], pair);
    }
  }

  ghost predicate NoDailyCompletion(s: Sys) {
    && (forall e :: e in s.history && e.Daily? ==> !e.completed)
    && (forall m: map<string, SyncState>, p :: m in s.snapshots && p in m ==> !m[p].dailyCompleted)
    && (forall i :: i in s.issued ==> !i.kind.Consolidation?)
  }

  /** Hence daily backfill is never complete, backfill_completed is never set, and the planner never issues a
      consolidation task, in any run of the actual workers. */
  lemma {:induction false} DailyNeverCompletes(trace: seq<Sys>, steps: seq<Step>, n: nat)
    requires IsRun(trace, steps) && WorkersReport(steps) && n <= |steps|
    ensures NoDailyCompletion(trace[n])
    ensures forall pair :: !RowOf(Replay(trace[n].history), pair).backfillCompleted
  {
    hide Replay, ApplyEvent, IsWalk, Trunc, AlignedState;
    RunsKeepInv(trace, steps, n);
    if n > 0 {
      DailyNeverCompletes(trace, steps, n - 1);
      RunsKeepInv(trace, steps, n - 1);
      NoDailyStep(trace[n - 1], steps[n - 1]);
    }
    forall pair ensures !RowOf(Replay(trace[n].history), pair).backfillCompleted {
      NoDailyRow(trace[n], pair);
    }
  }

  lemma NoDailyRow(s: Sys, pair: string)
    requires AlignedHistory(s.history) && forall e :: e in s.history && e.Daily? ==> !e.completed
    ensures !RowOf(Replay(s.history), pair).backfillCompleted && !RowOf(Replay(s.history), pair).dailyDone
  {
    hide Replay, ApplyEvent, Aligned;
    assert SeedsAreEmpty(s.history) by {
      forall e | e in s.history && e.Seeded? ensures e.since.None? { assert AlignedEvent(e); }
    }
    ReplayMeans(s.history, pair);
    FlagsStayDown(s.history, pair);
  }

  lemma NoDailyStep(s: Sys, step: Step)
    requires NoDailyCompletion(s) && AlignedHistory(s.history) && Enabled(s, step) && (step.Report? ==> !step.completed)
    ensures NoDailyCompletion(Do(s, step))
  {
    hide Replay, ApplyEvent, IsWalk, Trunc, CursorsOf, AlignedHistory, StateOf;
    if step.ReadStates? {
      forall p | p in Replay(s.history) ensures !StateIn(Replay(s.history)[p]).dailyCompleted {
        NoDailyRow(s, p);
      }
    }
  }

  // ---------- one round of the loop ----------

  lemma FirstWindow(c: Cursor, t: Task)
    requires IsTurn(c, c.position, t) && Trunc(c.position - c.window, DAY) !in c.covered
    ensures t.windowEnd == c.position
  {
    hide Trunc, Gap, TaskId;
    MulMod(1, c.window);
    NothingIsPassed(c, c.position, t, c.position - c.window);
    WindowFits(c.position, t.windowStart, c.window);
  }

  /** The pair's windows up to turn m, and no others, have been reported since. */
  ghost predicate ReportsUpTo(history: seq<Event>, more: seq<Event>, tasks: seq<Task>, m: nat)
    requires m < |tasks|
  {
    HourlyEnds(more, tasks[m].pair) == HourlyEnds(history, tasks[m].pair)
      + set j | 0 <= j <= m && tasks[j].pair == tasks[m].pair :: tasks[j].windowEnd
  }

  /** A walk is planned from the stored states, and the windows of a pair up to turn m are reported, in any order:
      then its stored cursor is the end of window m, not its start, and the next walk plans that window again unless
      its day has been covered meanwhile. */
  lemma CursorLagsOneWindow(history: seq<Event>, more: seq<Event>, pairs: seq<string>, coverage: map<string, set<int>>,
                            active: set<string>, now: int, tasks: seq<Task>, m: nat)
    requires SeedsAreEmpty(history) && SeedsAreEmpty(more) && Distinct(pairs) && m < |tasks| && tasks[m].interval == "1h"
    requires IsWalk(CursorsOf(pairs, StatesOf(Replay(history)), coverage, active, now), tasks)
    requires ReportsUpTo(history, more, tasks, m)
    ensures RowOf(Replay(more), tasks[m].pair).hourlyLast == Some(tasks[m].windowEnd)
  {
    hide Replay, ApplyEvent, HourlyEnds, IsLeast;
    var pair, stored := tasks[m].pair, RowOf(Replay(history), tasks[m].pair).hourlyLast;
    ReplayMeans(history, pair);
    ReplayMeans(more, pair);
    StoredCursor(history, pairs, coverage, active, now, tasks, m);
    var ends := set j | 0 <= j <= m && tasks[j].pair == pair :: tasks[j].windowEnd;
    assert tasks[m].windowEnd in ends;
    forall t | t in ends ensures tasks[m].windowEnd <= t {
      var j :| 0 <= j <= m && tasks[j].pair == pair && tasks[j].windowEnd == t;
      LaterEndsEarlier(pairs, StatesOf(Replay(history)), coverage, active, now, tasks, j, m);
    }
    hide IsWalk, CursorsOf;
    LeastOfMore(stored, HourlyEnds(history, pair), ends, tasks[m].windowEnd, RowOf(Replay(more), pair).hourlyLast);
  }

  lemma StoredCursor(history: seq<Event>, pairs: seq<string>, coverage: map<string, set<int>>, active: set<string>, now: int,
                     tasks: seq<Task>, m: nat)
    requires IsWalk(CursorsOf(pairs, StatesOf(Replay(history)), coverage, active, now), tasks) && m < |tasks|
    requires tasks[m].interval == "1h"
    ensures
      var stored := RowOf(Replay(history), tasks[m].pair).hourlyLast;
      stored.Some? ==> tasks[m].windowEnd <= stored.value
  {
    hide Replay, CursorsOf, IsWalk, OnWholeWindow, DayBefore;
    PlansOnlyOpenWindows(pairs, StatesOf(Replay(history)), coverage, active, now, tasks, tasks[m]);
  }

  /** Of two windows of one pair the later planned one ends no later. */
  lemma LaterEndsEarlier(pairs: seq<string>, state: map<string, SyncState>, coverage: map<string, set<int>>,
                         active: set<string>, now: int, tasks: seq<Task>, j: nat, m: nat)
    requires IsWalk(CursorsOf(pairs, state, coverage, active, now), tasks) && Distinct(pairs)
    requires j <= m < |tasks| && tasks[j].pair == tasks[m].pair
    ensures tasks[m].windowEnd <= tasks[j].windowEnd
  {
    var cursors := CursorsOf(pairs, state, coverage, active, now);
    CursorsAreEligible(pairs, state, coverage, active, now);
    hide CursorsOf, IsTurn, IsWalk;
    if j < m {
      TurnFacts(cursors, tasks, j);
      TurnFacts(cursors, tasks, m);
      SameOwner(cursors, j % |cursors|, m % |cursors|);
      WindowsRunBackwards(cursors, tasks, j, m);
    }
  }

  lemma SameOwner(cursors: seq<Cursor>, i: nat, j: nat)
    requires DistinctSymbols(cursors) && i < |cursors| && j < |cursors| && cursors[i].symbol == cursors[j].symbol
    ensures i == j
  {
  }

  lemma LeastOfMore(stored: Option<int>, s: set<int>, more: set<int>, t: int, after: Option<int>)
    requires IsLeast(stored, s) && IsLeast(after, s + more) && (stored.Some? ==> t <= stored.value)
    requires t in more && forall x :: x in more ==> t <= x
    ensures after == Some(t)
  {
    assert t in s + more;
  }

  /** In particular a tick that gives a pair one window, below a stored cursor from which the walk resumes and on an
      uncovered day, leaves that cursor where it was. */
  lemma OneWindowStandsStill(rows: SyncTable, pair: string, covered: set<int>, now: int, t: Task)
    requires pair in rows && !rows[pair].hourlyDone && rows[pair].hourlyLast == Some(HourlyTop(StateIn(rows[pair]), now))
    requires
      var h := HourlyTop(StateIn(rows[pair]), now);
      && (h - 3600) - (h - 3600) % 86400 !in covered
      && IsTurn(CursorOf(pair, StateIn(rows[pair]), covered, now).value, h, t)
    ensures RowOf(ApplyEvent(rows, ReportOf(t, false)), pair).hourlyLast == rows[pair].hourlyLast
  {
    var c := CursorOf(pair, StateIn(rows[pair]), covered, now).value;
    CursorIsTop(pair, StateIn(rows[pair]), covered, now);
    TruncIsStart(c.position - HOUR, DAY);
    hide HourlyTop, CursorOf;
    FirstWindow(c, t);
    hide Trunc, Gap, TaskId;
  }

  /** The first hourly window of a pair declares its backfill complete if and only if the realtime cutover is a
      whole hour no later than yesterday's start, the cursor has not passed it, and the day before it is not covered:
      then that window ends at the cutover, whatever history is missing. */
  lemma FirstWindowCompletesExactlyWhen(rows: SyncTable, pair: string, covered: set<int>, now: int, t: Task)
    requires !RowOf(rows, pair).hourlyDone
    requires
      var c := CursorOf(pair, StateIn(RowOf(rows, pair)), covered, now).value;
      IsTurn(c, c.position, t)
    ensures
      var r := RowOf(rows, pair);
      RowOf(ApplyEvent(rows, ReportOf(t, false)), pair).hourlyDone <==>
        && r.realtimeStarted.Some? && Aligned(r.realtimeStarted.value, HOUR)
        && r.realtimeStarted.value <= Yesterday(now)
        && (r.hourlyLast.Some? ==> r.hourlyLast.value >= r.realtimeStarted.value)
        && Trunc(r.realtimeStarted.value - HOUR, DAY) !in covered
  {
    var r := RowOf(rows, pair);
    var c := CursorOf(pair, StateIn(r), covered, now).value;
    FirstReport(rows, c, t);
    WindowFits(c.position, t.windowStart, HOUR);
    YesterdayIsAligned(now);
    if r.realtimeStarted.Some? {
      CutoverCeiling(StateIn(r), now);
      hide Trunc, Gap, TaskId, Yesterday, Aligned;
      if t.windowEnd == c.position {
        SkippedDay(c, t);
      }
      if Trunc(c.position - HOUR, DAY) !in covered {
        FirstWindow(c, t);
      }
    }
  }

  /** A report of an hourly window completes exactly by reaching the cutover. */
  lemma FirstReport(rows: SyncTable, c: Cursor, t: Task)
    requires IsTurn(c, c.position, t) && c.interval == "1h" && !RowOf(rows, c.symbol).hourlyDone
    ensures
      var r := RowOf(rows, c.symbol);
      RowOf(ApplyEvent(rows, ReportOf(t, false)), c.symbol).hourlyDone
      <==> r.realtimeStarted.Some? && t.windowEnd >= r.realtimeStarted.value
  {
    hide Trunc, Gap, TaskId, OnGrid;
  }

  /** The hourly ceiling is the cutover only if that is a whole hour, and otherwise before it. */
  lemma CutoverCeiling(st: SyncState, now: int)
    requires st.hourlyRealtimeStartedAt.Some?
    ensures HourlyCeiling(st, now) <= st.hourlyRealtimeStartedAt.value
    ensures HourlyCeiling(st, now) == st.hourlyRealtimeStartedAt.value
      <==> Aligned(st.hourlyRealtimeStartedAt.value, HOUR) && st.hourlyRealtimeStartedAt.value <= Yesterday(now)
  {
    var cutover := st.hourlyRealtimeStartedAt.value;
    TruncBounds(cutover, HOUR);
    YesterdayIsAligned(now);
    hide Yesterday, Trunc;
    if Aligned(cutover, HOUR) {
      TruncUnique(cutover, HOUR, cutover);
    }
  }

  lemma SkippedDay(c: Cursor, t: Task)
    requires IsTurn(c, c.position, t) && t.windowEnd == c.position
    ensures Trunc(c.position - c.window, DAY) !in c.covered
  {
    hide Trunc, Gap, TaskId, OnGrid;
  }
}
