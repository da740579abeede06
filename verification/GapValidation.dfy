/** The coverage sweep (backend/internal/worker/gap_validator_executor.go) and what its marks are worth to
    the backfill walk. A stored row is represented by its key: validation only counts rows. */
module GapValidation {
  import opened Common
  import opened TaskIds
  import opened TaskTable
  import opened Consolidate
  import opened Scheduler

  const GAP_VALIDATION := "gap_validation"
  const MAX_DAYS_PER_RUN := 30

  datatype RawMark = RawMark(pair: string, interval: string, ts: int)
  datatype Slot = Slot(pair: string, ts: int)

  /** raw_candles, candles_1h and the complete days of data_coverage. */
  datatype Db = Db(raw: set<RawMark>, hourly: set<Slot>, covered: set<Slot>)

  ghost predicate HasDaily(db: Db, pair: string, day: int) {
    exists m :: m in db.raw && m.pair == pair && m.interval == "1d" && day <= m.ts < day + DAY
  }

  /** The distinct hours of the pair's stored candles in [day, day + DAY). */
  function HoursSeen(hourly: set<Slot>, pair: string, day: int): set<int> {
    set s | s in hourly && s.pair == pair && day <= s.ts < day + DAY :: Trunc(s.ts, HOUR)
  }

  /** validateDay: a raw daily candle, and 24 distinct hours. */
  ghost predicate Validates(db: Db, pair: string, day: int) {
    HasDaily(db, pair, day) && |HoursSeen(db.hourly, pair, day)| >= 24
  }

  /** Every one of the day's 24 hourly buckets is stored. */
  ghost predicate DayIsFull(hourly: set<Slot>, pair: string, day: int) {
    forall h :: Aligned(h, HOUR) && day <= h < day + DAY ==> Slot(pair, h) in hourly
  }

  ghost predicate HoursAligned(hourly: set<Slot>) { forall s :: s in hourly ==> Aligned(s.ts, HOUR) }

  // ---------- 24 distinct hours fill a day ----------

  function FirstHours(day: int, n: nat): (r: set<int>)
    ensures |r| == n
    ensures forall h :: h in r ==> day <= h <= day + HOUR * (n - 1)
  {
    if n == 0 then {} else FirstHours(day, n - 1) + {day + HOUR * (n - 1)}
  }

  lemma {:induction false} FirstHoursAre(day: int, n: nat, h: int)
    requires Aligned(day, HOUR) && Aligned(h, HOUR) && day <= h < day + HOUR * n
    ensures h in FirstHours(day, n)
  {
    hide Aligned;
    assert FirstHours(day, n) == FirstHours(day, n - 1) + {day + HOUR * (n - 1)};
    hide FirstHours;
    if h < day + HOUR * (n - 1) {
      FirstHoursAre(day, n - 1, h);
    } else {
      ShiftHours(day, n - 1);
      SameHour(h, day + HOUR * (n - 1));
    }
  }

  lemma ShiftHours(day: int, k: int)
    requires Aligned(day, HOUR)
    ensures Aligned(day + HOUR * k, HOUR)
  {
    MulMod(k, HOUR);
    AlignedShift(day, HOUR * k, HOUR);
  }

  lemma SameHour(h: int, g: int)
    requires Aligned(h, HOUR) && Aligned(g, HOUR) && g <= h < g + HOUR
    ensures h == g
  {
  }

  lemma SeenAreOfTheDay(hourly: set<Slot>, pair: string, day: int)
    requires Aligned(day, HOUR)
    ensures HoursSeen(hourly, pair, day) <= FirstHours(day, 24)
  {
    forall h | h in HoursSeen(hourly, pair, day) ensures h in FirstHours(day, 24) {
      var s :| s in hourly && s.pair == pair && day <= s.ts < day + DAY && h == Trunc(s.ts, HOUR);
      TruncBounds(s.ts, HOUR);
      if h < day {
        SameHour(day, h);
      }
      FirstHoursAre(day, 24, h);
    }
  }

  lemma FullSubset(s: set<int>, t: set<int>)
    requires s <= t && |s| >= |t|
    ensures s == t
  {
    assert |t| == |s| + |t - s|;
  }

  /** The day validates only if all its hourly buckets are stored: 24 distinct hours in 24 slots. */
  lemma TwentyFourHoursFillADay(hourly: set<Slot>, pair: string, day: int)
    requires Aligned(day, DAY) && HoursAligned(hourly)
    ensures |HoursSeen(hourly, pair, day)| >= 24 <==> DayIsFull(hourly, pair, day)
  {
    hide FirstHours, Trunc, Aligned;
    DaysAreWholeHours(day);
    SeenAreOfTheDay(hourly, pair, day);
    if |HoursSeen(hourly, pair, day)| >= 24 {
      FullSubset(HoursSeen(hourly, pair, day), FirstHours(day, 24));
      forall h | Aligned(h, HOUR) && day <= h < day + DAY ensures Slot(pair, h) in hourly {
        FirstHoursAre(day, 24, h);
        StoredHour(hourly, pair, day, h);
      }
    }
    if DayIsFull(hourly, pair, day) {
      forall h | h in FirstHours(day, 24) ensures h in HoursSeen(hourly, pair, day) {
        FirstHoursInDay(day, 24, h);
        assert Slot(pair, h) in hourly;
        AlignedIsItsHour(h);
        assert Slot(pair, h).ts == h;
      }
      assert HoursSeen(hourly, pair, day) == FirstHours(day, 24);
    }
  }

  lemma AlignedIsItsHour(h: int)
    requires Aligned(h, HOUR)
    ensures Trunc(h, HOUR) == h
  {
  }

  lemma {:induction false} FirstHoursInDay(day: int, n: nat, h: int)
    requires Aligned(day, HOUR) && h in FirstHours(day, n)
    ensures Aligned(h, HOUR) && day <= h < day + HOUR * n
  {
    hide Aligned;
    if h == day + HOUR * (n - 1) {
      ShiftHours(day, n - 1);
    } else {
      FirstHoursInDay(day, n - 1, h);
    }
  }

  lemma StoredHour(hourly: set<Slot>, pair: string, day: int, h: int)
    requires HoursAligned(hourly) && h in HoursSeen(hourly, pair, day)
    ensures Slot(pair, h) in hourly
  {
    var s :| s in hourly && s.pair == pair && day <= s.ts < day + DAY && h == Trunc(s.ts, HOUR);
    assert Aligned(s.ts, HOUR);
    AlignedIsItsHour(s.ts);
    assert s == Slot(pair, h);
  }

  // ---------- runs of writers and sweeps ----------

  /** What a sweep has found so far; the reads and the mark are separate statements. */
  datatype Check = DailyFound(pair: string, day: int) | HoursFound(pair: string, day: int)

  datatype State = State(db: Db, checks: set<Check>)

  datatype Step =
    | WriteRaw(interval: string, items: seq<Candle>)       // UpsertRawCandles
    | WriteHourly(bars: seq<Candle>, items: seq<Candle>)   // UpsertCandles("1h") of FromRaw("1h", items)
    | ReadDaily(pair: string, day: int)                    // validateDay's first read, not empty
    | ReadHours(pair: string, day: int)                    // its second read, 24 hours
    | Mark(pair: string, day: int)                         // MarkDayComplete

  ghost predicate Enabled(s: State, step: Step) {
    match step
    case WriteRaw(_, _) => true
    case WriteHourly(bars, items) => IsRollUp(bars, "1h", items)
    case ReadDaily(pair, day) => Aligned(day, DAY) && HasDaily(s.db, pair, day)
    case ReadHours(pair, day) => DailyFound(pair, day) in s.checks && |HoursSeen(s.db.hourly, pair, day)| >= 24
    case Mark(pair, day) => HoursFound(pair, day) in s.checks
  }

  ghost function Do(s: State, step: Step): State {
    match step
    case WriteRaw(interval, items) =>
      s.(db := s.db.(raw := s.db.raw + set c | c in items :: RawMark(c.pair, interval, c.ts)))
    case WriteHourly(bars, _) => s.(db := s.db.(hourly := s.db.hourly + set c | c in bars :: Slot(c.pair, c.ts)))
    case ReadDaily(pair, day) => s.(checks := s.checks + {DailyFound(pair, day)})
    case ReadHours(pair, day) => s.(checks := s.checks + {HoursFound(pair, day)})
    case Mark(pair, day) => s.(db := s.db.(covered := s.db.covered + {Slot(pair, day)}))
  }

  ghost predicate IsRun(trace: seq<State>, steps: seq<Step>) {
    && |trace| == |steps| + 1 && trace[0] == State(Db({}, {}, {}), {})
    && forall i :: 0 <= i < |steps| ==> Enabled(trace[i], steps[i]) && trace[i + 1] == Do(trace[i], steps[i])
  }

  ghost predicate Inv(s: State) {
    && HoursAligned(s.db.hourly)
    && (forall c :: c in s.checks ==> Aligned(c.day, DAY))
    && (forall c :: c in s.checks && c.HoursFound? ==> DayIsFull(s.db.hourly, c.pair, c.day))
    && (forall d :: d in s.db.covered ==> Aligned(d.ts, DAY) && DayIsFull(s.db.hourly, d.pair, d.ts))
  }

  lemma RolledUpBarsAreAligned(bars: seq<Candle>, items: seq<Candle>)
    requires IsRollUp(bars, "1h", items)
    ensures forall c :: c in bars ==> Aligned(c.ts, HOUR)
  {
    hide Trunc, BarOf, Aligned;
    forall c | c in bars ensures Aligned(c.ts, HOUR) {
      assert IsBucketBar(c, "1h", Survivors(items));
      var x :| x in InBucket(Survivors(items), "1h", c.ts);
      TruncBounds(x.ts, HOUR);
    }
  }

  lemma FullStaysFull(before: set<Slot>, after: set<Slot>, pair: string, day: int)
    requires before <= after && DayIsFull(before, pair, day)
    ensures DayIsFull(after, pair, day)
  {
  }

  lemma StepKeepsInv(s: State, step: Step)
    requires Inv(s) && Enabled(s, step)
    ensures Inv(Do(s, step))
  {
    hide IsRollUp, HasDaily, HoursSeen, DayIsFull, Aligned;
    var t := Do(s, step);
    match step {
      case WriteHourly(bars, items) =>
        RolledUpBarsAreAligned(bars, items);
        forall c | c in s.checks && c.HoursFound? ensures DayIsFull(t.db.hourly, c.pair, c.day) {
          FullStaysFull(s.db.hourly, t.db.hourly, c.pair, c.day);
        }
        forall d | d in s.db.covered ensures DayIsFull(t.db.hourly, d.pair, d.ts) {
          FullStaysFull(s.db.hourly, t.db.hourly, d.pair, d.ts);
        }
      case ReadHours(pair, day) =>
        assert DailyFound(pair, day).day == day;
        TwentyFourHoursFillADay(s.db.hourly, pair, day);
      case Mark(pair, day) =>
        assert HoursFound(pair, day).pair == pair && HoursFound(pair, day).day == day;
      case _ =>
    }
  }

  lemma {:induction false} RunsKeepInv(trace: seq<State>, steps: seq<Step>, n: nat)
    requires IsRun(trace, steps) && n <= |steps|
    ensures Inv(trace[n])
  {
    hide Do, Enabled, DayIsFull;
    if n > 0 {
      RunsKeepInv(trace, steps, n - 1);
      StepKeepsInv(trace[n - 1], steps[n - 1]);
    }
  }

  /** A day marked complete, in any state of any run of writers and sweeps, has all 24 hourly buckets stored. */
  lemma CoveredDaysAreFull(trace: seq<State>, steps: seq<Step>, n: nat, pair: string, day: int)
    requires IsRun(trace, steps) && n <= |steps| && Slot(pair, day) in trace[n].db.covered
    ensures Aligned(day, DAY) && DayIsFull(trace[n].db.hourly, pair, day)
  {
    RunsKeepInv(trace, steps, n);
    hide DayIsFull;
    assert Slot(pair, day).pair == pair && Slot(pair, day).ts == day;
  }

  /** What GetAllCompletedDays returns for a pair. */
  ghost function CompletedDays(db: Db, pair: string): set<int> { set d | d in db.covered && d.pair == pair :: d.ts }

  /** Skipping is safe: every hour between a pair's stored cursor (or the ceiling, if that is earlier) and its latest
      planned window is planned or stored. */
  lemma SkippingIsSafe(trace: seq<State>, steps: seq<Step>, n: nat, pairs: seq<string>, state: map<string, SyncState>,
                       coverage: map<string, set<int>>, active: set<string>, now: int, tasks: seq<Task>, latest: Task, x: int)
    requires IsRun(trace, steps) && n <= |steps|
    requires IsWalk(CursorsOf(pairs, state, coverage, active, now), tasks) && latest in tasks
    requires latest.pair in coverage ==> coverage[latest.pair] == CompletedDays(trace[n].db, latest.pair)
    requires
      var st := StateOf(state, latest.pair);
      && !st.hourlyCompleted && (st.hourlyLastSynced.Some? ==> st.hourlyLastSynced.value % 3600 == 0)
      && latest.windowStart <= x < HourlyTop(st, now) && x % 3600 == 0
    ensures
      (exists t :: t in tasks && t.pair == latest.pair && t.interval == "1h" && t.windowStart == x && t.windowEnd == x + 3600)
      || Slot(latest.pair, x) in trace[n].db.hourly
  {
    var st, day := StateOf(state, latest.pair), x - x % 86400;
    TopIsWhole(st, now, x);
    hide IsWalk, CursorsOf, DayIsFull, HourlyTop;
    PlansExactlyTheUncovered(pairs, state, coverage, active, now, tasks, latest, x);
    if !Planned(tasks, latest.pair, x, st) {
      var d :| d in trace[n].db.covered && d.pair == latest.pair && d.ts == day;
      assert d == Slot(latest.pair, day);
      CoveredDaysAreFull(trace, steps, n, latest.pair, day);
      HourOfFullDay(trace[n].db.hourly, latest.pair, day, x);
    }
  }

  lemma TopIsWhole(st: SyncState, now: int, x: int)
    requires !st.hourlyCompleted && x % 3600 == 0 && (st.hourlyLastSynced.Some? ==> st.hourlyLastSynced.value % 3600 == 0)
    ensures OnWholeWindow(x, st, now)
  {
  }

  lemma HourOfFullDay(hourly: set<Slot>, pair: string, day: int, x: int)
    requires DayIsFull(hourly, pair, day) && Aligned(x, HOUR) && day <= x < day + DAY
    ensures Slot(pair, x) in hourly
  {
  }

  // ---------- no writer stores raw daily candles ----------

  /** The callers of UpsertRawCandles: live and ingested candles are "1h", and a backfill of interval "1d"
      rolls stored hours up instead of writing raw rows. */
  ghost predicate WritersOnly(steps: seq<Step>) {
    forall i :: 0 <= i < |steps| && steps[i].WriteRaw? ==> steps[i].interval != "1d"
  }

  ghost predicate NothingCovered(s: State) {
    s.checks == {} && s.db.covered == {} && forall m :: m in s.db.raw ==> m.interval != "1d"
  }

  /** So from empty tables no sweep ever marks a day: the daily check of validateDay always fails. */
  lemma {:induction false} NoDayIsEverCovered(trace: seq<State>, steps: seq<Step>, n: nat)
    requires IsRun(trace, steps) && WritersOnly(steps) && n <= |steps|
    ensures NothingCovered(trace[n])
    ensures forall pair, day :: !Validates(trace[n].db, pair, day)
  {
    hide IsRollUp, HoursSeen, Aligned;
    if n > 0 {
      NoDayIsEverCovered(trace, steps, n - 1);
      assert Enabled(trace[n - 1], steps[n - 1]) && trace[n] == Do(trace[n - 1], steps[n - 1]);
    }
  }

  // ---------- one sweep ----------

  /** The uncovered days of [start, end), oldest first. */
  function UncoveredDays(start: int, end: int, covered: set<int>): seq<int>
    decreases end - start
  {
    if start >= end then []
    else (if start in covered then [] else [start]) + UncoveredDays(start + DAY, end, covered)
  }

  function Take(s: seq<int>, n: nat): seq<int> { if |s| <= n then s else s[..n] }

  /** The days a sweep looks at: the first 30 uncovered ones. */
  function CheckedDays(start: int, end: int, covered: set<int>): seq<int> {
    Take(UncoveredDays(start, end, covered), MAX_DAYS_PER_RUN)
  }

  lemma {:induction false} UncoveredSplits(start: int, day: int, end: int, covered: set<int>)
    requires Aligned(day - start, DAY) && start <= day < end
    ensures UncoveredDays(start, end, covered) == UncoveredDays(start, day, covered) + UncoveredDays(day, end, covered)
    decreases day - start
  {
    if start < day {
      MulMod(1, DAY);
      AlignedShift(day - start, DAY, DAY);
      WindowFits(day, start, DAY);
      UncoveredSplits(start + DAY, day, end, covered);
    }
  }

  lemma {:induction false} UncoveredAre(start: int, end: int, covered: set<int>, day: int)
    ensures day in UncoveredDays(start, end, covered) <==> start <= day < end && Aligned(day - start, DAY) && day !in covered
    decreases end - start
  {
    if start < end {
      UncoveredAre(start + DAY, end, covered, day);
      MulMod(1, DAY);
      MulMod(0, DAY);
      if Aligned(day - start, DAY) {
        AlignedShift(day - start, DAY, DAY);
        if start < day {
          WindowFits(day, start, DAY);
        }
      }
      if Aligned(day - start - DAY, DAY) {
        AlignedShift(day - start - DAY, DAY, DAY);
      }
    }
  }

  /** A sweep reaches a day exactly if it is uncovered and fewer than 30 uncovered days of the range come before it. */
  lemma SweepReaches(start: int, end: int, covered: set<int>, day: int)
    requires start <= day < end && Aligned(day - start, DAY)
    ensures day in CheckedDays(start, end, covered) <==>
      day !in covered && |UncoveredDays(start, day, covered)| < 30
  {
    var before, rest := UncoveredDays(start, day, covered), UncoveredDays(day, end, covered);
    UncoveredSplits(start, day, end, covered);
    UncoveredAre(start, day, covered, day);
    UncoveredAre(day, end, covered, day);
    MulMod(0, DAY);
    var all := before + rest;
    if day !in covered {
      LaterDays(day, end, covered);
      assert rest[0] == day && all[|before|] == day;
      if |before| >= MAX_DAYS_PER_RUN {
        assert all[..MAX_DAYS_PER_RUN] == before[..MAX_DAYS_PER_RUN];
      } else {
        assert |all| > MAX_DAYS_PER_RUN ==> all[..MAX_DAYS_PER_RUN][|before|] == day;
      }
    } else {
      assert day !in all;
    }
  }

  lemma LaterDays(day: int, end: int, covered: set<int>)
    requires day < end && day !in covered
    ensures UncoveredDays(day, end, covered) == [day] + UncoveredDays(day + DAY, end, covered)
  {
  }

  datatype Outcome = Swept | WrongType | NothingComplete

  class MarketTables {
    var raw: set<RawMark>
    var hourly: set<Slot>

    constructor ()
      ensures raw == {} && hourly == {}
    {
      raw, hourly := {}, {};
    }

    method RawCandles(pair: string, interval: string, start: int, end: int) returns (rows: set<RawMark>)
      ensures rows == set m | m in raw && m.pair == pair && m.interval == interval && start <= m.ts < end
    {
      rows := set m | m in raw && m.pair == pair && m.interval == interval && start <= m.ts < end;
    }

    method HourlyCandles(pair: string, start: int, end: int) returns (rows: set<Slot>)
      ensures rows == set s | s in hourly && s.pair == pair && start <= s.ts < end
    {
      rows := set s | s in hourly && s.pair == pair && start <= s.ts < end;
    }
  }

  function StartOfDay(t: int): int { t - t % 86400 }

  class CoverageRepository {
    var completed: set<Slot>

    constructor ()
      ensures completed == {}
    {
      completed := {};
    }

    method MarkDayComplete(pair: string, day: int)
      modifies this
      ensures completed == old(completed) + {Slot(pair, StartOfDay(day))}
    {
      TruncIsStart(day, DAY);
      completed := completed + {Slot(pair, Trunc(day, DAY))};
    }
  }

  ghost function MarkedOf(days: seq<int>, db: Db, pair: string): set<Slot> {
    set d | d in days && Validates(db, pair, d) :: Slot(pair, d)
  }

  ghost predicate NoneValidates(days: seq<int>, db: Db, pair: string) { forall d :: d in days ==> !Validates(db, pair, d) }
  ghost predicate AllValidate(days: seq<int>, db: Db, pair: string) { forall d :: d in days ==> Validates(db, pair, d) }

  /** A sweep that has checked `done` and stands at `cursor`. */
  ghost predicate Sweeping(db: Db, pair: string, all: seq<int>, rest: seq<int>, done: seq<int>, completed: set<Slot>,
                           verified: nat, failed: bool)
  {
    && all == done + rest
    && completed == db.covered + MarkedOf(done, db, pair)
    && (verified == 0 <==> NoneValidates(done, db, pair))
    && (!failed <==> AllValidate(done, db, pair))
  }

  lemma SweepStarts(db: Db, pair: string, all: seq<int>)
    ensures Sweeping(db, pair, all, all, [], db.covered, 0, false)
  {
    hide Validates;
    assert [] + all == all;
    assert MarkedOf([], db, pair) == {};
  }

  lemma SweepChecks(db: Db, pair: string, all: seq<int>, day: int, rest: seq<int>, done: seq<int>, completed: set<Slot>,
                    verified: nat, failed: bool)
    requires Sweeping(db, pair, all, [day] + rest, done, completed, verified, failed)
    ensures
      var ok := Validates(db, pair, day);
      Sweeping(db, pair, all, rest, done + [day], if ok then completed + {Slot(pair, day)} else completed,
               if ok then verified + 1 else verified, failed || !ok)
  {
    hide Validates;
    assert done + ([day] + rest) == (done + [day]) + rest;
    assert forall d :: d in done + [day] <==> d in done || d == day;
  }

  lemma SweepEnds(db: Db, pair: string, all: seq<int>, rest: seq<int>, done: seq<int>, completed: set<Slot>, verified: nat, failed: bool)
    requires Sweeping(db, pair, all, rest, done, completed, verified, failed)
    requires rest == [] || |done| == MAX_DAYS_PER_RUN
    requires |done| <= MAX_DAYS_PER_RUN
    ensures done == Take(all, MAX_DAYS_PER_RUN)
    ensures verified == 0 && failed <==> done != [] && NoneValidates(done, db, pair)
  {
    hide Validates;
    if done != [] {
      assert done[0] in done;
      assert Validates(db, pair, done[0]) || !Validates(db, pair, done[0]);
    } else {
      assert AllValidate(done, db, pair);
    }
  }

  lemma SweepCompleted(db: Db, pair: string, all: seq<int>, rest: seq<int>, done: seq<int>, completed: set<Slot>, verified: nat, failed: bool)
    requires Sweeping(db, pair, all, rest, done, completed, verified, failed)
    ensures completed == db.covered + MarkedOf(done, db, pair)
  {
  }

  lemma NextDay(day: int)
    requires Aligned(day, DAY)
    ensures Aligned(day + DAY, DAY)
  {
  }

  class GapValidatorExecutor {
    const candles: MarketTables
    const coverage: CoverageRepository

    constructor (candles: MarketTables, coverage: CoverageRepository)
      ensures this.candles == candles && this.coverage == coverage
    {
      this.candles, this.coverage := candles, coverage;
    }

    ghost function View(): Db
      reads this, candles, coverage
    {
      Db(candles.raw, candles.hourly, coverage.completed)
    }

    /** On tables that nobody else changes: exactly the checked days that validate are marked, and the task
        fails exactly if days were checked and none validated. */
    method Execute(item: Task) returns (outcome: Outcome)
      modifies coverage
      ensures item.taskType != "gap_validation" ==> outcome == WrongType && coverage.completed == old(coverage.completed)
      ensures item.taskType == "gap_validation" ==>
        var days := CheckedDays(Trunc(item.windowStart, DAY), Trunc(item.windowEnd, DAY), CompletedDays(old(View()), item.pair));
        && coverage.completed == old(coverage.completed) + MarkedOf(days, old(View()), item.pair)
        && (outcome == NothingComplete <==> days != [] && NoneValidates(days, old(View()), item.pair))
        && outcome != WrongType
    {
      if item.taskType != GAP_VALIDATION {
        return WrongType;
      }
      ghost var db := View();
      var covered := set s | s in coverage.completed && s.pair == item.pair :: s.ts;
      var start, end := Trunc(item.windowStart, DAY), Trunc(item.windowEnd, DAY);
      TruncBounds(item.windowStart, DAY);
      var checked: nat, verified: nat, failed, cursor := 0, 0, false, start;
      ghost var done: seq<int> := [];
      ghost var all := UncoveredDays(start, end, covered);
      hide Sweeping, Validates, MarkedOf, NoneValidates, Trunc, Aligned, StartOfDay;
      SweepStarts(db, item.pair, all);
      while cursor < end && checked < MAX_DAYS_PER_RUN
        invariant Aligned(cursor, DAY) && |done| == checked <= MAX_DAYS_PER_RUN
        invariant Sweeping(db, item.pair, all, UncoveredDays(cursor, end, covered), done, coverage.completed, verified, failed)
        invariant candles.raw == db.raw && candles.hourly == db.hourly
        decreases end - cursor
      {
        if cursor !in covered {
          LaterDays(cursor, end, covered);
          SweepChecks(db, item.pair, all, cursor, UncoveredDays(cursor + DAY, end, covered), done, coverage.completed, verified, failed);
          var ok := ValidateDay(item.pair, cursor, db);
          if !ok {
            failed := true;
          } else {
            AlignedIsItsDay(cursor);
            coverage.MarkDayComplete(item.pair, cursor);
            verified := verified + 1;
          }
          checked := checked + 1;
          done := done + [cursor];
        }
        NextDay(cursor);
        cursor := cursor + DAY;
      }
      SweepEnds(db, item.pair, all, UncoveredDays(cursor, end, covered), done, coverage.completed, verified, failed);
      SweepCompleted(db, item.pair, all, UncoveredDays(cursor, end, covered), done, coverage.completed, verified, failed);
      if verified == 0 && failed {
        return NothingComplete;
      }
      return Swept;
    }

    method ValidateDay(pair: string, day: int, ghost db: Db) returns (ok: bool)
      requires db.raw == candles.raw && db.hourly == candles.hourly
      ensures ok <==> Validates(db, pair, day)
      ensures ok <==>
        && (exists m :: m in candles.raw && m.pair == pair && m.interval == "1d" && day <= m.ts < day + 86400)
        && |set s | s in candles.hourly && s.pair == pair && day <= s.ts < day + 86400 :: s.ts - s.ts % 3600| >= 24
    {
      var daily := candles.RawCandles(pair, "1d", day, day + DAY);
      if HasDaily(db, pair, day) {
        assert daily != {} by {
          var m :| m in db.raw && m.pair == pair && m.interval == "1d" && day <= m.ts < day + DAY;
          assert m in daily;
        }
      }
      assert forall m :: m in daily ==> m in db.raw && m.pair == pair && m.interval == "1d" && day <= m.ts < day + DAY;
      if |daily| == 0 {
        return false;
      }
      var hourly := candles.HourlyCandles(pair, day, day + DAY);
      var hours := set s | s in hourly :: Trunc(s.ts, HOUR);
      assert hours == HoursSeen(candles.hourly, pair, day);
      HoursInSeconds(candles.hourly, pair, day);
      return |hours| >= 24;
    }
  }

  lemma HoursInSeconds(hourly: set<Slot>, pair: string, day: int)
    ensures HoursSeen(hourly, pair, day) == set s | s in hourly && s.pair == pair && day <= s.ts < day + 86400 :: s.ts - s.ts % 3600
  {
    forall t ensures Trunc(t, HOUR) == t - t % 3600 {
      TruncIsStart(t, HOUR);
    }
    hide Trunc;
  }

  lemma AlignedIsItsDay(d: int)
    requires Aligned(d, DAY)
    ensures Trunc(d, DAY) == d == StartOfDay(d)
  {
  }

  // ---------- planning sweeps (scheduler.go) ----------

  /** Some day from that of the pair's cursor to yesterday is not covered. */
  ghost predicate NeedsSweep(state: map<string, SyncState>, coverage: map<string, set<int>>, now: int, pair: string) {
    && pair in state && state[pair].hourlyLastSynced.Some?
    && SomeGap(state[pair].hourlyLastSynced.value, now, if pair in coverage then coverage[pair] else {})
  }

  ghost predicate SomeGap(last: int, now: int, covered: set<int>) { exists d :: HasGap(d, last, now, covered) }

  predicate HasGap(d: int, last: int, now: int, covered: set<int>) {
    d % 86400 == 0 && last - last % 86400 <= d < now - now % 86400 && d !in covered
  }

  lemma SweepNeeded(state: map<string, SyncState>, coverage: map<string, set<int>>, now: int, pair: string)
    ensures NeedsSweep(state, coverage, now, pair) <==>
      pair in state && state[pair].hourlyLastSynced.Some?
      && UncoveredDays(Trunc(state[pair].hourlyLastSynced.value, DAY), Trunc(now, DAY), CoveredDays(coverage, pair)) != []
  {
    hide UncoveredDays, SomeGap, Trunc;
    if pair in state && state[pair].hourlyLastSynced.Some? {
      GapsAreUncovered(state[pair].hourlyLastSynced.value, now, CoveredDays(coverage, pair));
    }
  }

  /** The task's range runs from the day of the cursor to the start of today; its id is stable over one interval. */
  ghost predicate IsSweepTask(t: Task, state: map<string, SyncState>, now: int, gapInterval: int)
    requires gapInterval > 0
  {
    && t.id == "gap_validation" + ":" + t.pair + ":" + "sweep" + ":" + Decimal(now - now % gapInterval)
    && t.taskType == "gap_validation" && t.interval == "1d"
    && t.pair in state && state[t.pair].hourlyLastSynced.Some?
    && var last := state[t.pair].hourlyLastSynced.value;
       t.windowStart == last - last % 86400 && t.windowEnd == now - now % 86400
  }

  lemma GapsAreUncovered(last: int, now: int, covered: set<int>)
    ensures UncoveredDays(Trunc(last, DAY), Trunc(now, DAY), covered) != [] <==> SomeGap(last, now, covered)
  {
    hide UncoveredDays;
    var start, end := Trunc(last, DAY), Trunc(now, DAY);
    var days := UncoveredDays(start, end, covered);
    TruncBounds(last, DAY);
    TruncIsStart(last, DAY);
    TruncIsStart(now, DAY);
    if days != [] {
      UncoveredAre(start, end, covered, days[0]);
      assert days[0] in days;
      OnDays(start, days[0]);
      assert HasGap(days[0], last, now, covered);
    }
    if SomeGap(last, now, covered) {
      var d :| HasGap(d, last, now, covered);
      UncoveredAre(start, end, covered, d);
      OnDays(start, d);
    }
  }

  lemma OnDays(start: int, d: int)
    requires Aligned(start, DAY)
    ensures Aligned(d - start, DAY) <==> d % 86400 == 0
  {
    hide Aligned;
    if Aligned(d, DAY) {
      AlignedShift(d, start, DAY);
    }
    if Aligned(d - start, DAY) {
      AlignedShift(d - start, start, DAY);
    }
    AlignedMeans(d);
  }

  lemma AlignedMeans(d: int)
    ensures Aligned(d, DAY) <==> d % 86400 == 0
  {
  }

  /** A sweep is planned for exactly the pairs that need one, over a range in which it has a day to check. */
  method BuildGapValidationTasks(pairs: seq<string>, state: map<string, SyncState>, coverage: map<string, set<int>>,
                                 now: int, gapInterval: int) returns (tasks: seq<Task>)
    requires gapInterval > 0
    ensures forall t :: t in tasks ==> IsSweepTask(t, state, now, gapInterval)
    ensures forall t :: t in tasks ==> CheckedDays(t.windowStart, t.windowEnd, CoveredDays(coverage, t.pair)) != []
    ensures forall p :: p in pairs ==> (NeedsSweep(state, coverage, now, p) <==> exists t :: t in tasks && t.pair == p)
  {
    hide Trunc, UncoveredDays, NeedsSweep, Decimal;
    var yesterday := Trunc(now, DAY) - DAY;
    TruncBounds(now, DAY);
    MulMod(1, DAY);
    AlignedShift(Trunc(now, DAY), DAY, DAY);
    var windowKey := Trunc(now, gapInterval);
    TruncIsStart(now, gapInterval);
    TruncIsStart(now, DAY);
    tasks := [];
    for i := 0 to |pairs|
      invariant forall t :: t in tasks ==> IsSweepTask(t, state, now, gapInterval)
      invariant forall t :: t in tasks ==> UncoveredDays(t.windowStart, t.windowEnd, CoveredDays(coverage, t.pair)) != []
      invariant forall p :: p in pairs[..i] ==> (NeedsSweep(state, coverage, now, p) <==> exists t :: t in tasks && t.pair == p)
    {
      var p := pairs[i];
      assert pairs[..i + 1] == pairs[..i] + [p];
      ghost var was := tasks;
      var hasGaps := false;
      var start := 0;
      if p in state && state[p].hourlyLastSynced.Some? {
        start := Trunc(state[p].hourlyLastSynced.value, DAY);
        TruncBounds(state[p].hourlyLastSynced.value, DAY);
        TruncIsStart(state[p].hourlyLastSynced.value, DAY);
        hasGaps := HasGaps(start, yesterday, CoveredDays(coverage, p));
      }
      SweepNeeded(state, coverage, now, p);
      assert hasGaps <==> NeedsSweep(state, coverage, now, p);
      if hasGaps {
        var t := Task(Join(Join(Join(GAP_VALIDATION, p), "sweep"), Decimal(windowKey)), GAP_VALIDATION, p, "1d",
                      start, yesterday + DAY, "");
        tasks := tasks + [t];
        assert t in tasks;
      }
      forall q | q in pairs[..i + 1] ensures NeedsSweep(state, coverage, now, q) <==> exists t :: t in tasks && t.pair == q {
        assert q in pairs[..i] || q == p;
        assert forall t :: t in was ==> t in tasks;
      }
    }
    assert pairs[..|pairs|] == pairs;
  }

  method HasGaps(start: int, yesterday: int, covered: set<int>) returns (hasGaps: bool)
    requires Aligned(start, DAY) && Aligned(yesterday, DAY)
    ensures hasGaps <==> UncoveredDays(start, yesterday + DAY, covered) != []
  {
    ghost var end := yesterday + DAY;
    var cursor := start;
    hasGaps := false;
    while cursor <= yesterday
      invariant UncoveredDays(cursor, end, covered) == UncoveredDays(start, end, covered)
      invariant !hasGaps && Aligned(cursor, DAY)
      decreases end - cursor
    {
      if cursor !in covered {
        LaterDays(cursor, end, covered);
        return true;
      }
      NextDay(cursor);
      cursor := cursor + DAY;
    }
    AlignedShift(cursor, yesterday, DAY);
    WindowFits(cursor, yesterday, DAY);
  }
}
