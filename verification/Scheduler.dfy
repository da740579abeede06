/** The initial backfill walk (backend/internal/planner/scheduler.go): round-robin over the pairs that still
    need history, each walking backwards from its cursor and skipping covered days. */
module Scheduler {
  import opened Common
  import opened TaskIds
  import opened TaskTable

  /** None is Go's zero time. */
  datatype SyncState = SyncState(hourlyLastSynced: Option<int>, hourlyRealtimeStartedAt: Option<int>,
                                 dailyLastSynced: Option<int>, hourlyCompleted: bool, dailyCompleted: bool)

  const UNSEEDED := SyncState(None, None, None, false, false)

  /** covered: the completed days, each named by its first second. */
  datatype Cursor = Cursor(symbol: string, position: int, interval: string, window: int, covered: set<int>) {
    predicate Valid() { (interval == "1h" && window == HOUR) || (interval == "1d" && window == DAY) }
  }

  function Yesterday(now: int): int { Trunc(Trunc(now, HOUR), DAY) - DAY }

  function StateOf(state: map<string, SyncState>, symbol: string): SyncState {
    if symbol in state then state[symbol] else UNSEEDED
  }

  function CoveredDays(coverage: map<string, set<int>>, symbol: string): set<int> {
    if symbol in coverage then coverage[symbol] else {}
  }

  /** Where hourly backfill must end: yesterday, or the hour of the realtime cutover if that is earlier. */
  function HourlyCeiling(st: SyncState, now: int): int {
    if st.hourlyRealtimeStartedAt.Some? && st.hourlyRealtimeStartedAt.value < Yesterday(now)
    then Trunc(st.hourlyRealtimeStartedAt.value, HOUR)
    else Yesterday(now)
  }

  function Resume(last: Option<int>, ceiling: int): int {
    if last.None? || last.value > ceiling then ceiling else last.value
  }

  /** The cursor of a pair: hourly first, then daily, none once both are complete. */
  function CursorOf(symbol: string, st: SyncState, covered: set<int>, now: int): Option<Cursor> {
    if !st.hourlyCompleted then
      Some(Cursor(symbol, Resume(st.hourlyLastSynced, HourlyCeiling(st, now)), "1h", HOUR, covered))
    else if !st.dailyCompleted then
      Some(Cursor(symbol, Resume(st.dailyLastSynced, Yesterday(now)), "1d", DAY, covered))
    else None
  }

  /** The eligible pairs, in the order of the catalog. */
  function CursorsOf(pairs: seq<string>, state: map<string, SyncState>, coverage: map<string, set<int>>,
                     active: set<string>, now: int): seq<Cursor>
  {
    if pairs == [] then []
    else
      var last := pairs[|pairs| - 1];
      var c := CursorOf(last, StateOf(state, last), CoveredDays(coverage, last), now);
      CursorsOf(pairs[..|pairs| - 1], state, coverage, active, now)
        + if last in active || c.None? then [] else [c.value]
  }

  lemma CursorsAreEligible(pairs: seq<string>, state: map<string, SyncState>,
                           coverage: map<string, set<int>>, active: set<string>, now: int)
    ensures forall c :: c in CursorsOf(pairs, state, coverage, active, now) <==>
      c.symbol in pairs && c.symbol !in active
      && CursorOf(c.symbol, StateOf(state, c.symbol), CoveredDays(coverage, c.symbol), now) == Some(c)
    ensures Distinct(pairs) ==> DistinctSymbols(CursorsOf(pairs, state, coverage, active, now))
    ensures InOrder(CursorsOf(pairs, state, coverage, active, now), pairs)
  {
    EligibleCursors(pairs, state, coverage, active, now);
    CursorsComeInOrder(pairs, state, coverage, active, now);
    hide CursorOf;
    if Distinct(pairs) {
      DistinctInOrder(CursorsOf(pairs, state, coverage, active, now), pairs);
    }
  }

  lemma {:induction false} EligibleCursors(pairs: seq<string>, state: map<string, SyncState>,
                                           coverage: map<string, set<int>>, active: set<string>, now: int)
    ensures forall c :: c in CursorsOf(pairs, state, coverage, active, now) <==>
      c.symbol in pairs && c.symbol !in active
      && CursorOf(c.symbol, StateOf(state, c.symbol), CoveredDays(coverage, c.symbol), now) == Some(c)
  {
    if pairs != [] {
      var front, last := pairs[..|pairs| - 1], pairs[|pairs| - 1];
      EligibleCursors(front, state, coverage, active, now);
      hide HourlyCeiling, Resume;
      assert pairs == front + [last];
    }
  }

  lemma {:induction false} CursorsComeInOrder(pairs: seq<string>, state: map<string, SyncState>,
                                              coverage: map<string, set<int>>, active: set<string>, now: int)
    ensures InOrder(CursorsOf(pairs, state, coverage, active, now), pairs)
  {
    if pairs != [] {
      var front, last := pairs[..|pairs| - 1], pairs[|pairs| - 1];
      CursorsComeInOrder(front, state, coverage, active, now);
      EligibleCursors(front, state, coverage, active, now);
      StaysInOrder(CursorsOf(front, state, coverage, active, now), front, last);
      hide InOrder, HourlyCeiling, Resume;
      assert pairs == front + [last];
      assert CursorsOf(front, state, coverage, active, now) + [] == CursorsOf(front, state, coverage, active, now);
    }
  }

  lemma DistinctInOrder(cursors: seq<Cursor>, pairs: seq<string>)
    requires Distinct(pairs) && InOrder(cursors, pairs)
    ensures DistinctSymbols(cursors)
  {
    forall i, j | 0 <= i < j < |cursors| ensures cursors[i].symbol != cursors[j].symbol {
      assert Precedes(cursors[i].symbol, cursors[j].symbol, pairs);
    }
  }

  /** The cursors come in the order of the catalog. */
  ghost predicate InOrder(cursors: seq<Cursor>, pairs: seq<string>) {
    forall i, j :: 0 <= i < j < |cursors| ==> Precedes(cursors[i].symbol, cursors[j].symbol, pairs)
  }

  ghost predicate Precedes(a: string, b: string, pairs: seq<string>) {
    exists x, y :: 0 <= x < y < |pairs| && pairs[x] == a && pairs[y] == b
  }

  lemma StaysInOrder(cursors: seq<Cursor>, pairs: seq<string>, last: string)
    requires InOrder(cursors, pairs) && forall c :: c in cursors ==> c.symbol in pairs
    ensures InOrder(cursors, pairs + [last])
    ensures forall c: Cursor :: c.symbol == last ==> InOrder(cursors + [c], pairs + [last])
  {
    var all := pairs + [last];
    forall i, j | 0 <= i < j < |cursors| ensures Precedes(cursors[i].symbol, cursors[j].symbol, all) {
      var x, y :| 0 <= x < y < |pairs| && pairs[x] == cursors[i].symbol && pairs[y] == cursors[j].symbol;
      assert all[x] == cursors[i].symbol && all[y] == cursors[j].symbol;
    }
    forall i | 0 <= i < |cursors| ensures Precedes(cursors[i].symbol, last, all) {
      assert cursors[i] in cursors;
      var x :| 0 <= x < |pairs| && pairs[x] == cursors[i].symbol;
      assert all[x] == cursors[i].symbol && all[|pairs|] == last;
    }
  }

  predicate DistinctSymbols(cursors: seq<Cursor>) {
    forall i, j :: 0 <= i < j < |cursors| ==> cursors[i].symbol != cursors[j].symbol
  }

  // ---------- what a walk is ----------

  predicate OnGrid(x: int, from: int, window: int)
    requires window > 0
  {
    (from - x) % window == 0
  }

  /** Every window start of the grid in [to, from) lies in a covered day. */
  ghost predicate Gap(to: int, from: int, window: int, covered: set<int>)
    requires window > 0
  {
    forall x :: to <= x < from && OnGrid(x, from, window) ==> Trunc(x, DAY) in covered
  }

  /** The task is the first uncovered window of the cursor's grid before `from`. */
  ghost predicate IsTurn(c: Cursor, from: int, t: Task) {
    && c.Valid()
    && t.taskType == BACKFILL && t.pair == c.symbol && t.interval == c.interval
    && t.id == TaskId(BACKFILL, c.symbol, c.interval, t.windowStart, t.windowEnd)
    && t.windowEnd == t.windowStart + c.window
    && t.windowStart < from && OnGrid(t.windowStart, from, c.window)
    && Trunc(t.windowStart, DAY) !in c.covered
    && Gap(t.windowEnd, from, c.window, c.covered)
  }

  /** Where the cursor of turn k stands: at its start, or where its previous turn left it. */
  function From(cursors: seq<Cursor>, tasks: seq<Task>, k: nat): int
    requires k < |cursors| || 0 < |cursors| <= k < |tasks| + |cursors|
  {
    if k < |cursors| then cursors[k].position else tasks[k - |cursors|].windowStart
  }

  /** Turn k belongs to pair k mod n, and is that pair's next uncovered window. */
  ghost predicate IsWalk(cursors: seq<Cursor>, tasks: seq<Task>) {
    && (cursors == [] ==> tasks == [])
    && forall k :: 0 <= k < |tasks| ==> IsTurn(cursors[k % |cursors|], From(cursors, tasks, k), tasks[k])
  }

  // ---------- arithmetic of the grid ----------

  lemma GridUnique(a: int, b: int, window: int)
    requires window > 0 && a % window == 0 && b % window == 0 && b <= a < b + window
    ensures a == b
  {
    assert a == window * (a / window) && b == window * (b / window);
    var q := a / window - b / window;
    assert a - b == window * q;
    assert q >= 1 ==> window * q >= window;
    assert q <= -1 ==> window * q <= -window;
  }

  lemma GapGrows(c: int, from: int, window: int, covered: set<int>)
    requires window > 0 && OnGrid(c, from, window) && Gap(c, from, window, covered)
    requires Trunc(c - window, DAY) in covered
    ensures OnGrid(c - window, from, window) && Gap(c - window, from, window, covered)
  {
    MulMod(1, window);
    AlignedShift(from - c, window, window);
    forall x | c - window <= x < from && OnGrid(x, from, window) ensures Trunc(x, DAY) in covered {
      if x < c {
        GridUnique(from - x, from - c + window, window) by {
          if from - x < from - c + window {
            GridUnique(from - x, from - c, window);
          }
        }
      }
    }
  }

  lemma GapsJoin(to: int, mid: int, from: int, window: int, covered: set<int>)
    requires window > 0 && OnGrid(mid, from, window)
    requires Gap(to, mid, window, covered) && Gap(mid, from, window, covered)
    ensures Gap(to, from, window, covered)
  {
    forall x | to <= x < from && OnGrid(x, from, window) ensures Trunc(x, DAY) in covered {
      if x < mid {
        AlignedShift(from - x, from - mid, window);
        assert OnGrid(x, mid, window);
      }
    }
  }

  // ---------- a walk is exact ----------

  lemma SmallMultiple(q: int, n: int, d: int)
    requires d == n * q && -n < d < n
    ensures d == 0
  {
    assert q >= 1 ==> n * q >= n;
    assert q <= -1 ==> n * q <= -n;
  }

  lemma TurnsOf(k: nat, n: nat)
    requires n > 0
    ensures k >= n ==> (k - n) % n == k % n
    ensures k < n ==> k % n == k
  {
    if k >= n {
      var p, q := (k - n) / n, k / n;
      var r, s := (k - n) % n, k % n;
      assert k - n == n * p + r && k == n * q + s;
      assert n * (p - q + 1) == n * p - n * q + n;
      SmallMultiple(p - q + 1, n, s - r);
    }
  }

  lemma SameTurn(k: nat, m: nat, n: nat)
    requires n > 0 && k < m && k % n == m % n
    ensures k <= m - n
  {
    var p, q := k / n, m / n;
    assert k == n * p + k % n && m == n * q + m % n;
    assert n * (q - p) == n * q - n * p;
    if m - k < n {
      SmallMultiple(q - p, n, m - k);
    }
  }

  lemma TurnFacts(cursors: seq<Cursor>, tasks: seq<Task>, k: nat)
    requires IsWalk(cursors, tasks) && k < |tasks|
    ensures cursors != []
    ensures
      var c, t := cursors[k % |cursors|], tasks[k];
      c.Valid() && t.taskType == "historical_backfill" && t.pair == c.symbol && t.interval == c.interval
      && t.windowEnd == t.windowStart + c.window
      && t.id == TaskId(BACKFILL, c.symbol, c.interval, t.windowStart, t.windowEnd)
      && t.windowStart < From(cursors, tasks, k) && OnGrid(t.windowStart, From(cursors, tasks, k), c.window)
  {
    hide Gap, OnGrid, TaskId;
    assert IsTurn(cursors[k % |cursors|], From(cursors, tasks, k), tasks[k]);
  }

  /** Where turn k stands is on its pair's grid, at or before the pair's start, and everything the pair
      has passed is covered or emitted. */
  lemma {:induction false} TurnsStayOnGrid(cursors: seq<Cursor>, tasks: seq<Task>, k: nat)
    requires IsWalk(cursors, tasks) && k < |tasks|
    ensures
      var c := cursors[k % |cursors|];
      c.Valid() && From(cursors, tasks, k) <= c.position && OnGrid(From(cursors, tasks, k), c.position, c.window)
      && OnGrid(tasks[k].windowStart, c.position, c.window) && tasks[k].windowEnd <= From(cursors, tasks, k)
  {
    hide IsWalk, Trunc, OnGrid, TaskId;
    var n := |cursors|;
    TurnFacts(cursors, tasks, k);
    TurnsOf(k, n);
    var c, from := cursors[k % n], From(cursors, tasks, k);
    if k >= n {
      TurnsStayOnGrid(cursors, tasks, k - n);
      TurnFacts(cursors, tasks, k - n);
    } else {
      OnOwnGrid(c.position, c.window);
    }
    GridChain(c.position, from, tasks[k].windowStart, c.window);
    WindowFits(from, tasks[k].windowStart, c.window);
  }

  lemma OnOwnGrid(x: int, window: int)
    requires window > 0
    ensures OnGrid(x, x, window)
  {
    MulMod(0, window);
  }

  lemma GridChain(a: int, b: int, c: int, window: int)
    requires window > 0 && OnGrid(b, a, window) && OnGrid(c, b, window)
    ensures OnGrid(c, a, window)
  {
    AlignedShift(a - b, b - c, window);
  }

  lemma WindowFits(from: int, start: int, window: int)
    requires window > 0 && start < from && OnGrid(start, from, window)
    ensures start + window <= from
  {
    if from - start < window {
      MulMod(0, window);
      GridUnique(from - start, 0, window);
    }
  }

  /** The windows of one pair run strictly backwards and do not overlap. */
  lemma {:induction false} WindowsRunBackwards(cursors: seq<Cursor>, tasks: seq<Task>, k: nat, m: nat)
    requires IsWalk(cursors, tasks) && k < m < |tasks| && k % |cursors| == m % |cursors|
    ensures tasks[m].windowStart < tasks[m].windowEnd <= tasks[k].windowStart < tasks[k].windowEnd
    decreases m
  {
    hide IsWalk, OnGrid, TaskId;
    TurnFacts(cursors, tasks, k);
    TurnFacts(cursors, tasks, m);
    TurnsStayOnGrid(cursors, tasks, m);
    var n := |cursors|;
    SameTurn(k, m, n);
    TurnsOf(m, n);
    if k < m - n {
      WindowsRunBackwards(cursors, tasks, k, m - n);
    }
  }

  function CountOf(tasks: seq<Task>, pair: string): nat {
    if tasks == [] then 0 else CountOf(tasks[..|tasks| - 1], pair) + if tasks[|tasks| - 1].pair == pair then 1 else 0
  }

  /** How many of the first m turns of a round of n are those of position i. */
  function Share(m: nat, n: nat, i: nat): nat
    requires i < n
  {
    (m + (n - 1 - i)) / n
  }

  lemma SharesGrow(m: nat, n: nat, i: nat)
    requires i < n
    ensures Share(m + 1, n, i) == Share(m, n, i) + if m % n == i then 1 else 0
  {
    var q, r := m / n, m % n;
    assert m == n * q + r;
    if r < i {
      Divided(m + (n - 1 - i), n, q, r + n - 1 - i);
      Divided(m + 1 + (n - 1 - i), n, q, r + n - i);
    } else if r == i {
      Divided(m + (n - 1 - i), n, q, n - 1);
      assert n * (q + 1) == n * q + n;
      Divided(m + 1 + (n - 1 - i), n, q + 1, 0);
    } else {
      assert n * (q + 1) == n * q + n;
      Divided(m + (n - 1 - i), n, q + 1, r - 1 - i);
      Divided(m + 1 + (n - 1 - i), n, q + 1, r - i);
    }
  }

  lemma Divided(x: nat, n: nat, q: nat, r: nat)
    requires r < n && x == n * q + r
    ensures x / n == q
  {
    var d := x / n;
    assert x == n * d + x % n;
    assert n * (d - q) == n * d - n * q;
    SmallMultiple(d - q, n, r - x % n);
  }

  lemma {:induction false} CountOfTurns(cursors: seq<Cursor>, tasks: seq<Task>, m: nat, i: nat)
    requires IsWalk(cursors, tasks) && DistinctSymbols(cursors) && m <= |tasks| && i < |cursors|
    ensures CountOf(tasks[..m], cursors[i].symbol) == Share(m, |cursors|, i)
  {
    hide IsWalk, IsTurn, Share;
    var n := |cursors|;
    if m == 0 {
      NoShares(n, i);
    } else {
      CountOfTurns(cursors, tasks, m - 1, i);
      assert tasks[..m][..m - 1] == tasks[..m - 1];
      TurnFacts(cursors, tasks, m - 1);
      SharesGrow(m - 1, n, i);
      OwnTurn(cursors, (m - 1) % n, i);
    }
  }

  lemma NoShares(n: nat, i: nat)
    requires i < n
    ensures Share(0, n, i) == 0
  {
    Divided(n - 1 - i, n, 0, n - 1 - i);
  }

  lemma OwnTurn(cursors: seq<Cursor>, j: nat, i: nat)
    requires DistinctSymbols(cursors) && j < |cursors| && i < |cursors|
    ensures cursors[j].symbol == cursors[i].symbol <==> j == i
  {
  }

  /** Round-robin is fair: whatever days are covered, every pair in the round gets its share of the tasks, rounded
      up or down. */
  lemma FairShares(cursors: seq<Cursor>, tasks: seq<Task>, i: nat)
    requires IsWalk(cursors, tasks) && DistinctSymbols(cursors) && i < |cursors|
    ensures
      var n := |cursors|;
      |tasks| / n <= CountOf(tasks, cursors[i].symbol) <= |tasks| / n + 1
      && (|tasks| % n == 0 ==> CountOf(tasks, cursors[i].symbol) == |tasks| / n)
  {
    hide CountOf, IsWalk, DistinctSymbols, Share;
    CountOfTurns(cursors, tasks, |tasks|, i);
    assert tasks[..|tasks|] == tasks;
    RoundedShare(|tasks|, |cursors|, i);
  }

  lemma RoundedShare(m: nat, n: nat, i: nat)
    requires i < n
    ensures m / n <= Share(m, n, i) <= m / n + 1
    ensures m % n == 0 ==> Share(m, n, i) == m / n
  {
    var q, r := m / n, m % n;
    assert m == n * q + r;
    if r + (n - 1 - i) < n {
      Divided(m + (n - 1 - i), n, q, r + (n - 1 - i));
    } else {
      assert n * (q + 1) == n * q + n;
      Divided(m + (n - 1 - i), n, q + 1, r - 1 - i);
    }
  }

  /** With distinct pairs, all task ids are distinct. */
  lemma IdsAreDistinct(cursors: seq<Cursor>, tasks: seq<Task>)
    requires IsWalk(cursors, tasks) && DistinctSymbols(cursors)
    ensures forall k, m :: 0 <= k < m < |tasks| ==> tasks[k].id != tasks[m].id
  {
    hide Gap, OnGrid, TaskId;
    forall k, m | 0 <= k < m < |tasks| ensures tasks[k].id != tasks[m].id {
      var n := |cursors|;
      var t, u := tasks[k], tasks[m];
      TurnFacts(cursors, tasks, k);
      TurnFacts(cursors, tasks, m);
      if t.id == u.id {
        TaskIdInjective(BACKFILL, t.pair, t.interval, t.windowStart, t.windowEnd, u.pair, u.interval, u.windowStart, u.windowEnd);
        assert k % n == m % n;
        WindowsRunBackwards(cursors, tasks, k, m);
      }
    }
  }

  /** Some turn up to k of the same pair emitted the window that starts at x. */
  ghost predicate Emitted(cursors: seq<Cursor>, tasks: seq<Task>, k: nat, x: int)
    requires cursors != []
  {
    exists m :: 0 <= m <= k && m < |tasks| && m % |cursors| == k % |cursors| && tasks[m].windowStart == x
  }

  lemma {:induction false} EmittedIsUncovered(cursors: seq<Cursor>, tasks: seq<Task>, k: nat, x: int)
    requires IsWalk(cursors, tasks) && k < |tasks| && Emitted(cursors, tasks, k, x)
    ensures Trunc(x, DAY) !in cursors[k % |cursors|].covered
  {
    hide Trunc, Gap, OnGrid;
    var m :| 0 <= m <= k && m % |cursors| == k % |cursors| && tasks[m].windowStart == x;
    assert IsTurn(cursors[m % |cursors|], From(cursors, tasks, m), tasks[m]);
  }

  /** Between a turn's window and where the turn started there are only covered windows. */
  lemma SkippedAreCovered(cursors: seq<Cursor>, tasks: seq<Task>, k: nat, x: int)
    requires IsWalk(cursors, tasks) && k < |tasks| && tasks[k].windowStart < x < From(cursors, tasks, k)
    requires cursors[k % |cursors|].Valid() && OnGrid(x, cursors[k % |cursors|].position, cursors[k % |cursors|].window)
    ensures Trunc(x, DAY) in cursors[k % |cursors|].covered
  {
    hide Trunc;
    var c, from, t := cursors[k % |cursors|], From(cursors, tasks, k), tasks[k];
    TurnsStayOnGrid(cursors, tasks, k);
    assert IsTurn(c, from, t);
    AlignedShift(c.position - x, c.position - from, c.window);
    AlignedShift(c.position - t.windowStart, c.position - x, c.window);
    WindowFits(x, t.windowStart, c.window);
    assert OnGrid(x, from, c.window);
  }

  /** From its start down to its latest window, a pair's walk has emitted exactly the uncovered windows. */
  lemma {:induction false} EmitsExactlyTheUncovered(cursors: seq<Cursor>, tasks: seq<Task>, k: nat, x: int)
    requires IsWalk(cursors, tasks) && k < |tasks|
    requires
      var c := cursors[k % |cursors|];
      tasks[k].windowStart <= x < c.position && c.Valid() && OnGrid(x, c.position, c.window)
    ensures Emitted(cursors, tasks, k, x) <==> Trunc(x, DAY) !in cursors[k % |cursors|].covered
  {
    hide Trunc, Gap, OnGrid, IsTurn;
    var n := |cursors|;
    TurnsOf(k, n);
    if Emitted(cursors, tasks, k, x) {
      EmittedIsUncovered(cursors, tasks, k, x);
    } else if x < From(cursors, tasks, k) {
      assert x != tasks[k].windowStart;
      SkippedAreCovered(cursors, tasks, k, x);
    } else {
      assert k >= n;
      EmitsExactlyTheUncovered(cursors, tasks, k - n, x);
    }
  }

  // ---------- a walk is determined, and never full ----------

  /** A turn does not pass an uncovered window. */
  lemma NothingIsPassed(c: Cursor, from: int, t: Task, x: int)
    requires IsTurn(c, from, t) && x < from && OnGrid(x, from, c.window) && Trunc(x, DAY) !in c.covered
    ensures x <= t.windowStart
  {
    hide Trunc;
    if t.windowStart < x {
      AlignedShift(from - t.windowStart, from - x, c.window);
      WindowFits(x, t.windowStart, c.window);
    }
  }

  lemma TurnIsDetermined(c: Cursor, from: int, t: Task, u: Task)
    requires IsTurn(c, from, t) && IsTurn(c, from, u)
    ensures t.windowStart == u.windowStart
  {
    hide Trunc, OnGrid, Gap;
    NothingIsPassed(c, from, t, u.windowStart);
    NothingIsPassed(c, from, u, t.windowStart);
  }

  /** A smaller budget gives a prefix of a larger budget's walk. */
  lemma {:induction false} BudgetsAreNested(cursors: seq<Cursor>, tasks: seq<Task>, more: seq<Task>, k: nat)
    requires IsWalk(cursors, tasks) && IsWalk(cursors, more) && k < |tasks| <= |more|
    ensures tasks[k].(description := "") == more[k].(description := "")
    decreases k
  {
    hide Gap, Trunc, OnGrid, TaskId;
    var n := |cursors|;
    if k >= n {
      BudgetsAreNested(cursors, tasks, more, k - n);
    }
    var c, from := cursors[k % n], From(cursors, tasks, k);
    assert IsTurn(c, from, tasks[k]) && IsTurn(c, From(cursors, more, k), more[k]);
    TurnIsDetermined(c, from, tasks[k], more[k]);
  }

  /** The first uncovered window before `from`; covered days are bounded below. */
  function NextStart(from: int, window: int, covered: set<int>, bottom: int): (start: int)
    requires window > 0 && forall d :: d in covered ==> bottom <= d
    ensures start < from && OnGrid(start, from, window) && Trunc(start, DAY) !in covered
    ensures Gap(start + window, from, window, covered)
    decreases from - bottom
  {
    MulMod(1, window);
    MulMod(0, window);
    if Trunc(from - window, DAY) !in covered then from - window
    else
      TruncBounds(from - window, DAY);
      var start := NextStart(from - window, window, covered, bottom);
      GapGrows(from, from, window, covered);
      AlignedShift(from - (from - window), from - window - start, window);
      GapsJoin(start + window, from - window, from, window, covered);
      start
  }

  lemma {:induction false} CoveredDaysAreBounded(covered: set<int>) returns (bottom: int)
    ensures forall d :: d in covered ==> bottom <= d
    decreases covered
  {
    bottom := 0;
    if d :| d in covered {
      bottom := CoveredDaysAreBounded(covered - {d});
      bottom := MinInt(bottom, d);
      assert forall x :: x in covered ==> x == d || x in covered - {d};
    }
  }

  ghost predicate AllValid(cursors: seq<Cursor>) { forall i :: 0 <= i < |cursors| ==> cursors[i].Valid() }

  /** While any pair is eligible every walk can be extended, so without a limit the loop has no last turn. */
  lemma {:induction false} WalksNeverEnd(cursors: seq<Cursor>, size: nat) returns (tasks: seq<Task>)
    requires cursors != [] && AllValid(cursors)
    ensures IsWalk(cursors, tasks) && |tasks| == size
  {
    hide Gap, Trunc, OnGrid, TaskId;
    if size == 0 {
      return [];
    }
    var before := WalksNeverEnd(cursors, size - 1);
    var k := size - 1;
    TurnsOf(k, |cursors|);
    var c, from := cursors[k % |cursors|], From(cursors, before, k);
    var bottom := CoveredDaysAreBounded(c.covered);
    var start := NextStart(from, c.window, c.covered, bottom);
    var t := Task(TaskId(BACKFILL, c.symbol, c.interval, start, start + c.window), BACKFILL, c.symbol, c.interval,
                  start, start + c.window, "");
    tasks := before + [t];
    WalkGrows(cursors, before, t);
  }

  lemma WalkGrows(cursors: seq<Cursor>, tasks: seq<Task>, t: Task)
    requires IsWalk(cursors, tasks) && cursors != []
    requires IsTurn(cursors[|tasks| % |cursors|], From(cursors, tasks, |tasks|), t)
    ensures IsWalk(cursors, tasks + [t])
  {
    hide IsTurn;
    forall k | 0 <= k <= |tasks| ensures IsTurn(cursors[k % |cursors|], From(cursors, tasks + [t], k), (tasks + [t])[k]) {
      assert From(cursors, tasks + [t], k) == From(cursors, tasks, k);
    }
  }

  // ---------- the walk itself ----------

  /** Steps back over covered windows; the measure is the distance to the oldest covered day. */
  method SkipCovered(from: int, window: int, covered: set<int>) returns (windowStart: int, prev: int)
    requires window > 0
    ensures windowStart < from && prev == windowStart + window && OnGrid(windowStart, from, window)
    ensures Trunc(windowStart, DAY) !in covered && Gap(prev, from, window, covered)
  {
    hide Gap;
    ghost var bottom := CoveredDaysAreBounded(covered);
    MulMod(0, window);
    NoGap(from, window, covered);
    prev, windowStart := from, from - window;
    MulMod(1, window);
    while Trunc(windowStart, DAY) in covered
      invariant windowStart == prev - window && prev <= from
      invariant OnGrid(windowStart, from, window) && OnGrid(prev, from, window) && Gap(prev, from, window, covered)
      decreases windowStart - bottom
    {
      TruncBounds(windowStart, DAY);
      GapGrows(prev, from, window, covered);
      prev := windowStart;
      windowStart := prev - window;
      MulMod(1, window);
      AlignedShift(from - prev, window, window);
    }
  }

  lemma NoGap(from: int, window: int, covered: set<int>)
    requires window > 0
    ensures Gap(from, from, window, covered)
  {
  }

  /** The cursor positions in the middle of a round: the first i pairs have had their turn. */
  ghost predicate AtTurn(cursors: seq<Cursor>, tasks: seq<Task>, moved: seq<int>, base: nat, i: nat) {
    && |moved| == |cursors| && |tasks| == base + i && i <= |cursors| && cursors != []
    && base % |cursors| == 0
    && (base == 0 || base >= |cursors|)
    && forall j :: 0 <= j < |cursors| ==> moved[j] == From(cursors, tasks, if j < i then base + |cursors| + j else base + j)
  }

  lemma TakeTurn(cursors: seq<Cursor>, tasks: seq<Task>, moved: seq<int>, base: nat, i: nat, t: Task)
    requires AtTurn(cursors, tasks, moved, base, i) && i < |cursors| && IsWalk(cursors, tasks)
    requires IsTurn(cursors[i], moved[i], t)
    ensures IsWalk(cursors, tasks + [t]) && AtTurn(cursors, tasks + [t], moved[i := t.windowStart], base, i + 1)
  {
    hide IsTurn, IsWalk;
    var n := |cursors|;
    TurnInRound(base, i, n);
    WalkGrows(cursors, tasks, t);
    var after := moved[i := t.windowStart];
    forall j | 0 <= j < |after| ensures after[j] == From(cursors, tasks + [t], if j < i + 1 then base + n + j else base + j) {
      assert j != i ==> moved[j] == From(cursors, tasks, if j < i then base + n + j else base + j);
    }
  }

  lemma TurnInRound(base: nat, i: nat, n: nat)
    requires i < n && base % n == 0
    ensures (base + i) % n == i
  {
    var p, q := base / n, (base + i) / n;
    assert base == n * p && base + i == n * q + (base + i) % n;
    assert n * (q - p) == n * q - n * p;
    SmallMultiple(q - p, n, i - (base + i) % n);
  }

  lemma EndRound(cursors: seq<Cursor>, tasks: seq<Task>, moved: seq<int>, base: nat)
    requires AtTurn(cursors, tasks, moved, base, |cursors|)
    ensures AtTurn(cursors, tasks, moved, base + |cursors|, 0)
  {
    TurnsOf(base + |cursors|, |cursors|);
  }

  /** A cursor per pair that is idle and still needs history. */
  method BuildCursors(pairs: seq<string>, state: map<string, SyncState>, coverage: map<string, set<int>>,
                      active: set<string>, now: int) returns (cursors: seq<Cursor>)
    ensures cursors == CursorsOf(pairs, state, coverage, active, now) && AllValid(cursors)
  {
    hide Trunc;
    cursors := [];
    for p := 0 to |pairs|
      invariant cursors == CursorsOf(pairs[..p], state, coverage, active, now)
      invariant AllValid(cursors)
    {
      assert pairs[..p + 1][..p] == pairs[..p];
      if pairs[p] in active {
        continue;
      }
      var st := if pairs[p] in state then state[pairs[p]] else UNSEEDED;
      var covered := if pairs[p] in coverage then coverage[pairs[p]] else {};
      if !st.hourlyCompleted {
        var ceiling := Yesterday(now);
        if st.hourlyRealtimeStartedAt.Some? && st.hourlyRealtimeStartedAt.value < ceiling {
          ceiling := Trunc(st.hourlyRealtimeStartedAt.value, HOUR);
        }
        var cursor := ceiling;
        if st.hourlyLastSynced.Some? && st.hourlyLastSynced.value <= ceiling {
          cursor := st.hourlyLastSynced.value;
        }
        cursors := cursors + [Cursor(pairs[p], cursor, "1h", HOUR, covered)];
        continue;
      }
      if !st.dailyCompleted {
        var cursor := Yesterday(now);
        if st.dailyLastSynced.Some? && st.dailyLastSynced.value <= cursor {
          cursor := st.dailyLastSynced.value;
        }
        cursors := cursors + [Cursor(pairs[p], cursor, "1d", DAY, covered)];
      }
    }
    assert pairs[..|pairs|] == pairs;
  }

  /** The initial backfill tasks of one tick. Without a positive limit and with an eligible pair the source
      never returns (WalksNeverEnd), so that case is excluded. The `done` branch of the source is dead:
      windows are positive. */
  method BuildInitialBackfillTasksLimited(pairs: seq<string>, state: map<string, SyncState>, coverage: map<string, set<int>>,
                                          active: set<string>, now: int, limit: int) returns (tasks: seq<Task>)
    requires limit > 0 || CursorsOf(pairs, state, coverage, active, now) == []
    ensures IsWalk(CursorsOf(pairs, state, coverage, active, now), tasks)
    ensures |tasks| == if CursorsOf(pairs, state, coverage, active, now) == [] then 0 else limit
  {
    hide IsTurn, AtTurn, TaskId, Trunc, CursorsOf, OnGrid, Gap;
    tasks := [];
    var cursors := BuildCursors(pairs, state, coverage, active, now);
    if cursors == [] {
      return;
    }
    var moved := seq(|cursors|, i requires 0 <= i < |cursors| => cursors[i].position);
    ghost var base: nat := 0;
    StartRounds(cursors, moved);
    while true
      invariant AtTurn(cursors, tasks, moved, base, 0) && IsWalk(cursors, tasks) && |tasks| < limit
      invariant |moved| == |cursors|
      decreases limit - |tasks|
    {
      ghost var was := |tasks|;
      for i := 0 to |cursors|
        invariant AtTurn(cursors, tasks, moved, base, i) && IsWalk(cursors, tasks) && |tasks| < limit
        invariant |tasks| == was + i && |moved| == |cursors|
      {
        var c := cursors[i];
        var windowStart, prev := SkipCovered(moved[i], c.window, c.covered);
        var t := Task(TaskId(BACKFILL, c.symbol, c.interval, windowStart, prev), BACKFILL, c.symbol, c.interval,
                      windowStart, prev, "");
        IsATurn(c, moved[i], t);
        TakeTurn(cursors, tasks, moved, base, i, t);
        moved := moved[i := windowStart];
        tasks := tasks + [t];
        if limit > 0 && |tasks| >= limit {
          return;
        }
      }
      EndRound(cursors, tasks, moved, base);
      base := base + |cursors|;
    }
  }

  lemma StartRounds(cursors: seq<Cursor>, moved: seq<int>)
    requires cursors != [] && |moved| == |cursors| && forall i :: 0 <= i < |moved| ==> moved[i] == cursors[i].position
    ensures AtTurn(cursors, [], moved, 0, 0) && IsWalk(cursors, [])
  {
    MulMod(0, |cursors|);
  }

  lemma IsATurn(c: Cursor, from: int, t: Task)
    requires c.Valid() && t.windowStart < from && OnGrid(t.windowStart, from, c.window)
    requires Trunc(t.windowStart, DAY) !in c.covered && Gap(t.windowEnd, from, c.window, c.covered)
    requires t.windowEnd == t.windowStart + c.window && t.taskType == BACKFILL && t.pair == c.symbol
    requires t.interval == c.interval && t.id == TaskId(BACKFILL, c.symbol, c.interval, t.windowStart, t.windowEnd)
    ensures IsTurn(c, from, t)
  {
  }

  // ---------- where the planned windows lie ----------

  predicate AlignedOption(t: Option<int>) { t.Some? ==> Aligned(t.value, HOUR) }

  predicate AlignedState(st: SyncState) {
    AlignedOption(st.hourlyLastSynced) && AlignedOption(st.hourlyRealtimeStartedAt) && AlignedOption(st.dailyLastSynced)
  }

  lemma YesterdayIsAligned(now: int)
    ensures Aligned(Yesterday(now), HOUR)
  {
    TruncBounds(Trunc(now, HOUR), DAY);
    hide Trunc, Aligned;
    DaysAreWholeHours(Trunc(Trunc(now, HOUR), DAY));
    assert Aligned(DAY, HOUR) by { MulMod(24, HOUR); }
    AlignedShift(Trunc(Trunc(now, HOUR), DAY), DAY, HOUR);
  }

  /** A cursor starts at or before the stored cursor, yesterday and the realtime cutover. */
  lemma CursorStart(symbol: string, st: SyncState, covered: set<int>, now: int)
    requires CursorOf(symbol, st, covered, now).Some?
    ensures
      var c := CursorOf(symbol, st, covered, now).value;
      var last := if c.interval == "1h" then st.hourlyLastSynced else st.dailyLastSynced;
      var started := st.hourlyRealtimeStartedAt;
      c.Valid() && c.position <= Yesterday(now)
      && (c.interval == "1h" ==> !st.hourlyCompleted && (started.Some? ==> c.position <= started.value))
      && (c.interval == "1d" ==> st.hourlyCompleted && !st.dailyCompleted)
      && (last.Some? ==> c.position <= last.value)
      && (AlignedState(st) ==> Aligned(c.position, HOUR))
  {
    YesterdayIsAligned(now);
    if st.hourlyRealtimeStartedAt.Some? {
      TruncBounds(st.hourlyRealtimeStartedAt.value, HOUR);
    }
    hide Yesterday, Trunc;
  }

  lemma AlignedBackwards(position: int, x: int, window: int)
    requires window == HOUR || window == DAY
    requires Aligned(position, HOUR) && OnGrid(x, position, window)
    ensures Aligned(x, HOUR)
  {
    if window == DAY {
      DaysAreWholeHours(position - x);
    }
    AlignedShift(position, position - x, HOUR);
  }

  lemma TurnOwner(cursors: seq<Cursor>, tasks: seq<Task>, t: Task) returns (c: Cursor)
    requires IsWalk(cursors, tasks) && t in tasks
    ensures c in cursors && c.Valid() && t.pair == c.symbol && t.interval == c.interval
    ensures t.windowEnd == t.windowStart + c.window <= c.position && OnGrid(t.windowStart, c.position, c.window)
    ensures t.id == TaskId(BACKFILL, c.symbol, c.interval, t.windowStart, t.windowEnd)
  {
    hide IsTurn, TaskId, OnGrid;
    var k :| 0 <= k < |tasks| && tasks[k] == t;
    TurnFacts(cursors, tasks, k);
    TurnsStayOnGrid(cursors, tasks, k);
    c := cursors[k % |cursors|];
  }

  lemma AlignedWindow(c: Cursor, t: Task)
    requires c.Valid() && Aligned(c.position, HOUR) && OnGrid(t.windowStart, c.position, c.window)
    requires t.windowEnd == t.windowStart + c.window
    ensures Aligned(t.windowStart, HOUR) && Aligned(t.windowEnd, HOUR)
  {
    AlignedBackwards(c.position, t.windowStart, c.window);
  }

  /** Every planned window belongs to a pair that is tracked and idle, ends by yesterday, and an hourly one
      by the realtime cutover; from aligned cursors only aligned windows are planned. */
  lemma PlannedWindows(pairs: seq<string>, state: map<string, SyncState>, coverage: map<string, set<int>>,
                       active: set<string>, now: int, tasks: seq<Task>, t: Task)
    requires IsWalk(CursorsOf(pairs, state, coverage, active, now), tasks) && t in tasks
    ensures t.pair in pairs && t.pair !in active && TypeOfId(t.id) == BACKFILL
    ensures t.windowStart < t.windowEnd <= Yesterday(now)
    ensures
      var st := StateOf(state, t.pair);
      && (t.interval == "1h" || t.interval == "1d") && (t.interval == "1h" <==> !st.hourlyCompleted)
      && (t.interval == "1h" && st.hourlyRealtimeStartedAt.Some? ==> t.windowEnd <= st.hourlyRealtimeStartedAt.value)
      && (AlignedState(st) ==> Aligned(t.windowStart, HOUR) && Aligned(t.windowEnd, HOUR))
  {
    hide Trunc, IsTurn, TaskId, AlignedState, CursorOf, IsWalk, OnGrid, Yesterday, Aligned;
    var c := TurnOwner(CursorsOf(pairs, state, coverage, active, now), tasks, t);
    CursorsAreEligible(pairs, state, coverage, active, now);
    hide CursorsOf;
    CursorStart(c.symbol, StateOf(state, c.symbol), CoveredDays(coverage, c.symbol), now);
    TypeOfTaskId(BACKFILL, c.symbol, c.interval, t.windowStart, t.windowEnd);
    if AlignedState(StateOf(state, t.pair)) {
      AlignedWindow(c, t);
    }
  }

  // ---------- exactly what is planned, from the stored state ----------

  /** The start of yesterday. */
  function DayBefore(now: int): int { now - now % 86400 - 86400 }

  /** Where a pair's hourly backfill resumes: at its stored cursor, unless that lies after yesterday's start or,
      if that is earlier, the hour of the realtime cutover. */
  function HourlyTop(st: SyncState, now: int): int {
    var started := st.hourlyRealtimeStartedAt;
    var ceiling := if started.Some? && started.value < DayBefore(now) then started.value - started.value % 3600 else DayBefore(now);
    if st.hourlyLastSynced.Some? && st.hourlyLastSynced.value <= ceiling then st.hourlyLastSynced.value else ceiling
  }

  function DailyTop(st: SyncState, now: int): int {
    if st.dailyLastSynced.Some? && st.dailyLastSynced.value <= DayBefore(now) then st.dailyLastSynced.value else DayBefore(now)
  }

  function TopOf(st: SyncState, now: int): int { if !st.hourlyCompleted then HourlyTop(st, now) else DailyTop(st, now) }

  function WindowOf(st: SyncState): int { if !st.hourlyCompleted then 3600 else 86400 }

  /** The pair is tracked, no backfill of it is under way, and one is still open. */
  predicate Open(pairs: seq<string>, state: map<string, SyncState>, active: set<string>, pair: string) {
    && pair in pairs && pair !in active
    && (pair in state ==> !state[pair].hourlyCompleted || !state[pair].dailyCompleted)
  }

  /** Some task is the pair's window that starts at x. */
  ghost predicate Planned(tasks: seq<Task>, pair: string, x: int, st: SyncState) {
    exists t :: t in tasks && t.pair == pair && t.windowStart == x && t.windowEnd == x + WindowOf(st)
      && t.taskType == "historical_backfill" && t.interval == (if !st.hourlyCompleted then "1h" else "1d")
  }

  lemma TruncIsStart(t: int, unit: int)
    requires unit > 0
    ensures Trunc(t, unit) == t - t % unit
  {
  }

  lemma YesterdayIsDayBefore(now: int)
    ensures Yesterday(now) == DayBefore(now)
  {
    DayOfHour(now);
    TruncIsStart(now, DAY);
    hide Trunc;
  }

  /** A cursor stands where the stored state says. */
  lemma CursorIsTop(symbol: string, st: SyncState, covered: set<int>, now: int)
    ensures CursorOf(symbol, st, covered, now)
            == if st.hourlyCompleted && st.dailyCompleted then None
               else Some(Cursor(symbol, TopOf(st, now), if !st.hourlyCompleted then "1h" else "1d", WindowOf(st), covered))
  {
    YesterdayIsDayBefore(now);
    if st.hourlyRealtimeStartedAt.Some? {
      TruncIsStart(st.hourlyRealtimeStartedAt.value, HOUR);
    }
    hide Yesterday, Trunc, DayBefore;
  }

  lemma CursorAt(cursors: seq<Cursor>, tasks: seq<Task>, k: nat, pairs: seq<string>, state: map<string, SyncState>,
                 coverage: map<string, set<int>>, active: set<string>, now: int)
    requires cursors == CursorsOf(pairs, state, coverage, active, now) && IsWalk(cursors, tasks) && k < |tasks|
    ensures cursors != [] && tasks[k].pair == cursors[k % |cursors|].symbol && Open(pairs, state, active, tasks[k].pair)
    ensures
      var c, st := cursors[k % |cursors|], StateOf(state, tasks[k].pair);
      c.position == TopOf(st, now) && c.window == WindowOf(st) && c.covered == CoveredDays(coverage, tasks[k].pair)
      && c.interval == if !st.hourlyCompleted then "1h" else "1d"
  {
    hide IsTurn, OnGrid, Trunc, Gap, TaskId, HourlyTop, DailyTop;
    TurnFacts(cursors, tasks, k);
    CursorsAreEligible(pairs, state, coverage, active, now);
    hide CursorsOf, CursorOf, IsWalk;
    var c := cursors[k % |cursors|];
    assert c in cursors;
    CursorIsTop(c.symbol, StateOf(state, c.symbol), CoveredDays(coverage, c.symbol), now);
  }

  /** For every pair with an open backfill: of the whole windows below its stored position (or the ceiling), down
      to the latest one planned for it, exactly those of uncovered days are planned. */
  lemma PlansExactlyTheUncovered(pairs: seq<string>, state: map<string, SyncState>, coverage: map<string, set<int>>,
                                 active: set<string>, now: int, tasks: seq<Task>, latest: Task, x: int)
    requires IsWalk(CursorsOf(pairs, state, coverage, active, now), tasks) && latest in tasks
    requires
      var st := StateOf(state, latest.pair);
      latest.windowStart <= x < TopOf(st, now) && OnWholeWindow(x, st, now)
    ensures
      var days := if latest.pair in coverage then coverage[latest.pair] else {};
      Planned(tasks, latest.pair, x, StateOf(state, latest.pair)) <==> x - x % 86400 !in days
  {
    hide *;
    var cursors := CursorsOf(pairs, state, coverage, active, now);
    var k := IndexOf(tasks, latest);
    CursorAt(cursors, tasks, k, pairs, state, coverage, active, now);
    TurnFacts(cursors, tasks, k);
    GridOfTop(cursors[k % |cursors|], x, StateOf(state, latest.pair), now);
    EmitsExactlyTheUncovered(cursors, tasks, k, x);
    CoveredDay(coverage, latest.pair, x);
    if Emitted(cursors, tasks, k, x) {
      EmittedIsPlanned(cursors, tasks, k, x, StateOf(state, latest.pair));
    }
    if Planned(tasks, latest.pair, x, StateOf(state, latest.pair)) {
      PlannedIsUncovered(pairs, state, coverage, active, now, tasks, latest.pair, x);
    }
  }

  lemma IndexOf(tasks: seq<Task>, t: Task) returns (k: nat)
    requires t in tasks
    ensures k < |tasks| && tasks[k] == t
  {
    k :| 0 <= k < |tasks| && tasks[k] == t;
  }

  lemma CoveredDay(coverage: map<string, set<int>>, pair: string, x: int)
    ensures Trunc(x, DAY) in CoveredDays(coverage, pair) <==> x - x % 86400 in if pair in coverage then coverage[pair] else {}
  {
    TruncIsStart(x, DAY);
  }

  /** Whole windows lie between x and the pair's top. */
  predicate OnWholeWindow(x: int, st: SyncState, now: int) { (TopOf(st, now) - x) % WindowOf(st) == 0 }

  lemma GridOfTop(c: Cursor, x: int, st: SyncState, now: int)
    requires c.Valid() && c.position == TopOf(st, now) && c.window == WindowOf(st)
    ensures OnGrid(x, c.position, c.window) <==> OnWholeWindow(x, st, now)
  {
    hide TopOf, WindowOf;
  }

  lemma EmittedIsPlanned(cursors: seq<Cursor>, tasks: seq<Task>, k: nat, x: int, st: SyncState)
    requires IsWalk(cursors, tasks) && k < |tasks| && cursors != [] && Emitted(cursors, tasks, k, x)
    requires
      var c := cursors[k % |cursors|];
      c.window == WindowOf(st) && c.interval == if !st.hourlyCompleted then "1h" else "1d"
    ensures Planned(tasks, cursors[k % |cursors|].symbol, x, st)
  {
    hide Trunc, Gap, OnGrid, TaskId;
    var m :| 0 <= m <= k && m % |cursors| == k % |cursors| && tasks[m].windowStart == x;
    assert IsTurn(cursors[m % |cursors|], From(cursors, tasks, m), tasks[m]);
    assert tasks[m] in tasks;
  }

  lemma PlannedIsUncovered(pairs: seq<string>, state: map<string, SyncState>, coverage: map<string, set<int>>,
                           active: set<string>, now: int, tasks: seq<Task>, pair: string, x: int)
    requires IsWalk(CursorsOf(pairs, state, coverage, active, now), tasks)
    requires Planned(tasks, pair, x, StateOf(state, pair))
    ensures Trunc(x, DAY) !in CoveredDays(coverage, pair)
  {
    hide Trunc, Gap, OnGrid, TaskId, TopOf, CursorsOf;
    var cursors := CursorsOf(pairs, state, coverage, active, now);
    var t :| t in tasks && t.pair == pair && t.windowStart == x;
    var m :| 0 <= m < |tasks| && tasks[m] == t;
    CursorAt(cursors, tasks, m, pairs, state, coverage, active, now);
    assert IsTurn(cursors[m % |cursors|], From(cursors, tasks, m), tasks[m]);
  }

  /** And nothing else: every task is a whole window on the grid of a pair with an open backfill, below its top. */
  lemma PlansOnlyOpenWindows(pairs: seq<string>, state: map<string, SyncState>, coverage: map<string, set<int>>,
                             active: set<string>, now: int, tasks: seq<Task>, t: Task)
    requires IsWalk(CursorsOf(pairs, state, coverage, active, now), tasks) && t in tasks
    ensures
      var st := StateOf(state, t.pair);
      && Open(pairs, state, active, t.pair) && t.taskType == "historical_backfill"
      && t.interval == (if !st.hourlyCompleted then "1h" else "1d")
      && t.windowEnd == t.windowStart + WindowOf(st) <= TopOf(st, now) && OnWholeWindow(t.windowStart, st, now)
  {
    hide *;
    var cursors := CursorsOf(pairs, state, coverage, active, now);
    var k := IndexOf(tasks, t);
    CursorAt(cursors, tasks, k, pairs, state, coverage, active, now);
    TurnFacts(cursors, tasks, k);
    TurnsStayOnGrid(cursors, tasks, k);
    GridOfTop(cursors[k % |cursors|], t.windowStart, StateOf(state, t.pair), now);
  }

  // ---------- the limit of one tick (runtime.go) ----------

  /** The share of the worker batch, rounded up; zero when either number is not positive. */
  function ComputeBackfillTaskCap(workerBatchSize: int, percent: int): (cap: int)
    ensures cap == 0 <==> workerBatchSize <= 0 || percent <= 0
    ensures cap > 0 ==> cap <= workerBatchSize
    ensures cap > 0 && percent <= 100 ==> 100 * (cap - 1) < workerBatchSize * percent <= 100 * cap
    ensures cap > 0 && percent > 100 ==> cap == workerBatchSize
  {
    if workerBatchSize <= 0 || percent <= 0 then 0
    else
      var share := if percent > 100 then 100 else percent;
      assert 0 < workerBatchSize * share <= workerBatchSize * 100;
      var cap := (workerBatchSize * share + 99) / 100;
      if cap > workerBatchSize then workerBatchSize else if cap < 1 then 1 else cap
  }
}
