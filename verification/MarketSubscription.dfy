/** The in-memory update bus (backend/internal/service/market.go) and its SSE subscribers
    (backend/internal/httpapi/router/router.go): a pending set plus a one-slot wake channel each. */
module MarketSubscription {
  import opened Common

  // ---------- the objects, called one at a time ----------

  class Subscription {
    var ch: bool               // the one-slot channel holds a signal
    var pending: set<string>

    constructor ()
      ensures !ch && pending == {}
    {
      ch, pending := false, {};
    }

    /** Queueing one pair: it is pending, and a signal is waiting whether or not one was before. */
    method QueuePair(pair: string)
      modifies this
      ensures pending == old(pending) + {pair} && ch
    {
      pending := pending + {pair};
      if !ch {
        ch := true;
      }
    }

    /** Every pending pair once, in string order; nothing stays pending, and the channel is not touched. */
    method DrainPendingPairs() returns (pairs: seq<string>)
      modifies this`pending
      ensures pending == {} && Distinct(pairs) && Sorted(pairs, StrLeq)
      ensures forall p :: p in pairs <==> p in old(pending)
    {
      if pending == {} {
        return [];
      }
      StrWeakOrder();
      var list := Enumerate(pending);
      pending := {};
      pairs := SortSlice(list, StrLeq);
      DistinctPermutation(list, pairs);
    }
  }

  class MarketService<Ticker(==)> {
    var updateChs: seq<Subscription>
    var tickerCache: map<string, Ticker>

    constructor ()
      ensures updateChs == [] && tickerCache == map[]
    {
      updateChs, tickerCache := [], map[];
    }

    method Subscribe() returns (sub: Subscription)
      modifies this`updateChs
      ensures fresh(sub) && !sub.ch && sub.pending == {} && updateChs == old(updateChs) + [sub]
    {
      sub := new Subscription();
      updateChs := updateChs + [sub];
    }

    /** Removes the first occurrence; absent subscribers are ignored. */
    method Unsubscribe(sub: Subscription)
      modifies this`updateChs
      ensures sub !in old(updateChs) ==> updateChs == old(updateChs)
      ensures Distinct(old(updateChs)) ==> Distinct(updateChs) && forall s :: s in updateChs <==> s in old(updateChs) && s != sub
    {
      for i := 0 to |updateChs|
        invariant updateChs == old(updateChs) && sub !in updateChs[..i]
      {
        if updateChs[i] == sub {
          ghost var was := updateChs;
          updateChs := updateChs[..i] + updateChs[i + 1..];
          forall s | Distinct(was) ensures s in updateChs <==> s in was && s != sub {
            assert was == was[..i] + [sub] + was[i + 1..];
            assert forall j :: i < j < |was| ==> was[i + 1..][j - i - 1] == was[j];
          }
          return;
        }
      }
    }

    /** The pair's cached ticker is gone, and every subscriber has the pair pending and a signal waiting. */
    method NotifyUpdate(pair: string)
      modifies this`tickerCache, set s | s in updateChs
      ensures tickerCache == old(tickerCache) - {pair}
      ensures forall s :: s in updateChs ==> s.pending == old(s.pending) + {pair} && s.ch
    {
      tickerCache := tickerCache - {pair};
      for i := 0 to |updateChs|
        invariant forall s :: s in updateChs[..i] ==> s.pending == old(s.pending) + {pair} && s.ch
        invariant forall s :: s in updateChs ==> s.pending == old(s.pending) || s.pending == old(s.pending) + {pair}
        invariant tickerCache == old(tickerCache) - {pair}
      {
        assert updateChs[..i + 1] == updateChs[..i] + [updateChs[i]];
        updateChs[i].QueuePair(pair);
      }
      assert updateChs[..|updateChs|] == updateChs;
    }
  }

  // ---------- any interleaving ----------

  type SubId = nat

  datatype Act = Queued(pair: string) | Drained(batch: set<string>)

  /** woken: the subscriber has received a signal and not yet drained; log: what happened to its pending set. */
  datatype Sub = Sub(pending: set<string>, full: bool, woken: bool, ghost log: seq<Act>)

  /** A NotifyUpdate call: holding the read lock and about to add to todo's first, or between the add and the send. */
  datatype Producer =
    | Idle
    | Adding(pair: string, todo: seq<SubId>, ghost all: seq<SubId>, ghost since: map<SubId, nat>)
    | Sending(pair: string, to: SubId, todo: seq<SubId>, ghost all: seq<SubId>, ghost since: map<SubId, nat>)

  datatype Bus = Bus(subs: map<SubId, Sub>, active: seq<SubId>, producers: map<nat, Producer>)

  datatype Step =
    | Notify(t: nat, pair: string)   // take the read lock
    | Add(t: nat)                    // pending[pair] under the subscription's mutex
    | Send(t: nat)                   // the non-blocking send
    | Done(t: nat)                   // release the read lock
    | Join(s: SubId)                 // Subscribe, under the write lock
    | Leave(s: SubId)                // Unsubscribe, under the write lock
    | Receive(s: SubId)
    | Drain(s: SubId)

  ghost function ProducerOf(b: Bus, t: nat): Producer { if t in b.producers then b.producers[t] else Idle }

  ghost predicate Unlocked(b: Bus) { forall t :: t in b.producers ==> b.producers[t].Idle? }

  ghost predicate Enabled(b: Bus, step: Step) {
    match step
    case Notify(t, _) => ProducerOf(b, t).Idle?
    case Add(t) => ProducerOf(b, t).Adding? && ProducerOf(b, t).todo != []
    case Send(t) => ProducerOf(b, t).Sending?
    case Done(t) => ProducerOf(b, t).Adding? && ProducerOf(b, t).todo == []
    case Join(s) => Unlocked(b) && s !in b.subs
    case Leave(s) => Unlocked(b)
    case Receive(s) => s in b.subs && b.subs[s].full && !b.subs[s].woken
    case Drain(s) => s in b.subs && b.subs[s].woken
  }

  function Without(list: seq<SubId>, s: SubId): seq<SubId> {
    if list == [] then [] else if list[0] == s then list[1..] else [list[0]] + Without(list[1..], s)
  }

  ghost function LogSizes(b: Bus): map<SubId, nat> { map s | s in b.subs :: |b.subs[s].log| }

  ghost function SubOf(b: Bus, s: SubId): Sub { if s in b.subs then b.subs[s] else Sub({}, false, false, []) }

  ghost function Do(b: Bus, step: Step): Bus
    requires Enabled(b, step)
  {
    match step
    case Notify(t, pair) => b.(producers := b.producers[t := Adding(pair, b.active, b.active, LogSizes(b))])
    case Add(t) =>
      var p := ProducerOf(b, t);
      var s := p.todo[0];
      var sub := SubOf(b, s);
      b.(subs := b.subs[s := sub.(pending := sub.pending + {p.pair}, log := sub.log + [Queued(p.pair)])],
         producers := b.producers[t := Sending(p.pair, s, p.todo[1..], p.all, p.since)])
    case Send(t) =>
      var p := ProducerOf(b, t);
      b.(subs := b.subs[p.to := SubOf(b, p.to).(full := true)],
         producers := b.producers[t := Adding(p.pair, p.todo, p.all, p.since)])
    case Done(t) => b.(producers := b.producers[t := Idle])
    case Join(s) => b.(subs := b.subs[s := Sub({}, false, false, [])], active := b.active + [s])
    case Leave(s) => b.(active := Without(b.active, s))
    case Receive(s) => b.(subs := b.subs[s := b.subs[s].(full := false, woken := true)])
    case Drain(s) =>
      var sub := b.subs[s];
      b.(subs := b.subs[s := sub.(pending := {}, woken := false, log := sub.log + [Drained(sub.pending)])])
  }

  ghost predicate IsRun(trace: seq<Bus>, steps: seq<Step>) {
    && |trace| == |steps| + 1 && trace[0] == Bus(map[], [], map[])
    && forall i :: 0 <= i < |steps| ==> Enabled(trace[i], steps[i]) && trace[i + 1] == Do(trace[i], steps[i])
  }

  // ---------- no lost wakeup ----------

  ghost predicate SendingTo(b: Bus, t: nat, s: SubId) { ProducerOf(b, t).Sending? && ProducerOf(b, t).to == s }

  /** A pending pair has a signal waiting, a subscriber about to drain, or a producer about to send. */
  ghost predicate WillWake(b: Bus, s: SubId) {
    var sub := SubOf(b, s);
    sub.pending != {} ==> sub.full || sub.woken || exists t :: SendingTo(b, t, s)
  }

  ghost predicate NoLostWakeup(b: Bus) { forall s :: WillWake(b, s) }

  lemma StepKeepsWakeups(b: Bus, step: Step)
    requires NoLostWakeup(b) && Enabled(b, step)
    ensures NoLostWakeup(Do(b, step))
  {
    hide Without, LogSizes;
    var c := Do(b, step);
    forall s ensures WillWake(c, s) {
      assert WillWake(b, s);
      if t :| SendingTo(b, t, s) && !(step.Send? && step.t == t) {
        assert SendingTo(c, t, s);
      }
      if step.Add? {
        assert SendingTo(c, step.t, ProducerOf(b, step.t).todo[0]);
      }
    }
  }

  /** Under every interleaving of any number of producers with the subscribers, no wakeup is lost. */
  lemma {:induction false} WakeupsAreNeverLost(trace: seq<Bus>, steps: seq<Step>, n: nat)
    requires IsRun(trace, steps) && n <= |steps|
    ensures NoLostWakeup(trace[n])
  {
    hide Do, Enabled, WillWake;
    if n > 0 {
      WakeupsAreNeverLost(trace, steps, n - 1);
      StepKeepsWakeups(trace[n - 1], steps[n - 1]);
    } else {
      NothingToWake(trace[0]);
    }
  }

  lemma NothingToWake(b: Bus)
    requires b.subs == map[]
    ensures NoLostWakeup(b)
  {
  }

  // ---------- what is drained is what was queued ----------

  /** The pairs queued after the last drain. */
  ghost function SinceDrain(log: seq<Act>): set<string> {
    if log == [] then {}
    else match log[|log| - 1]
      case Queued(pair) => SinceDrain(log[..|log| - 1]) + {pair}
      case Drained(_) => {}
  }

  /** Every batch is what was queued since the batch before it. */
  ghost predicate BatchesAreExact(log: seq<Act>) {
    forall i :: 0 <= i < |log| && log[i].Drained? ==> log[i].batch == SinceDrain(log[..i])
  }

  ghost predicate LogIsExact(pending: set<string>, log: seq<Act>) { pending == SinceDrain(log) && BatchesAreExact(log) }

  ghost predicate LogsAreExact(b: Bus) { forall s :: LogIsExact(SubOf(b, s).pending, SubOf(b, s).log) }

  lemma BatchesGrow(log: seq<Act>, act: Act)
    requires BatchesAreExact(log) && (act.Drained? ==> act.batch == SinceDrain(log))
    ensures BatchesAreExact(log + [act])
  {
    hide SinceDrain;
    var all := log + [act];
    forall i | 0 <= i < |all| && all[i].Drained? ensures all[i].batch == SinceDrain(all[..i]) {
      if i < |log| {
        assert all[..i] == log[..i] && all[i] == log[i];
      } else {
        assert all[..i] == log;
      }
    }
  }

  lemma FrontIsExact(log: seq<Act>)
    requires BatchesAreExact(log) && log != []
    ensures BatchesAreExact(log[..|log| - 1])
  {
    hide SinceDrain;
    var front := log[..|log| - 1];
    forall i | 0 <= i < |front| && front[i].Drained? ensures front[i].batch == SinceDrain(front[..i]) {
      assert front[..i] == log[..i] && front[i] == log[i];
    }
  }

  lemma SinceGrows(log: seq<Act>, act: Act)
    ensures SinceDrain(log + [act]) == if act.Queued? then SinceDrain(log) + {act.pair} else {}
  {
    assert (log + [act])[..|log|] == log;
  }

  lemma LogGrows(pending: set<string>, log: seq<Act>, act: Act)
    requires LogIsExact(pending, log) && (act.Drained? ==> act.batch == pending)
    ensures LogIsExact(if act.Queued? then pending + {act.pair} else {}, log + [act])
  {
    BatchesGrow(log, act);
    SinceGrows(log, act);
    hide SinceDrain, BatchesAreExact;
  }

  lemma StepKeepsLogs(b: Bus, step: Step)
    requires LogsAreExact(b) && Enabled(b, step)
    ensures LogsAreExact(Do(b, step))
  {
    var c := Do(b, step);
    forall s ensures LogIsExact(SubOf(c, s).pending, SubOf(c, s).log) {
      var sub := SubOf(b, s);
      assert LogIsExact(sub.pending, sub.log);
      hide LogIsExact, Without, LogSizes;
      if step.Add? && s == ProducerOf(b, step.t).todo[0] {
        LogGrows(sub.pending, sub.log, Queued(ProducerOf(b, step.t).pair));
      } else if step.Drain? && s == step.s {
        LogGrows(sub.pending, sub.log, Drained(sub.pending));
      } else if step.Join? && s == step.s {
        NothingLogged();
      } else {
        assert SubOf(c, s).pending == sub.pending && SubOf(c, s).log == sub.log;
      }
    }
  }

  lemma NothingLogged()
    ensures LogIsExact({}, [])
  {
  }

  /** In every run each drained batch is exactly the pairs queued since the batch before, and the pending set is
      what was queued since the last one. */
  lemma {:induction false} BatchesAreAlwaysExact(trace: seq<Bus>, steps: seq<Step>, n: nat)
    requires IsRun(trace, steps) && n <= |steps|
    ensures LogsAreExact(trace[n])
  {
    hide Do, Enabled, LogIsExact;
    if n > 0 {
      BatchesAreAlwaysExact(trace, steps, n - 1);
      StepKeepsLogs(trace[n - 1], steps[n - 1]);
    } else {
      NothingLogged();
    }
  }

  ghost function AllQueued(log: seq<Act>): set<string> { set a | a in log && a.Queued? :: a.pair }

  ghost function AllDrained(log: seq<Act>): set<string> {
    if log == [] then {}
    else AllDrained(log[..|log| - 1]) + (if log[|log| - 1].Drained? then log[|log| - 1].batch else {})
  }

  lemma TotalsGrow(log: seq<Act>, act: Act)
    ensures AllQueued(log + [act]) == AllQueued(log) + if act.Queued? then {act.pair} else {}
    ensures AllDrained(log + [act]) == AllDrained(log) + if act.Drained? then act.batch else {}
  {
    assert (log + [act])[..|log|] == log;
    assert forall a :: a in log + [act] <==> a in log || a == act;
  }

  /** Pairs queued are the pairs drained together with the pairs pending. */
  lemma {:induction false} QueuedIsDrainedOrPending(log: seq<Act>)
    requires BatchesAreExact(log)
    ensures AllQueued(log) == AllDrained(log) + SinceDrain(log)
  {
    if log != [] {
      var front, last := log[..|log| - 1], log[|log| - 1];
      assert last.Drained? ==> last.batch == SinceDrain(front);
      FrontIsExact(log);
      QueuedIsDrainedOrPending(front);
      TotalsGrow(front, last);
      SinceGrows(front, last);
      hide AllQueued, AllDrained, SinceDrain, BatchesAreExact;
      assert log == front + [last];
    }
  }

  /** When the bus is quiet (no call in progress, nothing to receive or drain) everything has been delivered. */
  lemma QuietMeansDelivered(trace: seq<Bus>, steps: seq<Step>, n: nat, s: SubId)
    requires IsRun(trace, steps) && n <= |steps| && s in trace[n].subs
    requires Unlocked(trace[n]) && !trace[n].subs[s].full && !trace[n].subs[s].woken
    ensures AllDrained(trace[n].subs[s].log) == AllQueued(trace[n].subs[s].log)
  {
    WakeupsAreNeverLost(trace, steps, n);
    BatchesAreAlwaysExact(trace, steps, n);
    hide AllDrained, AllQueued, SinceDrain, BatchesAreExact;
    var b := trace[n];
    assert WillWake(b, s) && LogIsExact(SubOf(b, s).pending, SubOf(b, s).log);
    assert forall t :: !SendingTo(b, t, s);
    QueuedIsDrainedOrPending(b.subs[s].log);
  }

  // ---------- a notification reaches every subscriber ----------

  /** The pair was queued for s after its log had `since` entries. */
  ghost predicate QueuedSince(b: Bus, s: SubId, pair: string, since: nat) {
    exists i :: since <= i < |SubOf(b, s).log| && SubOf(b, s).log[i] == Queued(pair)
  }

  /** A call in progress: it works through the subscribers that were active when it began, and has queued the
      pair for every one it has passed. */
  ghost predicate CallInProgress(b: Bus, t: nat, pair: string, all: seq<SubId>, since: map<SubId, nat>) {
    var p := ProducerOf(b, t);
    && !p.Idle? && p.pair == pair && p.all == all && p.since == since
    && |p.todo| <= |all| && p.todo == all[|all| - |p.todo|..]
    && forall j :: 0 <= j < |all| - |p.todo| && all[j] in since ==> QueuedSince(b, all[j], pair, since[all[j]])
  }

  lemma LogsOnlyGrow(b: Bus, step: Step, s: SubId)
    requires Enabled(b, step)
    ensures SubOf(b, s).log <= SubOf(Do(b, step), s).log
  {
    hide Without, LogSizes;
  }

  lemma StillQueued(b: Bus, step: Step, s: SubId, pair: string, since: nat)
    requires Enabled(b, step) && QueuedSince(b, s, pair, since)
    ensures QueuedSince(Do(b, step), s, pair, since)
  {
    LogsOnlyGrow(b, step, s);
    hide Do;
    var i :| since <= i < |SubOf(b, s).log| && SubOf(b, s).log[i] == Queued(pair);
    assert SubOf(Do(b, step), s).log[i] == Queued(pair);
  }

  ghost predicate SinceFits(b: Bus, since: map<SubId, nat>) { forall s :: s in since ==> since[s] <= |SubOf(b, s).log| }

  lemma CallGoesOn(b: Bus, step: Step, t: nat, pair: string, all: seq<SubId>, since: map<SubId, nat>)
    requires Enabled(b, step) && CallInProgress(b, t, pair, all, since) && SinceFits(b, since) && step != Done(t)
    ensures CallInProgress(Do(b, step), t, pair, all, since) && SinceFits(Do(b, step), since)
  {
    hide Without, LogSizes, QueuedSince;
    var c := Do(b, step);
    forall s | s in since ensures since[s] <= |SubOf(c, s).log| {
      LogsOnlyGrow(b, step, s);
    }
    var p, q := ProducerOf(b, t), ProducerOf(c, t);
    assert q.todo == if step == Add(t) then p.todo[1..] else p.todo;
    forall j | 0 <= j < |all| - |q.todo| && all[j] in since ensures QueuedSince(c, all[j], pair, since[all[j]]) {
      if j < |all| - |p.todo| {
        StillQueued(b, step, all[j], pair, since[all[j]]);
      } else {
        JustQueued(b, t, since[all[j]]);
      }
    }
  }

  lemma JustQueued(b: Bus, t: nat, since: nat)
    requires Enabled(b, Add(t)) && since <= |SubOf(b, ProducerOf(b, t).todo[0]).log|
    ensures QueuedSince(Do(b, Add(t)), ProducerOf(b, t).todo[0], ProducerOf(b, t).pair, since)
  {
    var s := ProducerOf(b, t).todo[0];
    assert SubOf(Do(b, Add(t)), s).log[|SubOf(b, s).log|] == Queued(ProducerOf(b, t).pair);
  }

  /** The m-th step begins a call, the n-th is its end. */
  ghost predicate IsCall(steps: seq<Step>, m: nat, n: nat, t: nat, pair: string) {
    m < n < |steps| && steps[m] == Notify(t, pair) && steps[n] == Done(t) && forall i :: m < i < n ==> steps[i] != Done(t)
  }

  lemma CallBegins(b: Bus, t: nat, pair: string)
    requires Enabled(b, Notify(t, pair))
    ensures CallInProgress(Do(b, Notify(t, pair)), t, pair, b.active, LogSizes(b)) && SinceFits(Do(b, Notify(t, pair)), LogSizes(b))
  {
  }

  lemma {:induction false} CallLasts(trace: seq<Bus>, steps: seq<Step>, m: nat, k: nat, n: nat, t: nat, pair: string)
    requires IsRun(trace, steps) && IsCall(steps, m, n, t, pair) && m < k <= n
    ensures CallInProgress(trace[k], t, pair, trace[m].active, LogSizes(trace[m])) && SinceFits(trace[k], LogSizes(trace[m]))
  {
    hide Do, Enabled, CallInProgress, SinceFits, LogSizes;
    if k == m + 1 {
      CallBegins(trace[m], t, pair);
    } else {
      CallLasts(trace, steps, m, k - 1, n, t, pair);
      CallGoesOn(trace[k - 1], steps[k - 1], t, pair, trace[m].active, LogSizes(trace[m]));
    }
  }

  /** Active subscribers are known, in every run. */
  lemma {:induction false} ActiveAreKnown(trace: seq<Bus>, steps: seq<Step>, n: nat)
    requires IsRun(trace, steps) && n <= |steps|
    ensures forall s :: s in trace[n].active ==> s in trace[n].subs
  {
    if n > 0 {
      ActiveAreKnown(trace, steps, n - 1);
      assert trace[n] == Do(trace[n - 1], steps[n - 1]);
      if steps[n - 1].Leave? {
        WithoutIsPart(trace[n - 1].active, steps[n - 1].s);
      }
    }
  }

  lemma {:induction false} WithoutIsPart(list: seq<SubId>, s: SubId)
    ensures forall x :: x in Without(list, s) ==> x in list
  {
    if list != [] && list[0] != s {
      WithoutIsPart(list[1..], s);
    }
  }

  /** The pair was handed to subscriber s in a batch drained after its log had `since` entries. */
  ghost predicate DrainedSince(sub: Sub, pair: string, since: nat) {
    exists j :: since <= j < |sub.log| && sub.log[j].Drained? && pair in sub.log[j].batch
  }

  lemma {:induction false} QueuedIsKept(log: seq<Act>, i: nat)
    requires BatchesAreExact(log) && i < |log| && log[i].Queued?
    ensures log[i].pair in SinceDrain(log) || exists j :: i < j < |log| && log[j].Drained? && log[i].pair in log[j].batch
  {
    var front, last := log[..|log| - 1], log[|log| - 1];
    assert last.Drained? ==> last.batch == SinceDrain(front);
    FrontIsExact(log);
    SinceGrows(front, last);
    assert log == front + [last];
    hide SinceDrain, BatchesAreExact;
    if i < |front| {
      QueuedIsKept(front, i);
      if j :| i < j < |front| && front[j].Drained? && front[i].pair in front[j].batch {
        assert log[j] == front[j];
      }
    }
  }

  /** A completed NotifyUpdate reaches every subscriber that was active when it began: the pair is pending for
      it, or was drained by it after the call began. */
  lemma NotificationsReachEveryone(trace: seq<Bus>, steps: seq<Step>, m: nat, n: nat, t: nat, pair: string, s: SubId)
    requires IsRun(trace, steps) && IsCall(steps, m, n, t, pair) && s in trace[m].active
    ensures
      var sub := SubOf(trace[n], s);
      pair in sub.pending || DrainedSince(sub, pair, |SubOf(trace[m], s).log|)
  {
    CallLasts(trace, steps, m, n, n, t, pair);
    ActiveAreKnown(trace, steps, m);
    BatchesAreAlwaysExact(trace, steps, n);
    assert Enabled(trace[n], Done(t));
    hide Do, SinceDrain, BatchesAreExact;
    var j :| 0 <= j < |trace[m].active| && trace[m].active[j] == s;
    assert s in LogSizes(trace[m]);
    var sub := SubOf(trace[n], s);
    assert QueuedSince(trace[n], s, pair, |SubOf(trace[m], s).log|);
    var i :| |SubOf(trace[m], s).log| <= i < |sub.log| && sub.log[i] == Queued(pair);
    assert LogIsExact(sub.pending, sub.log);
    QueuedIsKept(sub.log, i);
  }
}
