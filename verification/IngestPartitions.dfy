/** Several consumers of one topic (backend/internal/messaging/kafka/market_events.go): each partition has its own
    log and consumer, all write the same tables, and every store access is a step of its own. */
module IngestPartitions {
  import opened Common
  import opened Consolidate
  import opened RealtimeIngest

  /** Where a consumer is in the ingest of its current group: before the raw upsert, before the read of the hour's
      rows, or before the upsert of the candle that it made of them. */
  datatype Stage = AtUpsert | AtRead | AtWrite(bar: Option<Bar>)

  /** A batch up to offset `to` is being handled, and its first `done` groups are finished. */
  datatype Work = Resting | Working(to: nat, groups: seq<seq<Candle>>, done: nat, stage: Stage)

  /** seen is how far any batch of the partition, finished or not, has reached. */
  datatype Node = Node(committed: nat, seen: nat, work: Work)

  datatype Sys = Sys(store: Store, nodes: seq<Node>)

  type Logs = seq<seq<Message>>

  datatype Action = Fetch(size: nat) | UpsertRaw | ReadRows | UpsertHour | Commit | Crash

  /** The consumer of partition p acts. */
  datatype Step = Step(p: nat, action: Action)

  predicate AtGroup(w: Work) { w.Working? && w.done < |w.groups| && w.groups[w.done] != [] }

  /** The hour of the current group. */
  function Target(w: Work): HourKey
    requires AtGroup(w)
  {
    Hour(w.groups[w.done][0])
  }

  predicate Can(n: Node, a: Action, log: seq<Message>) {
    match a
    case Fetch(size) => n.work.Resting? && size > 0 && n.committed + size <= |log|
    case UpsertRaw => AtGroup(n.work) && n.work.stage.AtUpsert?
    case ReadRows => AtGroup(n.work) && n.work.stage.AtRead?
    case UpsertHour => AtGroup(n.work) && n.work.stage.AtWrite?
    case Commit => n.work.Working? && n.work.done == |n.work.groups|
    case Crash => n.work.Working?
  }

  ghost function RolledUp(raw: map<RawKey, Candle>, k: HourKey): Option<Bar> {
    if Rows(raw, k) == {} then None else Some(BarOf(Rows(raw, k)))
  }

  /** The tables after an action of a consumer. */
  function Stored(store: Store, w: Work, a: Action): Store {
    if !AtGroup(w) then store
    else if a.UpsertRaw? then store.(raw := UpsertAll(store.raw, w.groups[w.done]))
    else if a.UpsertHour? && w.stage.AtWrite? && w.stage.bar.Some? then
      store.(bars := store.bars[Target(w) := w.stage.bar.value])
    else store
  }

  /** The consumer after its action. */
  ghost function Moved(store: Store, n: Node, a: Action, log: seq<Message>): Node
    requires Can(n, a, log)
  {
    var w := n.work;
    match a
    case Fetch(size) =>
      var to := n.committed + size;
      Node(n.committed, if to > n.seen then to else n.seen,
           Working(to, Groups(Valid(log[n.committed..to])), 0, AtUpsert))
    case UpsertRaw => n.(work := w.(stage := AtRead))
    case ReadRows => n.(work := w.(stage := AtWrite(RolledUp(store.raw, Target(w)))))
    case UpsertHour => n.(work := w.(done := w.done + 1, stage := AtUpsert))
    case Commit => n.(committed := w.to, work := Resting)
    case Crash => n.(work := Resting)
  }

  ghost predicate Enabled(s: Sys, step: Step, logs: Logs) {
    step.p < |s.nodes| == |logs| && Can(s.nodes[step.p], step.action, logs[step.p])
  }

  ghost function Do(s: Sys, step: Step, logs: Logs): Sys
    requires Enabled(s, step, logs)
  {
    var n := s.nodes[step.p];
    Sys(Stored(s.store, n.work, step.action), s.nodes[step.p := Moved(s.store, n, step.action, logs[step.p])])
  }

  ghost predicate IsRun(trace: seq<Sys>, steps: seq<Step>, logs: Logs) {
    && |trace| == |steps| + 1 && |trace[0].nodes| == |logs|
    && (forall p :: 0 <= p < |logs| ==> trace[0].nodes[p] == Node(0, 0, Resting))
    && forall i :: 0 <= i < |steps| ==> Enabled(trace[i], steps[i], logs) && trace[i + 1] == Do(trace[i], steps[i], logs)
  }

  /** No two partitions hold messages of one pair and hour. */
  ghost predicate HoursStayApart(logs: Logs) {
    forall p, q, k :: 0 <= p < |logs| && 0 <= q < |logs| && p != q ==>
      !(Touches(logs[p], 0, |logs[p]|, k) && Touches(logs[q], 0, |logs[q]|, k))
  }

  ghost predicate AllUnambiguous(logs: Logs) { forall p :: 0 <= p < |logs| ==> Unambiguous(Valid(logs[p])) }

  // ---------- the invariant, hour by hour ----------

  ghost predicate NodeFits(n: Node, log: seq<Message>) {
    && n.committed <= n.seen <= |log|
    && (n.work.Working? ==>
          && n.committed < n.work.to <= n.seen && n.work.done <= |n.work.groups|
          && n.work.groups == Groups(Valid(log[n.committed..n.work.to]))
          && (!n.work.stage.AtUpsert? ==> AtGroup(n.work)))
  }

  ghost predicate Fits(s: Sys, logs: Logs) {
    |s.nodes| == |logs| && forall p :: 0 <= p < |logs| ==> NodeFits(s.nodes[p], logs[p])
  }

  /** The consumer has upserted into the hour and not yet rebuilt it. */
  predicate Rebuilding(w: Work, k: HourKey) { AtGroup(w) && !w.stage.AtUpsert? && Target(w) == k }

  ghost predicate WorkOk(store: Store, w: Work, k: HourKey) {
    w.Working? && w.done <= |w.groups| ==>
      && (Rebuilding(w, k) ==> Rows(store.raw, k) != {})
      && (Rebuilding(w, k) && w.stage.AtWrite? ==> w.stage.bar == RolledUp(store.raw, k))
      && (!Rebuilding(w, k) && TouchedBy(w.groups[..w.done], k) ==> Agrees(store, k))
  }

  /** A message of the hour has been handled and not committed. */
  ghost predicate Dirty(s: Sys, logs: Logs, k: HourKey) {
    exists p :: 0 <= p < |logs| && p < |s.nodes| && Touches(logs[p], s.nodes[p].committed, s.nodes[p].seen, k)
  }

  ghost predicate HourOk(s: Sys, logs: Logs, k: HourKey) {
    && (!Dirty(s, logs, k) ==> Agrees(s.store, k))
    && forall p :: 0 <= p < |s.nodes| ==> WorkOk(s.store, s.nodes[p].work, k)
  }

  ghost predicate SameAt(s: Store, t: Store, k: HourKey) { Rows(s.raw, k) == Rows(t.raw, k) && BarAt(s, k) == BarAt(t, k) }

  lemma SameIsOk(s: Store, t: Store, w: Work, k: HourKey)
    requires SameAt(s, t, k)
    ensures Agrees(s, k) <==> Agrees(t, k)
    ensures WorkOk(s, w, k) <==> WorkOk(t, w, k)
  {
    hide BarOf, Rows, TouchedBy, Hour;
  }

  /** The action writes to the hour. */
  predicate Writes(w: Work, a: Action, k: HourKey) { (a.UpsertRaw? || a.UpsertHour?) && AtGroup(w) && Target(w) == k }

  lemma OthersStay(store: Store, w: Work, a: Action, k: HourKey)
    requires !Writes(w, a, k) && (AtGroup(w) ==> OneHour(w.groups[w.done]))
    ensures SameAt(store, Stored(store, w, a), k)
  {
    hide BarOf, Rows, UpsertAll;
    if AtGroup(w) && a.UpsertRaw? {
      OtherHours(store.raw, w.groups[w.done], k);
    }
  }

  /** A group of a batch is one pair and hour, and that hour is touched by an uncommitted message. */
  lemma WorkIsUncommitted(n: Node, log: seq<Message>)
    requires NodeFits(n, log) && Unambiguous(Valid(log)) && n.work.Working?
    ensures Homogeneous(n.work.groups)
    ensures forall k :: TouchedBy(n.work.groups, k) <==> Touches(log, n.committed, n.work.to, k)
    ensures n.work.done < |n.work.groups| ==>
      AtGroup(n.work) && OneHour(n.work.groups[n.work.done]) && TouchedBy(n.work.groups, Target(n.work))
  {
    hide Groups, Valid, Unambiguous, OneHour, Hour;
    forall k ensures TouchedBy(n.work.groups, k) <==> Touches(log, n.committed, n.work.to, k) {
      BatchTouches(log, n.committed, n.work.to, k);
    }
    BatchTouches(log, n.committed, n.work.to, HourKey("", 0));
  }

  lemma GroupIsOneHour(n: Node, log: seq<Message>)
    requires NodeFits(n, log) && Unambiguous(Valid(log))
    ensures AtGroup(n.work) ==> OneHour(n.work.groups[n.work.done])
  {
    if n.work.Working? {
      WorkIsUncommitted(n, log);
    }
    hide OneHour;
  }

  lemma NothingTouched(groups: seq<seq<Candle>>, k: HourKey)
    ensures !TouchedBy(groups[..0], k)
  {
  }

  lemma OneGroupMore(groups: seq<seq<Candle>>, done: nat, k: HourKey)
    requires done < |groups| && groups[done] != []
    ensures TouchedBy(groups[..done + 1], k) <==> TouchedBy(groups[..done], k) || Hour(groups[done][0]) == k
  {
    hide Hour, TouchedBy;
    assert groups[..done + 1][..done] == groups[..done];
    TouchedFront(groups[..done + 1], k);
  }

  lemma UpsertRawOk(store: Store, n: Node, log: seq<Message>, k: HourKey)
    requires Can(n, UpsertRaw, log) && OneHour(n.work.groups[n.work.done]) && WorkOk(store, n.work, k)
    ensures WorkOk(Stored(store, n.work, UpsertRaw), Moved(store, n, UpsertRaw, log).work, k)
  {
    hide BarOf, Rows, UpsertAll, TouchedBy, Hour, OneHour;
    var w := n.work;
    TouchedHourHasRows(store.raw, w.groups[w.done], w.groups[w.done][0]);
    if Target(w) != k {
      OthersStay(store, w, UpsertRaw, k);
      SameIsOk(store, Stored(store, w, UpsertRaw), w, k);
    }
  }

  lemma UpsertHourOk(store: Store, n: Node, log: seq<Message>, k: HourKey)
    requires Can(n, UpsertHour, log) && OneHour(n.work.groups[n.work.done]) && WorkOk(store, n.work, k)
    ensures WorkOk(Stored(store, n.work, UpsertHour), Moved(store, n, UpsertHour, log).work, k)
  {
    hide BarOf, Rows, UpsertAll, TouchedBy, Hour, OneHour;
    var w := n.work;
    OneGroupMore(w.groups, w.done, k);
    if Target(w) != k {
      OthersStay(store, w, UpsertHour, k);
      SameIsOk(store, Stored(store, w, UpsertHour), w, k);
    }
  }

  /** The consumer that acts keeps its obligations for the hour. */
  lemma OwnWorkStaysOk(store: Store, n: Node, a: Action, log: seq<Message>, k: HourKey)
    requires Can(n, a, log) && NodeFits(n, log) && Unambiguous(Valid(log)) && WorkOk(store, n.work, k)
    ensures WorkOk(Stored(store, n.work, a), Moved(store, n, a, log).work, k)
  {
    GroupIsOneHour(n, log);
    hide BarOf, Rows, UpsertAll, Groups, Valid, TouchedBy, Hour, Unambiguous, NodeFits, OneHour;
    match a {
      case Fetch(size) => NothingTouched(Groups(Valid(log[n.committed..n.committed + size])), k);
      case UpsertRaw => UpsertRawOk(store, n, log, k);
      case UpsertHour => UpsertHourOk(store, n, log, k);
      case _ =>
    }
  }

  lemma NodeStaysFit(store: Store, n: Node, a: Action, log: seq<Message>)
    requires Can(n, a, log) && NodeFits(n, log) && Unambiguous(Valid(log))
    ensures NodeFits(Moved(store, n, a, log), log)
  {
    hide Groups, Valid, Unambiguous, Hour, RolledUp;
  }

  lemma NodesFit(s: Sys, step: Step, logs: Logs)
    requires Fits(s, logs) && Enabled(s, step, logs) && AllUnambiguous(logs)
    ensures Fits(Do(s, step, logs), logs)
  {
    hide NodeFits, Stored, Moved, Valid, Unambiguous;
    NodeStaysFit(s.store, s.nodes[step.p], step.action, logs[step.p]);
  }

  lemma WritesAreDirty(n: Node, a: Action, log: seq<Message>, k: HourKey)
    requires NodeFits(n, log) && Unambiguous(Valid(log)) && Writes(n.work, a, k)
    ensures Touches(log, n.committed, n.seen, k) && Touches(log, 0, |log|, k)
  {
    WorkIsUncommitted(n, log);
    hide Groups, Valid, Unambiguous, TouchedBy, Hour;
  }

  /** A consumer whose log does not touch the hour has no obligations for it. */
  lemma UntouchedIsOk(n: Node, log: seq<Message>, store: Store, k: HourKey)
    requires NodeFits(n, log) && Unambiguous(Valid(log)) && !Touches(log, 0, |log|, k)
    ensures WorkOk(store, n.work, k)
  {
    if n.work.Working? {
      WorkIsUncommitted(n, log);
      hide Groups, Valid, Unambiguous, Hour, Rows, BarOf;
      PrefixTouches(n.work.groups, n.work.done, k);
      TouchesSomewhere(log, n.committed, n.work.to, k);
    }
  }

  lemma TouchesSomewhere(log: seq<Message>, from: nat, to: nat, k: HourKey)
    ensures Touches(log, from, to, k) ==> Touches(log, 0, |log|, k)
  {
  }

  lemma PrefixTouches(groups: seq<seq<Candle>>, done: nat, k: HourKey)
    requires done <= |groups|
    ensures TouchedBy(groups[..done], k) ==> TouchedBy(groups, k)
  {
    hide Hour;
    if i :| 0 <= i < |groups[..done]| && groups[..done][i] != [] && Hour(groups[..done][i][0]) == k {
      assert groups[i] == groups[..done][i];
    }
  }

  ghost predicate Inv(s: Sys, logs: Logs) { Fits(s, logs) && forall k :: HourOk(s, logs, k) }

  /** Every consumer's obligations for an hour survive any step of any consumer. */
  lemma AllWorkStaysOk(s: Sys, step: Step, logs: Logs, k: HourKey)
    requires Fits(s, logs) && HourOk(s, logs, k) && Enabled(s, step, logs) && HoursStayApart(logs) && AllUnambiguous(logs)
    ensures
      var t := Do(s, step, logs);
      |t.nodes| == |logs| && forall q :: 0 <= q < |logs| ==> WorkOk(t.store, t.nodes[q].work, k)
  {
    hide Valid, Unambiguous, WorkOk, NodeFits, Touches, Stored, Moved, Writes;
    var t, n, log := Do(s, step, logs), s.nodes[step.p], logs[step.p];
    forall q | 0 <= q < |logs| ensures WorkOk(t.store, t.nodes[q].work, k) {
      assert WorkOk(s.store, s.nodes[q].work, k) && NodeFits(s.nodes[q], logs[q]) && NodeFits(n, log);
      if q == step.p {
        OwnWorkStaysOk(s.store, n, step.action, log, k);
      } else {
        assert t.nodes[q] == s.nodes[q];
        if Writes(n.work, step.action, k) {
          WritesAreDirty(n, step.action, log, k);
          UntouchedIsOk(s.nodes[q], logs[q], t.store, k);
        } else {
          GroupIsOneHour(n, log);
          OthersStay(s.store, n.work, step.action, k);
          SameIsOk(s.store, t.store, s.nodes[q].work, k);
        }
      }
    }
  }

  /** An hour without handled, uncommitted messages agrees after any step. */
  lemma CleanHoursStayAgreeing(s: Sys, step: Step, logs: Logs, k: HourKey)
    requires Fits(s, logs) && HourOk(s, logs, k) && Enabled(s, step, logs) && AllUnambiguous(logs)
    requires !Dirty(Do(s, step, logs), logs, k)
    ensures Agrees(Do(s, step, logs).store, k)
  {
    hide Valid, Unambiguous, Touches, Hour, Rows, BarOf, Groups, Stored, Moved, Agrees, WorkOk, NodeFits, Writes;
    var t, n, log := Do(s, step, logs), s.nodes[step.p], logs[step.p];
    assert NodeFits(n, log) && WorkOk(s.store, n.work, k);
    if Dirty(s, logs, k) {
      StaysDirty(s, step, logs, k);
      CommitLeavesAgreement(s.store, n, log, k);
    } else {
      if Writes(n.work, step.action, k) {
        WritesAreDirty(n, step.action, log, k);
      }
      GroupIsOneHour(n, log);
      OthersStay(s.store, n.work, step.action, k);
      SameIsOk(s.store, t.store, Resting, k);
    }
  }

  lemma CommitLeavesAgreement(store: Store, n: Node, log: seq<Message>, k: HourKey)
    requires Can(n, Commit, log) && NodeFits(n, log) && Unambiguous(Valid(log)) && WorkOk(store, n.work, k)
    requires Touches(log, n.committed, n.work.to, k)
    ensures Agrees(Stored(store, n.work, Commit), k)
  {
    hide Valid, Unambiguous, Touches, Hour, Rows, BarOf, Groups, TouchedBy, Agrees, Homogeneous, OneHour, RolledUp;
    WorkIsUncommitted(n, log);
    assert n.work.groups[..|n.work.groups|] == n.work.groups;
  }

  /** Only the commit of a batch that touches it makes an hour clean. */
  lemma StaysDirty(s: Sys, step: Step, logs: Logs, k: HourKey)
    requires Fits(s, logs) && Enabled(s, step, logs) && Dirty(s, logs, k) && !Dirty(Do(s, step, logs), logs, k)
    ensures step.action.Commit? && Touches(logs[step.p], s.nodes[step.p].committed, s.nodes[step.p].work.to, k)
  {
    hide Touches, Groups, Valid, UpsertAll, Rows;
    var t := Do(s, step, logs);
    var p :| 0 <= p < |logs| && p < |s.nodes| && Touches(logs[p], s.nodes[p].committed, s.nodes[p].seen, k);
    assert NodeFits(s.nodes[p], logs[p]);
    assert !Touches(logs[p], t.nodes[p].committed, t.nodes[p].seen, k);
    TouchesMore(logs[p], s.nodes[p].committed, s.nodes[p].seen, t.nodes[p].seen, k);
    assert step.action.Commit? && p == step.p;
    TouchesSplit(logs[p], s.nodes[p].committed, t.nodes[p].committed, s.nodes[p].seen, k);
  }

  /** Over every interleaving of any number of consumers, if no hour is split over partitions: an hour can disagree
      with its rows only while one of its messages awaits redelivery ... */
  lemma {:induction false} PartitionsKeepAgreement(trace: seq<Sys>, steps: seq<Step>, logs: Logs, n: nat)
    requires IsRun(trace, steps, logs) && HoursStayApart(logs) && n <= |steps| && Agreement(trace[0].store)
    requires AllUnambiguous(logs)
    ensures Inv(trace[n], logs)
  {
    hide Do, Enabled, AllUnambiguous, HoursStayApart, WorkOk, Agrees, Touches;
    if n == 0 {
      RestingIsOk(trace[0], logs);
    } else {
      PartitionsKeepAgreement(trace, steps, logs, n - 1);
      var s, step := trace[n - 1], steps[n - 1];
      NodesFit(s, step, logs);
      forall k ensures HourOk(trace[n], logs, k) {
        assert HourOk(s, logs, k);
        AllWorkStaysOk(s, step, logs, k);
        if !Dirty(trace[n], logs, k) {
          CleanHoursStayAgreeing(s, step, logs, k);
        }
      }
    }
  }

  lemma RestingIsOk(s: Sys, logs: Logs)
    requires |s.nodes| == |logs| && Agreement(s.store)
    requires forall p :: 0 <= p < |logs| ==> s.nodes[p] == Node(0, 0, Resting)
    ensures Inv(s, logs)
  {
    hide Agrees, Touches, Valid, Groups;
  }

  /** Everything that was handled is committed. */
  predicate Settled(s: Sys) { forall p :: 0 <= p < |s.nodes| ==> s.nodes[p].committed == s.nodes[p].seen }

  /** ... and once everything that was handled is committed, every hour agrees. */
  lemma PartitionsSettle(trace: seq<Sys>, steps: seq<Step>, logs: Logs, n: nat)
    requires IsRun(trace, steps, logs) && HoursStayApart(logs) && n <= |steps| && Agreement(trace[0].store)
    requires AllUnambiguous(logs) && Settled(trace[n])
    ensures Agreement(trace[n].store)
  {
    PartitionsKeepAgreement(trace, steps, logs, n);
    hide IsRun, AllUnambiguous, HoursStayApart, WorkOk, Agrees, Fits;
    forall k ensures Agrees(trace[n].store, k) {
      assert HourOk(trace[n], logs, k);
      assert !Dirty(trace[n], logs, k);
    }
  }

  // ---------- the rows, key by key ----------

  function LastRow(items: seq<Candle>): Candle
    requires items != []
  {
    Row(items[|items| - 1])
  }

  /** What the consumer has upserted of its batch. */
  function Upserted(w: Work): seq<Candle> {
    if !w.Working? || w.done > |w.groups| then []
    else Flatten(w.groups[..w.done]) + if AtGroup(w) && !w.stage.AtUpsert? then w.groups[w.done] else []
  }

  /** A row of this log's is the last one upserted of the batch at hand, and without a handled, uncommitted message
      it is the one of a single pass over what is committed. */
  ghost predicate RowOk(raw: map<RawKey, Candle>, n: Node, log: seq<Message>, start: map<RawKey, Candle>, r: RawKey) {
    TouchesRow(log, 0, |log|, r) ==>
      && (OfRaw(Upserted(n.work), r) != [] ==> At(raw, r) == Some(LastRow(OfRaw(Upserted(n.work), r))))
      && (n.committed <= |log| && !TouchesRow(log, n.committed, n.seen, r) ==>
            At(raw, r) == At(UpsertAll(start, Valid(log[..n.committed])), r))
  }

  lemma GroupItemIsUncommitted(n: Node, log: seq<Message>, i: nat, r: RawKey)
    requires NodeFits(n, log) && n.work.Working? && i < |n.work.groups| && OfRaw(n.work.groups[i], r) != []
    ensures TouchesRow(log, n.committed, n.work.to, r)
  {
    hide Groups, Valid, OfRaw, Raw;
    var items := Valid(log[n.committed..n.work.to]);
    OfRawOccurs(n.work.groups[i], r);
    var c :| c in n.work.groups[i] && Raw(c) == r;
    GroupsAre(items);
    assert c in items;
    BatchItems(log, n.committed, n.work.to);
    var j :| n.committed <= j < n.work.to && log[j] == Some(c);
    assert log[j].Some? && Raw(log[j].value) == r;
  }

  lemma RowTouchedSomewhere(log: seq<Message>, from: nat, to: nat, more: nat, r: RawKey)
    requires to <= more <= |log|
    ensures TouchesRow(log, from, to, r) ==> TouchesRow(log, from, more, r) && TouchesRow(log, 0, |log|, r)
  {
  }

  /** An action leaves every row alone that no handled, uncommitted message is about. */
  lemma OtherRowsStay(store: Store, n: Node, a: Action, log: seq<Message>, r: RawKey)
    requires NodeFits(n, log) && Can(n, a, log) && !TouchesRow(log, n.committed, n.seen, r)
    ensures At(Stored(store, n.work, a).raw, r) == At(store.raw, r)
  {
    hide UpsertAll, OfRaw, Groups, Valid, TouchesRow;
    if a.UpsertRaw? {
      var g := n.work.groups[n.work.done];
      UpsertAllAt(store.raw, g, r);
      if OfRaw(g, r) != [] {
        GroupItemIsUncommitted(n, log, n.work.done, r);
        RowTouchedSomewhere(log, n.committed, n.work.to, n.seen, r);
      }
    }
  }

  lemma UpsertedGrows(groups: seq<seq<Candle>>, done: nat)
    requires done < |groups|
    ensures Flatten(groups[..done + 1]) == Flatten(groups[..done]) + groups[done]
  {
    assert groups[..done + 1][..done] == groups[..done];
  }

  /** The first half of RowOk, for the consumer that acts. */
  lemma UpsertedIsStored(store: Store, n: Node, a: Action, log: seq<Message>, r: RawKey)
    requires Can(n, a, log)
    requires OfRaw(Upserted(n.work), r) != [] ==> At(store.raw, r) == Some(LastRow(OfRaw(Upserted(n.work), r)))
    ensures
      var items := OfRaw(Upserted(Moved(store, n, a, log).work), r);
      items != [] ==> At(Stored(store, n.work, a).raw, r) == Some(LastRow(items))
  {
    hide UpsertAll, OfRaw, Groups, Valid, Row, RolledUp, Hour;
    OfNothing(r);
    var w := n.work;
    match a {
      case UpsertRaw =>
        hide Flatten;
        UpsertAllAt(store.raw, w.groups[w.done], r);
        OfRawAppend(Flatten(w.groups[..w.done]), w.groups[w.done], r);
        assert Upserted(w) == Flatten(w.groups[..w.done]);
      case UpsertHour =>
        UpsertedGrows(w.groups, w.done);
        hide Flatten;
        assert Upserted(Moved(store, n, a, log).work) == Upserted(w);
      case _ =>
    }
  }

  lemma OfNothing(r: RawKey)
    ensures OfRaw([], r) == [] && OfRaw(Flatten([]), r) == []
  {
  }

  /** At the commit of a batch its rows are those of a pass that ends with it. */
  lemma CommittedRow(store: Store, n: Node, log: seq<Message>, start: map<RawKey, Candle>, r: RawKey)
    requires NodeFits(n, log) && Can(n, Commit, log) && OneInterval(Valid(log)) && RowOk(store.raw, n, log, start, r)
    requires TouchesRow(log, 0, |log|, r) && !TouchesRow(log, n.work.to, n.seen, r)
    ensures At(store.raw, r) == At(UpsertAll(start, Valid(log[..n.work.to])), r)
  {
    hide UpsertAll, OfRaw, Groups, Valid, OneInterval, Flatten, Row, TouchesRow;
    var w, items := n.work, Valid(log[n.committed..n.work.to]);
    BatchOneInterval(log, n.committed, w.to);
    GroupingKeepsRowOrder(items, r);
    assert w.groups[..|w.groups|] == w.groups;
    assert Upserted(w) == Flatten(w.groups);
    UpsertAllAt(store.raw, items, r);
    RowTouchedSplits(log, n.committed, w.to, n.seen, r);
    BatchRow(start, store.raw, log, n.committed, w.to, r);
  }

  lemma RowTouchedSplits(log: seq<Message>, a: nat, b: nat, c: nat, r: RawKey)
    requires a <= b <= c <= |log|
    ensures TouchesRow(log, a, c, r) ==> TouchesRow(log, a, b, r) || TouchesRow(log, b, c, r)
  {
  }

  /** The second half of RowOk, for the consumer that acts. */
  lemma CleanRowIsOnePass(store: Store, n: Node, a: Action, log: seq<Message>, start: map<RawKey, Candle>, r: RawKey)
    requires NodeFits(n, log) && Can(n, a, log) && OneInterval(Valid(log)) && RowOk(store.raw, n, log, start, r)
    requires
      var m := Moved(store, n, a, log);
      TouchesRow(log, 0, |log|, r) && m.committed <= |log| && !TouchesRow(log, m.committed, m.seen, r)
    ensures At(Stored(store, n.work, a).raw, r) == At(UpsertAll(start, Valid(log[..Moved(store, n, a, log).committed])), r)
  {
    hide UpsertAll, OfRaw, Groups, Valid, OneInterval, Flatten, Row, TouchesRow, Upserted, RolledUp;
    if a.Commit? {
      CommittedRow(store, n, log, start, r);
    } else {
      RowTouchedSomewhere(log, n.committed, n.seen, Moved(store, n, a, log).seen, r);
      OtherRowsStay(store, n, a, log, r);
    }
  }

  lemma OwnRowStaysOk(store: Store, n: Node, a: Action, log: seq<Message>, start: map<RawKey, Candle>, r: RawKey)
    requires NodeFits(n, log) && Can(n, a, log) && OneInterval(Valid(log)) && RowOk(store.raw, n, log, start, r)
    ensures RowOk(Stored(store, n.work, a).raw, Moved(store, n, a, log), log, start, r)
  {
    hide UpsertAll, OfRaw, Groups, Valid, OneInterval, Row, TouchesRow, Upserted, Stored, Moved, NodeFits, Can;
    if TouchesRow(log, 0, |log|, r) {
      UpsertedIsStored(store, n, a, log, r);
      var m := Moved(store, n, a, log);
      if m.committed <= |log| && !TouchesRow(log, m.committed, m.seen, r) {
        CleanRowIsOnePass(store, n, a, log, start, r);
      }
    }
  }

  lemma RowsStayApart(logs: Logs, p: nat, q: nat, r: RawKey)
    requires HoursStayApart(logs) && p < |logs| && q < |logs| && p != q && TouchesRow(logs[p], 0, |logs[p]|, r)
    ensures !TouchesRow(logs[q], 0, |logs[q]|, r)
  {
    hide Touches, TouchesRow, Trunc;
    RowTouchesHour(logs[p], r);
    RowTouchesHour(logs[q], r);
  }

  lemma RowTouchesHour(log: seq<Message>, r: RawKey)
    ensures TouchesRow(log, 0, |log|, r) ==> Touches(log, 0, |log|, HourKey(r.pair, Trunc(r.ts, HOUR)))
  {
    hide Trunc;
  }

  ghost predicate InNoLog(logs: Logs, r: RawKey) { forall p :: 0 <= p < |logs| ==> !TouchesRow(logs[p], 0, |logs[p]|, r) }

  ghost predicate RowEverywhereOk(s: Sys, logs: Logs, start: map<RawKey, Candle>, r: RawKey) {
    && |s.nodes| == |logs|
    && (forall p :: 0 <= p < |logs| ==> RowOk(s.store.raw, s.nodes[p], logs[p], start, r))
    && (InNoLog(logs, r) ==> At(s.store.raw, r) == At(start, r))
  }

  ghost predicate AllOneInterval(logs: Logs) { forall p :: 0 <= p < |logs| ==> OneInterval(Valid(logs[p])) }

  lemma RowStaysOk(s: Sys, step: Step, logs: Logs, start: map<RawKey, Candle>, r: RawKey)
    requires Fits(s, logs) && Enabled(s, step, logs) && HoursStayApart(logs) && AllOneInterval(logs)
    requires RowEverywhereOk(s, logs, start, r)
    ensures RowEverywhereOk(Do(s, step, logs), logs, start, r)
  {
    hide RowOk, NodeFits, HoursStayApart, OneInterval, Valid, TouchesRow, Stored, Moved, Can, UpsertAll;
    var t, n, log := Do(s, step, logs), s.nodes[step.p], logs[step.p];
    assert NodeFits(n, log) && RowOk(s.store.raw, n, log, start, r) && OneInterval(Valid(log));
    OwnRowStaysOk(s.store, n, step.action, log, start, r);
    if !TouchesRow(log, 0, |log|, r) {
      UnownedRowStays(s.store, n, step.action, log, r);
      forall p | 0 <= p < |logs| ensures RowOk(t.store.raw, t.nodes[p], logs[p], start, r) {
        if p != step.p {
          assert t.nodes[p] == s.nodes[p] && RowOk(s.store.raw, s.nodes[p], logs[p], start, r);
          SameRowIsOk(s.store.raw, t.store.raw, s.nodes[p], logs[p], start, r);
        }
      }
    } else {
      forall p | 0 <= p < |logs| ensures RowOk(t.store.raw, t.nodes[p], logs[p], start, r) {
        if p != step.p {
          RowsStayApart(logs, step.p, p, r);
          UnownedIsOk(t.store.raw, t.nodes[p], logs[p], start, r);
        }
      }
    }
  }

  lemma UnownedRowStays(store: Store, n: Node, a: Action, log: seq<Message>, r: RawKey)
    requires NodeFits(n, log) && Can(n, a, log) && !TouchesRow(log, 0, |log|, r)
    ensures At(Stored(store, n.work, a).raw, r) == At(store.raw, r)
  {
    hide Stored, Can, Groups, Valid, TouchesRow;
    RowTouchedSomewhere(log, n.committed, n.seen, n.seen, r);
    OtherRowsStay(store, n, a, log, r);
  }

  lemma SameRowIsOk(x: map<RawKey, Candle>, y: map<RawKey, Candle>, n: Node, log: seq<Message>, start: map<RawKey, Candle>, r: RawKey)
    requires At(x, r) == At(y, r) && RowOk(x, n, log, start, r)
    ensures RowOk(y, n, log, start, r)
  {
    hide At, UpsertAll, OfRaw, Valid, TouchesRow, Upserted;
  }

  lemma UnownedIsOk(raw: map<RawKey, Candle>, n: Node, log: seq<Message>, start: map<RawKey, Candle>, r: RawKey)
    requires !TouchesRow(log, 0, |log|, r)
    ensures RowOk(raw, n, log, start, r)
  {
    hide TouchesRow, UpsertAll, OfRaw, Valid, Upserted;
  }

  lemma {:induction false} RowsAreOnePass(trace: seq<Sys>, steps: seq<Step>, logs: Logs, n: nat, r: RawKey)
    requires IsRun(trace, steps, logs) && HoursStayApart(logs) && n <= |steps|
    requires AllUnambiguous(logs) && AllOneInterval(logs)
    ensures Fits(trace[n], logs) && RowEverywhereOk(trace[n], logs, trace[0].store.raw, r)
  {
    hide Do, Enabled, AllUnambiguous, AllOneInterval, HoursStayApart, RowEverywhereOk, Fits;
    if n == 0 {
      NothingHandled(trace[0], logs, r);
    } else {
      RowsAreOnePass(trace, steps, logs, n - 1, r);
      NodesFit(trace[n - 1], steps[n - 1], logs);
      RowStaysOk(trace[n - 1], steps[n - 1], logs, trace[0].store.raw, r);
    }
  }

  lemma NothingHandled(s: Sys, logs: Logs, r: RawKey)
    requires |s.nodes| == |logs| && forall p :: 0 <= p < |logs| ==> s.nodes[p] == Node(0, 0, Resting)
    ensures Fits(s, logs) && RowEverywhereOk(s, logs, s.store.raw, r)
  {
    hide TouchesRow, Groups;
    forall p | 0 <= p < |logs| ensures RowOk(s.store.raw, s.nodes[p], logs[p], s.store.raw, r) {
      assert logs[p][..0] == [];
    }
  }

  /** Everything in the logs is handled and committed. */
  predicate Finished(s: Sys, logs: Logs) {
    |s.nodes| == |logs| && forall p :: 0 <= p < |logs| ==> s.nodes[p].committed == s.nodes[p].seen == |logs[p]|
  }

  /** The row that a single pass over the one log that holds messages of a key leaves at that key. */
  ghost predicate OnePassRow(row: Option<Candle>, logs: Logs, start: map<RawKey, Candle>, r: RawKey) {
    && (InNoLog(logs, r) ==> row == At(start, r))
    && forall p :: 0 <= p < |logs| && TouchesRow(logs[p], 0, |logs[p]|, r) ==> row == At(UpsertAll(start, Valid(logs[p])), r)
  }

  /** Over every interleaving: once the logs are finished each row is the last message of its key in its log. */
  lemma PartitionsAreOnePass(trace: seq<Sys>, steps: seq<Step>, logs: Logs, n: nat, r: RawKey)
    requires IsRun(trace, steps, logs) && HoursStayApart(logs) && n <= |steps|
    requires AllUnambiguous(logs) && AllOneInterval(logs) && Finished(trace[n], logs)
    ensures OnePassRow(At(trace[n].store.raw, r), logs, trace[0].store.raw, r)
  {
    RowsAreOnePass(trace, steps, logs, n, r);
    hide IsRun, HoursStayApart, AllUnambiguous, AllOneInterval, UpsertAll, Valid, OfRaw, Upserted;
    var s, start := trace[n], trace[0].store.raw;
    forall p | 0 <= p < |logs| && TouchesRow(logs[p], 0, |logs[p]|, r)
      ensures At(s.store.raw, r) == At(UpsertAll(start, Valid(logs[p])), r)
    {
      assert RowOk(s.store.raw, s.nodes[p], logs[p], start, r);
      assert s.nodes[p].committed == s.nodes[p].seen == |logs[p]|;
      assert logs[p][..|logs[p]|] == logs[p];
    }
  }

  /** Partitions, interleaving, batching and crashes are invisible: two finished runs over the same logs end with the
      same rows, and with the same bar for every hour that has rows. */
  lemma PartitionsConverge(x: seq<Sys>, xs: seq<Step>, y: seq<Sys>, ys: seq<Step>, logs: Logs, k: HourKey)
    requires IsRun(x, xs, logs) && IsRun(y, ys, logs) && x[0].store == y[0].store && Agreement(x[0].store)
    requires HoursStayApart(logs) && AllUnambiguous(logs) && AllOneInterval(logs)
    requires Finished(x[|xs|], logs) && Finished(y[|ys|], logs)
    ensures x[|xs|].store.raw == y[|ys|].store.raw
    ensures Rows(x[|xs|].store.raw, k) != {} ==> BarAt(x[|xs|].store, k) == BarAt(y[|ys|].store, k)
  {
    PartitionsSettle(x, xs, logs, |xs|);
    PartitionsSettle(y, ys, logs, |ys|);
    hide HoursStayApart, AllUnambiguous, AllOneInterval, Do, Enabled, BarOf, Rows, At, OnePassRow, Finished;
    forall r ensures At(x[|xs|].store.raw, r) == At(y[|ys|].store.raw, r) {
      PartitionsAreOnePass(x, xs, logs, |xs|, r);
      PartitionsAreOnePass(y, ys, logs, |ys|, r);
      OnePassIsUnique(At(x[|xs|].store.raw, r), At(y[|ys|].store.raw, r), logs, x[0].store.raw, r);
    }
    SameEntries(x[|xs|].store.raw, y[|ys|].store.raw);
    assert Agrees(x[|xs|].store, k) && Agrees(y[|ys|].store, k);
  }

  lemma OnePassIsUnique(x: Option<Candle>, y: Option<Candle>, logs: Logs, start: map<RawKey, Candle>, r: RawKey)
    requires OnePassRow(x, logs, start, r) && OnePassRow(y, logs, start, r)
    ensures x == y
  {
    hide TouchesRow, UpsertAll, Valid;
    if !InNoLog(logs, r) {
      var p :| 0 <= p < |logs| && TouchesRow(logs[p], 0, |logs[p]|, r);
      assert x == At(UpsertAll(start, Valid(logs[p])), r) == y;
    }
  }

  lemma SentKey(log: seq<Message>, r: RawKey)
    ensures OfRaw(Valid(log), r) != [] ==> TouchesRow(log, 0, |log|, r)
  {
    hide OfRaw, Valid;
    assert log[..|log|] == log;
    if OfRaw(Valid(log), r) != [] {
      var i := LastWasSent(log, |log|, r);
      assert log[i].Some? && Raw(log[i].value) == r;
    }
  }

  lemma UnsentKey(log: seq<Message>, r: RawKey)
    requires !TouchesRow(log, 0, |log|, r)
    ensures At(UpsertAll(map[], Valid(log)), r) == None
  {
    hide UpsertAll, OfRaw, Valid, TouchesRow;
    UpsertAllAt(map[], Valid(log), r);
    SentKey(log, r);
  }

  /** In an hour that a log is about, the rows are those of a pass over that log. */
  lemma OnlyItsLogWrites(s: Sys, logs: Logs, p: nat, k: HourKey, r: RawKey)
    requires HoursStayApart(logs) && p < |logs| && Touches(logs[p], 0, |logs[p]|, k)
    requires r.pair == k.pair && Trunc(r.ts, HOUR) == k.hour && OnePassRow(At(s.store.raw, r), logs, map[], r)
    ensures At(s.store.raw, r) == At(UpsertAll(map[], Valid(logs[p])), r)
  {
    hide Touches, TouchesRow, UpsertAll, Valid, Trunc;
    if !TouchesRow(logs[p], 0, |logs[p]|, r) {
      forall q | 0 <= q < |logs| ensures !TouchesRow(logs[q], 0, |logs[q]|, r) {
        RowTouchesHour(logs[q], r);
      }
      UnsentKey(logs[p], r);
    }
  }

  lemma SentTouches(log: seq<Message>, k: HourKey)
    requires k.hour % 3600 == 0 && Sent(log, |log|, k) != {}
    ensures Touches(log, 0, |log|, k)
  {
    var c :| c in Sent(log, |log|, k);
    var i :| 0 <= i < |log| && log[i].Some? && log[i].value.pair == k.pair && k.hour <= log[i].value.ts < k.hour + 3600;
    InHour(log[i].value.ts, k.hour);
    hide Trunc;
    assert Hour(log[i].value) == k;
  }

  lemma SameRows(x: map<RawKey, Candle>, y: map<RawKey, Candle>, k: HourKey)
    requires forall r: RawKey :: r.pair == k.pair && Trunc(r.ts, HOUR) == k.hour ==> At(x, r) == At(y, r)
    ensures Rows(x, k) == Rows(y, k)
  {
    hide Trunc;
    forall c | c in Rows(x, k) ensures c in Rows(y, k) {
      var r :| r in x && r.pair == k.pair && Trunc(r.ts, HOUR) == k.hour && x[r] == c;
      assert At(x, r) == At(y, r);
      assert y[r] in Rows(y, k);
    }
    forall c | c in Rows(y, k) ensures c in Rows(x, k) {
      var r :| r in y && r.pair == k.pair && Trunc(r.ts, HOUR) == k.hour && y[r] == c;
      assert At(x, r) == At(y, r);
      assert x[r] in Rows(x, k);
    }
  }

  /** Over every interleaving from empty tables: once the logs are finished, the bar of an hour summarizes exactly
      the latest messages sent to it, price by price. */
  lemma PartitionsHoldTheirMessages(trace: seq<Sys>, steps: seq<Step>, logs: Logs, p: nat, k: HourKey)
    requires IsRun(trace, steps, logs) && trace[0].store == Store(map[], map[]) && p < |logs| && k.hour % 3600 == 0
    requires HoursStayApart(logs) && AllUnambiguous(logs) && AllOneInterval(logs) && Finished(trace[|steps|], logs)
    ensures
      var sent := Sent(logs[p], |logs[p]|, k);
      sent != {} ==>
        && k in trace[|steps|].store.bars
        && var b := trace[|steps|].store.bars[k];
           Summarizes(b.open, b.high, b.low, b.close, b.volume, sent)
  {
    var s, sent := trace[|steps|], Sent(logs[p], |logs[p]|, k);
    EmptyStoreAgrees();
    PartitionsSettle(trace, steps, logs, |steps|);
    hide IsRun, HoursStayApart, AllUnambiguous, AllOneInterval, Finished, OnePassRow, Sent, Rows, BarOf, Summarizes,
         UpsertAll, Valid, Touches, At;
    if sent != {} {
      SentTouches(logs[p], k);
      forall r: RawKey | r.pair == k.pair && Trunc(r.ts, HOUR) == k.hour
        ensures At(s.store.raw, r) == At(UpsertAll(map[], Valid(logs[p])), r)
      {
        PartitionsAreOnePass(trace, steps, logs, |steps|, r);
        OnlyItsLogWrites(s, logs, p, k, r);
      }
      SameRows(s.store.raw, UpsertAll(map[], Valid(logs[p])), k);
      RowsAreSent(logs[p], |logs[p]|, k);
      assert logs[p][..|logs[p]|] == logs[p];
      assert Agrees(s.store, k);
      BarSummarizes(s.store.bars[k], sent);
    }
  }

  // ---------- an hour split over two partitions ----------

  ghost predicate Reached(s: Sys, logs: Logs) {
    exists trace: seq<Sys>, steps: seq<Step> :: IsRun(trace, steps, logs) && trace[0].store == Store(map[], map[]) && trace[|steps|] == s
  }

  lemma StartIsReached(s: Sys, logs: Logs)
    requires IsRun([s], [], logs) && s.store == Store(map[], map[])
    ensures Reached(s, logs)
  {
    var none: seq<Step> := [];
    assert [s][|none|] == s;
  }

  lemma ReachStep(s: Sys, step: Step, logs: Logs)
    requires Reached(s, logs) && Enabled(s, step, logs)
    ensures Reached(Do(s, step, logs), logs)
  {
    hide Do, Enabled;
    var trace: seq<Sys>, steps: seq<Step> :| IsRun(trace, steps, logs) && trace[0].store == Store(map[], map[]) && trace[|steps|] == s;
    var longer, more := trace + [Do(s, step, logs)], steps + [step];
    assert IsRun(longer, more, logs);
    assert longer[|more|] == Do(s, step, logs);
  }

  /** Of n partitions only p and q matter. */
  datatype Two = Two(n: nat, p: nat, q: nat)

  predicate Apart(w: Two) { w.p < w.n && w.q < w.n && w.p != w.q }

  function Flip(w: Two): Two { Two(w.n, w.q, w.p) }

  /** One message in each of the two partitions. */
  function TwoLogs(w: Two, c: Candle, d: Candle): Logs {
    seq(w.n, i => if i == w.p then [Some(c)] else if i == w.q then [Some(d)] else [])
  }

  function Both(w: Two, x: Node, y: Node): seq<Node> {
    seq(w.n, i => if i == w.p then x else if i == w.q then y else Node(0, 0, Resting))
  }

  lemma FlipsAgree(w: Two, x: Node, y: Node, c: Candle, d: Candle)
    requires Apart(w)
    ensures Both(w, x, y) == Both(Flip(w), y, x) && TwoLogs(w, c, d) == TwoLogs(Flip(w), d, c)
  {
  }

  /** An action of the first of the two consumers. */
  lemma FirstActs(w: Two, store: Store, x: Node, y: Node, a: Action, c: Candle, d: Candle)
    requires Apart(w) && Reached(Sys(store, Both(w, x, y)), TwoLogs(w, c, d)) && Can(x, a, [Some(c)])
    ensures Reached(Sys(Stored(store, x.work, a), Both(w, Moved(store, x, a, [Some(c)]), y)), TwoLogs(w, c, d))
  {
    hide Reached, Stored, Moved, Can;
    var s, logs := Sys(store, Both(w, x, y)), TwoLogs(w, c, d);
    assert s.nodes[w.p] == x && logs[w.p] == [Some(c)];
    ReachStep(s, Step(w.p, a), logs);
    assert s.nodes[w.p := Moved(store, x, a, [Some(c)])] == Both(w, Moved(store, x, a, [Some(c)]), y);
  }

  lemma SecondActs(w: Two, store: Store, x: Node, y: Node, a: Action, c: Candle, d: Candle)
    requires Apart(w) && Reached(Sys(store, Both(w, x, y)), TwoLogs(w, c, d)) && Can(y, a, [Some(d)])
    ensures Reached(Sys(Stored(store, y.work, a), Both(w, x, Moved(store, y, a, [Some(d)]))), TwoLogs(w, c, d))
  {
    hide Reached, Stored, Moved, Can, Both, TwoLogs;
    FlipsAgree(w, x, y, c, d);
    FirstActs(Flip(w), store, y, x, a, d, c);
    FlipsAgree(w, x, Moved(store, y, a, [Some(d)]), c, d);
  }

  /** A consumer with its only message at hand. */
  function HandlingOne(c: Candle, done: nat, stage: Stage): Node { Node(0, 1, Working(1, [[c]], done, stage)) }

  lemma FetchOne(c: Candle, store: Store)
    ensures Moved(store, Node(0, 0, Resting), Fetch(1), [Some(c)]) == HandlingOne(c, 0, AtUpsert)
    ensures Stored(store, Resting, Fetch(1)) == store
  {
    var log: seq<Message> := [Some(c)];
    OneMessageBatch(c);
    hide Groups, Valid;
    assert log[0..1] == log;
  }

  lemma OneMessageBatch(c: Candle)
    ensures Groups(Valid([Some(c)])) == [[c]]
  {
    var log: seq<Message> := [Some(c)];
    assert log[..0] == [] && [c][..0] == [];
    assert Valid(log) == [c];
    assert Order([c]) == [GroupKeyOf(c)] && Members([c], GroupKeyOf(c)) == [c];
  }

  lemma UpsertOne(c: Candle, store: Store)
    ensures
      var n := HandlingOne(c, 0, AtUpsert);
      && Can(n, UpsertRaw, [Some(c)])
      && Stored(store, n.work, UpsertRaw) == store.(raw := UpsertAll(store.raw, [c]))
      && Moved(store, n, UpsertRaw, [Some(c)]) == HandlingOne(c, 0, AtRead)
  {
    hide UpsertAll;
  }

  lemma ReadOne(c: Candle, store: Store)
    ensures
      var n := HandlingOne(c, 0, AtRead);
      && Can(n, ReadRows, [Some(c)])
      && Stored(store, n.work, ReadRows) == store
      && Moved(store, n, ReadRows, [Some(c)]) == HandlingOne(c, 0, AtWrite(RolledUp(store.raw, Hour(c))))
  {
    hide RolledUp, Hour;
  }

  lemma WriteOne(c: Candle, store: Store, bar: Bar)
    ensures
      var n := HandlingOne(c, 0, AtWrite(Some(bar)));
      && Can(n, UpsertHour, [Some(c)])
      && Stored(store, n.work, UpsertHour) == store.(bars := store.bars[Hour(c) := bar])
      && Moved(store, n, UpsertHour, [Some(c)]) == HandlingOne(c, 1, AtUpsert)
  {
    hide Hour;
  }

  lemma CommitOne(c: Candle, store: Store)
    ensures
      var n := HandlingOne(c, 1, AtUpsert);
      && Can(n, Commit, [Some(c)])
      && Stored(store, n.work, Commit) == store
      && Moved(store, n, Commit, [Some(c)]) == Node(1, 1, Resting)
  {
  }

  lemma BothFetch(w: Two, c: Candle, d: Candle)
    requires Apart(w)
    ensures Reached(Sys(Store(map[], map[]), Both(w, HandlingOne(c, 0, AtUpsert), HandlingOne(d, 0, AtUpsert))), TwoLogs(w, c, d))
  {
    var idle, store, logs := Node(0, 0, Resting), Store(map[], map[]), TwoLogs(w, c, d);
    assert IsRun([Sys(store, Both(w, idle, idle))], [], logs);
    hide IsRun, Reached, Stored, Moved, Both, TwoLogs;
    StartIsReached(Sys(store, Both(w, idle, idle)), logs);
    FetchOne(c, store);
    FetchOne(d, store);
    FirstActs(w, store, idle, idle, Fetch(1), c, d);
    SecondActs(w, store, HandlingOne(c, 0, AtUpsert), idle, Fetch(1), c, d);
  }

  /** The second consumer upserts and reads between the first one's read and its write. */
  lemma BothRead(w: Two, c: Candle, d: Candle, raw: map<RawKey, Candle>, both: map<RawKey, Candle>)
    requires Apart(w) && raw == UpsertAll(map[], [c]) && both == UpsertAll(raw, [d])
    ensures Reached(Sys(Store(both, map[]), Both(w, HandlingOne(c, 0, AtWrite(RolledUp(raw, Hour(c)))),
                                                 HandlingOne(d, 0, AtWrite(RolledUp(both, Hour(d)))))), TwoLogs(w, c, d))
  {
    hide Reached, Stored, Moved, Can, Both, TwoLogs, UpsertAll, RolledUp, Hour, HandlingOne;
    BothFetch(w, c, d);
    var x, y := HandlingOne(c, 0, AtUpsert), HandlingOne(d, 0, AtUpsert);
    UpsertOne(c, Store(map[], map[]));
    FirstActs(w, Store(map[], map[]), x, y, UpsertRaw, c, d);
    ReadOne(c, Store(raw, map[]));
    FirstActs(w, Store(raw, map[]), HandlingOne(c, 0, AtRead), y, ReadRows, c, d);
    x := HandlingOne(c, 0, AtWrite(RolledUp(raw, Hour(c))));
    UpsertOne(d, Store(raw, map[]));
    SecondActs(w, Store(raw, map[]), x, y, UpsertRaw, c, d);
    ReadOne(d, Store(both, map[]));
    SecondActs(w, Store(both, map[]), x, HandlingOne(d, 0, AtRead), ReadRows, c, d);
  }

  /** Then the second writes, the first overwrites it, and both commit. */
  lemma BothWrite(w: Two, c: Candle, d: Candle, both: map<RawKey, Candle>, stale: Bar, latest: Bar)
    requires Apart(w) && Hour(c) == Hour(d)
    requires Reached(Sys(Store(both, map[]), Both(w, HandlingOne(c, 0, AtWrite(Some(stale))),
                                                  HandlingOne(d, 0, AtWrite(Some(latest))))), TwoLogs(w, c, d))
    ensures Reached(Sys(Store(both, map[Hour(c) := stale]), Both(w, Node(1, 1, Resting), Node(1, 1, Resting))), TwoLogs(w, c, d))
  {
    hide Reached, Stored, Moved, Can, Both, TwoLogs, Hour, HandlingOne;
    var x, k := HandlingOne(c, 0, AtWrite(Some(stale))), Hour(c);
    WriteOne(d, Store(both, map[]), latest);
    SecondActs(w, Store(both, map[]), x, HandlingOne(d, 0, AtWrite(Some(latest))), UpsertHour, c, d);
    WriteOne(c, Store(both, map[k := latest]), stale);
    FirstActs(w, Store(both, map[k := latest]), x, HandlingOne(d, 1, AtUpsert), UpsertHour, c, d);
    assert map[k := latest][k := stale] == map[k := stale];
    var after := Store(both, map[k := stale]);
    CommitOne(c, after);
    FirstActs(w, after, HandlingOne(c, 1, AtUpsert), HandlingOne(d, 1, AtUpsert), Commit, c, d);
    CommitOne(d, after);
    SecondActs(w, after, Node(1, 1, Resting), HandlingOne(d, 1, AtUpsert), Commit, c, d);
  }

  lemma UpsertsOne(raw: map<RawKey, Candle>, c: Candle)
    ensures UpsertAll(raw, [c]) == raw[Raw(c) := Row(c)]
  {
    assert [c][..0] == [];
    assert UpsertAll(raw, []) == raw;
  }

  lemma RowsOfOne(c: Candle)
    ensures Rows(UpsertAll(map[], [c]), Hour(c)) == {Row(c)}
  {
    UpsertsOne(map[], c);
    hide Trunc, UpsertAll;
    var raw := UpsertAll(map[], [c]);
    assert raw == map[Raw(c) := Row(c)];
    assert raw[Raw(c)] in Rows(raw, Hour(c));
  }

  lemma RowsOfTwo(c: Candle, d: Candle)
    requires Hour(c) == Hour(d) && Raw(c) != Raw(d)
    ensures Rows(UpsertAll(UpsertAll(map[], [c]), [d]), Hour(c)) == {Row(c), Row(d)}
  {
    UpsertsOne(map[], c);
    UpsertsOne(UpsertAll(map[], [c]), d);
    hide Trunc, UpsertAll;
    var raw := UpsertAll(UpsertAll(map[], [c]), [d]);
    assert raw == map[Raw(c) := Row(c), Raw(d) := Row(d)];
    assert raw[Raw(c)] in Rows(raw, Hour(c)) && raw[Raw(d)] in Rows(raw, Hour(c));
  }

  lemma VolumeOfBar(rows: set<Candle>)
    requires rows != {}
    ensures BarOf(rows).volume == SetSum(rows, VolumeOf)
  {
    hide BarOf, SetSum, Earliest, Latest, AtTime, Mean, Greatest, Least;
    BarParts(rows);
  }

  /** One more row with a volume changes the bar's volume. */
  lemma VolumesDiffer(x: Candle, y: Candle)
    requires x != y && y.volume != 0.0
    ensures BarOf({x}) != BarOf({x, y})
  {
    VolumeOfBar({x});
    VolumeOfBar({x, y});
    hide BarOf, SetSum;
    SumInsert({x}, VolumeOf, y);
    assert {x} + {y} == {x, y};
  }

  lemma RowsTurnIntoBars(c: Candle, d: Candle, raw: map<RawKey, Candle>, both: map<RawKey, Candle>)
    requires Hour(c) == Hour(d) && Raw(c) != Raw(d) && d.volume != 0.0
    requires raw == UpsertAll(map[], [c]) && both == UpsertAll(raw, [d])
    ensures RolledUp(raw, Hour(c)).Some? && RolledUp(both, Hour(d)).Some?
    ensures RolledUp(raw, Hour(c)) != RolledUp(both, Hour(d))
  {
    RowsOfOne(c);
    RowsOfTwo(c, d);
    assert Raw(Row(c)) == Raw(c) && Raw(Row(d)) == Raw(d);
    VolumesDiffer(Row(c), Row(d));
    hide BarOf, Rows, UpsertAll, Hour, Row;
    assert Row(c) in {Row(c)};
  }

  lemma OutdatedBarDisagrees(both: map<RawKey, Candle>, k: HourKey, stale: Bar)
    requires RolledUp(both, k).Some? && RolledUp(both, k) != Some(stale)
    ensures !Agreement(Store(both, map[k := stale]))
  {
    hide BarOf, Rows;
    assert !Agrees(Store(both, map[k := stale]), k);
  }

  /** An hour split over two partitions: a run in which everything is committed and the hour disagrees for good. */
  lemma SplitHoursBreakAgreement(w: Two, c: Candle, d: Candle) returns (s: Sys)
    requires Apart(w) && Hour(c) == Hour(d) && Raw(c) != Raw(d) && d.volume != 0.0
    ensures Reached(s, TwoLogs(w, c, d)) && Settled(s) && !Agreement(s.store)
    ensures |s.nodes| == w.n && s.nodes[w.p].committed == s.nodes[w.q].committed == 1
  {
    hide Reached, UpsertAll, BarOf, Hour, Rows, RolledUp, TwoLogs, HandlingOne, Agreement;
    var raw := UpsertAll(map[], [c]);
    var both := UpsertAll(raw, [d]);
    RowsTurnIntoBars(c, d, raw, both);
    var stale, latest := RolledUp(raw, Hour(c)).value, RolledUp(both, Hour(d)).value;
    BothRead(w, c, d, raw, both);
    BothWrite(w, c, d, both, stale, latest);
    s := Sys(Store(both, map[Hour(c) := stale]), Both(w, Node(1, 1, Resting), Node(1, 1, Resting)));
    OutdatedBarDisagrees(both, Hour(c), stale);
  }

  // ---------- which ways of choosing partitions are safe ----------

  /** Every candle lies in the partition that is chosen for it. */
  ghost predicate Routed(logs: Logs, choose: Candle -> nat) {
    forall p, c :: 0 <= p < |logs| && Some(c) in logs[p] ==> choose(c) == p
  }

  ghost predicate AllPublished(logs: Logs) { forall p :: 0 <= p < |logs| ==> Published(logs[p]) }

  /** Candles of one pair and hour go to one partition. */
  ghost predicate KeepsHoursTogether(choose: Candle -> nat) {
    forall c: Candle, d: Candle :: c.interval == d.interval == PUBLISHED_INTERVAL && Hour(c) == Hour(d) ==> choose(c) == choose(d)
  }

  ghost predicate AlwaysSettles(choose: Candle -> nat, n: nat) {
    forall logs, s :: |logs| == n && AllPublished(logs) && Routed(logs, choose) && Reached(s, logs) && Settled(s) ==> Agreement(s.store)
  }

  lemma TogetherMeansApart(logs: Logs, choose: Candle -> nat)
    requires AllPublished(logs) && Routed(logs, choose) && KeepsHoursTogether(choose)
    ensures HoursStayApart(logs) && AllUnambiguous(logs)
  {
    hide Valid, Hour, Unambiguous;
    forall p | 0 <= p < |logs| ensures Unambiguous(Valid(logs[p])) {
      PublishedIsUnambiguous(logs[p]);
    }
    forall p, q, k | 0 <= p < |logs| && 0 <= q < |logs| && p != q
      ensures !(Touches(logs[p], 0, |logs[p]|, k) && Touches(logs[q], 0, |logs[q]|, k))
    {
      if Touches(logs[p], 0, |logs[p]|, k) && Touches(logs[q], 0, |logs[q]|, k) {
        var c := AnyTouching(logs[p], k);
        var d := AnyTouching(logs[q], k);
        assert false;
      }
    }
  }

  lemma AnyTouching(log: seq<Message>, k: HourKey) returns (c: Candle)
    requires Published(log) && Touches(log, 0, |log|, k)
    ensures Some(c) in log && Hour(c) == k && c.interval == PUBLISHED_INTERVAL
  {
    hide Valid, Hour;
    var i :| 0 <= i < |log| && log[i].Some? && Hour(log[i].value) == k;
    c := log[i].value;
    ValidAre(log);
  }

  lemma TogetherSettles(choose: Candle -> nat, n: nat)
    requires KeepsHoursTogether(choose)
    ensures AlwaysSettles(choose, n)
  {
    hide KeepsHoursTogether, AllPublished, Routed, Settled, Agreement, Reached;
    forall logs, s | |logs| == n && AllPublished(logs) && Routed(logs, choose) && Reached(s, logs) && Settled(s)
      ensures Agreement(s.store)
    {
      TogetherMeansApart(logs, choose);
      ReachedSettles(s, logs);
    }
  }

  lemma ReachedSettles(s: Sys, logs: Logs)
    requires Reached(s, logs) && HoursStayApart(logs) && AllUnambiguous(logs) && Settled(s)
    ensures Agreement(s.store)
  {
    hide HoursStayApart, AllUnambiguous, Settled, Agreement, Do, Enabled;
    var trace: seq<Sys>, steps: seq<Step> :| IsRun(trace, steps, logs) && trace[0].store == Store(map[], map[]) && trace[|steps|] == s;
    EmptyStoreAgrees();
    PartitionsSettle(trace, steps, logs, |steps|);
  }

  lemma EmptyStoreAgrees()
    ensures Agreement(Store(map[], map[]))
  {
  }

  /** Of two split candles one is apart from a third that has a row and a volume of its own. */
  lemma ThirdCandle(c: Candle, d: Candle) returns (e: Candle)
    ensures Hour(e) == Hour(c) && Raw(e) != Raw(c) && Raw(e) != Raw(d)
    ensures e.volume != 0.0 && e.interval == c.interval
  {
    var start := Trunc(c.ts, HOUR);
    var ts := if start != c.ts && start != d.ts then start else if start + 1 != c.ts && start + 1 != d.ts then start + 1 else start + 2;
    e := c.(ts := ts, volume := 1.0);
  }

  lemma SplitLogsArePublished(w: Two, c: Candle, e: Candle, choose: Candle -> nat)
    requires Apart(w) && choose(c) == w.p && choose(e) == w.q
    requires c.interval == e.interval == PUBLISHED_INTERVAL
    ensures AllPublished(TwoLogs(w, c, e)) && Routed(TwoLogs(w, c, e), choose)
  {
    OneIsPublished(c);
    OneIsPublished(e);
    hide Published;
    var none: seq<Message> := [];
    assert Published(none) by {
      NoneIsPublished();
    }
  }

  lemma OneIsPublished(c: Candle)
    requires c.interval == PUBLISHED_INTERVAL
    ensures Published([Some(c)])
  {
    var log: seq<Message> := [Some(c)];
    assert log[..0] == [];
    assert Valid(log) == [c];
  }

  lemma NoneIsPublished()
    ensures Published([])
  {
  }

  lemma SplitsDoNotSettle(choose: Candle -> nat, n: nat, c: Candle, d: Candle)
    requires forall x :: choose(x) < n
    requires c.interval == d.interval == PUBLISHED_INTERVAL && Hour(c) == Hour(d) && choose(c) != choose(d)
    ensures !AlwaysSettles(choose, n)
  {
    var e := ThirdCandle(c, d);
    var x := if choose(c) != choose(e) then c else d;
    var w := Two(n, choose(x), choose(e));
    assert w.p < n && w.q < n;
    SplitLogsArePublished(w, x, e, choose);
    var s := SplitHoursBreakAgreement(w, x, e);
    hide AllPublished, Routed, Reached, Settled, Agreement;
    assert |TwoLogs(w, x, e)| == n;
  }

  /** Choosing a partition by the candle settles on every run if and only if it keeps every hour together. */
  lemma RoutingSettlesExactlyWhen(choose: Candle -> nat, n: nat)
    requires forall c :: choose(c) < n
    ensures AlwaysSettles(choose, n) <==> KeepsHoursTogether(choose)
  {
    hide AlwaysSettles, Hour;
    if KeepsHoursTogether(choose) {
      TogetherSettles(choose, n);
    } else {
      var c: Candle, d: Candle :| c.interval == d.interval == PUBLISHED_INTERVAL && Hour(c) == Hour(d) && choose(c) != choose(d);
      SplitsDoNotSettle(choose, n, c, d);
    }
  }

  /** A hash of the message key, which is the pair, would do; the publisher names no balancer that takes it. */
  lemma HashingThePairSettles(choose: Candle -> nat, hash: string -> nat, n: nat)
    requires forall c :: choose(c) == hash(c.pair)
    ensures AlwaysSettles(choose, n)
  {
    hide AlwaysSettles, Trunc;
    TogetherSettles(choose, n);
  }
}
