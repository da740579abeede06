/** The market-event pipeline: the candle tables (storage/postgres/market_repository.go), the ingest
    service (ingest/realtime/service.go) and the Kafka consumer (messaging/kafka/market_events.go). */
module RealtimeIngest {
  import opened Common
  import opened Consolidate
  import opened TaskIds

  /** Conflict keys of raw_candles (rows of interval "1h") and of candles_1h. */
  datatype RawKey = RawKey(pair: string, ts: int, source: string)
  datatype HourKey = HourKey(pair: string, hour: int)

  /** The tables' content as far as it is determined: raw rows, and the OHLCV of the hourly rows. */
  datatype Store = Store(raw: map<RawKey, Candle>, bars: map<HourKey, Bar>)

  function Raw(c: Candle): RawKey { RawKey(c.pair, c.ts, c.source) }

  function Hour(c: Candle): HourKey { HourKey(c.pair, Trunc(c.ts, HOUR)) }

  function Row(c: Candle): Candle { c.(interval := "1h") }

  function UpsertAll(raw: map<RawKey, Candle>, items: seq<Candle>): map<RawKey, Candle> {
    if items == [] then raw
    else UpsertAll(raw, items[..|items| - 1])[Raw(items[|items| - 1]) := Row(items[|items| - 1])]
  }

  /** The raw rows of one pair and hour. */
  ghost function Rows(raw: map<RawKey, Candle>, k: HourKey): set<Candle> {
    set r | r in raw && r.pair == k.pair && Trunc(r.ts, HOUR) == k.hour :: raw[r]
  }

  function BarAt(s: Store, k: HourKey): Option<Bar> { if k in s.bars then Some(s.bars[k]) else None }

  /** The index property for one pair and hour. */
  ghost predicate Agrees(s: Store, k: HourKey) {
    Rows(s.raw, k) != {} ==> BarAt(s, k) == Some(BarOf(Rows(s.raw, k)))
  }

  ghost predicate Agreement(s: Store) { forall k :: Agrees(s, k) }

  /** Every row is stored under its own key. */
  ghost predicate Keyed(raw: map<RawKey, Candle>) { forall r :: r in raw ==> Raw(raw[r]) == r && raw[r].interval == "1h" }

  ghost function Rebuild(s: Store, k: HourKey): Store {
    if Rows(s.raw, k) == {} then s else s.(bars := s.bars[k := BarOf(Rows(s.raw, k))])
  }

  /** Upsert the raw samples, then rebuild the hour of the first one. */
  ghost function Ingest(s: Store, items: seq<Candle>): Store {
    if items == [] then s else Rebuild(s.(raw := UpsertAll(s.raw, items)), Hour(items[0]))
  }

  ghost predicate OneHour(items: seq<Candle>) { forall c :: c in items ==> Hour(c) == Hour(items[0]) }

  // ---------- upserts ----------

  function At(raw: map<RawKey, Candle>, r: RawKey): Option<Candle> { if r in raw then Some(raw[r]) else None }

  function OfRaw(items: seq<Candle>, r: RawKey): seq<Candle> {
    if items == [] then []
    else OfRaw(items[..|items| - 1], r) + if Raw(items[|items| - 1]) == r then [items[|items| - 1]] else []
  }

  /** The last upsert of a key decides its row. */
  lemma {:induction false} UpsertAllAt(raw: map<RawKey, Candle>, items: seq<Candle>, r: RawKey)
    ensures At(UpsertAll(raw, items), r)
            == if OfRaw(items, r) == [] then At(raw, r) else Some(Row(OfRaw(items, r)[|OfRaw(items, r)| - 1]))
  {
    if items != [] {
      UpsertAllAt(raw, items[..|items| - 1], r);
    }
  }

  /** No later sample has this one's pair, time and source. */
  predicate IsLatest(items: seq<Candle>, i: nat)
    requires i < |items|
  {
    forall j :: i < j < |items| ==>
      items[j].pair != items[i].pair || items[j].ts != items[i].ts || items[j].source != items[i].source
  }

  predicate Carries(row: Candle, c: Candle) {
    && row.pair == c.pair && row.ts == c.ts && row.source == c.source && row.finalized == c.finalized
    && row.open == c.open && row.high == c.high && row.low == c.low && row.close == c.close && row.volume == c.volume
  }

  /** after is before with the prices, volume and flag of each key's latest sample, and untouched elsewhere. */
  ghost predicate AreStored(before: map<RawKey, Candle>, items: seq<Candle>, after: map<RawKey, Candle>) {
    && (forall i :: 0 <= i < |items| && IsLatest(items, i) ==>
          var r := RawKey(items[i].pair, items[i].ts, items[i].source);
          r in after && Carries(after[r], items[i]) && after[r].interval == "1h")
    && (forall r: RawKey :: (forall c :: c in items ==> c.pair != r.pair || c.ts != r.ts || c.source != r.source) ==>
          At(after, r) == At(before, r))
  }

  lemma {:induction false} LastOfRaw(items: seq<Candle>, i: nat)
    requires i < |items| && IsLatest(items, i)
    ensures
      var of := OfRaw(items, RawKey(items[i].pair, items[i].ts, items[i].source));
      of != [] && of[|of| - 1] == items[i]
  {
    if i < |items| - 1 {
      var front := items[..|items| - 1];
      assert IsLatest(front, i);
      LastOfRaw(front, i);
    }
  }

  /** Upserting stores the samples, in their own fields. */
  lemma UpsertStores(before: map<RawKey, Candle>, items: seq<Candle>)
    ensures AreStored(before, items, UpsertAll(before, items))
  {
    hide UpsertAll, OfRaw;
    forall i | 0 <= i < |items| && IsLatest(items, i)
      ensures
        var r, after := RawKey(items[i].pair, items[i].ts, items[i].source), UpsertAll(before, items);
        r in after && Carries(after[r], items[i]) && after[r].interval == "1h"
    {
      LastOfRaw(items, i);
      UpsertAllAt(before, items, RawKey(items[i].pair, items[i].ts, items[i].source));
    }
    forall r: RawKey | forall c :: c in items ==> c.pair != r.pair || c.ts != r.ts || c.source != r.source
      ensures At(UpsertAll(before, items), r) == At(before, r)
    {
      OfRawOccurs(items, r);
      UpsertAllAt(before, items, r);
    }
  }

  lemma {:induction false} OfRawOccurs(items: seq<Candle>, r: RawKey)
    ensures OfRaw(items, r) != [] <==> exists c :: c in items && Raw(c) == r
    ensures forall c :: c in OfRaw(items, r) ==> c in items && Raw(c) == r
  {
    if items != [] {
      var front, last := items[..|items| - 1], items[|items| - 1];
      OfRawOccurs(front, r);
      assert items == front + [last];
      assert forall c :: c in items <==> c in front || c == last;
    }
  }

  lemma {:induction false} OfRawAppend(x: seq<Candle>, y: seq<Candle>, r: RawKey)
    ensures OfRaw(x + y, r) == OfRaw(x, r) + OfRaw(y, r)
  {
    if y == [] {
      assert x + y == x;
    } else {
      OfRawAppend(x, y[..|y| - 1], r);
      assert (x + y)[..|x + y| - 1] == x + y[..|y| - 1];
    }
  }

  lemma {:induction false} UpsertAppend(raw: map<RawKey, Candle>, x: seq<Candle>, y: seq<Candle>)
    ensures UpsertAll(raw, x + y) == UpsertAll(UpsertAll(raw, x), y)
  {
    if y == [] {
      assert x + y == x;
    } else {
      UpsertAppend(raw, x, y[..|y| - 1]);
      assert (x + y)[..|x + y| - 1] == x + y[..|y| - 1];
    }
  }

  lemma {:induction false} UpsertKeyed(raw: map<RawKey, Candle>, items: seq<Candle>)
    requires Keyed(raw)
    ensures Keyed(UpsertAll(raw, items))
  {
    if items != [] {
      UpsertKeyed(raw, items[..|items| - 1]);
    }
  }

  /** Rows of an hour that no upserted sample belongs to do not change. */
  lemma OtherHours(raw: map<RawKey, Candle>, items: seq<Candle>, k: HourKey)
    requires forall c :: c in items ==> Hour(c) != k
    ensures Rows(UpsertAll(raw, items), k) == Rows(raw, k)
  {
    var after := UpsertAll(raw, items);
    forall r: RawKey | r.pair == k.pair && Trunc(r.ts, HOUR) == k.hour ensures At(after, r) == At(raw, r) {
      UpsertAllAt(raw, items, r);
      OfRawOccurs(items, r);
    }
    hide UpsertAll, Trunc;
    SameRows(after, raw, k);
  }

  lemma SameRows(x: map<RawKey, Candle>, y: map<RawKey, Candle>, k: HourKey)
    requires forall r: RawKey :: r.pair == k.pair && Trunc(r.ts, HOUR) == k.hour ==> At(x, r) == At(y, r)
    ensures Rows(x, k) == Rows(y, k)
  {
    hide Trunc;
    forall r | r in x && r.pair == k.pair && Trunc(r.ts, HOUR) == k.hour ensures r in y && x[r] == y[r] {
      assert At(x, r) == At(y, r);
    }
    forall r | r in y && r.pair == k.pair && Trunc(r.ts, HOUR) == k.hour ensures r in x && x[r] == y[r] {
      assert At(x, r) == At(y, r);
    }
  }

  /** An upserted sample leaves a row in its hour. */
  lemma TouchedHourHasRows(raw: map<RawKey, Candle>, items: seq<Candle>, c: Candle)
    requires c in items
    ensures Rows(UpsertAll(raw, items), Hour(c)) != {}
  {
    UpsertAllAt(raw, items, Raw(c));
    OfRawOccurs(items, Raw(c));
    assert Raw(c) in UpsertAll(raw, items);
    assert UpsertAll(raw, items)[Raw(c)] in Rows(UpsertAll(raw, items), Hour(c));
  }

  // ---------- one ingest call ----------

  /** A batch of one pair and hour leaves that hour in agreement and touches no other. */
  lemma IngestOneHour(s: Store, items: seq<Candle>)
    requires items != [] && OneHour(items)
    ensures Agrees(Ingest(s, items), Hour(items[0])) && Rows(Ingest(s, items).raw, Hour(items[0])) != {}
    ensures forall k :: k != Hour(items[0]) ==>
      Rows(Ingest(s, items).raw, k) == Rows(s.raw, k) && BarAt(Ingest(s, items), k) == BarAt(s, k)
  {
    hide UpsertAll, BarOf, Trunc, Rows, Hour;
    TouchedHourHasRows(s.raw, items, items[0]);
    forall k | k != Hour(items[0]) ensures Rows(UpsertAll(s.raw, items), k) == Rows(s.raw, k) {
      OtherHours(s.raw, items, k);
    }
  }

  /** Ingest keeps agreement on every store exactly when all its samples belong to the first one's hour. */
  lemma IngestKeepsAgreement(items: seq<Candle>)
    requires items != []
    ensures (forall s :: Agreement(s) ==> Agreement(Ingest(s, items))) <==> OneHour(items)
  {
    hide UpsertAll, BarOf, Trunc, Hour;
    if OneHour(items) {
      forall s | Agreement(s) ensures Agreement(Ingest(s, items)) {
        IngestOneHour(s, items);
        forall k ensures Agrees(Ingest(s, items), k) {
          assert Agrees(s, k);
        }
      }
    } else {
      var c :| c in items && Hour(c) != Hour(items[0]);
      var empty := Store(map[], map[]);
      assert Agreement(empty) by {
        assert forall k :: Rows(map[], k) == {};
      }
      hide Rows;
      TouchedHourHasRows(map[], items, c);
      assert !Agrees(Ingest(empty, items), Hour(c));
    }
  }

  // ---------- batches ----------

  /** A Kafka message: a candle, or a payload that does not decode. */
  type Message = Option<Candle>

  /** "pair:interval:window". The window is the text after the last colon, so two keys are equal iff
      their windows are and "pair:interval" is; the pair alone is not determined if pairs hold colons. */
  datatype GroupKey = GroupKey(prefix: string, window: int)

  function GroupKeyOf(c: Candle): GroupKey { GroupKey(Join(c.pair, c.interval), Trunc(c.ts, HOUR)) }

  function Valid(messages: seq<Message>): seq<Candle> {
    if messages == [] then []
    else
      Valid(messages[..|messages| - 1])
      + if messages[|messages| - 1].Some? then [messages[|messages| - 1].value] else []
  }

  /** Keys in the order of their first occurrence. */
  function Order(items: seq<Candle>): seq<GroupKey> {
    if items == [] then []
    else
      var before, k := Order(items[..|items| - 1]), GroupKeyOf(items[|items| - 1]);
      if k in before then before else before + [k]
  }

  function Members(items: seq<Candle>, k: GroupKey): seq<Candle> {
    if items == [] then []
    else
      Members(items[..|items| - 1], k) + if GroupKeyOf(items[|items| - 1]) == k then [items[|items| - 1]] else []
  }

  function GroupsAlong(items: seq<Candle>, order: seq<GroupKey>): seq<seq<Candle>> {
    seq(|order|, i requires 0 <= i < |order| => Members(items, order[i]))
  }

  function Groups(items: seq<Candle>): seq<seq<Candle>> { GroupsAlong(items, Order(items)) }

  ghost function IngestAll(s: Store, groups: seq<seq<Candle>>): Store {
    if groups == [] then s else Ingest(IngestAll(s, groups[..|groups| - 1]), groups[|groups| - 1])
  }

  ghost function Handled(s: Store, messages: seq<Message>): Store { IngestAll(s, Groups(Valid(messages))) }

  function Flatten(groups: seq<seq<Candle>>): seq<Candle> {
    if groups == [] then [] else Flatten(groups[..|groups| - 1]) + groups[|groups| - 1]
  }

  /** No two candles of different pairs share a group key. */
  ghost predicate Unambiguous(items: seq<Candle>) {
    forall c, d :: c in items && d in items && GroupKeyOf(c) == GroupKeyOf(d) ==> c.pair == d.pair
  }

  ghost predicate Homogeneous(groups: seq<seq<Candle>>) {
    forall i :: 0 <= i < |groups| ==> groups[i] != [] && OneHour(groups[i])
  }

  lemma {:induction false} MembersAre(items: seq<Candle>, k: GroupKey)
    ensures forall c :: c in Members(items, k) <==> c in items && GroupKeyOf(c) == k
  {
    if items != [] {
      var front, last := items[..|items| - 1], items[|items| - 1];
      MembersAre(front, k);
      hide GroupKeyOf;
      assert items == front + [last];
      assert forall c :: c in items <==> c in front || c == last;
    }
  }

  lemma {:induction false} OrderAre(items: seq<Candle>)
    ensures Distinct(Order(items)) && forall k :: k in Order(items) <==> exists c :: c in items && GroupKeyOf(c) == k
  {
    if items != [] {
      var front, last := items[..|items| - 1], items[|items| - 1];
      OrderAre(front);
      hide GroupKeyOf;
      assert items == front + [last];
      assert forall c :: c in items <==> c in front || c == last;
    }
  }

  /** The first sample of one key comes before every sample of the other. */
  ghost predicate AppearsBefore(items: seq<Candle>, k: GroupKey, l: GroupKey) {
    exists x :: 0 <= x < |items| && GroupKeyOf(items[x]) == k && forall y :: 0 <= y <= x ==> GroupKeyOf(items[y]) != l
  }

  /** Groups are handled in the order of their first samples. */
  lemma {:induction false} GroupsComeInOrder(items: seq<Candle>, i: nat, j: nat)
    requires i < j < |Order(items)|
    ensures AppearsBefore(items, Order(items)[i], Order(items)[j])
  {
    var front := items[..|items| - 1];
    OrderAre(front);
    OneMoreKey(items);
    hide Order, AppearsBefore, GroupKeyOf;
    var k, l := Order(items)[i], Order(items)[j];
    if j < |Order(front)| {
      GroupsComeInOrder(front, i, j);
    } else {
      assert k in Order(front) && l !in Order(front);
      OldKeyFirst(front, k, l);
    }
    AppearsStill(items, k, l);
  }

  lemma OneMoreKey(items: seq<Candle>)
    requires items != []
    ensures
      var before := Order(items[..|items| - 1]);
      Order(items) == before || (Order(items) == before + [GroupKeyOf(items[|items| - 1])] && GroupKeyOf(items[|items| - 1]) !in before)
  {
    hide GroupKeyOf;
  }

  lemma OldKeyFirst(items: seq<Candle>, k: GroupKey, l: GroupKey)
    requires (exists c :: c in items && GroupKeyOf(c) == k) && forall c :: c in items ==> GroupKeyOf(c) != l
    ensures AppearsBefore(items, k, l)
  {
    hide GroupKeyOf;
    var c :| c in items && GroupKeyOf(c) == k;
    var x :| 0 <= x < |items| && items[x] == c;
    assert forall y :: 0 <= y <= x ==> items[y] in items;
  }

  lemma AppearsStill(items: seq<Candle>, k: GroupKey, l: GroupKey)
    requires items != [] && AppearsBefore(items[..|items| - 1], k, l)
    ensures AppearsBefore(items, k, l)
  {
    hide GroupKeyOf;
    var front := items[..|items| - 1];
    var x :| 0 <= x < |front| && GroupKeyOf(front[x]) == k && forall y :: 0 <= y <= x ==> GroupKeyOf(front[y]) != l;
    assert forall y :: 0 <= y <= x ==> items[y] == front[y];
  }

  /** Grouping loses and invents nothing, and unambiguous keys make every group one pair and hour. */
  lemma GroupsAre(items: seq<Candle>)
    ensures forall c :: c in items <==> exists i :: 0 <= i < |Groups(items)| && c in Groups(items)[i]
    ensures Unambiguous(items) ==> Homogeneous(Groups(items))
  {
    var order, groups := Order(items), Groups(items);
    OrderAre(items);
    forall i | 0 <= i < |groups|
      ensures forall c :: c in groups[i] <==> c in items && GroupKeyOf(c) == order[i]
      ensures groups[i] != []
    {
      MembersAre(items, order[i]);
      assert order[i] in order;
      var c :| c in items && GroupKeyOf(c) == order[i];
      assert c in groups[i];
    }
    hide Order, Members, Groups, Trunc;
    forall c | c in items ensures exists i :: 0 <= i < |groups| && c in groups[i] {
      assert GroupKeyOf(c) in order;
      var i :| 0 <= i < |order| && order[i] == GroupKeyOf(c);
      assert c in groups[i];
    }
    if Unambiguous(items) {
      forall i | 0 <= i < |groups| ensures OneHour(groups[i]) {
        assert groups[i][0] in groups[i];
      }
    }
  }

  ghost predicate TouchedBy(groups: seq<seq<Candle>>, k: HourKey) {
    exists i :: 0 <= i < |groups| && groups[i] != [] && Hour(groups[i][0]) == k
  }

  lemma TouchedFront(groups: seq<seq<Candle>>, k: HourKey)
    requires groups != [] && groups[|groups| - 1] != []
    ensures TouchedBy(groups, k) <==> TouchedBy(groups[..|groups| - 1], k) || Hour(groups[|groups| - 1][0]) == k
  {
    hide Hour;
    var front := groups[..|groups| - 1];
    if TouchedBy(front, k) {
      var i :| 0 <= i < |front| && front[i] != [] && Hour(front[i][0]) == k;
      assert groups[i] == front[i];
    }
    if i :| 0 <= i < |groups| && groups[i] != [] && Hour(groups[i][0]) == k {
      assert i < |front| ==> front[i] == groups[i];
    }
  }

  /** What ingesting does to one hour: if touched it has rows and agrees, if not it is as before. */
  ghost predicate Effect(before: Store, after: Store, touched: bool, k: HourKey) {
    if touched then Agrees(after, k) && Rows(after.raw, k) != {}
    else Rows(after.raw, k) == Rows(before.raw, k) && BarAt(after, k) == BarAt(before, k)
  }

  lemma EffectOfOneMore(before: Store, s: Store, touched: bool, items: seq<Candle>, k: HourKey)
    requires Effect(before, s, touched, k) && items != [] && OneHour(items)
    ensures Effect(before, Ingest(s, items), touched || Hour(items[0]) == k, k)
  {
    hide Rows, Hour, BarOf, BarAt, Ingest, OneHour;
    IngestOneHour(s, items);
  }

  /** Ingesting homogeneous groups: touched hours agree afterwards, the others are as before. */
  lemma {:induction false} IngestAllEffect(s: Store, groups: seq<seq<Candle>>, k: HourKey)
    requires Homogeneous(groups)
    ensures Effect(s, IngestAll(s, groups), TouchedBy(groups, k), k)
  {
    hide Rows, Hour, BarOf, BarAt, Ingest, OneHour;
    if groups != [] {
      var front, last := groups[..|groups| - 1], groups[|groups| - 1];
      IngestAllEffect(s, front, k);
      EffectOfOneMore(s, IngestAll(s, front), TouchedBy(front, k), last, k);
      TouchedFront(groups, k);
      hide Effect, TouchedBy;
    }
  }

  lemma {:induction false} IngestAllRows(s: Store, groups: seq<seq<Candle>>)
    requires Homogeneous(groups)
    ensures IngestAll(s, groups).raw == UpsertAll(s.raw, Flatten(groups))
  {
    if groups != [] {
      var front, last := groups[..|groups| - 1], groups[|groups| - 1];
      IngestAllRows(s, front);
      hide UpsertAll, Rows, BarOf;
      UpsertAppend(s.raw, Flatten(front), last);
    }
  }

  // ---------- replay ----------

  lemma UpsertTwice(raw: map<RawKey, Candle>, items: seq<Candle>)
    ensures UpsertAll(UpsertAll(raw, items), items) == UpsertAll(raw, items)
  {
    var once := UpsertAll(raw, items);
    var twice := UpsertAll(once, items);
    forall r ensures At(twice, r) == At(once, r) {
      UpsertAllAt(raw, items, r);
      UpsertAllAt(once, items, r);
    }
    hide UpsertAll;
    SameEntries(twice, once);
  }

  lemma SameEntries(x: map<RawKey, Candle>, y: map<RawKey, Candle>)
    requires forall r :: At(x, r) == At(y, r)
    ensures x == y
  {
    forall r ensures r in x <==> r in y {
      assert At(x, r) == At(y, r);
    }
    forall r | r in x ensures x[r] == y[r] {
      assert At(x, r) == At(y, r);
    }
  }

  /** Handling the same batch again changes nothing. */
  lemma ReplayChangesNothing(s: Store, messages: seq<Message>)
    requires Unambiguous(Valid(messages))
    ensures Handled(Handled(s, messages), messages) == Handled(s, messages)
  {
    var groups := Groups(Valid(messages));
    GroupsAre(Valid(messages));
    var once := IngestAll(s, groups);
    var twice := IngestAll(once, groups);
    hide IngestAll, Groups, Rows, BarOf, UpsertAll, TouchedBy;
    UpsertTwice(s.raw, Flatten(groups));
    IngestAllRows(s, groups);
    IngestAllRows(once, groups);
    forall k ensures BarAt(twice, k) == BarAt(once, k) {
      IngestAllEffect(s, groups, k);
      IngestAllEffect(once, groups, k);
    }
    SameBars(twice, once);
  }

  lemma SameBars(x: Store, y: Store)
    requires x.raw == y.raw && forall k :: BarAt(x, k) == BarAt(y, k)
    ensures x == y
  {
    forall k ensures k in x.bars <==> k in y.bars {
      assert BarAt(x, k) == BarAt(y, k);
    }
    forall k | k in x.bars ensures x.bars[k] == y.bars[k] {
      assert BarAt(x, k) == BarAt(y, k);
    }
  }

  // ---------- runs of the consumer ----------

  /** The consumer of one partition; seen is how far any batch, finished or not, has reached. */
  datatype Consumer = Consumer(store: Store, committed: nat, ghost seen: nat)

  /** The store after the first writes of a batch: j whole groups and perhaps the next raw upsert. */
  ghost function Interrupted(s: Store, groups: seq<seq<Candle>>, j: nat, half: bool): Store
    requires j <= |groups|
  {
    var done := IngestAll(s, groups[..j]);
    if half && j < |groups| then done.(raw := UpsertAll(done.raw, groups[j])) else done
  }

  /** A batch is fetched from the committed offset, handled and committed. */
  ghost predicate Completes(c: Consumer, d: Consumer, log: seq<Message>, n: nat) {
    && c.committed < n <= |log|
    && d.store == Handled(c.store, log[c.committed..n])
    && d.committed == n && d.seen == if n > c.seen then n else c.seen
  }

  /** A crash (or a store error, which also stops the consumer) between any two writes; no commit. */
  ghost predicate Crashes(c: Consumer, d: Consumer, log: seq<Message>, n: nat, j: nat, half: bool) {
    && c.committed < n <= |log|
    && j <= |Groups(Valid(log[c.committed..n]))|
    && d.store == Interrupted(c.store, Groups(Valid(log[c.committed..n])), j, half)
    && d.committed == c.committed && d.seen == if n > c.seen then n else c.seen
  }

  ghost predicate Next(c: Consumer, d: Consumer, log: seq<Message>) {
    || (exists n :: Completes(c, d, log, n))
    || (exists n, j, half :: Crashes(c, d, log, n, j, half))
  }

  ghost predicate IsRun(trace: seq<Consumer>, log: seq<Message>) {
    && trace != [] && trace[0].committed == trace[0].seen == 0
    && forall i :: 0 <= i < |trace| - 1 ==> Next(trace[i], trace[i + 1], log)
  }

  ghost predicate Touches(log: seq<Message>, from: nat, to: nat, k: HourKey) {
    exists i :: from <= i < to <= |log| && log[i].Some? && Hour(log[i].value) == k
  }

  ghost predicate TouchesRow(log: seq<Message>, from: nat, to: nat, r: RawKey) {
    exists i :: from <= i < to <= |log| && log[i].Some? && Raw(log[i].value) == r
  }

  /** Only hours with a handled but uncommitted message can disagree. */
  ghost predicate DirtyIsUncommitted(c: Consumer, log: seq<Message>) {
    && c.committed <= c.seen <= |log|
    && forall k :: !Touches(log, c.committed, c.seen, k) ==> Agrees(c.store, k)
  }

  /** Only rows with a handled but uncommitted message can differ from one pass over the committed log. */
  ghost predicate RowsAsOnePass(c: Consumer, log: seq<Message>, start: map<RawKey, Candle>) {
    && c.committed <= c.seen <= |log|
    && forall r :: !TouchesRow(log, c.committed, c.seen, r) ==>
         At(c.store.raw, r) == At(UpsertAll(start, Valid(log[..c.committed])), r)
  }

  /** Samples with one row key carry one interval, so they fall into one group. */
  ghost predicate OneInterval(items: seq<Candle>) {
    forall c, d :: c in items && d in items && Raw(c) == Raw(d) ==> c.interval == d.interval
  }

  lemma {:induction false} ValidAre(messages: seq<Message>)
    ensures forall c :: c in Valid(messages) <==> exists i :: 0 <= i < |messages| && messages[i] == Some(c)
  {
    if messages != [] {
      var front, last := messages[..|messages| - 1], messages[|messages| - 1];
      ValidAre(front);
      forall c ensures c in Valid(messages) <==> exists i :: 0 <= i < |messages| && messages[i] == Some(c) {
        if c in Valid(front) {
          var i :| 0 <= i < |front| && front[i] == Some(c);
          assert messages[i] == Some(c);
        }
        if i :| 0 <= i < |messages| && messages[i] == Some(c) {
          assert i < |front| ==> front[i] == Some(c);
        }
      }
    }
  }

  lemma {:induction false} ValidAppend(x: seq<Message>, y: seq<Message>)
    ensures Valid(x + y) == Valid(x) + Valid(y)
  {
    if y == [] {
      assert x + y == x;
    } else {
      ValidAppend(x, y[..|y| - 1]);
      assert (x + y)[..|x + y| - 1] == x + y[..|y| - 1];
    }
  }

  lemma BatchItems(log: seq<Message>, from: nat, to: nat)
    requires from <= to <= |log|
    ensures forall c :: c in Valid(log[from..to]) <==> exists i :: from <= i < to && log[i] == Some(c)
    ensures Unambiguous(Valid(log)) ==> Unambiguous(Valid(log[from..to]))
  {
    var batch := log[from..to];
    ValidAre(batch);
    ValidAre(log);
    hide Valid, GroupKeyOf;
    forall c ensures c in Valid(batch) <==> exists i :: from <= i < to && log[i] == Some(c) {
      if i :| 0 <= i < |batch| && batch[i] == Some(c) {
        assert log[from + i] == Some(c);
      }
      if i :| from <= i < to && log[i] == Some(c) {
        assert batch[i - from] == Some(c);
      }
    }
    assert forall c :: c in Valid(batch) ==> c in Valid(log);
  }

  /** The groups of a batch touch exactly the hours of its messages, and are homogeneous. */
  lemma BatchTouches(log: seq<Message>, from: nat, to: nat, k: HourKey)
    requires from <= to <= |log| && Unambiguous(Valid(log))
    ensures Homogeneous(Groups(Valid(log[from..to])))
    ensures TouchedBy(Groups(Valid(log[from..to])), k) <==> Touches(log, from, to, k)
  {
    hide Valid, Hour, Groups, Unambiguous;
    BatchItems(log, from, to);
    var items := Valid(log[from..to]);
    GroupsAre(items);
    GroupsTouch(items, k);
    if c :| c in items && Hour(c) == k {
      var i :| from <= i < to && log[i] == Some(c);
      assert log[i].value == c;
    }
  }

  lemma GroupsTouch(items: seq<Candle>, k: HourKey)
    requires Homogeneous(Groups(items))
    ensures TouchedBy(Groups(items), k) <==> exists c :: c in items && Hour(c) == k
  {
    GroupsAre(items);
    var groups := Groups(items);
    hide Groups, Hour;
    if TouchedBy(groups, k) {
      var i :| 0 <= i < |groups| && groups[i] != [] && Hour(groups[i][0]) == k;
      assert groups[i][0] in groups[i] && groups[i][0] in items;
    }
    if c :| c in items && Hour(c) == k {
      var i :| 0 <= i < |groups| && c in groups[i];
      assert Hour(groups[i][0]) == k;
    }
  }

  lemma TouchesSplit(log: seq<Message>, a: nat, b: nat, c: nat, k: HourKey)
    requires a <= b <= |log| && c <= |log|
    ensures Touches(log, a, c, k) ==> Touches(log, a, b, k) || Touches(log, b, c, k)
  {
  }

  lemma CompletesKeepsDirty(c: Consumer, d: Consumer, log: seq<Message>, n: nat)
    requires Unambiguous(Valid(log)) && DirtyIsUncommitted(c, log) && Completes(c, d, log, n)
    ensures DirtyIsUncommitted(d, log)
  {
    hide Valid, Groups, IngestAll, TouchedBy, Touches, Unambiguous, Rows, BarOf;
    forall k | !Touches(log, d.committed, d.seen, k) ensures Agrees(d.store, k) {
      BatchTouches(log, c.committed, n, k);
      IngestAllEffect(c.store, Groups(Valid(log[c.committed..n])), k);
      TouchesSplit(log, c.committed, n, c.seen, k);
      TouchesMore(log, n, c.seen, d.seen, k);
    }
  }

  lemma TouchesMore(log: seq<Message>, a: nat, b: nat, c: nat, k: HourKey)
    requires b <= c <= |log|
    ensures Touches(log, a, b, k) ==> Touches(log, a, c, k)
  {
  }

  lemma CrashKeepsDirty(c: Consumer, d: Consumer, log: seq<Message>, n: nat, j: nat, half: bool)
    requires Unambiguous(Valid(log)) && DirtyIsUncommitted(c, log) && Crashes(c, d, log, n, j, half)
    ensures DirtyIsUncommitted(d, log)
  {
    var groups := Groups(Valid(log[c.committed..n]));
    hide Valid, Groups, IngestAll, Touches, Unambiguous, Rows, BarOf, Hour, UpsertAll, TouchedBy, Interrupted;
    forall k | !Touches(log, d.committed, d.seen, k) ensures Agrees(d.store, k) {
      BatchTouches(log, c.committed, n, k);
      TouchesMore(log, c.committed, n, d.seen, k);
      TouchesMore(log, c.committed, c.seen, d.seen, k);
      InterruptedEffect(c.store, groups, j, half, k);
    }
  }

  lemma InterruptedEffect(s: Store, groups: seq<seq<Candle>>, j: nat, half: bool, k: HourKey)
    requires Homogeneous(groups) && j <= |groups| && !TouchedBy(groups, k)
    ensures Rows(Interrupted(s, groups, j, half).raw, k) == Rows(s.raw, k)
    ensures BarAt(Interrupted(s, groups, j, half), k) == BarAt(s, k)
  {
    hide IngestAll, Rows, Hour, UpsertAll;
    assert !TouchedBy(groups[..j], k);
    IngestAllEffect(s, groups[..j], k);
    if half && j < |groups| {
      assert Hour(groups[j][0]) != k;
      OtherHours(IngestAll(s, groups[..j]).raw, groups[j], k);
    }
  }

  /** Over every run: an hour can disagree only while one of its messages awaits redelivery. */
  lemma {:induction false} RunsRepairAgreement(trace: seq<Consumer>, log: seq<Message>)
    requires Unambiguous(Valid(log)) && IsRun(trace, log) && Agreement(trace[0].store)
    ensures DirtyIsUncommitted(trace[|trace| - 1], log)
    ensures trace[|trace| - 1].committed == trace[|trace| - 1].seen ==> Agreement(trace[|trace| - 1].store)
  {
    hide Unambiguous, Agrees, Next, Valid;
    if |trace| == 1 {
    } else {
      var front := trace[..|trace| - 1];
      RunsRepairAgreement(front, log);
      NextKeepsDirty(front[|front| - 1], trace[|trace| - 1], log);
    }
  }

  lemma NextKeepsDirty(c: Consumer, d: Consumer, log: seq<Message>)
    requires Unambiguous(Valid(log)) && DirtyIsUncommitted(c, log) && Next(c, d, log)
    ensures DirtyIsUncommitted(d, log)
  {
    hide Unambiguous, DirtyIsUncommitted, Completes, Crashes, Valid;
    if n :| Completes(c, d, log, n) {
      CompletesKeepsDirty(c, d, log, n);
    } else {
      var n, j, half :| Crashes(c, d, log, n, j, half);
      CrashKeepsDirty(c, d, log, n, j, half);
    }
  }

  // ---------- exactly-once content ----------

  lemma {:induction false} MembersOfRaw(items: seq<Candle>, k: GroupKey, r: RawKey, g: GroupKey)
    requires forall c :: c in items && Raw(c) == r ==> GroupKeyOf(c) == g
    ensures OfRaw(Members(items, k), r) == if k == g then OfRaw(items, r) else []
  {
    if items != [] {
      var front, last := items[..|items| - 1], items[|items| - 1];
      assert items == front + [last];
      assert last in items && forall c :: c in front ==> c in items;
      hide GroupKeyOf;
      MembersOfRaw(front, k, r, g);
      if GroupKeyOf(last) == k {
        OfRawAppend(Members(front, k), [last], r);
        assert Members(items, k) == Members(front, k) + [last];
        OneOfRaw(last, r);
      } else {
        assert Members(items, k) == Members(front, k);
        assert k == g ==> Raw(last) != r;
      }
      assert Raw(last) != r ==> OfRaw(items, r) == OfRaw(front, r);
    }
  }

  lemma OneOfRaw(c: Candle, r: RawKey)
    ensures OfRaw([c], r) == if Raw(c) == r then [c] else []
  {
    assert [c][..0] == [];
  }

  lemma {:induction false} FlattenOfRaw(items: seq<Candle>, order: seq<GroupKey>, r: RawKey, g: GroupKey)
    requires forall c :: c in items && Raw(c) == r ==> GroupKeyOf(c) == g
    requires Distinct(order)
    ensures OfRaw(Flatten(GroupsAlong(items, order)), r) == if g in order then OfRaw(items, r) else []
  {
    if order != [] {
      var front, last := order[..|order| - 1], order[|order| - 1];
      assert order == front + [last];
      hide GroupKeyOf, OfRaw, Members;
      FlattenOfRaw(items, front, r, g);
      assert GroupsAlong(items, order)[..|order| - 1] == GroupsAlong(items, front);
      OfRawAppend(Flatten(GroupsAlong(items, front)), Members(items, last), r);
      MembersOfRaw(items, last, r, g);
    }
  }

  /** Grouping keeps the order of the samples of each row. */
  lemma GroupingKeepsRowOrder(items: seq<Candle>, r: RawKey)
    requires OneInterval(items)
    ensures OfRaw(Flatten(Groups(items)), r) == OfRaw(items, r)
  {
    OrderAre(items);
    OfRawOccurs(items, r);
    if c :| c in items && Raw(c) == r {
      FlattenOfRaw(items, Order(items), r, GroupKeyOf(c));
    } else {
      FlattenOfRaw(items, Order(items), r, GroupKey("", 0));
    }
  }

  /** After a whole batch, the rows are those of upserting its messages in log order. */
  lemma BatchUpserts(s: Store, items: seq<Candle>)
    requires Unambiguous(items) && OneInterval(items)
    ensures IngestAll(s, Groups(items)).raw == UpsertAll(s.raw, items)
  {
    hide IngestAll, Groups, TouchedBy, Rows, UpsertAll, Unambiguous, OneInterval, OfRaw;
    GroupsAre(items);
    IngestAllRows(s, Groups(items));
    forall r ensures At(UpsertAll(s.raw, Flatten(Groups(items))), r) == At(UpsertAll(s.raw, items), r) {
      GroupingKeepsRowOrder(items, r);
      UpsertAllAt(s.raw, Flatten(Groups(items)), r);
      UpsertAllAt(s.raw, items, r);
    }
    SameEntries(UpsertAll(s.raw, Flatten(Groups(items))), UpsertAll(s.raw, items));
  }

  lemma PrefixThenBatch(log: seq<Message>, from: nat, to: nat)
    requires from <= to <= |log|
    ensures Valid(log[..to]) == Valid(log[..from]) + Valid(log[from..to])
  {
    assert log[..to] == log[..from] + log[from..to];
    ValidAppend(log[..from], log[from..to]);
  }

  lemma BatchOneInterval(log: seq<Message>, from: nat, to: nat)
    requires from <= to <= |log| && OneInterval(Valid(log))
    ensures OneInterval(Valid(log[from..to]))
  {
    ValidAre(log);
    BatchItems(log, from, to);
  }

  /** A row that the batch does not write is as before; one that it writes has its last message. */
  lemma BatchRow(start: map<RawKey, Candle>, now: map<RawKey, Candle>, log: seq<Message>, from: nat, to: nat, r: RawKey)
    requires from <= to <= |log|
    requires !TouchesRow(log, from, to, r) ==> At(now, r) == At(UpsertAll(start, Valid(log[..from])), r)
    ensures At(UpsertAll(now, Valid(log[from..to])), r) == At(UpsertAll(start, Valid(log[..to])), r)
  {
    hide UpsertAll, OfRaw, Valid;
    var before, batch := Valid(log[..from]), Valid(log[from..to]);
    PrefixThenBatch(log, from, to);
    UpsertAppend(start, before, batch);
    UpsertAllAt(UpsertAll(start, before), batch, r);
    UpsertAllAt(now, batch, r);
    OfRawOccurs(batch, r);
    BatchItems(log, from, to);
    if TouchesRow(log, from, to, r) {
      var i :| from <= i < to <= |log| && log[i].Some? && Raw(log[i].value) == r;
      assert log[i] == Some(log[i].value);
      assert log[i].value in batch;
    }
  }

  lemma CompletesKeepsRows(c: Consumer, d: Consumer, log: seq<Message>, n: nat, start: map<RawKey, Candle>)
    requires Unambiguous(Valid(log)) && OneInterval(Valid(log))
    requires RowsAsOnePass(c, log, start) && Completes(c, d, log, n)
    ensures RowsAsOnePass(d, log, start)
  {
    hide Valid, Groups, IngestAll, Unambiguous, OneInterval, UpsertAll;
    BatchItems(log, c.committed, n);
    BatchOneInterval(log, c.committed, n);
    BatchUpserts(c.store, Valid(log[c.committed..n]));
    forall r | !TouchesRow(log, d.committed, d.seen, r)
      ensures At(d.store.raw, r) == At(UpsertAll(start, Valid(log[..n])), r)
    {
      if !TouchesRow(log, c.committed, n, r) {
        assert !TouchesRow(log, c.committed, c.seen, r);
      }
      hide TouchesRow;
      BatchRow(start, c.store.raw, log, c.committed, n, r);
    }
  }

  lemma CrashKeepsRows(c: Consumer, d: Consumer, log: seq<Message>, n: nat, j: nat, half: bool, start: map<RawKey, Candle>)
    requires Unambiguous(Valid(log)) && RowsAsOnePass(c, log, start) && Crashes(c, d, log, n, j, half)
    ensures RowsAsOnePass(d, log, start)
  {
    hide Valid, Groups, IngestAll, Unambiguous, UpsertAll, Interrupted;
    var items := Valid(log[c.committed..n]);
    BatchItems(log, c.committed, n);
    GroupsAre(items);
    forall r | !TouchesRow(log, d.committed, d.seen, r) ensures At(d.store.raw, r) == At(c.store.raw, r) {
      forall x | x in items ensures Raw(x) != r {
        var i :| c.committed <= i < n && log[i] == Some(x);
        assert log[i].Some? && log[i].value == x;
      }
      InterruptedRow(c.store, Groups(items), j, half, r);
    }
    assert forall r :: TouchesRow(log, c.committed, c.seen, r) ==> TouchesRow(log, d.committed, d.seen, r);
  }

  lemma InterruptedRow(s: Store, groups: seq<seq<Candle>>, j: nat, half: bool, r: RawKey)
    requires Homogeneous(groups) && j <= |groups|
    requires forall i, c :: 0 <= i < |groups| && c in groups[i] ==> Raw(c) != r
    ensures At(Interrupted(s, groups, j, half).raw, r) == At(s.raw, r)
  {
    hide IngestAll, UpsertAll, OfRaw, TouchedBy, Rows;
    IngestAllRows(s, groups[..j]);
    FlattenAre(groups[..j]);
    OfRawOccurs(Flatten(groups[..j]), r);
    UpsertAllAt(s.raw, Flatten(groups[..j]), r);
    if half && j < |groups| {
      OfRawOccurs(groups[j], r);
      UpsertAllAt(IngestAll(s, groups[..j]).raw, groups[j], r);
    }
  }

  lemma {:induction false} FlattenAre(groups: seq<seq<Candle>>)
    ensures forall c :: c in Flatten(groups) ==> exists i :: 0 <= i < |groups| && c in groups[i]
  {
    if groups != [] {
      var front := groups[..|groups| - 1];
      FlattenAre(front);
      forall c | c in Flatten(groups) ensures exists i :: 0 <= i < |groups| && c in groups[i] {
        if c in Flatten(front) {
          var i :| 0 <= i < |front| && c in front[i];
          assert c in groups[i];
        } else {
          assert c in groups[|groups| - 1];
        }
      }
    }
  }

  /** Over every run: once everything handled is committed, the rows are those of a single pass over the log. */
  lemma {:induction false} RunsAreOnePass(trace: seq<Consumer>, log: seq<Message>)
    requires Unambiguous(Valid(log)) && OneInterval(Valid(log)) && IsRun(trace, log)
    ensures RowsAsOnePass(trace[|trace| - 1], log, trace[0].store.raw)
    ensures
      var last := trace[|trace| - 1];
      last.committed == last.seen ==> last.store.raw == UpsertAll(trace[0].store.raw, Valid(log[..last.committed]))
  {
    hide Unambiguous, OneInterval, Next;
    var start, last := trace[0].store.raw, trace[|trace| - 1];
    if |trace| == 1 {
      assert log[..0] == [];
    } else {
      hide Valid, RowsAsOnePass;
      var front := trace[..|trace| - 1];
      RunsAreOnePass(front, log);
      NextKeepsRows(front[|front| - 1], last, log, start);
    }
    if last.committed == last.seen {
      RowsSettle(last, log, start);
    }
  }

  lemma RowsSettle(c: Consumer, log: seq<Message>, start: map<RawKey, Candle>)
    requires RowsAsOnePass(c, log, start) && c.committed == c.seen
    ensures c.store.raw == UpsertAll(start, Valid(log[..c.committed]))
  {
    hide UpsertAll, Valid;
    SameEntries(c.store.raw, UpsertAll(start, Valid(log[..c.committed])));
  }

  lemma NextKeepsRows(c: Consumer, d: Consumer, log: seq<Message>, start: map<RawKey, Candle>)
    requires Unambiguous(Valid(log)) && OneInterval(Valid(log)) && RowsAsOnePass(c, log, start) && Next(c, d, log)
    ensures RowsAsOnePass(d, log, start)
  {
    hide Unambiguous, OneInterval, RowsAsOnePass, Completes, Crashes, Valid;
    if n :| Completes(c, d, log, n) {
      CompletesKeepsRows(c, d, log, n, start);
    } else {
      var n, j, half :| Crashes(c, d, log, n, j, half);
      CrashKeepsRows(c, d, log, n, j, half, start);
    }
  }

  /** Batching and crashes are invisible: two settled runs over one log end with the same rows,
      and with the same bar for every hour that has rows. */
  lemma RunsConverge(x: seq<Consumer>, y: seq<Consumer>, log: seq<Message>, k: HourKey)
    requires Unambiguous(Valid(log)) && OneInterval(Valid(log))
    requires IsRun(x, log) && IsRun(y, log) && x[0] == y[0] && Agreement(x[0].store)
    requires x[|x| - 1].committed == x[|x| - 1].seen == |log| == y[|y| - 1].committed == y[|y| - 1].seen
    ensures x[|x| - 1].store.raw == y[|y| - 1].store.raw
    ensures Rows(x[|x| - 1].store.raw, k) != {} ==> BarAt(x[|x| - 1].store, k) == BarAt(y[|y| - 1].store, k)
  {
    hide Unambiguous, OneInterval, Valid, Next, UpsertAll, Rows, BarOf;
    RunsAreOnePass(x, log);
    RunsAreOnePass(y, log);
    RunsRepairAgreement(x, log);
    RunsRepairAgreement(y, log);
    assert Agrees(x[|x| - 1].store, k) && Agrees(y[|y| - 1].store, k);
  }

  // ---------- when keys are unambiguous ----------

  predicate IsPrefix(p: string, q: string) { p <= q }

  /** Two different symbols can share a group key, for some intervals, if and only if one of them followed by a
      colon begins the other followed by a colon. */
  lemma SymbolsShareAKeyExactlyWhen(p: string, q: string)
    requires p != q
    ensures (exists i, j :: Join(p, i) == Join(q, j)) <==> IsPrefix(p + ":", q + ":") || IsPrefix(q + ":", p + ":")
  {
    var x, y := p + ":", q + ":";
    if IsPrefix(x, y) {
      assert Join(p, y[|x|..]) == y == Join(q, "");
    }
    if IsPrefix(y, x) {
      assert Join(q, x[|y|..]) == x == Join(p, "");
    }
    if i, j :| Join(p, i) == Join(q, j) {
      var s := Join(p, i);
      assert s[..|x|] == x && s[..|y|] == y;
      assert |x| <= |y| ==> x == y[..|x|];
      assert |y| <= |x| ==> y == x[..|y|];
    }
  }

  /** Whenever two candles of different pairs share a group key, a batch of the two breaks the index. */
  lemma SharedKeysBreakAgreement(c: Candle, d: Candle)
    requires c.pair != d.pair && GroupKeyOf(c) == GroupKeyOf(d)
    ensures !Agreement(Handled(Store(map[], map[]), [Some(c), Some(d)]))
  {
    TwoInOneGroup(c, d);
    hide Groups, Valid, GroupKeyOf, Rows, BarOf, UpsertAll, Hour, Trunc;
    OneGroupHandled(Store(map[], map[]), [c, d]);
    TouchedHourHasRows(map[], [c, d], d);
    DifferentHours(c, d);
    assert !Agrees(Ingest(Store(map[], map[]), [c, d]), Hour(d));
  }

  /** Intervals without a colon never make keys ambiguous, whatever the symbols. */
  lemma ColonFreeIntervalsAreUnambiguous(items: seq<Candle>)
    requires forall c :: c in items ==> ':' !in c.interval
    ensures Unambiguous(items)
  {
    forall c, d | c in items && d in items && GroupKeyOf(c) == GroupKeyOf(d) ensures c.pair == d.pair {
      LastColonSplits(c.pair, c.interval, d.pair, d.interval);
    }
  }

  /** Nor do symbols without a colon, whatever the intervals. */
  lemma NoColonsNoAmbiguity(items: seq<Candle>)
    requires forall c :: c in items ==> ':' !in c.pair
    ensures Unambiguous(items)
  {
    forall c, d | c in items && d in items && GroupKeyOf(c) == GroupKeyOf(d) ensures c.pair == d.pair {
      TypeOfPrefixed(c.pair, c.interval);
      TypeOfPrefixed(d.pair, d.interval);
    }
  }

  // ---------- the messages that are published ----------

  /** The only publisher sends candles that were fetched with the interval "ticker". */
  const PUBLISHED_INTERVAL := "ticker"

  ghost predicate Published(log: seq<Message>) { forall c :: c in Valid(log) ==> c.interval == PUBLISHED_INTERVAL }

  lemma PublishedIsUnambiguous(log: seq<Message>)
    requires Published(log)
    ensures Unambiguous(Valid(log)) && OneInterval(Valid(log))
  {
    hide Valid;
    ColonFreeIntervalsAreUnambiguous(Valid(log));
  }

  /** Hence, with nothing assumed about symbols: over every run on published messages, an hour can disagree only
      while one of its messages awaits redelivery, and once all is committed every hour agrees and the rows are
      those of one pass over the log. */
  lemma PublishedRunsSettle(trace: seq<Consumer>, log: seq<Message>)
    requires Published(log) && IsRun(trace, log) && Agreement(trace[0].store)
    ensures DirtyIsUncommitted(trace[|trace| - 1], log)
    ensures trace[|trace| - 1].committed == trace[|trace| - 1].seen ==>
      Agreement(trace[|trace| - 1].store)
      && trace[|trace| - 1].store.raw == UpsertAll(trace[0].store.raw, Valid(log[..trace[|trace| - 1].committed]))
  {
    hide Next, Valid, UpsertAll, Unambiguous, OneInterval, Published, Agreement;
    PublishedIsUnambiguous(log);
    RunsRepairAgreement(trace, log);
    RunsAreOnePass(trace, log);
  }

  /** And two settled runs over one published log end with the same rows and the same bars. */
  lemma PublishedRunsConverge(x: seq<Consumer>, y: seq<Consumer>, log: seq<Message>, k: HourKey)
    requires Published(log) && IsRun(x, log) && IsRun(y, log) && x[0] == y[0] && Agreement(x[0].store)
    requires x[|x| - 1].committed == x[|x| - 1].seen == |log| == y[|y| - 1].committed == y[|y| - 1].seen
    ensures x[|x| - 1].store.raw == y[|y| - 1].store.raw
    ensures Rows(x[|x| - 1].store.raw, k) != {} ==> BarAt(x[|x| - 1].store, k) == BarAt(y[|y| - 1].store, k)
  {
    hide Next, Valid, UpsertAll, Unambiguous, OneInterval, Published, Agreement, Rows, BarOf, BarAt;
    PublishedIsUnambiguous(log);
    RunsConverge(x, y, log, k);
  }

  // ---------- what the hours hold, in the messages' own fields ----------

  /** The latest messages of their time and source among the first n that are samples of the pair and hour. */
  ghost function Sent(log: seq<Message>, n: nat, k: HourKey): set<Candle>
    requires n <= |log|
  {
    set i | 0 <= i < n && log[i].Some? && log[i].value.pair == k.pair && k.hour <= log[i].value.ts < k.hour + 3600
            && NoneLater(log, n, i)
          :: log[i].value.(interval := "1h")
  }

  predicate NoneLater(log: seq<Message>, n: nat, i: nat)
    requires i < n <= |log| && log[i].Some?
  {
    forall j :: i < j < n && log[j].Some? ==>
      var c, d := log[i].value, log[j].value;
      d.pair != c.pair || d.ts != c.ts || d.source != c.source
  }

  lemma {:induction false} LastWasSent(log: seq<Message>, n: nat, r: RawKey) returns (i: nat)
    requires n <= |log| && OfRaw(Valid(log[..n]), r) != []
    ensures
      var of := OfRaw(Valid(log[..n]), r);
      i < n && log[i] == Some(of[|of| - 1]) && NoneLater(log, n, i) && Raw(of[|of| - 1]) == r
  {
    hide OfRaw, Valid;
    OneMoreOfRaw(log, n, r);
    if log[n - 1].Some? && Raw(log[n - 1].value) == r {
      i := n - 1;
    } else {
      assert OfRaw(Valid(log[..n]), r) == OfRaw(Valid(log[..n - 1]), r);
      i := LastWasSent(log, n - 1, r);
    }
  }

  lemma {:induction false} LatestIsLast(log: seq<Message>, n: nat, i: nat)
    requires i < n <= |log| && log[i].Some? && NoneLater(log, n, i)
    ensures
      var of := OfRaw(Valid(log[..n]), Raw(log[i].value));
      of != [] && of[|of| - 1] == log[i].value
  {
    var r := Raw(log[i].value);
    OneMoreOfRaw(log, n, r);
    hide OfRaw, Valid;
    if i < n - 1 {
      assert NoneLater(log, n - 1, i);
      LatestIsLast(log, n - 1, i);
    }
  }

  lemma OneMoreOfRaw(log: seq<Message>, n: nat, r: RawKey)
    requires n <= |log|
    ensures n == 0 ==> OfRaw(Valid(log[..n]), r) == []
    ensures
      n > 0 ==>
      var m := log[n - 1];
      OfRaw(Valid(log[..n]), r) == OfRaw(Valid(log[..n - 1]), r) + if m.Some? && Raw(m.value) == r then [m.value] else []
  {
    if n > 0 {
      assert log[..n][..n - 1] == log[..n - 1];
      var items, m := Valid(log[..n - 1]), log[n - 1];
      if m.Some? {
        assert (items + [m.value])[..|items|] == items;
      } else {
        assert items + [] == items;
      }
    }
  }

  lemma RowWasSent(log: seq<Message>, n: nat, k: HourKey, c: Candle)
    requires n <= |log| && k.hour % 3600 == 0 && c in Rows(UpsertAll(map[], Valid(log[..n])), k)
    ensures c in Sent(log, n, k)
  {
    var items := Valid(log[..n]);
    var raw := UpsertAll(map[], items);
    var r :| r in raw && r.pair == k.pair && Trunc(r.ts, HOUR) == k.hour && raw[r] == c;
    InHour(r.ts, k.hour);
    hide OfRaw, Valid, UpsertAll, Trunc;
    UpsertAllAt(map[], items, r);
    var i := LastWasSent(log, n, r);
    assert log[i].value.(interval := "1h") == c;
  }

  lemma InHour(t: int, hour: int)
    requires hour % 3600 == 0
    ensures Trunc(t, HOUR) == hour <==> hour <= t < hour + 3600
  {
  }

  lemma SentIsRow(log: seq<Message>, n: nat, k: HourKey, c: Candle)
    requires n <= |log| && k.hour % 3600 == 0 && c in Sent(log, n, k)
    ensures c in Rows(UpsertAll(map[], Valid(log[..n])), k)
  {
    var items := Valid(log[..n]);
    var raw := UpsertAll(map[], items);
    var i :| 0 <= i < n && log[i].Some? && log[i].value.pair == k.pair && k.hour <= log[i].value.ts < k.hour + 3600
             && NoneLater(log, n, i) && log[i].value.(interval := "1h") == c;
    var r := Raw(log[i].value);
    InHour(r.ts, k.hour);
    hide OfRaw, Valid, UpsertAll, Trunc;
    LatestIsLast(log, n, i);
    UpsertAllAt(map[], items, r);
    assert r in raw && raw[r] == c;
  }

  /** The rows of an hour after one pass are the latest messages sent to it. */
  lemma RowsAreSent(log: seq<Message>, n: nat, k: HourKey)
    requires n <= |log| && k.hour % 3600 == 0
    ensures Rows(UpsertAll(map[], Valid(log[..n])), k) == Sent(log, n, k)
  {
    var rows := Rows(UpsertAll(map[], Valid(log[..n])), k);
    forall c ensures c in rows <==> c in Sent(log, n, k) {
      if c in rows {
        RowWasSent(log, n, k, c);
      }
      if c in Sent(log, n, k) {
        SentIsRow(log, n, k, c);
      }
    }
  }

  /** Over every run on published messages from empty tables: once all that was handled is committed, every hour
      with messages has a bar, and it summarizes exactly the latest of them, price by price. */
  lemma HoursHoldTheirMessages(trace: seq<Consumer>, log: seq<Message>, k: HourKey)
    requires Published(log) && IsRun(trace, log) && trace[0].store == Store(map[], map[]) && k.hour % 3600 == 0
    ensures
      var last := trace[|trace| - 1];
      last.committed == last.seen && last.committed <= |log| && Sent(log, last.committed, k) != {} ==>
        && k in last.store.bars
        && var b := last.store.bars[k];
           Summarizes(b.open, b.high, b.low, b.close, b.volume, Sent(log, last.committed, k))
  {
    hide Valid, UpsertAll, Rows, BarOf, Sent, Summarizes, Next, Published;
    var last := trace[|trace| - 1];
    NothingDisagrees();
    PublishedRunsSettle(trace, log);
    if last.committed == last.seen && last.committed <= |log| && Sent(log, last.committed, k) != {} {
      RowsAreSent(log, last.committed, k);
      assert Agrees(last.store, k);
      BarSummarizes(last.store.bars[k], Sent(log, last.committed, k));
    }
  }

  lemma NothingDisagrees()
    ensures Agreement(Store(map[], map[]))
  {
  }

  lemma OneGroupHandled(s: Store, g: seq<Candle>)
    ensures IngestAll(s, [g]) == Ingest(s, g)
  {
    assert [g][..0] == [];
  }

  lemma DifferentHours(c: Candle, d: Candle)
    requires c.pair != d.pair
    ensures Hour(c) != Hour(d)
  {
  }

  lemma TwoInOneGroup(c: Candle, d: Candle)
    requires GroupKeyOf(c) == GroupKeyOf(d)
    ensures Groups(Valid([Some(c), Some(d)])) == [[c, d]]
  {
    hide GroupKeyOf;
    var m: seq<Message> := [Some(c), Some(d)];
    var m1: seq<Message> := [Some(c)];
    assert m[..1] == m1 && m1[..0] == [];
    assert Valid(m1) == [c] && Valid(m) == [c, d];
    assert [c, d][..1] == [c] && [c][..0] == [];
    var k := GroupKeyOf(c);
    assert Order([c]) == [k] && Order([c, d]) == [k];
    assert Members([c], k) == [c] && Members([c, d], k) == [c, d];
  }

  // ---------- the code ----------

  /** (bucket_start, source), the order in which RawCandles returns rows. */
  function RowOrder(x: Candle, y: Candle): bool { x.ts < y.ts || (x.ts == y.ts && StrLeq(x.source, y.source)) }

  lemma RowOrderIsWeakOrder()
    ensures WeakOrder(RowOrder)
  {
    StrWeakOrder();
  }

  /** All rows of the pair in the window, each once, ordered. */
  ghost predicate IsSelection(rows: seq<Candle>, raw: map<RawKey, Candle>, pair: string, start: int, end: int) {
    && Distinct(rows)
    && (forall i, j :: 0 <= i < j < |rows| ==>
          rows[i].ts < rows[j].ts || (rows[i].ts == rows[j].ts && StrLeq(rows[i].source, rows[j].source)))
    && forall c :: c in rows <==> Raw(c) in raw && raw[Raw(c)] == c && c.pair == pair && start <= c.ts < end
  }

  class MarketStore {
    var raw: map<RawKey, Candle>
    var hourly: map<HourKey, Candle>

    ghost predicate Valid()
      reads this
    {
      Keyed(raw)
    }

    ghost function View(): Store
      reads this
    {
      Store(raw, Bars(hourly))
    }

    method UpsertRawCandles(items: seq<Candle>)
      requires Valid()
      modifies this`raw
      ensures Valid() && raw == UpsertAll(old(raw), items)
      ensures AreStored(old(raw), items, raw)
    {
      ghost var was := raw;
      for i := 0 to |items|
        invariant raw == UpsertAll(was, items[..i])
      {
        assert items[..i + 1][..i] == items[..i];
        raw := raw[Raw(items[i]) := Row(items[i])];
      }
      assert items[..|items|] == items;
      UpsertKeyed(was, items);
      UpsertStores(was, items);
    }

    method RawCandles(pair: string, start: int, end: int) returns (rows: seq<Candle>)
      requires Valid()
      ensures IsSelection(rows, raw, pair, start, end)
    {
      var selected := set r | r in raw && r.pair == pair && start <= r.ts < end :: raw[r];
      var list := Enumerate(selected);
      RowOrderIsWeakOrder();
      rows := SortSlice(list, RowOrder);
      assert forall i, j :: 0 <= i < j < |rows| ==> RowOrder(rows[i], rows[j]);
      DistinctPermutation(list, rows);
    }

    method UpsertCandles(items: seq<Candle>)
      modifies this`hourly
      ensures hourly == PutAll(old(hourly), items)
      ensures ArePut(old(hourly), items, hourly)
    {
      ghost var was := hourly;
      for i := 0 to |items|
        invariant hourly == PutAll(was, items[..i])
      {
        assert items[..i + 1][..i] == items[..i];
        hourly := hourly[HourKey(items[i].pair, items[i].ts) := items[i]];
      }
      assert items[..|items|] == items;
      PutStores(was, items);
    }
  }

  function PutAll(hourly: map<HourKey, Candle>, items: seq<Candle>): map<HourKey, Candle> {
    if items == [] then hourly
    else
      var last := items[|items| - 1];
      PutAll(hourly, items[..|items| - 1])[HourKey(last.pair, last.ts) := last]
  }

  /** after is before with the latest candle of each pair and time, and untouched elsewhere. */
  ghost predicate ArePut(before: map<HourKey, Candle>, items: seq<Candle>, after: map<HourKey, Candle>) {
    && (forall i :: 0 <= i < |items| && (forall j :: i < j < |items| ==> items[j].pair != items[i].pair || items[j].ts != items[i].ts) ==>
          var k := HourKey(items[i].pair, items[i].ts);
          k in after && after[k] == items[i])
    && (forall k: HourKey :: (forall c :: c in items ==> c.pair != k.pair || c.ts != k.hour) ==>
          (k in after <==> k in before) && (k in after ==> after[k] == before[k]))
  }

  lemma {:induction false} PutLatest(before: map<HourKey, Candle>, items: seq<Candle>, i: nat)
    requires i < |items|
    requires forall j :: i < j < |items| ==> items[j].pair != items[i].pair || items[j].ts != items[i].ts
    ensures
      var k := HourKey(items[i].pair, items[i].ts);
      k in PutAll(before, items) && PutAll(before, items)[k] == items[i]
  {
    if i < |items| - 1 {
      var front := items[..|items| - 1];
      PutLatest(before, front, i);
      assert items[|items| - 1].pair != items[i].pair || items[|items| - 1].ts != items[i].ts;
    }
  }

  lemma {:induction false} PutElsewhere(before: map<HourKey, Candle>, items: seq<Candle>, k: HourKey)
    requires forall c :: c in items ==> c.pair != k.pair || c.ts != k.hour
    ensures k in PutAll(before, items) <==> k in before
    ensures k in before ==> PutAll(before, items)[k] == before[k]
  {
    if items != [] {
      PutElsewhere(before, items[..|items| - 1], k);
      assert items[|items| - 1] in items;
    }
  }

  lemma PutStores(before: map<HourKey, Candle>, items: seq<Candle>)
    ensures ArePut(before, items, PutAll(before, items))
  {
    hide PutAll;
    forall i | 0 <= i < |items| && (forall j :: i < j < |items| ==> items[j].pair != items[i].pair || items[j].ts != items[i].ts)
      ensures
        var k := HourKey(items[i].pair, items[i].ts);
        k in PutAll(before, items) && PutAll(before, items)[k] == items[i]
    {
      PutLatest(before, items, i);
    }
    forall k: HourKey | forall c :: c in items ==> c.pair != k.pair || c.ts != k.hour
      ensures (k in PutAll(before, items) <==> k in before) && (k in before ==> PutAll(before, items)[k] == before[k])
    {
      PutElsewhere(before, items, k);
    }
  }

  /** Rows have distinct keys, so consolidation keeps them all. */
  lemma RowsSurvive(rows: seq<Candle>, raw: map<RawKey, Candle>, k: HourKey)
    requires Keyed(raw) && IsSelection(rows, raw, k.pair, k.hour, k.hour + HOUR)
    requires Aligned(k.hour, HOUR)
    ensures Survivors(rows) == Rows(raw, k)
  {
    forall c ensures c in Rows(raw, k) <==> c in rows {
      if c in rows {
        TruncUnique(c.ts, HOUR, k.hour);
        assert raw[Raw(c)] in Rows(raw, k);
      }
      if c in Rows(raw, k) {
        TruncBounds(c.ts, HOUR);
      }
    }
    hide Rows, Trunc, Aligned;
    SurvivorsAreItems(rows);
    forall c | c in rows ensures c in Survivors(rows) {
      var i :| 0 <= i < |rows| && rows[i] == c;
      forall j | i < j < |rows| ensures Key(rows[j]) != Key(rows[i]) {
        assert rows[j] in rows && rows[i] in rows;
      }
      assert LastOfItsKey(rows, i);
    }
  }

  /** The roll-up of one hour's rows is one candle, its bar. */
  lemma OneBar(rows: seq<Candle>, raw: map<RawKey, Candle>, k: HourKey, out: seq<Candle>)
    requires Keyed(raw) && IsSelection(rows, raw, k.pair, k.hour, k.hour + HOUR)
    requires Aligned(k.hour, HOUR) && Rows(raw, k) != {}
    requires IsRollUp(out, "1h", rows)
    ensures |out| == 1 && out[0].pair == k.pair && out[0].ts == k.hour && BarIn(out[0]) == BarOf(Rows(raw, k))
  {
    hide Survivors, BarOf, Rows, Earliest, Latest, Keyed, Trunc;
    RowsSurvive(rows, raw, k);
    SurvivorsAreItems(rows);
    OneHourRolledUp(rows, Rows(raw, k), k, out);
  }

  lemma OneHourRolledUp(rows: seq<Candle>, s: set<Candle>, k: HourKey, out: seq<Candle>)
    requires s != {} && s == Survivors(rows) && Aligned(k.hour, HOUR)
    requires forall c :: c in s ==> c in rows && c.pair == k.pair && k.hour <= c.ts < k.hour + HOUR
    requires IsRollUp(out, "1h", rows)
    ensures |out| == 1 && out[0].pair == k.pair && out[0].ts == k.hour && BarIn(out[0]) == BarOf(s)
  {
    hide Survivors, BarOf, Earliest, Latest, IsBucketBar;
    forall c | c in s ensures BucketKey("1h", c.ts) == k.hour {
      TruncUnique(c.ts, HOUR, k.hour);
    }
    hide BucketKey, Trunc, Aligned;
    forall o | o in out ensures o.ts == k.hour && o.pair == k.pair && BarIn(o) == BarOf(s) {
      BarOfHour(o, s, k);
    }
    var c :| c in s;
    var o :| o in out && o.ts == BucketKey("1h", c.ts);
    assert out[0] in out && out[|out| - 1] in out;
    assert out[0].ts == out[|out| - 1].ts;
  }

  lemma BarOfHour(o: Candle, s: set<Candle>, k: HourKey)
    requires IsBucketBar(o, "1h", s)
    requires forall c :: c in s ==> BucketKey("1h", c.ts) == k.hour && c.pair == k.pair
    ensures o.ts == k.hour && o.pair == k.pair && BarIn(o) == BarOf(s)
  {
    hide BarOf, BucketKey, Earliest, Latest;
    var b := InBucket(s, "1h", o.ts);
    var c :| c in b && c.pair == o.pair;
    assert b == s;
  }

  class IngestService {
    const store: MarketStore

    constructor (store: MarketStore)
      ensures this.store == store
    {
      this.store := store;
    }

    /** Persists the samples, rebuilds the hour of the first one; tells which pair to notify. */
    method IngestRealtimeCandles(candles: seq<Candle>) returns (notified: Option<string>)
      requires store.Valid()
      modifies store
      ensures store.Valid()
      ensures store.View() == Ingest(old(store.View()), candles)
      ensures notified == if candles == [] then None else Some(candles[0].pair)
    {
      if |candles| == 0 {
        return None;
      }
      hide UpsertAll, IsRollUp, Rows, BarOf, Ingest, Hour, Keyed, PutAll, Trunc, Aligned, IsSelection, Bars, BarIn, Survivors, AreStored, ArePut;
      ghost var before, hourly := store.View(), store.hourly;
      var first := candles[0];
      store.UpsertRawCandles(candles);
      TouchedHourHasRows(before.raw, candles, first);
      var consolidated := RebuildHour(first);
      store.UpsertCandles(consolidated);
      OneHourPut(before, hourly, candles, consolidated);
      notified := Some(first.pair);
    }

    /** The consolidated candle of the hour of a stored sample, from all its rows. */
    method RebuildHour(first: Candle) returns (consolidated: seq<Candle>)
      requires store.Valid() && Rows(store.raw, Hour(first)) != {}
      ensures |consolidated| == 1 && HourKey(consolidated[0].pair, consolidated[0].ts) == Hour(first)
      ensures BarIn(consolidated[0]) == BarOf(Rows(store.raw, Hour(first)))
    {
      hide IsRollUp, Rows, BarOf, Keyed, Trunc, Aligned, IsSelection, BarIn, Survivors;
      var windowStart := Trunc(first.ts, HOUR);
      var windowEnd := windowStart + HOUR;
      var rawCandles := store.RawCandles(first.pair, windowStart, windowEnd);
      var rolledUp := FromRaw("1h", rawCandles);
      TruncBounds(first.ts, HOUR);
      OneBar(rawCandles, store.raw, Hour(first), rolledUp.value);
      consolidated := rolledUp.value;
    }
  }

  ghost function Bars(hourly: map<HourKey, Candle>): map<HourKey, Bar> { map k | k in hourly :: BarIn(hourly[k]) }

  /** Upserting the one rebuilt candle is what Ingest says. */
  lemma OneHourPut(before: Store, hourly: map<HourKey, Candle>, candles: seq<Candle>, out: seq<Candle>)
    requires candles != [] && before.bars == Bars(hourly)
    requires
      var rows := Rows(UpsertAll(before.raw, candles), Hour(candles[0]));
      && rows != {} && |out| == 1 && HourKey(out[0].pair, out[0].ts) == Hour(candles[0]) && BarIn(out[0]) == BarOf(rows)
    ensures Store(UpsertAll(before.raw, candles), Bars(PutAll(hourly, out))) == Ingest(before, candles)
  {
    hide UpsertAll, Rows, BarOf, Hour;
    OnePut(hourly, out);
    hide PutAll;
    assert Bars(hourly[Hour(candles[0]) := out[0]]) == Bars(hourly)[Hour(candles[0]) := BarIn(out[0])];
  }

  lemma OnePut(hourly: map<HourKey, Candle>, items: seq<Candle>)
    requires |items| == 1
    ensures PutAll(hourly, items) == hourly[HourKey(items[0].pair, items[0].ts) := items[0]]
  {
    assert items[..0] == [];
  }

  class MarketEventConsumer {
    const sink: IngestService

    constructor (sink: IngestService)
      ensures this.sink == sink
    {
      this.sink := sink;
    }

    /** Groups the decodable messages and ingests the groups in order of first appearance. */
    method HandleBatch(messages: seq<Message>)
      requires sink.store.Valid()
      modifies sink.store
      ensures sink.store.Valid() && sink.store.View() == Handled(old(sink.store.View()), messages)
    {
      var grouped, order := GroupMessages(messages);
      ghost var groups, s := Groups(Valid(messages)), sink.store.View();
      GroupsOf(Valid(messages));
      hide *;
      NothingIngested(s);
      for i := 0 to |order|
        invariant sink.store.Valid() && sink.store.View() == IngestAll(s, groups[..i])
      {
        IngestedOneMore(s, groups, i);
        var _ := sink.IngestRealtimeCandles(grouped[order[i]]);
      }
      assert groups[..|order|] == groups;
      HandledIs(s, messages);
    }
  }

  lemma GroupsOf(items: seq<Candle>)
    ensures |Groups(items)| == |Order(items)|
    ensures forall i :: 0 <= i < |Order(items)| ==> Order(items)[i] in Order(items) && Groups(items)[i] == Members(items, Order(items)[i])
  {
    hide Order, Members;
  }

  lemma NothingIngested(s: Store)
    ensures forall groups: seq<seq<Candle>> :: IngestAll(s, groups[..0]) == s
  {
    hide Ingest;
  }

  lemma IngestedOneMore(s: Store, groups: seq<seq<Candle>>, i: nat)
    requires i < |groups|
    ensures IngestAll(s, groups[..i + 1]) == Ingest(IngestAll(s, groups[..i]), groups[i])
  {
    hide Ingest;
    assert groups[..i + 1][..i] == groups[..i];
  }

  lemma HandledIs(s: Store, messages: seq<Message>)
    ensures Handled(s, messages) == IngestAll(s, Groups(Valid(messages)))
  {
  }

  ghost predicate IsGroupMap(grouped: map<GroupKey, seq<Candle>>, order: seq<GroupKey>, items: seq<Candle>) {
    && order == Order(items)
    && (forall k :: k in grouped <==> k in order)
    && (forall k :: Members(items, k) == if k in grouped then grouped[k] else [])
  }

  lemma GroupMapOneMore(grouped: map<GroupKey, seq<Candle>>, order: seq<GroupKey>, items: seq<Candle>, c: Candle)
    requires IsGroupMap(grouped, order, items)
    ensures
      var k := GroupKeyOf(c);
      IsGroupMap(grouped[k := (if k in grouped then grouped[k] else []) + [c]],
                 if k in grouped then order else order + [k], items + [c])
  {
    hide Order, Members, GroupKeyOf;
    OneMoreMember(items, c);
  }

  lemma GroupMapNothing()
    ensures IsGroupMap(map[], [], [])
  {
  }

  method GroupMessages(messages: seq<Message>) returns (grouped: map<GroupKey, seq<Candle>>, order: seq<GroupKey>)
    ensures IsGroupMap(grouped, order, Valid(messages))
  {
    hide IsGroupMap, GroupKeyOf;
    grouped, order := map[], [];
    GroupMapNothing();
    for i := 0 to |messages|
      invariant IsGroupMap(grouped, order, Valid(messages[..i]))
    {
      assert messages[..i + 1][..i] == messages[..i];
      if messages[i].Some? {
        var item := messages[i].value;
        var key := GroupKeyOf(item);
        GroupMapOneMore(grouped, order, Valid(messages[..i]), item);
        if key !in grouped {
          order := order + [key];
        }
        grouped := grouped[key := (if key in grouped then grouped[key] else []) + [item]];
      } else {
        assert Valid(messages[..i + 1]) == Valid(messages[..i]);
      }
    }
    assert messages[..|messages|] == messages;
  }

  lemma OneMoreMember(items: seq<Candle>, c: Candle)
    ensures forall k :: Members(items + [c], k) == Members(items, k) + if GroupKeyOf(c) == k then [c] else []
    ensures Order(items + [c]) == if GroupKeyOf(c) in Order(items) then Order(items) else Order(items) + [GroupKeyOf(c)]
  {
    assert (items + [c])[..|items|] == items;
  }
}
