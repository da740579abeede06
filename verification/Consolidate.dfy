/** Candle consolidation (backend/internal/consolidate/consolidate.go). */
module Consolidate {
  import opened Common

  datatype Candle = Candle(pair: string, interval: string, ts: int,
                           open: real, high: real, low: real, close: real, volume: real,
                           source: string, finalized: bool)

  datatype Bar = Bar(open: real, high: real, low: real, close: real, volume: real)

  datatype Result<T> = Ok(value: T) | UnsupportedInterval(interval: string)

  function BarIn(c: Candle): Bar { Bar(c.open, c.high, c.low, c.close, c.volume) }

  /** The snapshot identity of a raw sample; the source prints it as "ts:source", which is injective. */
  datatype SampleKey = SampleKey(ts: int, source: string)

  function Key(c: Candle): SampleKey { SampleKey(c.ts, c.source) }

  function OpenOf(c: Candle): real { c.open }
  function HighOf(c: Candle): real { c.high }
  function LowOf(c: Candle): real { c.low }
  function CloseOf(c: Candle): real { c.close }
  function VolumeOf(c: Candle): real { c.volume }
  function TimeOf(c: Candle): real { c.ts as real }

  // ---------- the bar of a set of samples ----------

  /** The samples that no later sample with the same key replaces. */
  ghost function Survivors(items: seq<Candle>): set<Candle> {
    set i | 0 <= i < |items| && LastOfItsKey(items, i) :: items[i]
  }

  predicate LastOfItsKey(items: seq<Candle>, i: nat)
    requires i < |items|
  {
    forall j :: i < j < |items| ==> Key(items[j]) != Key(items[i])
  }

  ghost function Least(s: set<Candle>, f: Candle -> real): (r: real)
    requires s != {}
    ensures exists c :: c in s && f(c) == r
    ensures forall c :: c in s ==> r <= f(c)
  {
    var x :| x in s;
    if s == {x} then f(x)
    else
      assert s - {x} != {};
      Min(f(x), Least(s - {x}, f))
  }

  ghost function Greatest(s: set<Candle>, f: Candle -> real): (r: real)
    requires s != {}
    ensures exists c :: c in s && f(c) == r
    ensures forall c :: c in s ==> f(c) <= r
  {
    -Least(s, (c: Candle) => -f(c))
  }

  ghost function Earliest(s: set<Candle>): (t: int)
    requires s != {}
    ensures exists c :: c in s && c.ts == t
    ensures forall c :: c in s ==> t <= c.ts
  {
    var r := Least(s, TimeOf);
    r.Floor
  }

  ghost function Latest(s: set<Candle>): (t: int)
    requires s != {}
    ensures exists c :: c in s && c.ts == t
    ensures forall c :: c in s ==> c.ts <= t
  {
    var r := Greatest(s, TimeOf);
    r.Floor
  }

  ghost function AtTime(s: set<Candle>, t: int): set<Candle> { set c | c in s && c.ts == t }

  ghost function Mean(s: set<Candle>, f: Candle -> real): real
    requires s != {}
  {
    SetSum(s, f) / (|s| as real)
  }

  /** Opens averaged over the sources at the first instant, closes over those at the last one. */
  ghost function BarOf(s: set<Candle>): Bar
    requires s != {}
  {
    EndsOccur(s);
    Bar(Mean(AtTime(s, Earliest(s)), OpenOf),
        Greatest(s, HighOf), Least(s, LowOf),
        Mean(AtTime(s, Latest(s)), CloseOf),
        SetSum(s, VolumeOf))
  }

  lemma EndsOccur(s: set<Candle>)
    requires s != {}
    ensures AtTime(s, Earliest(s)) != {} && AtTime(s, Latest(s)) != {}
  {
    hide Earliest, Latest;
    var c :| c in s && c.ts == Earliest(s);
    var d :| d in s && d.ts == Latest(s);
    assert c in AtTime(s, Earliest(s)) && d in AtTime(s, Latest(s));
  }

  lemma BarParts(s: set<Candle>)
    requires s != {}
    ensures AtTime(s, Earliest(s)) != {} && BarOf(s).open == Mean(AtTime(s, Earliest(s)), OpenOf)
    ensures AtTime(s, Latest(s)) != {} && BarOf(s).close == Mean(AtTime(s, Latest(s)), CloseOf)
    ensures BarOf(s).high == Greatest(s, HighOf) && BarOf(s).low == Least(s, LowOf)
    ensures BarOf(s).volume == SetSum(s, VolumeOf)
  {
    hide AtTime, Earliest, Latest, Mean, Greatest, Least, SetSum;
    EndsOccur(s);
  }

  function BucketKey(interval: string, ts: int): int {
    if interval == "1h" || interval == "realtime" then Trunc(ts, HOUR) else ts
  }

  ghost function InBucket(s: set<Candle>, interval: string, b: int): set<Candle> {
    set c | c in s && BucketKey(interval, c.ts) == b
  }

  /** What FromRaw returns: one candle per non-empty bucket, in time order, each the bar of its survivors. */
  ghost predicate IsRollUp(out: seq<Candle>, interval: string, items: seq<Candle>) {
    && (forall i, j :: 0 <= i < j < |out| ==> out[i].ts < out[j].ts)
    && (forall c :: c in items ==> exists o :: o in out && o.ts == BucketKey(interval, c.ts))
    && (forall o :: o in out ==> IsBucketBar(o, interval, Survivors(items)))
  }

  ghost predicate IsBucketBar(o: Candle, interval: string, samples: set<Candle>) {
    IsBarOfSet(o, interval, InBucket(samples, interval, o.ts))
  }

  ghost predicate IsBarOfSet(o: Candle, interval: string, s: set<Candle>) {
    && s != {} && BarIn(o) == BarOf(s)
    && o.interval == interval && o.source == "consolidated"
    && (exists c :: c in s && c.ts == Earliest(s) && c.pair == o.pair)
    && (exists c :: c in s && c.ts == Latest(s) && c.finalized == o.finalized)
  }

  // ---------- grouping ----------

  /** The items of one group, in input order. */
  function Group(items: seq<Candle>, key: Candle -> int, b: int): seq<Candle> {
    if items == [] then []
    else Group(items[..|items| - 1], key, b) + if key(items[|items| - 1]) == b then [items[|items| - 1]] else []
  }

  function DayOf(c: Candle): int { Trunc(c.ts, DAY) }

  function BucketOf(interval: string): Candle -> int { (c: Candle) => BucketKey(interval, c.ts) }
  // ---------- the survivors ----------

  lemma SurvivorExists(items: seq<Candle>, i: nat)
    requires i < |items|
    ensures exists c :: c in Survivors(items) && Key(c) == Key(items[i])
    decreases |items| - i
  {
    if LastOfItsKey(items, i) {
      assert items[i] in Survivors(items);
    } else {
      var j :| i < j < |items| && Key(items[j]) == Key(items[i]);
      SurvivorExists(items, j);
    }
  }

  lemma SurvivorsAreItems(items: seq<Candle>)
    ensures forall c :: c in Survivors(items) ==> c in items
    ensures forall c, d :: c in Survivors(items) && d in Survivors(items) && Key(c) == Key(d) ==> c == d
  {
  }

  /** Upserting one more sample: it replaces the survivor with its key. */
  lemma SurvivorsSnoc(items: seq<Candle>, c: Candle)
    ensures Survivors(items + [c]) == (set d | d in Survivors(items) && Key(d) != Key(c)) + {c}
  {
    var all := items + [c];
    assert LastOfItsKey(all, |items|) && all[|items|] == c;
    forall d | d in Survivors(items) && Key(d) != Key(c) ensures d in Survivors(all) {
      var i :| 0 <= i < |items| && LastOfItsKey(items, i) && items[i] == d;
      assert all[i] == d && LastOfItsKey(all, i);
    }
    forall d | d in Survivors(all) && d != c ensures d in Survivors(items) && Key(d) != Key(c) {
      var i :| 0 <= i < |all| && LastOfItsKey(all, i) && all[i] == d;
      assert Key(all[|items|]) != Key(all[i]);
      assert LastOfItsKey(items, i) by {
        forall j | i < j < |items| ensures Key(items[j]) != Key(items[i]) {
          assert all[j] == items[j];
        }
      }
    }
    assert c in Survivors(all);
    assert forall d :: d in Survivors(all) && d == c ==> d in {c};
  }

  /** The samples with one key, in input order. */
  function OfKey(items: seq<Candle>, k: SampleKey): seq<Candle> {
    if items == [] then []
    else OfKey(items[..|items| - 1], k) + if Key(items[|items| - 1]) == k then [items[|items| - 1]] else []
  }

  lemma OfKeySnoc(items: seq<Candle>, c: Candle, k: SampleKey)
    ensures OfKey(items + [c], k) == OfKey(items, k) + if Key(c) == k then [c] else []
  {
    assert (items + [c])[..|items|] == items;
  }

  ghost predicate IsLastOf(c: Candle, s: seq<Candle>) { s != [] && s[|s| - 1] == c }

  lemma {:induction false} SurvivorIsLast(items: seq<Candle>, c: Candle)
    ensures c in Survivors(items) <==> IsLastOf(c, OfKey(items, Key(c)))
  {
    if items == [] {
      assert OfKey(items, Key(c)) == [];
    } else {
      var front, last := items[..|items| - 1], items[|items| - 1];
      SurvivorsSnoc(front, last);
      SurvivorIsLast(front, c);
      OfKeyHasKey(front, Key(c));
      OfKeySnoc(front, last, Key(c));
      hide Survivors, OfKey;
      assert items == front + [last];
    }
  }

  lemma {:induction false} OfKeyHasKey(items: seq<Candle>, k: SampleKey)
    ensures forall c :: c in OfKey(items, k) ==> Key(c) == k
  {
    if items != [] {
      OfKeyHasKey(items[..|items| - 1], k);
    }
  }

  /** Deterministic: any reordering that keeps the order of samples with equal keys gives the same roll-up. */
  lemma OnlyEqualKeysAreOrdered(x: seq<Candle>, y: seq<Candle>, interval: string, out: seq<Candle>)
    requires forall k :: OfKey(x, k) == OfKey(y, k)
    ensures Survivors(x) == Survivors(y)
    ensures IsRollUp(out, interval, x) <==> IsRollUp(out, interval, y)
  {
    forall c ensures c in Survivors(x) <==> c in Survivors(y) {
      SurvivorIsLast(x, c);
      SurvivorIsLast(y, c);
    }
    BucketsOfSurvivors(x, interval, out);
    BucketsOfSurvivors(y, interval, out);
  }

  /** The buckets that occur in the input are the buckets of its survivors. */
  lemma BucketsOfSurvivors(items: seq<Candle>, interval: string, out: seq<Candle>)
    ensures (forall c :: c in items ==> exists o :: o in out && o.ts == BucketKey(interval, c.ts))
        <==> (forall c :: c in Survivors(items) ==> exists o :: o in out && o.ts == BucketKey(interval, c.ts))
  {
    SurvivorsAreItems(items);
    if forall c :: c in Survivors(items) ==> exists o :: o in out && o.ts == BucketKey(interval, c.ts) {
      forall c | c in items ensures exists o :: o in out && o.ts == BucketKey(interval, c.ts) {
        var i :| 0 <= i < |items| && items[i] == c;
        SurvivorExists(items, i);
        var d :| d in Survivors(items) && Key(d) == Key(c);
        assert d.ts == c.ts;
      }
    }
  }

  function TimesOf(x: seq<Candle>): (times: seq<int>)
    ensures |times| == |x| && forall i :: 0 <= i < |x| ==> times[i] == x[i].ts
  {
    seq(|x|, i requires 0 <= i < |x| => x[i].ts)
  }

  /** Two roll-ups of one input have the same bars at the same times. */
  lemma RollUpIsDetermined(x: seq<Candle>, y: seq<Candle>, interval: string, items: seq<Candle>)
    requires IsRollUp(x, interval, items) && IsRollUp(y, interval, items)
    ensures |x| == |y| && forall i :: 0 <= i < |x| ==> x[i].ts == y[i].ts && BarIn(x[i]) == BarIn(y[i])
  {
    hide BarOf, Survivors, BucketKey;
    TimesCover(x, y, interval, items);
    TimesCover(y, x, interval, items);
    assert Increasing(TimesOf(x)) && Increasing(TimesOf(y));
    SameIncreasing(TimesOf(x), TimesOf(y));
    forall i | 0 <= i < |x| ensures x[i].ts == y[i].ts && BarIn(x[i]) == BarIn(y[i]) {
      assert TimesOf(x)[i] == TimesOf(y)[i];
      assert x[i] in x && y[i] in y;
    }
  }

  lemma TimesCover(x: seq<Candle>, y: seq<Candle>, interval: string, items: seq<Candle>)
    requires IsRollUp(x, interval, items) && IsRollUp(y, interval, items)
    ensures Covers(TimesOf(x), TimesOf(y))
  {
    hide IsRollUp, Occurs;
    forall i | 0 <= i < |TimesOf(y)| ensures Occurs(TimesOf(y)[i], TimesOf(x)) {
      TimeOfRollUp(y, interval, items, i);
      RollUpHasTime(x, interval, items, TimesOf(y)[i]);
    }
  }

  ghost predicate IsBucket(items: seq<Candle>, interval: string, t: int) {
    exists c :: c in items && BucketKey(interval, c.ts) == t
  }

  lemma TimeOfRollUp(x: seq<Candle>, interval: string, items: seq<Candle>, i: nat)
    requires IsRollUp(x, interval, items) && i < |x|
    ensures IsBucket(items, interval, TimesOf(x)[i])
  {
    hide BarOf, BucketKey, Survivors, BarIn;
    assert x[i] in x;
    BucketOccurs(x[i], interval, items);
  }

  lemma RollUpHasTime(x: seq<Candle>, interval: string, items: seq<Candle>, t: int)
    requires IsRollUp(x, interval, items) && IsBucket(items, interval, t)
    ensures Occurs(t, TimesOf(x))
  {
    hide BarOf, BucketKey, Survivors, BarIn, IsBucketBar;
    var c :| c in items && BucketKey(interval, c.ts) == t;
    var o :| o in x && o.ts == BucketKey(interval, c.ts);
    var i :| 0 <= i < |x| && x[i] == o;
    assert TimesOf(x)[i] == t;
  }

  lemma BucketOccurs(o: Candle, interval: string, items: seq<Candle>)
    requires InBucket(Survivors(items), interval, o.ts) != {}
    ensures exists c :: c in items && BucketKey(interval, c.ts) == o.ts
  {
    SurvivorsAreItems(items);
    var c :| c in InBucket(Survivors(items), interval, o.ts);
    assert c in items;
  }

  ghost predicate Occurs(x: int, a: seq<int>) { exists j :: 0 <= j < |a| && a[j] == x }

  /** Every element of b occurs in a. */
  ghost predicate Covers(a: seq<int>, b: seq<int>) { forall i :: 0 <= i < |b| ==> Occurs(b[i], a) }

  lemma LastCovers(a: seq<int>, b: seq<int>)
    requires Increasing(a) && Covers(a, b) && b != []
    ensures a != [] && b[|b| - 1] <= a[|a| - 1]
  {
    assert Occurs(b[|b| - 1], a);
    var j :| 0 <= j < |a| && a[j] == b[|b| - 1];
  }

  lemma FrontCovers(a: seq<int>, b: seq<int>)
    requires Increasing(b) && Covers(a, b) && a != [] && b != [] && a[|a| - 1] == b[|b| - 1]
    ensures Covers(a[..|a| - 1], b[..|b| - 1])
  {
    var front := a[..|a| - 1];
    forall i | 0 <= i < |b| - 1 ensures Occurs(b[i], front) {
      assert Occurs(b[i], a);
      var j :| 0 <= j < |a| && a[j] == b[i];
      assert front[j] == b[i];
    }
  }

  lemma FrontIncreases(a: seq<int>)
    requires Increasing(a) && a != []
    ensures Increasing(a[..|a| - 1])
  {
  }

  /** A strictly increasing sequence is determined by its elements. */
  lemma {:induction false} SameIncreasing(a: seq<int>, b: seq<int>)
    requires Increasing(a) && Increasing(b) && Covers(a, b) && Covers(b, a)
    ensures a == b
  {
    if a != [] {
      LastCovers(b, a);
    }
    if b != [] {
      LastCovers(a, b);
      FrontCovers(a, b);
      FrontCovers(b, a);
      FrontIncreases(a);
      FrontIncreases(b);
      hide Increasing, Covers;
      SameIncreasing(a[..|a| - 1], b[..|b| - 1]);
      assert a == a[..|a| - 1] + [a[|a| - 1]] && b == b[..|b| - 1] + [b[|b| - 1]];
    }
  }

  // ---------- well-formed bars ----------

  predicate WellFormed(b: Bar) { b.low <= b.open <= b.high && b.low <= b.close <= b.high }

  lemma {:induction false} SumBounds(s: set<Candle>, f: Candle -> real, lo: real, hi: real)
    requires forall c :: c in s ==> lo <= f(c) <= hi
    ensures Times(lo, |s| as real) <= SetSum(s, f) <= Times(hi, |s| as real)
    decreases s
  {
    hide Times;
    if s == {} {
      TimesZero(lo);
      TimesZero(hi);
    } else {
      var x :| x in s;
      SumRemove(s, f, x);
      hide SetSum;
      SumBounds(s - {x}, f, lo, hi);
      var n := |s - {x}| as real;
      assert |s| as real == n + 1.0;
      TimesOneMore(lo, n);
      TimesOneMore(hi, n);
    }
  }

  lemma MeanBounds(s: set<Candle>, f: Candle -> real, lo: real, hi: real)
    requires s != {} && forall c :: c in s ==> lo <= f(c) <= hi
    ensures lo <= Mean(s, f) <= hi
  {
    SumBounds(s, f, lo, hi);
    Quotient(SetSum(s, f), |s| as real, lo, hi);
  }

  lemma Quotient(x: real, n: real, lo: real, hi: real)
    requires n > 0.0 && Times(lo, n) <= x <= Times(hi, n)
    ensures lo <= x / n <= hi
  {
    var q := x / n;
    assert x == q * n;
    assert q < lo ==> (lo - q) * n > 0.0;
    assert q > hi ==> (q - hi) * n > 0.0;
  }

  /** Consolidation keeps candles well formed. */
  lemma BarWellFormed(s: set<Candle>)
    requires s != {} && forall c :: c in s ==> WellFormed(BarIn(c))
    ensures WellFormed(BarOf(s))
  {
    hide BarOf, Mean, Least, Greatest, Earliest, Latest;
    BarParts(s);
    var lo, hi := Least(s, LowOf), Greatest(s, HighOf);
    forall c | c in s ensures lo <= OpenOf(c) <= hi && lo <= CloseOf(c) <= hi {
      assert lo <= LowOf(c) && HighOf(c) <= hi && WellFormed(BarIn(c));
    }
    hide OpenOf, CloseOf, HighOf, LowOf;
    MeanBounds(AtTime(s, Earliest(s)), OpenOf, lo, hi);
    MeanBounds(AtTime(s, Latest(s)), CloseOf, lo, hi);
  }

  lemma BucketBarWellFormed(o: Candle, interval: string, samples: set<Candle>)
    requires IsBucketBar(o, interval, samples)
    requires forall c :: c in samples ==> WellFormed(BarIn(c))
    ensures WellFormed(BarIn(o))
  {
    hide BarOf, WellFormed, BarIn, BucketKey;
    BarWellFormed(InBucket(samples, interval, o.ts));
  }

  lemma RollUpWellFormed(out: seq<Candle>, interval: string, items: seq<Candle>)
    requires IsRollUp(out, interval, items)
    requires forall c :: c in items ==> WellFormed(BarIn(c))
    ensures forall o :: o in out ==> WellFormed(BarIn(o))
  {
    hide WellFormed, BarIn, IsBucketBar;
    SurvivorsAreItems(items);
    hide Survivors, BucketKey;
    forall o | o in out ensures WellFormed(BarIn(o)) {
      BucketBarWellFormed(o, interval, Survivors(items));
    }
  }

  // ---------- days from hours ----------


  /** Open of an earliest item, close of a latest one, extremes and volume over all of them. */
  ghost predicate IsDayBar(o: Candle, g: multiset<Candle>) {
    && (exists a :: a in g && (forall c :: c in g ==> a.ts <= c.ts) && o.open == a.open && o.pair == a.pair)
    && (exists z :: z in g && (forall c :: c in g ==> c.ts <= z.ts) && o.close == z.close)
    && (exists c :: c in g && c.high == o.high) && (forall c :: c in g ==> c.high <= o.high)
    && (exists c :: c in g && c.low == o.low) && (forall c :: c in g ==> o.low <= c.low)
    && o.volume == BagSum(g, VolumeOf)
    && o.interval == "1d" && o.source == "consolidated" && o.finalized
  }

  /** What DailyFromHourly returns: one candle per day that has an item, in time order. */
  ghost predicate IsDaily(out: seq<Candle>, items: seq<Candle>) {
    && (forall i, j :: 0 <= i < j < |out| ==> out[i].ts < out[j].ts)
    && (forall c :: c in items ==> exists o :: o in out && o.ts == Trunc(c.ts, DAY))
    && (forall o :: o in out ==> Group(items, DayOf, o.ts) != [] && IsDayBar(o, multiset(Group(items, DayOf, o.ts))))
  }

  ghost function Day(s: set<Candle>, day: int): set<Candle> { set c | c in s && Trunc(c.ts, DAY) == day }

  lemma {:induction false} DayItemsAre(items: seq<Candle>, day: int)
    ensures forall c :: multiset(Group(items, DayOf, day))[c] == if Trunc(c.ts, DAY) == day then multiset(items)[c] else 0
  {
    if items != [] {
      DayItemsAre(items[..|items| - 1], day);
      assert items == items[..|items| - 1] + [items[|items| - 1]];
    }
  }

  /** The hours of one day, as a set; a roll-up repeats none of them. */
  ghost function HoursOf(hourly: seq<Candle>, day: int): set<Candle> { set c | c in hourly && Trunc(c.ts, DAY) == day }

  lemma DayItemsOfRollUp(hourly: seq<Candle>, day: int)
    requires forall i, j :: 0 <= i < j < |hourly| ==> hourly[i].ts < hourly[j].ts
    ensures multiset(Group(hourly, DayOf, day)) == multiset(HoursOf(hourly, day))
  {
    DayItemsAre(hourly, day);
    assert Distinct(hourly);
    DistinctMultiplicity(hourly);
    forall c ensures multiset(Group(hourly, DayOf, day))[c] == multiset(HoursOf(hourly, day))[c] {
      assert c in hourly <==> c in multiset(hourly);
    }
  }

  /** The samples behind one hourly candle. */
  ghost function Behind(o: Candle, samples: set<Candle>): set<Candle> { InBucket(samples, "1h", o.ts) }

  lemma BarVolume(o: Candle, samples: set<Candle>)
    requires IsBucketBar(o, "1h", samples)
    ensures VolumeOf(o) == SetSum(Behind(o, samples), VolumeOf)
  {
    hide SetSum, Trunc, BarOf;
    BarParts(Behind(o, samples));
    assert BarIn(o).volume == BarOf(Behind(o, samples)).volume;
  }

  /** The samples behind any of the hours. */
  ghost function BehindAll(hours: set<Candle>, samples: set<Candle>): set<Candle> {
    set c | c in samples && exists o :: o in hours && o.ts == Trunc(c.ts, HOUR)
  }

  lemma BehindSplits(hours: set<Candle>, samples: set<Candle>, o: Candle)
    requires o in hours && forall p :: p in hours && p.ts == o.ts ==> p == o
    ensures BehindAll(hours, samples) == BehindAll(hours - {o}, samples) + Behind(o, samples)
    ensures BehindAll(hours - {o}, samples) !! Behind(o, samples)
  {
    hide Trunc;
    forall c | c in BehindAll(hours, samples) && c !in Behind(o, samples)
      ensures c in BehindAll(hours - {o}, samples)
    {
      var p :| p in hours && p.ts == Trunc(c.ts, HOUR);
      assert p in hours - {o};
    }
  }

  lemma {:induction false} VolumeOfHours(hours: set<Candle>, samples: set<Candle>)
    requires forall o :: o in hours ==> IsBucketBar(o, "1h", samples)
    requires forall o, p :: o in hours && p in hours && o.ts == p.ts ==> o == p
    ensures SetSum(hours, VolumeOf) == SetSum(BehindAll(hours, samples), VolumeOf)
    decreases hours
  {
    hide IsBucketBar, Behind;
    if hours == {} {
      assert BehindAll(hours, samples) == {};
    } else {
      hide BehindAll;
      var o :| o in hours;
      VolumeOfHours(hours - {o}, samples);
      BehindSplits(hours, samples, o);
      SumRemove(hours, VolumeOf, o);
      SumUnion(BehindAll(hours - {o}, samples), Behind(o, samples), VolumeOf);
      BarVolume(o, samples);
    }
  }

  lemma FirstOfDay(a: Candle, hours: set<Candle>, samples: set<Candle>, day: set<Candle>)
    requires a in hours && IsBucketBar(a, "1h", samples) && forall o :: o in hours ==> a.ts <= o.ts
    requires day <= samples && Behind(a, samples) <= day
    requires forall c :: c in day ==> exists o :: o in hours && o.ts == Trunc(c.ts, HOUR)
    ensures day != {} && AtTime(day, Earliest(day)) == AtTime(Behind(a, samples), Earliest(Behind(a, samples)))
  {
    hide BarOf;
    var b := Behind(a, samples);
    forall c | c in day && c !in b ensures c.ts > Earliest(b) {
      var o :| o in hours && o.ts == Trunc(c.ts, HOUR);
      TruncBounds(c.ts, HOUR);
      var e :| e in b && e.ts == Earliest(b);
      TruncBounds(e.ts, HOUR);
      HourGap(a.ts, o.ts, e.ts, c.ts);
    }
    assert Earliest(day) == Earliest(b);
  }

  lemma LastOfDay(z: Candle, hours: set<Candle>, samples: set<Candle>, day: set<Candle>)
    requires z in hours && IsBucketBar(z, "1h", samples) && forall o :: o in hours ==> o.ts <= z.ts
    requires day <= samples && Behind(z, samples) <= day
    requires forall c :: c in day ==> exists o :: o in hours && o.ts == Trunc(c.ts, HOUR)
    ensures day != {} && AtTime(day, Latest(day)) == AtTime(Behind(z, samples), Latest(Behind(z, samples)))
  {
    hide BarOf;
    var b := Behind(z, samples);
    forall c | c in day && c !in b ensures c.ts < Latest(b) {
      var o :| o in hours && o.ts == Trunc(c.ts, HOUR);
      var e :| e in b && e.ts == Latest(b);
      HourGap(o.ts, z.ts, c.ts, e.ts);
    }
    assert Latest(day) == Latest(b);
  }

  /** Samples of different hours are ordered like their hours. */
  lemma HourGap(h: int, k: int, t: int, u: int)
    requires Trunc(t, HOUR) == h <= k == Trunc(u, HOUR) && h != k
    ensures t < u
  {
    TruncBounds(t, HOUR);
    TruncBounds(u, HOUR);
  }

  /** The hourly candles of a day and the samples of that day are made for each other. */
  ghost predicate StagesFit(hours: set<Candle>, samples: set<Candle>, day: set<Candle>) {
    && day <= samples
    && (forall c :: c in day ==> exists o :: o in hours && o.ts == Trunc(c.ts, HOUR))
    && (forall o :: o in hours ==> IsBucketBar(o, "1h", samples) && Behind(o, samples) <= day)
    && (forall o, p :: o in hours && p in hours && o.ts == p.ts ==> o == p)
  }

  lemma RollUpFitsDay(raw: seq<Candle>, hourly: seq<Candle>, d: int)
    requires IsRollUp(hourly, "1h", raw)
    ensures StagesFit(HoursOf(hourly, d), Survivors(raw), Day(Survivors(raw), d))
  {
    hide IsBucketBar, Trunc;
    var samples, hours, day := Survivors(raw), HoursOf(hourly, d), Day(Survivors(raw), d);
    SurvivorsAreItems(raw);
    hide Survivors;
    forall c | c in day ensures exists o :: o in hours && o.ts == Trunc(c.ts, HOUR) {
      var o :| o in hourly && o.ts == BucketKey("1h", c.ts);
      DayOfHour(c.ts);
      assert o in hours;
    }
    forall o | o in hours ensures Behind(o, samples) <= day {
      forall c | c in Behind(o, samples) ensures c in day {
        DayOfHour(c.ts);
      }
    }
  }

  lemma DayOpen(a: Candle, hours: set<Candle>, samples: set<Candle>, day: set<Candle>)
    requires StagesFit(hours, samples, day) && a in hours && forall o :: o in hours ==> a.ts <= o.ts
    ensures day != {} && a.open == BarOf(day).open
  {
    hide BarOf, Mean, Earliest, Latest;
    FirstOfDay(a, hours, samples, day);
    BarParts(day);
    BarParts(Behind(a, samples));
    assert BarIn(a).open == BarOf(Behind(a, samples)).open;
  }

  lemma DayClose(z: Candle, hours: set<Candle>, samples: set<Candle>, day: set<Candle>)
    requires StagesFit(hours, samples, day) && z in hours && forall o :: o in hours ==> o.ts <= z.ts
    ensures day != {} && z.close == BarOf(day).close
  {
    hide BarOf, Mean, Earliest, Latest;
    LastOfDay(z, hours, samples, day);
    BarParts(day);
    BarParts(Behind(z, samples));
    assert BarIn(z).close == BarOf(Behind(z, samples)).close;
  }

  lemma BarExtremes(o: Candle, samples: set<Candle>)
    requires IsBucketBar(o, "1h", samples)
    ensures forall c :: c in Behind(o, samples) ==> o.low <= c.low && c.high <= o.high
    ensures exists c :: c in Behind(o, samples) && c.high == o.high
    ensures exists c :: c in Behind(o, samples) && c.low == o.low
  {
    hide Trunc, BarOf, Greatest, Least;
    var b := Behind(o, samples);
    BarParts(b);
    assert BarIn(o).high == Greatest(b, HighOf) && BarIn(o).low == Least(b, LowOf);
    assert forall c :: c in b ==> LowOf(c) == c.low && HighOf(c) == c.high;
  }

  lemma DayExtremes(o: Candle, hours: set<Candle>, samples: set<Candle>, day: set<Candle>)
    requires StagesFit(hours, samples, day) && day != {}
    requires (exists c :: c in hours && c.high == o.high) && forall c :: c in hours ==> c.high <= o.high
    requires (exists c :: c in hours && c.low == o.low) && forall c :: c in hours ==> o.low <= c.low
    ensures o.high == Greatest(day, HighOf) && o.low == Least(day, LowOf)
  {
    hide IsBucketBar, Trunc, Greatest, Least;
    forall c | c in day ensures o.low <= LowOf(c) && HighOf(c) <= o.high {
      var h :| h in hours && h.ts == Trunc(c.ts, HOUR);
      BarExtremes(h, samples);
      assert c in Behind(h, samples);
    }
    var x :| x in hours && x.high == o.high;
    var y :| y in hours && y.low == o.low;
    BarExtremes(x, samples);
    BarExtremes(y, samples);
    var cx :| cx in Behind(x, samples) && cx.high == x.high;
    var cy :| cy in Behind(y, samples) && cy.low == y.low;
    assert cx in day && HighOf(cx) == o.high;
    assert cy in day && LowOf(cy) == o.low;
  }

  lemma DayVolume(hours: set<Candle>, samples: set<Candle>, day: set<Candle>)
    requires StagesFit(hours, samples, day)
    ensures SetSum(hours, VolumeOf) == SetSum(day, VolumeOf)
  {
    hide BarOf, BarIn, SetSum;
    forall c | c in BehindAll(hours, samples) ensures c in day {
      var o :| o in hours && o.ts == Trunc(c.ts, HOUR);
      assert c in Behind(o, samples);
    }
    assert BehindAll(hours, samples) == day;
    VolumeOfHours(hours, samples);
  }

  lemma StagesMeet(o: Candle, hours: set<Candle>, samples: set<Candle>, day: set<Candle>)
    requires StagesFit(hours, samples, day) && IsDayBar(o, multiset(hours))
    ensures day != {} && BarIn(o) == BarOf(day)
  {
    hide StagesFit, BarOf;
    var g := multiset(hours);
    assert forall c :: c in g <==> c in hours;
    var a :| a in g && (forall c :: c in g ==> a.ts <= c.ts) && o.open == a.open && o.pair == a.pair;
    var z :| z in g && (forall c :: c in g ==> c.ts <= z.ts) && o.close == z.close;
    DayOpen(a, hours, samples, day);
    DayClose(z, hours, samples, day);
    DayExtremes(o, hours, samples, day);
    BagOfSet(hours, VolumeOf);
    DayVolume(hours, samples, day);
    BarParts(day);
  }

  /** Rolling up to hours and then to days gives the bars of the days' surviving raw samples. */
  lemma TwoStagesAreOne(raw: seq<Candle>, hourly: seq<Candle>, daily: seq<Candle>, o: Candle)
    requires IsRollUp(hourly, "1h", raw) && IsDaily(daily, hourly) && o in daily
    ensures Day(Survivors(raw), o.ts) != {}
    ensures BarIn(o) == BarOf(Day(Survivors(raw), o.ts))
  {
    hide BarOf, Survivors, IsBucketBar, HoursOf, Day, IsDayBar;
    DayItemsOfRollUp(hourly, o.ts);
    RollUpFitsDay(raw, hourly, o.ts);
    StagesMeet(o, HoursOf(hourly, o.ts), Survivors(raw), Day(Survivors(raw), o.ts));
  }

  /** The two stages produce a daily candle exactly for the days that have raw samples. */
  lemma TwoStagesSameDays(raw: seq<Candle>, hourly: seq<Candle>, daily: seq<Candle>, d: int)
    requires IsRollUp(hourly, "1h", raw) && IsDaily(daily, hourly)
    ensures (exists o :: o in daily && o.ts == d) <==> exists c :: c in raw && Trunc(c.ts, DAY) == d
  {
    hide BarOf, IsBucketBar, IsDayBar, Trunc;
    SurvivorsAreItems(raw);
    hide Survivors;
    if o :| o in daily && o.ts == d {
      TwoStagesAreOne(raw, hourly, daily, o);
      var c :| c in Day(Survivors(raw), d);
      assert c in raw;
    }
    if c :| c in raw && Trunc(c.ts, DAY) == d {
      var h :| h in hourly && h.ts == BucketKey("1h", c.ts);
      DayOfHour(c.ts);
      assert Trunc(h.ts, DAY) == d;
    }
  }

  // ---------- the same, in the candles' own fields ----------

  /** The last samples of their instant and source among the inputs of one bucket. */
  ghost function SamplesOf(items: seq<Candle>, interval: string, t: int): set<Candle> {
    set i | 0 <= i < |items|
            && (if interval == "1d" then items[i].ts == t else t % 3600 == 0 && t <= items[i].ts < t + 3600)
            && (forall j :: i < j < |items| ==> items[j].ts != items[i].ts || items[j].source != items[i].source)
          :: items[i]
  }

  /** The same for a whole day. */
  ghost function SamplesOfDay(items: seq<Candle>, t: int): set<Candle> {
    set i | 0 <= i < |items| && t % 86400 == 0 && t <= items[i].ts < t + 86400
            && (forall j :: i < j < |items| ==> items[j].ts != items[i].ts || items[j].source != items[i].source)
          :: items[i]
  }

  ghost function First(s: set<Candle>): set<Candle> { set c | c in s && forall d :: d in s ==> c.ts <= d.ts }

  ghost function Last(s: set<Candle>): set<Candle> { set c | c in s && forall d :: d in s ==> d.ts <= c.ts }

  /** The open is the average of the first opens and the close that of the last closes, each within the range of
      what it averages; high and low are those of the samples, and the volume is theirs together. */
  ghost predicate Summarizes(open: real, high: real, low: real, close: real, volume: real, s: set<Candle>) {
    && First(s) != {} && Times(open, |First(s)| as real) == SetSum(First(s), (c: Candle) => c.open)
    && (exists c, d :: c in First(s) && d in First(s) && c.open <= open <= d.open)
    && Last(s) != {} && Times(close, |Last(s)| as real) == SetSum(Last(s), (c: Candle) => c.close)
    && (exists c, d :: c in Last(s) && d in Last(s) && c.close <= close <= d.close)
    && (exists c :: c in s && c.high == high) && (forall c :: c in s ==> c.high <= high)
    && (exists c :: c in s && c.low == low) && (forall c :: c in s ==> low <= c.low)
    && volume == SetSum(s, (c: Candle) => c.volume)
  }

  lemma FirstAre(s: set<Candle>)
    requires s != {}
    ensures First(s) == AtTime(s, Earliest(s)) != {} && Last(s) == AtTime(s, Latest(s)) != {}
  {
    hide Earliest, Latest;
    EndsOccur(s);
    var e :| e in s && e.ts == Earliest(s);
    var l :| l in s && l.ts == Latest(s);
    forall c ensures c in First(s) <==> c in AtTime(s, Earliest(s)) {
    }
    forall c ensures c in Last(s) <==> c in AtTime(s, Latest(s)) {
    }
  }

  lemma MeanTimes(s: set<Candle>, f: Candle -> real)
    requires s != {}
    ensures Times(Mean(s, f), |s| as real) == SetSum(s, f)
  {
  }

  lemma MeanWithin(s: set<Candle>, f: Candle -> real)
    requires s != {}
    ensures exists c, d :: c in s && d in s && f(c) <= Mean(s, f) <= f(d)
  {
    var lo, hi := Least(s, f), Greatest(s, f);
    hide Least, Greatest, Mean;
    var c :| c in s && f(c) == lo;
    var d :| d in s && f(d) == hi;
    MeanBounds(s, f, lo, hi);
    assert f(c) <= Mean(s, f) <= f(d);
  }

  lemma OpensAre(b: Bar, s: set<Candle>)
    requires s != {} && b.open == Mean(s, OpenOf)
    ensures Times(b.open, |s| as real) == SetSum(s, (c: Candle) => c.open)
    ensures exists c, d :: c in s && d in s && c.open <= b.open <= d.open
  {
    MeanTimes(s, OpenOf);
    MeanWithin(s, OpenOf);
    hide Mean, SetSum, Times;
    SameSum(s, OpenOf, (c: Candle) => c.open);
    var c, d :| c in s && d in s && OpenOf(c) <= Mean(s, OpenOf) <= OpenOf(d);
    assert c.open <= b.open <= d.open;
  }

  lemma ClosesAre(b: Bar, s: set<Candle>)
    requires s != {} && b.close == Mean(s, CloseOf)
    ensures Times(b.close, |s| as real) == SetSum(s, (c: Candle) => c.close)
    ensures exists c, d :: c in s && d in s && c.close <= b.close <= d.close
  {
    MeanTimes(s, CloseOf);
    MeanWithin(s, CloseOf);
    hide Mean, SetSum, Times;
    SameSum(s, CloseOf, (c: Candle) => c.close);
    var c, d :| c in s && d in s && CloseOf(c) <= Mean(s, CloseOf) <= CloseOf(d);
    assert c.close <= b.close <= d.close;
  }

  lemma ExtremesAre(b: Bar, s: set<Candle>)
    requires s != {} && b.high == Greatest(s, HighOf) && b.low == Least(s, LowOf)
    ensures (exists c :: c in s && c.high == b.high) && (forall c :: c in s ==> c.high <= b.high)
    ensures (exists c :: c in s && c.low == b.low) && (forall c :: c in s ==> b.low <= c.low)
  {
    hide Least, Greatest;
    var c :| c in s && HighOf(c) == b.high;
    var d :| d in s && LowOf(d) == b.low;
    assert c.high == b.high && d.low == b.low;
    forall x | x in s ensures x.high <= b.high && b.low <= x.low {
      assert HighOf(x) <= b.high && b.low <= LowOf(x);
    }
  }

  /** The bar of a set of samples, spelled out. */
  lemma BarSummarizes(b: Bar, s: set<Candle>)
    requires s != {} && b == BarOf(s)
    ensures Summarizes(b.open, b.high, b.low, b.close, b.volume, s)
  {
    BarParts(s);
    FirstAre(s);
    hide BarOf, Mean, Least, Greatest, Earliest, Latest, AtTime, SetSum, Times, First, Last;
    OpensAre(b, First(s));
    ClosesAre(b, Last(s));
    ExtremesAre(b, s);
    SameSum(s, VolumeOf, (c: Candle) => c.volume);
  }

  lemma HourlyBucket(interval: string, ts: int, t: int)
    requires interval in {"1h", "1d", "realtime"}
    ensures BucketKey(interval, ts) == t <==> if interval == "1d" then ts == t else t % 3600 == 0 && t <= ts < t + 3600
  {
  }

  lemma BucketSamples(items: seq<Candle>, interval: string, t: int)
    requires interval in {"1h", "1d", "realtime"}
    ensures InBucket(Survivors(items), interval, t) == SamplesOf(items, interval, t)
  {
    forall ts ensures BucketKey(interval, ts) == t <==> if interval == "1d" then ts == t else t % 3600 == 0 && t <= ts < t + 3600 {
      HourlyBucket(interval, ts, t);
    }
    hide BucketKey;
    forall c ensures c in InBucket(Survivors(items), interval, t) <==> c in SamplesOf(items, interval, t) {
      if c in InBucket(Survivors(items), interval, t) {
        var i :| 0 <= i < |items| && LastOfItsKey(items, i) && items[i] == c;
      }
      if c in SamplesOf(items, interval, t) {
        var i :| 0 <= i < |items| && items[i] == c && (forall j :: i < j < |items| ==> items[j].ts != items[i].ts || items[j].source != items[i].source);
        assert LastOfItsKey(items, i);
      }
    }
  }

  lemma DayStart(ts: int, t: int)
    ensures Trunc(ts, DAY) == t <==> t % 86400 == 0 && t <= ts < t + 86400
  {
  }

  lemma DaySamples(items: seq<Candle>, t: int)
    ensures Day(Survivors(items), t) == SamplesOfDay(items, t)
  {
    forall ts ensures Trunc(ts, DAY) == t <==> t % 86400 == 0 && t <= ts < t + 86400 {
      DayStart(ts, t);
    }
    hide Trunc;
    forall c ensures c in Day(Survivors(items), t) <==> c in SamplesOfDay(items, t) {
      if c in Day(Survivors(items), t) {
        var i :| 0 <= i < |items| && LastOfItsKey(items, i) && items[i] == c;
      }
      if c in SamplesOfDay(items, t) {
        var i :| 0 <= i < |items| && items[i] == c && t % 86400 == 0 && t <= items[i].ts < t + 86400
                 && (forall j :: i < j < |items| ==> items[j].ts != items[i].ts || items[j].source != items[i].source);
        assert LastOfItsKey(items, i);
      }
    }
  }

  /** The samples determine what summarizes them. */
  lemma SummariesAgree(x: Bar, y: Bar, s: set<Candle>)
    requires Summarizes(x.open, x.high, x.low, x.close, x.volume, s) && Summarizes(y.open, y.high, y.low, y.close, y.volume, s)
    ensures x == y
  {
    hide First, Last, SetSum;
    TimesCancels(x.open, y.open, |First(s)| as real);
    TimesCancels(x.close, y.close, |Last(s)| as real);
  }

  lemma TimesCancels(p: real, q: real, n: real)
    requires n > 0.0 && Times(p, n) == Times(q, n)
    ensures p == q
  {
    TimesSub(p, q, n);
  }

  /** What a roll-up says of each of its candles, in the fields of the samples behind it. */
  ghost predicate IsBucketSummary(o: Candle, interval: string, items: seq<Candle>) {
    var s := SamplesOf(items, interval, o.ts);
    && Summarizes(o.open, o.high, o.low, o.close, o.volume, s)
    && o.interval == interval && o.source == "consolidated"
    && (exists c :: c in First(s) && c.pair == o.pair) && (exists c :: c in Last(s) && c.finalized == o.finalized)
  }

  lemma RollUpSummarizes(out: seq<Candle>, interval: string, items: seq<Candle>)
    requires IsRollUp(out, interval, items) && interval in {"1h", "1d", "realtime"}
    ensures forall o :: o in out ==> IsBucketSummary(o, interval, items)
  {
    hide BarOf, Survivors, InBucket, Summarizes, SamplesOf, Earliest, Latest;
    forall o | o in out ensures IsBucketSummary(o, interval, items) {
      BucketSamples(items, interval, o.ts);
      var s := SamplesOf(items, interval, o.ts);
      BarSummarizes(BarIn(o), s);
      FirstAre(s);
      hide First, Last;
    }
  }

  /** Both stages together, in fields: a daily candle summarizes the raw samples of its day. */
  lemma TwoStagesSummarize(raw: seq<Candle>, hourly: seq<Candle>, daily: seq<Candle>)
    requires IsRollUp(hourly, "1h", raw) && IsDaily(daily, hourly)
    ensures forall o :: o in daily ==> Summarizes(o.open, o.high, o.low, o.close, o.volume, SamplesOfDay(raw, o.ts))
  {
    hide IsRollUp, IsDaily, BarOf, Survivors, Day, SamplesOfDay, Summarizes;
    forall o | o in daily ensures Summarizes(o.open, o.high, o.low, o.close, o.volume, SamplesOfDay(raw, o.ts)) {
      TwoStagesAreOne(raw, hourly, daily, o);
      DaySamples(raw, o.ts);
      BarSummarizes(BarIn(o), Day(Survivors(raw), o.ts));
    }
  }

  // ---------- the code ----------

  method FromRaw(interval: string, items: seq<Candle>) returns (r: Result<seq<Candle>>)
    ensures r.UnsupportedInterval? <==> interval !in {"1h", "1d", "realtime"}
    ensures r.Ok? ==> IsRollUp(r.value, interval, items)
    ensures r.Ok? ==> forall o :: o in r.value ==> IsBucketSummary(o, interval, items)
  {
    if interval != "1h" && interval != "1d" && interval != "realtime" {
      return UnsupportedInterval(interval);
    }
    var out := BucketBars(interval, items);
    RollUpSummarizes(out, interval, items);
    r := Ok(out);
  }

  /** One bar per bucket, in key order; no samples, no bars. */
  method BucketBars(interval: string, items: seq<Candle>) returns (result: seq<Candle>)
    ensures IsRollUp(result, interval, items)
  {
    hide *;
    var grouped := GroupBy(items, BucketOf(interval));
    GroupingFacts(grouped, items, BucketOf(interval));
    var keys := SortedKeys(grouped.Keys);
    result := [];
    for i := 0 to |keys|
      invariant |result| == i
      invariant forall j :: 0 <= j < i ==> result[j].ts == keys[j] && IsBucketBar(result[j], interval, Survivors(items))
    {
      var o := ConsolidateGroup(interval, keys[i], grouped[keys[i]]);
      GroupBar(o, items, interval, keys[i]);
      result := result + [o];
    }
    BucketsInOrder(result, keys, interval, items);
  }

  lemma GroupBar(o: Candle, items: seq<Candle>, interval: string, b: int)
    requires o.ts == b && IsBarOfSet(o, interval, Survivors(Group(items, BucketOf(interval), b)))
    ensures IsBucketBar(o, interval, Survivors(items))
  {
    hide IsBarOfSet, Survivors, InBucket;
    SurvivorsOfBucket(items, interval, b);
  }

  lemma BucketsInOrder(result: seq<Candle>, keys: seq<int>, interval: string, items: seq<Candle>)
    requires |result| == |keys| && forall i, j :: 0 <= i < j < |keys| ==> keys[i] < keys[j]
    requires forall b :: b in keys <==> exists c :: c in items && BucketOf(interval)(c) == b
    requires forall j :: 0 <= j < |keys| ==> result[j].ts == keys[j] && IsBucketBar(result[j], interval, Survivors(items))
    ensures IsRollUp(result, interval, items)
  {
    hide IsBucketBar, Survivors, BucketKey;
    forall c | c in items ensures exists o :: o in result && o.ts == BucketKey(interval, c.ts) {
      assert BucketOf(interval)(c) in keys;
      var j :| 0 <= j < |keys| && keys[j] == BucketKey(interval, c.ts);
      assert result[j] in result;
    }
  }

  /** The map holds exactly the non-empty groups. */
  ghost predicate IsGrouping(grouped: map<int, seq<Candle>>, items: seq<Candle>, key: Candle -> int) {
    && (forall b :: b in grouped <==> exists c :: c in items && key(c) == b)
    && (forall b :: Group(items, key, b) == if b in grouped then grouped[b] else [])
    && (forall b :: b in grouped ==> grouped[b] != [])
  }

  lemma GroupNothing(key: Candle -> int)
    ensures IsGrouping(map[], [], key)
  {
  }

  lemma GroupOneMore(grouped: map<int, seq<Candle>>, items: seq<Candle>, key: Candle -> int, c: Candle)
    requires IsGrouping(grouped, items, key)
    ensures
      var b := key(c);
      IsGrouping(grouped[b := (if b in grouped then grouped[b] else []) + [c]], items + [c], key)
  {
    hide Group;
    forall b ensures Group(items + [c], key, b) == Group(items, key, b) + if b == key(c) then [c] else [] {
      GroupSnoc(items, key, b, c);
    }
    assert forall d :: d in items + [c] <==> d in items || d == c;
  }

  lemma GroupingFacts(grouped: map<int, seq<Candle>>, items: seq<Candle>, key: Candle -> int)
    requires IsGrouping(grouped, items, key)
    ensures forall b :: b in grouped <==> exists c :: c in items && key(c) == b
    ensures forall b :: b in grouped ==> grouped[b] == Group(items, key, b) != []
  {
  }

  method GroupBy(items: seq<Candle>, key: Candle -> int) returns (grouped: map<int, seq<Candle>>)
    ensures IsGrouping(grouped, items, key)
  {
    hide *;
    grouped := map[];
    GroupNothing(key);
    for i := 0 to |items|
      invariant IsGrouping(grouped, items[..i], key)
    {
      var k := key(items[i]);
      GroupOneMore(grouped, items[..i], key, items[i]);
      assert items[..i + 1] == items[..i] + [items[i]];
      grouped := grouped[k := (if k in grouped then grouped[k] else []) + [items[i]]];
    }
    assert items[..|items|] == items;
  }

  lemma GroupSnoc(items: seq<Candle>, key: Candle -> int, b: int, c: Candle)
    ensures Group(items + [c], key, b) == Group(items, key, b) + if b == key(c) then [c] else []
  {
    assert (items + [c])[..|items|] == items;
  }

  lemma BucketOfKey(c: Candle, interval: string)
    ensures forall d :: Key(d) == Key(c) ==> BucketKey(interval, d.ts) == BucketKey(interval, c.ts)
  {
  }

  lemma {:induction false} SurvivorsOfBucket(items: seq<Candle>, interval: string, b: int)
    ensures Survivors(Group(items, BucketOf(interval), b)) == InBucket(Survivors(items), interval, b)
  {
    if items != [] {
      hide BucketKey, Survivors;
      var front, last := items[..|items| - 1], items[|items| - 1];
      assert items == front + [last];
      SurvivorsOfBucket(front, interval, b);
      SurvivorsSnoc(front, last);
      SurvivorsSnoc(Group(front, BucketOf(interval), b), last);
      BucketOfKey(last, interval);
      assert Group(items, BucketOf(interval), b)
          == Group(front, BucketOf(interval), b) + if BucketKey(interval, last.ts) == b then [last] else [];
      if BucketKey(interval, last.ts) != b {
        assert Group(items, BucketOf(interval), b) == Group(front, BucketOf(interval), b);
      }
    } else {
      assert Survivors([]) == {};
    }
  }

  /** Last snapshot per (timestamp, source) wins. */
  method Deduplicate(group: seq<Candle>) returns (unique: map<SampleKey, Candle>)
    ensures unique.Values == Survivors(group)
    ensures forall k :: k in unique ==> Key(unique[k]) == k
  {
    unique := map[];
    for i := 0 to |group|
      invariant unique.Values == Survivors(group[..i])
      invariant forall k :: k in unique ==> Key(unique[k]) == k
    {
      SurvivorsSnoc(group[..i], group[i]);
      assert group[..i + 1] == group[..i] + [group[i]];
      ghost var was := unique;
      unique := unique[Key(group[i]) := group[i]];
      Overwrite(was, group[i]);
    }
    assert group[..|group|] == group;
  }

  lemma Overwrite(m: map<SampleKey, Candle>, c: Candle)
    requires forall k :: k in m ==> Key(m[k]) == k
    ensures m[Key(c) := c].Values == (set d | d in m.Values && Key(d) != Key(c)) + {c}
  {
    var n := m[Key(c) := c];
    forall d | d in m.Values && Key(d) != Key(c) ensures d in n.Values {
      assert n[Key(d)] == d;
    }
    assert n[Key(c)] == c;
  }

  function ByTime(x: Candle, y: Candle): bool { x.ts <= y.ts }

  lemma ByTimeIsWeakOrder()
    ensures WeakOrder(ByTime)
  {
  }

  method ConsolidateGroup(interval: string, key: int, group: seq<Candle>) returns (o: Candle)
    requires group != []
    ensures o.ts == key && IsBarOfSet(o, interval, Survivors(group))
  {
    hide Survivors, BarOf, Earliest, Latest;
    ghost var s := Survivors(group);
    SurvivorExists(group, 0);
    var unique := Deduplicate(group);
    var list := Enumerate(unique.Values);
    var sorted := SortSlice(list, ByTime);
    DistinctPermutation(list, sorted);
    assert forall c :: c in sorted <==> c in s;
    var bar := Accumulate(sorted, s);
    ListEnds(sorted, s);
    var first, last := sorted[0], sorted[|sorted| - 1];
    assert first in s && last in s;
    o := Candle(first.pair, interval, key, bar.open, bar.high, bar.low, bar.close, bar.volume, "consolidated", last.finalized);
  }

  lemma ListEnds(list: seq<Candle>, s: set<Candle>)
    requires s != {} && (forall c :: c in list <==> c in s) && Sorted(list, ByTime)
    ensures list != [] && list[0].ts == Earliest(s) && list[|list| - 1].ts == Latest(s)
  {
    var c :| c in s;
    assert c in list;
    assert list[0] in s && list[|list| - 1] in s;
    SortedEnds(list);
  }

  ghost function SetOf(list: seq<Candle>): set<Candle> { set c | c in list }

  /** The sum and the count of f over the samples at one instant. */
  lemma AtTimeInsert(p: set<Candle>, t: int, c: Candle, f: Candle -> real)
    requires c !in p
    ensures SetSum(AtTime(p + {c}, t), f) == SetSum(AtTime(p, t), f) + if c.ts == t then f(c) else 0.0
    ensures |AtTime(p + {c}, t)| == |AtTime(p, t)| + if c.ts == t then 1 else 0
  {
    if c.ts == t {
      assert AtTime(p + {c}, t) == AtTime(p, t) + {c};
      SumInsert(AtTime(p, t), f, c);
    } else {
      assert AtTime(p + {c}, t) == AtTime(p, t);
    }
  }

  datatype Acc = Acc(openSum: real, openCount: nat, closeSum: real, closeCount: nat, volume: real)

  /** The running sums over the samples seen so far. */
  ghost predicate Accumulated(acc: Acc, p: set<Candle>, earliest: int, latest: int) {
    && acc.openSum == SetSum(AtTime(p, earliest), OpenOf) && acc.openCount == |AtTime(p, earliest)|
    && acc.closeSum == SetSum(AtTime(p, latest), CloseOf) && acc.closeCount == |AtTime(p, latest)|
    && acc.volume == SetSum(p, VolumeOf)
  }

  function AddSample(acc: Acc, c: Candle, earliest: int, latest: int): Acc {
    Acc(if c.ts == earliest then acc.openSum + c.open else acc.openSum,
        if c.ts == earliest then acc.openCount + 1 else acc.openCount,
        if c.ts == latest then acc.closeSum + c.close else acc.closeSum,
        if c.ts == latest then acc.closeCount + 1 else acc.closeCount,
        acc.volume + c.volume)
  }

  lemma AccumulateStep(acc: Acc, p: set<Candle>, earliest: int, latest: int, c: Candle)
    requires Accumulated(acc, p, earliest, latest) && c !in p
    ensures Accumulated(AddSample(acc, c, earliest, latest), p + {c}, earliest, latest)
  {
    hide SetSum, AtTime;
    AtTimeInsert(p, earliest, c, OpenOf);
    AtTimeInsert(p, latest, c, CloseOf);
    SumInsert(p, VolumeOf, c);
  }

  lemma AccumulateNothing(earliest: int, latest: int)
    ensures Accumulated(Acc(0.0, 0, 0.0, 0, 0.0), {}, earliest, latest)
  {
    assert AtTime({}, earliest) == {} && AtTime({}, latest) == {};
  }

  method Accumulate(list: seq<Candle>, ghost s: set<Candle>) returns (bar: Bar)
    requires s != {} && Distinct(list) && (forall c :: c in list <==> c in s) && Sorted(list, ByTime)
    ensures bar == BarOf(s)
  {
    hide BarOf, Accumulated, Earliest, Latest, SetOf;
    ListEnds(list, s);
    var earliest, latest := list[0].ts, list[|list| - 1].ts;
    var acc := Acc(0.0, 0, 0.0, 0, 0.0);
    var high, low := list[0].high, list[0].low;
    AccumulateNothing(earliest, latest);
    SetOfPrefix(list, 0);
    for i := 0 to |list|
      invariant Accumulated(acc, SetOf(list[..i]), earliest, latest)
      invariant forall j :: 0 <= j < i ==> low <= list[j].low && list[j].high <= high
      invariant (exists c :: c in list && c.high == high) && (exists c :: c in list && c.low == low)
    {
      var c := list[i];
      SetOfPrefix(list, i);
      AccumulateStep(acc, SetOf(list[..i]), earliest, latest, c);
      acc := AddSample(acc, c, earliest, latest);
      if c.high > high {
        high := c.high;
      }
      if c.low < low {
        low := c.low;
      }
    }
    SetOfAll(list, s);
    Extremes(list, s, high, low);
    AccumulatedBar(acc, s, high, low);
    bar := Bar(acc.openSum / acc.openCount as real, high, low, acc.closeSum / acc.closeCount as real, acc.volume);
  }

  lemma SetOfPrefix(list: seq<Candle>, i: nat)
    requires Distinct(list) && i <= |list|
    ensures i == 0 ==> SetOf(list[..i]) == {}
    ensures i < |list| ==> SetOf(list[..i + 1]) == SetOf(list[..i]) + {list[i]} && list[i] !in SetOf(list[..i])
  {
    if i < |list| {
      assert list[..i + 1] == list[..i] + [list[i]];
    }
  }

  lemma SetOfAll(list: seq<Candle>, s: set<Candle>)
    requires forall c :: c in list <==> c in s
    ensures SetOf(list[..|list|]) == s
  {
    assert list[..|list|] == list;
  }

  lemma AccumulatedBar(acc: Acc, s: set<Candle>, high: real, low: real)
    requires s != {} && Accumulated(acc, s, Earliest(s), Latest(s))
    requires high == Greatest(s, HighOf) && low == Least(s, LowOf)
    ensures acc.openCount > 0 && acc.closeCount > 0
    ensures BarOf(s) == Bar(acc.openSum / acc.openCount as real, high, low, acc.closeSum / acc.closeCount as real, acc.volume)
  {
    hide SetSum, AtTime, Earliest, Latest, Greatest, Least, BarOf;
    BarParts(s);
  }

  lemma Extremes(list: seq<Candle>, s: set<Candle>, high: real, low: real)
    requires s != {} && forall c :: c in list <==> c in s
    requires forall j :: 0 <= j < |list| ==> low <= list[j].low && list[j].high <= high
    requires (exists c :: c in list && c.high == high) && (exists c :: c in list && c.low == low)
    ensures high == Greatest(s, HighOf) && low == Least(s, LowOf)
  {
    hide Greatest, Least;
    var x :| x in list && x.high == high;
    var y :| y in list && y.low == low;
    assert HighOf(x) == high && LowOf(y) == low;
    forall c | c in s ensures low <= LowOf(c) && HighOf(c) <= high {
      assert c in list;
    }
  }

  // ---------- DailyFromHourly ----------

  method DailyFromHourly(items: seq<Candle>) returns (result: seq<Candle>)
    ensures IsDaily(result, items)
  {
    hide *;
    ByTimeIsWeakOrder();
    var sorted := SortSlice(items, ByTime);
    var grouped := GroupBy(sorted, DayOf);
    GroupingFacts(grouped, sorted, DayOf);
    var keys := SortedKeys(grouped.Keys);
    result := [];
    for i := 0 to |keys|
      invariant |result| == i
      invariant forall j :: 0 <= j < i ==> result[j].ts == keys[j] && Group(items, DayOf, keys[j]) != []
      invariant forall j :: 0 <= j < i ==> IsDayBar(result[j], multiset(Group(items, DayOf, keys[j])))
    {
      DayItemsSorted(sorted, keys[i]);
      SameDayItems(items, sorted, keys[i]);
      var o := DayCandle(keys[i], grouped[keys[i]]);
      result := result + [o];
    }
    DaysInOrder(result, keys, items, sorted);
  }

  lemma DaysInOrder(result: seq<Candle>, keys: seq<int>, items: seq<Candle>, sorted: seq<Candle>)
    requires multiset(items) == multiset(sorted)
    requires |result| == |keys| && forall i, j :: 0 <= i < j < |keys| ==> keys[i] < keys[j]
    requires forall d :: d in keys <==> exists c :: c in sorted && DayOf(c) == d
    requires forall j :: 0 <= j < |keys| ==> result[j].ts == keys[j] && Group(items, DayOf, keys[j]) != []
    requires forall j :: 0 <= j < |keys| ==> IsDayBar(result[j], multiset(Group(items, DayOf, keys[j])))
    ensures IsDaily(result, items)
  {
    hide Trunc, IsDayBar, Group;
    forall o | o in result ensures Group(items, DayOf, o.ts) != [] && IsDayBar(o, multiset(Group(items, DayOf, o.ts))) {
      var j :| 0 <= j < |result| && result[j] == o;
    }
    SamePopulation(items, sorted);
    DaysCovered(result, keys, sorted);
  }

  lemma DaysCovered(result: seq<Candle>, keys: seq<int>, sorted: seq<Candle>)
    requires |result| == |keys| && forall j :: 0 <= j < |keys| ==> result[j].ts == keys[j]
    requires forall d :: d in keys <==> exists c :: c in sorted && DayOf(c) == d
    ensures forall c :: c in sorted ==> exists o :: o in result && o.ts == DayOf(c)
  {
    hide DayOf;
    forall c | c in sorted ensures exists o :: o in result && o.ts == DayOf(c) {
      assert DayOf(c) in keys;
      var j :| 0 <= j < |keys| && keys[j] == DayOf(c);
      assert result[j] in result;
    }
  }

  lemma SameDayItems(items: seq<Candle>, sorted: seq<Candle>, day: int)
    requires multiset(items) == multiset(sorted)
    ensures multiset(Group(items, DayOf, day)) == multiset(Group(sorted, DayOf, day))
    ensures |Group(items, DayOf, day)| == |Group(sorted, DayOf, day)|
  {
    DayItemsAre(items, day);
    DayItemsAre(sorted, day);
    SamePopulation(Group(items, DayOf, day), Group(sorted, DayOf, day));
  }

  lemma {:induction false} DayItemsSorted(items: seq<Candle>, day: int)
    requires Sorted(items, ByTime)
    ensures Sorted(Group(items, DayOf, day), ByTime)
    ensures forall c :: c in Group(items, DayOf, day) ==> c in items
  {
    if items != [] {
      var front, last := items[..|items| - 1], items[|items| - 1];
      DayItemsSorted(front, day);
      forall c | c in front ensures ByTime(c, last) {
      }
    }
  }

  method DayCandle(key: int, group: seq<Candle>) returns (o: Candle)
    requires group != [] && Sorted(group, ByTime)
    ensures o.ts == key && IsDayBar(o, multiset(group))
  {
    hide BagSum, IsDayBar;
    var high, low, volume := group[0].high, group[0].low, 0.0;
    BagEmpty(VolumeOf);
    for i := 0 to |group|
      invariant volume == BagSum(multiset(group[..i]), VolumeOf)
      invariant forall j :: 0 <= j < i ==> low <= group[j].low && group[j].high <= high
      invariant (exists c :: c in group && c.high == high) && (exists c :: c in group && c.low == low)
    {
      BagPrefix(group, i);
      if group[i].high > high {
        high := group[i].high;
      }
      if group[i].low < low {
        low := group[i].low;
      }
      volume := volume + group[i].volume;
    }
    assert group[..|group|] == group;
    var first, last := group[0], group[|group| - 1];
    o := Candle(first.pair, "1d", key, first.open, high, low, last.close, volume, "consolidated", true);
    DayBarOf(o, group);
  }

  lemma BagPrefix(group: seq<Candle>, i: nat)
    requires i < |group|
    ensures BagSum(multiset(group[..i + 1]), VolumeOf) == BagSum(multiset(group[..i]), VolumeOf) + group[i].volume
  {
    hide BagSum;
    assert group[..i + 1] == group[..i] + [group[i]];
    assert multiset(group[..i + 1]) - multiset{group[i]} == multiset(group[..i]);
    BagRemove(multiset(group[..i + 1]), VolumeOf, group[i]);
  }

  lemma DayBarOf(o: Candle, group: seq<Candle>)
    requires group != [] && Sorted(group, ByTime)
    requires o.open == group[0].open && o.pair == group[0].pair && o.close == group[|group| - 1].close
    requires forall j :: 0 <= j < |group| ==> o.low <= group[j].low && group[j].high <= o.high
    requires (exists c :: c in group && c.high == o.high) && (exists c :: c in group && c.low == o.low)
    requires o.volume == BagSum(multiset(group), VolumeOf)
    requires o.interval == "1d" && o.source == "consolidated" && o.finalized
    ensures IsDayBar(o, multiset(group))
  {
    hide BagSum;
    var g, first, last := multiset(group), group[0], group[|group| - 1];
    assert forall c :: c in g <==> c in group;
    SortedEnds(group);
    assert first in g && last in g;
    var x :| x in group && x.high == o.high;
    var y :| y in group && y.low == o.low;
    assert x in g && y in g;
  }

  lemma SortedEnds(group: seq<Candle>)
    requires group != [] && Sorted(group, ByTime)
    ensures forall c :: c in group ==> group[0].ts <= c.ts <= group[|group| - 1].ts
  {
    forall c | c in group ensures group[0].ts <= c.ts <= group[|group| - 1].ts {
      var i :| 0 <= i < |group| && group[i] == c;
      assert i > 0 ==> ByTime(group[0], group[i]);
      assert i < |group| - 1 ==> ByTime(group[i], group[|group| - 1]);
    }
  }

  lemma BagEmpty(f: Candle -> real)
    ensures BagSum(multiset{}, f) == 0.0
  {
  }
}
