/** Portfolio valuation (backend/internal/portfolio/valuation.go): allocation percentages with their rounding
    repair, and historical values by carry-forward. float64 is modelled by real numbers. */
module Valuation {
  import opened Common

  // ---------- rounding ----------

  /** math.Round: half away from zero. */
  function Round(v: real): int { if v >= 0.0 then (v + 0.5).Floor else -((-v + 0.5).Floor) }

  /** To the nearest integer, away from zero between two. */
  lemma RoundIsNearest(v: real, k: int)
    ensures Round(v) as real - 0.5 <= v <= Round(v) as real + 0.5
    ensures v == k as real + 0.5 ==> Round(v) == if k >= 0 then k + 1 else k
  {
  }

  function RoundTo2(v: real): real { Round(v * 100.0) as real / 100.0 }

  /** The value of each holding; None when its price is unavailable. */
  type Values = seq<Option<real>>

  function PricedSum(values: Values): real {
    if values == [] then 0.0 else PricedSum(values[..|values| - 1]) + values[|values| - 1].GetOr(0.0)
  }

  function PricedCount(values: Values): nat {
    if values == [] then 0 else PricedCount(values[..|values| - 1]) + if values[|values| - 1].Some? then 1 else 0
  }

  ghost predicate NonNegative(values: Values) { forall v :: Some(v) in values ==> v >= 0.0 }

  /** A holding's rounded share of the total, in hundredths of a percent. */
  function Share(v: Option<real>, total: real): int
    requires total != 0.0
  {
    if v.Some? then Round(v.value / total * 100.0 * 100.0) else 0
  }

  function Shares(values: Values, total: real): (r: seq<int>)
    requires total != 0.0
    ensures |r| == |values| && forall i :: 0 <= i < |r| ==> r[i] == Share(values[i], total)
  {
    if values == [] then [] else Shares(values[..|values| - 1], total) + [Share(values[|values| - 1], total)]
  }

  function Sum(s: seq<int>): int { if s == [] then 0 else Sum(s[..|s| - 1]) + s[|s| - 1] }

  /** The first position of the greatest positive entry, or -1. */
  function Largest(s: seq<int>): (i: int)
    ensures -1 <= i < |s|
    ensures i >= 0 ==> s[i] > 0 && (forall j :: 0 <= j < |s| ==> s[j] <= s[i]) && forall j :: 0 <= j < i ==> s[j] < s[i]
    ensures i < 0 ==> forall j :: 0 <= j < |s| ==> s[j] <= 0
  {
    if s == [] then -1
    else
      var i := Largest(s[..|s| - 1]);
      var last := s[|s| - 1];
      if last > (if i < 0 then 0 else s[i]) then |s| - 1 else i
  }

  /** The rounding repair: the residual goes to the largest share. */
  function Repaired(s: seq<int>): seq<int> {
    var i := Largest(s);
    if i < 0 then s else s[i := s[i] + 10000 - Sum(s)]
  }

  // ---------- the repair is exact ----------

  lemma {:induction false} SumUpdate(s: seq<int>, i: nat, x: int)
    requires i < |s|
    ensures Sum(s[i := x]) == Sum(s) - s[i] + x
  {
    var n := |s| - 1;
    if i == n {
      assert s[i := x][..n] == s[..n];
    } else {
      assert s[i := x][..n] == s[..n][i := x];
      SumUpdate(s[..n], i, x);
    }
  }

  lemma {:induction false} SumOfZeros(s: seq<int>)
    requires forall i :: 0 <= i < |s| ==> s[i] == 0
    ensures Sum(s) == 0
  {
    if s != [] {
      SumOfZeros(s[..|s| - 1]);
    }
  }

  /** A rounded share is within half a hundredth of the exact one, and positive from half a hundredth on. */
  lemma ShareBounds(v: real, total: real)
    requires total > 0.0 && v >= 0.0
    ensures
      var h := Share(Some(v), total);
      && h >= 0 && (h >= 1 <==> 20000.0 * v >= total)
      && Times(total, h as real - 0.5) <= 10000.0 * v <= Times(total, h as real + 0.5)
  {
    var q := v / total;
    assert v == total * q && q >= 0.0;
    var x := q * 100.0 * 100.0;
    assert total * x == 10000.0 * v;
    var h := (x + 0.5).Floor;
    assert Share(Some(v), total) == h;
    assert h as real - 0.5 <= x < h as real + 0.5;
    OrderScaled(total, h as real - 0.5, x);
    OrderScaled(total, x, h as real + 0.5);
    if h >= 1 {
      OrderScaled(total, 0.5, x);
    } else {
      OrderScaledStrictly(total, x, 0.5);
    }
  }

  lemma OrderScaled(t: real, a: real, b: real)
    requires t > 0.0 && a <= b
    ensures Times(t, a) <= Times(t, b)
  {
    assert t * (b - a) >= 0.0;
  }

  lemma OrderScaledStrictly(t: real, a: real, b: real)
    requires t > 0.0 && a < b
    ensures Times(t, a) < Times(t, b)
  {
    assert t * (b - a) > 0.0;
  }

  /** The shares together miss the exact total by at most half a hundredth per priced holding. */
  lemma {:induction false} RoundingError(values: Values, total: real)
    requires total > 0.0 && NonNegative(values)
    ensures Misses(total, Sum(Shares(values, total)), PricedCount(values), PricedSum(values))
  {
    hide PricedSum, PricedCount, Sum, Shares, Share, Misses, Times, Round;
    if values == [] {
      NothingMissed(total);
    } else {
      var front, last := values[..|values| - 1], values[|values| - 1];
      assert values == front + [last];
      assert last in values && forall v :: v in front ==> v in values;
      RoundingError(front, total);
      MissesOneMore(front, last, total);
    }
  }

  lemma NothingMissed(total: real)
    requires total != 0.0
    ensures Misses(total, Sum(Shares([], total)), PricedCount([]), PricedSum([]))
  {
    TimesZero(total);
    hide Times;
    assert 0 as real - 0 as real / 2.0 == 0.0 && 0 as real + 0 as real / 2.0 == 0.0;
  }

  lemma MissesOneMore(front: Values, last: Option<real>, total: real)
    requires total > 0.0 && (last.Some? ==> last.value >= 0.0)
    requires Misses(total, Sum(Shares(front, total)), PricedCount(front), PricedSum(front))
    ensures Misses(total, Sum(Shares(front + [last], total)), PricedCount(front + [last]), PricedSum(front + [last]))
  {
    hide PricedSum, PricedCount, Sum, Shares, Share, Misses, Times, Round;
    if last.Some? {
      assert last == Some(last.value);
      ShareBounds(last.value, total);
      ErrorGrows(total, Sum(Shares(front, total)), PricedCount(front), Share(last, total), PricedSum(front), last.value);
      OfOneMore(front, last.value, total);
    } else {
      OfNoneMore(front, total);
    }
  }

  lemma OfOneMore(values: Values, v: real, total: real)
    requires total != 0.0
    ensures PricedSum(values + [Some(v)]) == PricedSum(values) + v && PricedCount(values + [Some(v)]) == PricedCount(values) + 1
    ensures Sum(Shares(values + [Some(v)], total)) == Sum(Shares(values, total)) + Share(Some(v), total)
  {
    hide Share;
    assert (values + [Some(v)])[..|values|] == values;
    var s := Shares(values + [Some(v)], total);
    assert s[..|values|] == Shares(values, total);
  }

  lemma OfNoneMore(values: Values, total: real)
    requires total != 0.0
    ensures PricedSum(values + [None]) == PricedSum(values) && PricedCount(values + [None]) == PricedCount(values)
    ensures Sum(Shares(values + [None], total)) == Sum(Shares(values, total))
  {
    assert (values + [None])[..|values|] == values;
    assert Shares(values + [None], total)[..|values|] == Shares(values, total);
  }

  /** The error of a sum grows by the error of one more share. */
  predicate Misses(total: real, s: int, n: nat, value: real) {
    Times(total, s as real - n as real / 2.0) <= 10000.0 * value <= Times(total, s as real + n as real / 2.0)
  }

  lemma ErrorGrows(total: real, s: int, n: nat, h: int, value: real, v: real)
    requires Misses(total, s, n, value)
    requires Times(total, h as real - 0.5) <= 10000.0 * v <= Times(total, h as real + 0.5)
    ensures Misses(total, s + h, n + 1, value + v)
  {
    TimesAdd(total, s as real - n as real / 2.0, h as real - 0.5);
    TimesAdd(total, s as real + n as real / 2.0, h as real + 0.5);
    hide Times;
    assert (s + h) as real - (n + 1) as real / 2.0 == s as real - n as real / 2.0 + (h as real - 0.5);
    assert (s + h) as real + (n + 1) as real / 2.0 == s as real + n as real / 2.0 + (h as real + 0.5);
  }

  /** So the residual of 100% is at most half a hundredth per priced holding. */
  lemma ResidualIsSmall(values: Values)
    requires PricedSum(values) > 0.0 && NonNegative(values)
    ensures
      var s := Sum(Shares(values, PricedSum(values)));
      -(PricedCount(values) as int) <= 2 * (10000 - s) <= PricedCount(values)
  {
    var total := PricedSum(values);
    RoundingError(values, total);
    var s, n := Sum(Shares(values, total)) as real, PricedCount(values) as real;
    assert Times(total, 10000.0) == 10000.0 * total;
    hide PricedSum, PricedCount, Shares, Sum;
    if s - n / 2.0 > 10000.0 {
      OrderScaledStrictly(total, 10000.0, s - n / 2.0);
    }
    if s + n / 2.0 < 10000.0 {
      OrderScaledStrictly(total, s + n / 2.0, 10000.0);
    }
  }

  /** Some holding is worth at least a twenty-thousandth of the portfolio. */
  ghost predicate HasVisibleShare(values: Values) { exists v :: Some(v) in values && 20000.0 * v >= PricedSum(values) }

  lemma VisibleShares(values: Values)
    requires PricedSum(values) > 0.0 && NonNegative(values)
    ensures Largest(Shares(values, PricedSum(values))) >= 0 <==> HasVisibleShare(values)
    ensures forall i :: 0 <= i < |values| ==> Shares(values, PricedSum(values))[i] >= 0
  {
    hide PricedSum, Round, Largest;
    var total, s := PricedSum(values), Shares(values, PricedSum(values));
    forall i | 0 <= i < |values| ensures s[i] >= 0 && (s[i] >= 1 <==> values[i].Some? && 20000.0 * values[i].value >= total) {
      if values[i].Some? {
        assert values[i] in values;
        ShareBounds(values[i].value, total);
      }
    }
    hide Shares;
    if HasVisibleShare(values) {
      var v :| Some(v) in values && 20000.0 * v >= total;
      var i :| 0 <= i < |values| && values[i] == Some(v);
      assert s[i] >= 1;
    }
    if Largest(s) >= 0 {
      var i := Largest(s);
      assert values[i].Some? && values[i] in values;
    }
  }

  lemma RepairedSum(s: seq<int>)
    requires forall i :: 0 <= i < |s| ==> s[i] >= 0
    ensures Sum(Repaired(s)) == if Largest(s) >= 0 then 10000 else 0
    ensures Largest(s) < 0 ==> forall i :: 0 <= i < |Repaired(s)| ==> Repaired(s)[i] == 0
  {
    hide Sum, Largest;
    var i := Largest(s);
    if i >= 0 {
      SumUpdate(s, i, s[i] + 10000 - Sum(s));
    } else {
      SumOfZeros(s);
    }
  }

  /** The repaired percentages sum to exactly 100.00 if and only if some priced holding is visible; otherwise
      every percentage is zero. */
  lemma SumsToHundredExactlyWhen(values: Values)
    requires PricedSum(values) > 0.0 && NonNegative(values)
    ensures
      var r := Repaired(Shares(values, PricedSum(values)));
      (Sum(r) == 10000 <==> HasVisibleShare(values))
      && (!HasVisibleShare(values) ==> forall i :: 0 <= i < |r| ==> r[i] == 0)
  {
    VisibleShares(values);
    hide PricedSum, HasVisibleShare, NonNegative, Repaired, Largest, Sum, Shares;
    RepairedSum(Shares(values, PricedSum(values)));
  }

  lemma {:induction false} SumOfFaint(values: Values, total: real)
    requires total > 0.0 && forall v :: Some(v) in values ==> 20000.0 * v < total
    ensures 20000.0 * PricedSum(values) <= Times(total, PricedCount(values) as real)
    ensures PricedCount(values) > 0 ==> 20000.0 * PricedSum(values) < Times(total, PricedCount(values) as real)
  {
    if values != [] {
      var front, last := values[..|values| - 1], values[|values| - 1];
      assert values == front + [last];
      assert forall v :: v in front ==> v in values;
      assert last in values;
      SumOfFaint(front, total);
      TimesOneMore(total, PricedCount(front) as real);
      hide Times;
    } else {
      TimesZero(total);
    }
  }

  /** Up to 20000 priced holdings always have a visible one, so their percentages sum to exactly 100.00. */
  lemma UpToTwentyThousand(values: Values)
    requires PricedSum(values) > 0.0 && NonNegative(values) && PricedCount(values) <= 20000
    ensures Sum(Repaired(Shares(values, PricedSum(values)))) == 10000
  {
    if !HasVisibleShare(values) {
      SumOfFaint(values, PricedSum(values));
      hide PricedSum, PricedCount, HasVisibleShare, NonNegative, Repaired, Shares, Sum;
      FaintIsMany(PricedSum(values), PricedCount(values));
    }
    hide PricedSum, PricedCount, HasVisibleShare, NonNegative, Repaired, Shares, Sum;
    SumsToHundredExactlyWhen(values);
  }

  lemma FaintIsMany(total: real, n: nat)
    requires total > 0.0 && 20000.0 * total <= Times(total, n as real)
    requires n > 0 ==> 20000.0 * total < Times(total, n as real)
    ensures n > 20000
  {
    assert Times(total, 20000.0) == 20000.0 * total;
    TimesZero(total);
    hide Times;
    if 0 < n <= 20000 {
      OrderScaled(total, n as real, 20000.0);
    }
  }

  /** The repair changes one entry, by at most half a hundredth per priced holding. */
  lemma RepairIsLocal(values: Values, i: nat)
    requires PricedSum(values) > 0.0 && NonNegative(values) && i < |values|
    ensures
      var s := Shares(values, PricedSum(values));
      var d := Repaired(s)[i] - s[i];
      (i != Largest(s) ==> d == 0) && -(PricedCount(values) as int) <= 2 * d <= PricedCount(values)
  {
    ResidualIsSmall(values);
  }

  // ---------- the repaired share can be negative ----------

  lemma {:induction false} SumAtMost(values: Values, s: seq<int>, m: int)
    requires |s| == |values| && m >= 0
    requires forall i :: 0 <= i < |s| ==> s[i] <= m && (values[i].None? ==> s[i] == 0)
    ensures Sum(s) <= PricedCount(values) * m
  {
    if s != [] {
      var n := PricedCount(values[..|values| - 1]);
      SumAtMost(values[..|values| - 1], s[..|s| - 1], m);
      assert (n + 1) * m == n * m + m;
    }
  }

  /** With up to 143 priced holdings every repaired percentage is non-negative. */
  lemma UpTo143StayNonNegative(values: Values, i: nat)
    requires PricedSum(values) > 0.0 && NonNegative(values) && i < |values| && PricedCount(values) <= 143
    ensures Repaired(Shares(values, PricedSum(values)))[i] >= 0
  {
    var s, n := Shares(values, PricedSum(values)), PricedCount(values);
    VisibleShares(values);
    ResidualIsSmall(values);
    var k := Largest(s);
    if k >= 0 {
      SumAtMost(values, s, s[k]);
      hide PricedSum, PricedCount, Shares, Sum;
      TooFewToGoNegative(n, s[k], Sum(s));
    }
  }

  lemma TooFewToGoNegative(n: nat, m: nat, sum: int)
    requires n <= 143 && sum <= n * m && 0 <= 2 * (10000 - sum) + n
    ensures m + 10000 - sum >= 0
  {
    if m <= 70 {
      NoMoreThan143(n, m);
    }
  }

  lemma NoMoreThan143(n: nat, m: nat)
    requires n <= 143
    ensures n * m <= 143 * m
  {
  }

  function Copies(v: real, n: nat): (r: Values)
    ensures |r| == n && forall i :: 0 <= i < n ==> r[i] == Some(v)
  {
    seq(n, i => Some(v))
  }

  lemma {:induction false} OfCopies(base: Values, v: real, n: nat, total: real)
    requires total != 0.0
    ensures PricedSum(base + Copies(v, n)) == PricedSum(base) + Times(v, n as real)
    ensures PricedCount(base + Copies(v, n)) == PricedCount(base) + n
    ensures Sum(Shares(base + Copies(v, n), total)) == Sum(Shares(base, total)) + n * Share(Some(v), total)
  {
    hide Share, Shares, Sum, PricedSum, PricedCount;
    if n == 0 {
      TimesZero(v);
      assert base + Copies(v, n) == base;
    } else {
      OfCopies(base, v, n - 1, total);
      OfOneMore(base + Copies(v, n - 1), v, total);
      assert base + Copies(v, n) == base + Copies(v, n - 1) + [Some(v)];
      TimesOneMore(v, (n - 1) as real);
      hide Times;
      ScaledOneMore(n - 1, Share(Some(v), total));
    }
  }

  lemma ScaledOneMore(n: int, h: int)
    ensures (n + 1) * h == n * h + h
  {
  }

  /** 136 holdings of 69.5, 8 of 68.5 and any number of worthless ones: 10000 in all. */
  function Crowd(n: nat): Values
    requires n >= 144
  {
    [] + Copies(69.5, 136) + Copies(68.5, 8) + Copies(0.0, n - 144)
  }

  lemma CrowdShares()
    ensures Share(Some(69.5), 10000.0) == 70 && Share(Some(68.5), 10000.0) == 69 && Share(Some(0.0), 10000.0) == 0
  {
    assert 69.5 / 10000.0 * 100.0 * 100.0 == 69.5;
    assert 68.5 / 10000.0 * 100.0 * 100.0 == 68.5;
    assert (70.0).Floor == 70 && (69.0).Floor == 69 && (0.5).Floor == 0;
  }

  lemma CrowdTotals(n: nat)
    requires n >= 144
    ensures PricedSum(Crowd(n)) == 10000.0 && PricedCount(Crowd(n)) == n == |Crowd(n)| && NonNegative(Crowd(n))
    ensures Sum(Shares(Crowd(n), 10000.0)) == 10072
  {
    CrowdShares();
    OfCopies([], 69.5, 136, 10000.0);
    OfCopies([] + Copies(69.5, 136), 68.5, 8, 10000.0);
    OfCopies([] + Copies(69.5, 136) + Copies(68.5, 8), 0.0, n - 144, 10000.0);
    hide Share;
    assert PricedSum([]) == 0.0 && PricedCount([]) == 0 && Sum(Shares([], 10000.0)) == 0;
  }

  /** From 144 holdings on the repair can turn the largest percentage negative: here the first, to -0.02. */
  lemma From144CanGoNegative(n: nat)
    requires n >= 144
    ensures PricedSum(Crowd(n)) == 10000.0 && PricedCount(Crowd(n)) == n == |Crowd(n)| && NonNegative(Crowd(n))
    ensures Repaired(Shares(Crowd(n), 10000.0))[0] == -2
  {
    CrowdShares();
    CrowdTotals(n);
    var s := Shares(Crowd(n), 10000.0);
    assert s[0] == 70;
    assert forall j :: 0 <= j < |s| ==> s[j] <= 70;
    hide Sum, Share, Shares, Crowd, PricedSum, PricedCount;
    assert Largest(s) == 0;
  }

  /** Every portfolio of n priced, non-negative holdings keeps non-negative percentages. */
  ghost predicate AlwaysNonNegative(n: nat) {
    forall values: Values, i: nat :: PricedCount(values) == n && PricedSum(values) > 0.0 && NonNegative(values) && i < |values| ==>
      Repaired(Shares(values, PricedSum(values)))[i] >= 0
  }

  /** The exact bound: 143 holdings are safe, 144 are not. */
  lemma NonNegativeExactlyUpTo143(n: nat)
    ensures AlwaysNonNegative(n) <==> n <= 143
  {
    if n <= 143 {
      forall values: Values, i: nat | PricedCount(values) == n && PricedSum(values) > 0.0 && NonNegative(values) && i < |values|
        ensures Repaired(Shares(values, PricedSum(values)))[i] >= 0
      {
        UpTo143StayNonNegative(values, i);
      }
    } else {
      From144CanGoNegative(n);
      hide PricedSum, PricedCount, Repaired, Shares, Crowd;
      assert Repaired(Shares(Crowd(n), PricedSum(Crowd(n))))[0] == -2;
    }
  }

  // ---------- the current valuation ----------

  datatype Holding = Holding(symbol: string, quantity: real, avgBuyPrice: Option<real>, source: string)

  datatype AssetValuation = AssetValuation(symbol: string, quantity: real, avgBuyPrice: Option<real>, source: string,
                                           priced: bool, price: real, value: real, pnl: Option<real>, pnlPct: Option<real>,
                                           allocation: real)

  function Gain(price: real, bought: real, quantity: real): real { (price - bought) * quantity }

  function GainPct(price: real, bought: real): real
    requires bought != 0.0
  {
    (price - bought) / bought * 100.0
  }

  /** A holding before allocation: priced with its value and unrealized result, or flagged as unpriced. */
  function Valued(h: Holding, prices: map<string, real>): AssetValuation {
    if h.symbol !in prices
    then AssetValuation(h.symbol, h.quantity, h.avgBuyPrice, h.source, false, 0.0, 0.0, None, None, 0.0)
    else
      var price := prices[h.symbol];
      AssetValuation(h.symbol, h.quantity, h.avgBuyPrice, h.source, true, price, h.quantity * price,
                     if h.avgBuyPrice.Some? then Some(Gain(price, h.avgBuyPrice.value, h.quantity)) else None,
                     if h.avgBuyPrice.Some? && h.avgBuyPrice.value != 0.0 then Some(GainPct(price, h.avgBuyPrice.value)) else None,
                     0.0)
  }

  /** A priced holding is worth its quantity times the price; its unrealized result is that minus what it cost on
      average, and is given in percent of the average price unless that is zero. */
  ghost predicate IsValued(av: AssetValuation, h: Holding, prices: map<string, real>) {
    && av.symbol == h.symbol && av.quantity == h.quantity && av.avgBuyPrice == h.avgBuyPrice && av.source == h.source
    && (av.priced <==> h.symbol in prices)
    && (av.priced ==>
          && av.price == prices[h.symbol] && av.value == h.quantity * prices[h.symbol]
          && (h.avgBuyPrice.None? ==> av.pnl == None && av.pnlPct == None)
          && (h.avgBuyPrice.Some? ==> av.pnl.Some? && av.pnl.value == av.value - h.avgBuyPrice.value * h.quantity
                                      && (h.avgBuyPrice.value == 0.0 ==> av.pnlPct == None)
                                      && (h.avgBuyPrice.value != 0.0 ==>
                                            av.pnlPct.Some?
                                            && av.pnlPct.value * h.avgBuyPrice.value == 100.0 * (av.price - h.avgBuyPrice.value))))
    && (!av.priced ==> av.price == 0.0 && av.value == 0.0 && av.pnl == None && av.pnlPct == None)
  }

  lemma ValuedMeans(h: Holding, prices: map<string, real>, allocation: real)
    ensures IsValued(Valued(h, prices).(allocation := allocation), h, prices)
  {
    if h.symbol in prices && h.avgBuyPrice.Some? {
      GainsAre(prices[h.symbol], h.avgBuyPrice.value, h.quantity);
    }
    hide Gain, GainPct;
  }

  lemma GainsAre(p: real, b: real, q: real)
    ensures Gain(p, b, q) == q * p - b * q
    ensures b != 0.0 ==> GainPct(p, b) * b == 100.0 * (p - b)
  {
    if b != 0.0 {
      var x := (p - b) / b;
      assert x * b == p - b;
      assert x * 100.0 * b == 100.0 * (x * b);
    }
  }

  function ValueOf(h: Holding, prices: map<string, real>): Option<real> {
    if h.symbol in prices then Some(h.quantity * prices[h.symbol]) else None
  }

  function ValuesOf(holdings: seq<Holding>, prices: map<string, real>): Values {
    seq(|holdings|, i requires 0 <= i < |holdings| => ValueOf(holdings[i], prices))
  }

  /** Portfolios add up, and one holding is worth its quantity times its price. */
  lemma {:induction false} ValuesAddUp(x: seq<Holding>, y: seq<Holding>, prices: map<string, real>)
    ensures PricedSum(ValuesOf(x + y, prices)) == PricedSum(ValuesOf(x, prices)) + PricedSum(ValuesOf(y, prices))
  {
    hide ValueOf, ValuesOf, PricedSum;
    if y == [] {
      assert x + y == x;
      NoHoldings(prices);
    } else {
      var front := y[..|y| - 1];
      ValuesAddUp(x, front, prices);
      assert (x + y)[..|x + y| - 1] == x + front;
      OneMoreValue(x + y, prices);
      OneMoreValue(y, prices);
    }
  }

  lemma OneMoreValue(x: seq<Holding>, prices: map<string, real>)
    requires x != []
    ensures PricedSum(ValuesOf(x, prices)) == PricedSum(ValuesOf(x[..|x| - 1], prices)) + ValueOf(x[|x| - 1], prices).GetOr(0.0)
  {
    hide ValueOf;
    assert ValuesOf(x, prices)[..|x| - 1] == ValuesOf(x[..|x| - 1], prices);
  }

  lemma NoHoldings(prices: map<string, real>)
    ensures PricedSum(ValuesOf([], prices)) == 0.0
  {
  }

  lemma OneHolding(h: Holding, prices: map<string, real>)
    ensures PricedSum(ValuesOf([h], prices)) == if h.symbol in prices then h.quantity * prices[h.symbol] else 0.0
  {
    var values := ValuesOf([h], prices);
    assert values[..0] == [] && values[0] == ValueOf(h, prices);
    assert PricedSum(values) == PricedSum([]) + values[0].GetOr(0.0);
  }

  /** Splitting a holding in two keeps the total. */
  lemma SplittingKeepsTotal(pre: seq<Holding>, h: Holding, h1: Holding, h2: Holding, post: seq<Holding>, prices: map<string, real>)
    requires h1.symbol == h2.symbol == h.symbol && h.quantity == h1.quantity + h2.quantity
    ensures PricedSum(ValuesOf(pre + [h] + post, prices)) == PricedSum(ValuesOf(pre + [h1] + [h2] + post, prices))
  {
    hide PricedSum, ValuesOf;
    ValuesAddUp(pre + [h], post, prices);
    ValuesAddUp(pre, [h], prices);
    ValuesAddUp(pre + [h1] + [h2], post, prices);
    ValuesAddUp(pre + [h1], [h2], prices);
    ValuesAddUp(pre, [h1], prices);
    OneHolding(h, prices);
    OneHolding(h1, prices);
    OneHolding(h2, prices);
    if h.symbol in prices {
      assert h.quantity * prices[h.symbol] == h1.quantity * prices[h.symbol] + h2.quantity * prices[h.symbol];
    }
  }

  /** The percentage of holding i: its repaired share, or nothing while the portfolio has no positive value. */
  function Allocation(values: Values, i: nat): real
    requires i < |values|
  {
    var total := PricedSum(values);
    if total > 0.0 then Repaired(Shares(values, total))[i] as real / 100.0 else 0.0
  }

  /** The percentages of the first n holdings together. */
  function AllocationSum(values: Values, n: nat): real
    requires n <= |values|
  {
    if n == 0 then 0.0 else AllocationSum(values, n - 1) + Allocation(values, n - 1)
  }

  lemma {:induction false} AllocationSumIs(values: Values, n: nat)
    requires n <= |values| && PricedSum(values) > 0.0
    ensures
      var r := Repaired(Shares(values, PricedSum(values)));
      |r| == |values| && AllocationSum(values, n) == Sum(r[..n]) as real / 100.0
  {
    hide PricedSum, Shares, Repaired;
    var r := Repaired(Shares(values, PricedSum(values)));
    RepairKeepsLength(Shares(values, PricedSum(values)));
    if n > 0 {
      AllocationSumIs(values, n - 1);
      assert r[..n][..n - 1] == r[..n - 1];
    }
  }

  lemma RepairKeepsLength(s: seq<int>)
    ensures |Repaired(s)| == |s|
  {
  }

  /** Nothing for an unpriced holding; otherwise within half a hundredth of the exact percentage. */
  ghost predicate IsClose(v: Option<real>, total: real, percentage: real) {
    if v.None? then percentage == 0.0
    else Times(total, 100.0 * percentage - 0.5) <= 10000.0 * v.value <= Times(total, 100.0 * percentage + 0.5)
  }

  lemma UnrepairedShare(values: Values, i: nat)
    requires PricedSum(values) > 0.0
    requires i < |values| && i != Largest(Shares(values, PricedSum(values)))
    ensures 100.0 * Allocation(values, i) == Share(values[i], PricedSum(values)) as real
  {
    hide PricedSum, Sum, Share;
  }

  lemma AllocationIsClose(values: Values, i: nat)
    requires PricedSum(values) > 0.0 && NonNegative(values)
    requires i < |values| && i != Largest(Shares(values, PricedSum(values)))
    ensures IsClose(values[i], PricedSum(values), Allocation(values, i))
  {
    UnrepairedShare(values, i);
    hide PricedSum, Allocation, Times, Share, Largest, Shares;
    if values[i].Some? {
      assert values[i] in values;
      ShareBounds(values[i].value, PricedSum(values));
    }
  }

  /** The percentages of a portfolio add up to exactly 100 if and only if some holding is worth a twenty-thousandth
      of it; and but for the first largest one, each is within half a hundredth of the exact percentage. */
  lemma AllocationsAddUp(values: Values)
    requires PricedSum(values) > 0.0 && NonNegative(values)
    ensures AllocationSum(values, |values|) == 100.0 <==> HasVisibleShare(values)
    ensures forall i :: 0 <= i < |values| && i != Largest(Shares(values, PricedSum(values))) ==>
      IsClose(values[i], PricedSum(values), Allocation(values, i))
  {
    var r := Repaired(Shares(values, PricedSum(values)));
    AllocationSumIs(values, |values|);
    assert r[..|values|] == r;
    SumsToHundredExactlyWhen(values);
    hide PricedSum, Sum, Largest, HasVisibleShare, IsClose, Allocation, Shares, Repaired, NonNegative;
    forall i | 0 <= i < |values| && i != Largest(Shares(values, PricedSum(values)))
      ensures IsClose(values[i], PricedSum(values), Allocation(values, i))
    {
      AllocationIsClose(values, i);
    }
  }

  lemma RoundExact(k: int)
    ensures RoundTo2(k as real / 100.0) == k as real / 100.0
  {
    assert k as real / 100.0 * 100.0 == k as real;
    assert (k as real + 0.5).Floor == k && (-(k as real) + 0.5).Floor == -k;
  }

  /** The sum of the priced percentages. */
  function PctSum(assets: seq<AssetValuation>): real {
    if assets == [] then 0.0
    else
      var last := assets[|assets| - 1];
      PctSum(assets[..|assets| - 1]) + if last.priced then last.allocation else 0.0
  }

  /** The first position of the greatest positive percentage of a priced asset, or -1. */
  function LargestPct(assets: seq<AssetValuation>): (i: int)
    ensures -1 <= i < |assets|
    ensures i >= 0 ==> assets[i].priced && assets[i].allocation > 0.0
    ensures i >= 0 ==> forall j :: 0 <= j < |assets| && assets[j].priced ==>
      assets[j].allocation <= assets[i].allocation && (j < i ==> assets[j].allocation < assets[i].allocation)
    ensures i < 0 ==> forall j :: 0 <= j < |assets| && assets[j].priced ==> assets[j].allocation <= 0.0
  {
    if assets == [] then -1
    else
      var front, last := assets[..|assets| - 1], assets[|assets| - 1];
      var i := LargestPct(front);
      if last.priced && last.allocation > (if i < 0 then 0.0 else front[i].allocation) then |assets| - 1 else i
  }

  /** The residual of 100 goes to the first largest percentage, which is rounded again; nothing else changes. */
  method AdjustAllocationRounding(assets: array<AssetValuation>)
    modifies assets
    ensures
      var was := old(assets[..]);
      var i := LargestPct(was);
      assets[..] == if i < 0 then was
                    else was[i := was[i].(allocation := RoundTo2(was[i].allocation + (100.0 - PctSum(was))))]
  {
    hide Round, RoundTo2;
    var sum, largestIdx, largestPct := 0.0, -1, 0.0;
    ghost var was := assets[..];
    for i := 0 to assets.Length
      invariant assets[..] == was
      invariant sum == PctSum(was[..i]) && largestIdx == LargestPct(was[..i])
      invariant largestPct == if largestIdx < 0 then 0.0 else was[largestIdx].allocation
    {
      assert was[..i + 1][..i] == was[..i];
      if assets[i].priced {
        sum := sum + assets[i].allocation;
        if assets[i].allocation > largestPct {
          largestPct, largestIdx := assets[i].allocation, i;
        }
      }
    }
    assert was[..assets.Length] == was;
    hide PctSum, LargestPct;
    if largestIdx >= 0 {
      var diff := 100.0 - sum;
      assets[largestIdx] := assets[largestIdx].(allocation := RoundTo2(assets[largestIdx].allocation + diff));
    }
  }

  /** Percentages in whole hundredths, none for unpriced assets. */
  predicate InHundredths(assets: seq<AssetValuation>, hundredths: seq<int>) {
    |hundredths| == |assets| && forall i :: 0 <= i < |assets| ==>
      assets[i].allocation == hundredths[i] as real / 100.0 && (!assets[i].priced ==> hundredths[i] == 0)
  }

  lemma {:induction false} HundredthsAgree(assets: seq<AssetValuation>, hundredths: seq<int>)
    requires InHundredths(assets, hundredths)
    ensures PctSum(assets) == Sum(hundredths) as real / 100.0 && LargestPct(assets) == Largest(hundredths)
  {
    if assets != [] {
      HundredthsAgree(assets[..|assets| - 1], hundredths[..|assets| - 1]);
    }
  }

  /** On such percentages the adjustment is the repair of the hundredths. */
  lemma AdjustmentIsRepair(assets: seq<AssetValuation>, hundredths: seq<int>)
    requires InHundredths(assets, hundredths) && LargestPct(assets) >= 0
    ensures
      var i := LargestPct(assets);
      i == Largest(hundredths)
      && RoundTo2(assets[i].allocation + (100.0 - PctSum(assets))) == Repaired(hundredths)[i] as real / 100.0
  {
    HundredthsAgree(assets, hundredths);
    hide PctSum, LargestPct, Sum, Largest, Round;
    var i := Largest(hundredths);
    var k := hundredths[i] + 10000 - Sum(hundredths);
    RoundExact(k);
    assert assets[i].allocation + (100.0 - PctSum(assets)) == k as real / 100.0;
  }

  /** One holding: priced or flagged, with its unrealized result when an average buy price is known. */
  method Value(h: Holding, prices: map<string, real>) returns (av: AssetValuation)
    ensures av == Valued(h, prices)
  {
    hide Gain, GainPct;
    av := AssetValuation(h.symbol, h.quantity, h.avgBuyPrice, h.source, false, 0.0, 0.0, None, None, 0.0);
    if h.symbol !in prices {
      return;
    }
    var price := prices[h.symbol];
    var pnl, pct := None, None;
    if h.avgBuyPrice.Some? {
      pnl := Some(Gain(price, h.avgBuyPrice.value, h.quantity));
      if h.avgBuyPrice.value != 0.0 {
        pct := Some(GainPct(price, h.avgBuyPrice.value));
      }
    }
    return av.(priced := true, price := price, value := h.quantity * price, pnl := pnl, pnlPct := pct);
  }

  lemma ValuedValue(h: Holding, prices: map<string, real>)
    ensures var av := Valued(h, prices); ValueOf(h, prices) == if av.priced then Some(av.value) else None
    ensures Valued(h, prices).allocation == 0.0
  {
  }

  method ValueAll(holdings: seq<Holding>, prices: map<string, real>) returns (totalValue: real, list: seq<AssetValuation>)
    ensures totalValue == PricedSum(ValuesOf(holdings, prices))
    ensures |list| == |holdings| && forall j :: 0 <= j < |holdings| ==> list[j] == Valued(holdings[j], prices)
  {
    ghost var values := ValuesOf(holdings, prices);
    totalValue, list := 0.0, [];
    for i := 0 to |holdings|
      invariant |list| == i && forall j :: 0 <= j < i ==> list[j] == Valued(holdings[j], prices)
      invariant totalValue == PricedSum(values[..i])
    {
      assert values[..i + 1][..i] == values[..i] && values[i] == ValueOf(holdings[i], prices);
      ValuedValue(holdings[i], prices);
      hide Valued, ValueOf;
      var av := Value(holdings[i], prices);
      if av.priced {
        totalValue := totalValue + av.value;
      }
      list := list + [av];
    }
    assert values[..|values|] == values;
  }

  lemma ShareOfAsset(v: real, total: real)
    requires total != 0.0
    ensures RoundTo2(v / total * 100.0) == Share(Some(v), total) as real / 100.0
  {
    hide Round;
  }

  predicate ValuesAre(assets: seq<AssetValuation>, values: Values) {
    |values| == |assets| && forall i :: 0 <= i < |assets| ==>
      values[i] == (if assets[i].priced then Some(assets[i].value) else None) && assets[i].allocation == 0.0
  }

  function WithAllocations(assets: seq<AssetValuation>, hundredths: seq<int>): (r: seq<AssetValuation>)
    requires |hundredths| == |assets|
    ensures |r| == |assets|
    ensures forall i :: 0 <= i < |r| ==> r[i] == assets[i].(allocation := hundredths[i] as real / 100.0)
  {
    seq(|assets|, i requires 0 <= i < |assets| => assets[i].(allocation := hundredths[i] as real / 100.0))
  }

  /** Every priced asset gets its rounded share. */
  method RoundAllocations(assets: array<AssetValuation>, totalValue: real, ghost values: Values)
    requires totalValue > 0.0 && ValuesAre(assets[..], values)
    modifies assets
    ensures assets[..] == WithAllocations(old(assets[..]), Shares(values, totalValue))
    ensures InHundredths(assets[..], Shares(values, totalValue))
  {
    hide RoundTo2;
    ghost var was, hundredths := assets[..], Shares(values, totalValue);
    hide Shares;
    for i := 0 to assets.Length
      invariant forall j :: i <= j < assets.Length ==> assets[j] == was[j]
      invariant forall j :: 0 <= j < i ==> assets[j] == was[j].(allocation := hundredths[j] as real / 100.0)
    {
      assert hundredths[i] == Share(values[i], totalValue);
      if assets[i].priced {
        ShareOfAsset(assets[i].value, totalValue);
        hide Share;
        assets[i] := assets[i].(allocation := RoundTo2(assets[i].value / totalValue * 100.0));
      }
    }
    assert forall j :: 0 <= j < assets.Length && !was[j].priced ==> hundredths[j] == 0;
  }

  /** Percentages of the priced assets, rounded and then repaired. */
  method Allocate(assets: array<AssetValuation>, totalValue: real, ghost values: Values)
    requires totalValue > 0.0 && totalValue == PricedSum(values) && ValuesAre(assets[..], values)
    modifies assets
    ensures assets[..] == WithAllocations(old(assets[..]), Repaired(Shares(values, totalValue)))
  {
    ghost var was, hundredths := assets[..], Shares(values, totalValue);
    assert |hundredths| == |was|;
    hide PricedSum, RoundTo2, PctSum, LargestPct, Sum, Largest, InHundredths, Shares, ValuesAre;
    RoundAllocations(assets, totalValue, values);
    ghost var rounded := assets[..];
    AdjustAllocationRounding(assets);
    AdjustedIsRepaired(was, rounded, assets[..], hundredths);
  }

  /** What the adjustment leaves are the repaired hundredths. */
  lemma AdjustedIsRepaired(was: seq<AssetValuation>, rounded: seq<AssetValuation>, after: seq<AssetValuation>, hundredths: seq<int>)
    requires |hundredths| == |was| && rounded == WithAllocations(was, hundredths) && InHundredths(rounded, hundredths)
    requires
      var i := LargestPct(rounded);
      after == if i < 0 then rounded
               else rounded[i := rounded[i].(allocation := RoundTo2(rounded[i].allocation + (100.0 - PctSum(rounded))))]
    ensures |Repaired(hundredths)| == |was| && after == WithAllocations(was, Repaired(hundredths))
  {
    hide PctSum, LargestPct, Sum, Largest, RoundTo2, InHundredths;
    HundredthsAgree(rounded, hundredths);
    if LargestPct(rounded) >= 0 {
      AdjustmentIsRepair(rounded, hundredths);
    }
  }

  /** prices: the tickers that answered. */
  method ComputeValuation(holdings: seq<Holding>, prices: map<string, real>) returns (totalValue: real, valuation: seq<AssetValuation>)
    ensures totalValue == PricedSum(ValuesOf(holdings, prices))
    ensures |valuation| == |holdings|
    ensures forall i :: 0 <= i < |holdings| ==>
      valuation[i] == Valued(holdings[i], prices).(allocation := Allocation(ValuesOf(holdings, prices), i))
    ensures forall i :: 0 <= i < |holdings| ==> IsValued(valuation[i], holdings[i], prices)
  {
    ghost var values := ValuesOf(holdings, prices);
    var list;
    totalValue, list := ValueAll(holdings, prices);
    forall i | 0 <= i < |list| ensures values[i] == (if list[i].priced then Some(list[i].value) else None) && list[i].allocation == 0.0 {
      ValuedValue(holdings[i], prices);
    }
    assert ValuesAre(list, values);
    hide Round, Repaired, Shares, PricedSum, Valued, ValuesOf, ValueOf, IsValued, Allocation;
    var assets := new AssetValuation[|list|](i requires 0 <= i < |list| => list[i]);
    assert assets[..] == list;
    if totalValue > 0.0 {
      Allocate(assets, totalValue, values);
    } else {
      NothingAllocated(values);
    }
    valuation := assets[..];
    AllValued(valuation, holdings, prices);
  }

  lemma AllValued(valuation: seq<AssetValuation>, holdings: seq<Holding>, prices: map<string, real>)
    requires |valuation| == |holdings|
    requires forall i :: 0 <= i < |holdings| ==>
      valuation[i] == Valued(holdings[i], prices).(allocation := valuation[i].allocation)
    ensures forall i :: 0 <= i < |holdings| ==> IsValued(valuation[i], holdings[i], prices)
  {
    hide Valued, IsValued;
    forall i | 0 <= i < |holdings| ensures IsValued(valuation[i], holdings[i], prices) {
      ValuedMeans(holdings[i], prices, valuation[i].allocation);
    }
  }

  lemma NothingAllocated(values: Values)
    requires PricedSum(values) <= 0.0
    ensures forall i :: 0 <= i < |values| ==> Allocation(values, i) == 0.0
  {
  }

  // ---------- the historical series ----------

  datatype Close = Close(ts: int, close: real)

  datatype Point = Point(ts: int, value: real)

  type Prices = map<int, real>

  /** Close prices by timestamp; a later candle with the same timestamp wins. */
  function PricesOf(candles: seq<Close>): Prices {
    if candles == [] then map[]
    else PricesOf(candles[..|candles| - 1])[candles[|candles| - 1].ts := candles[|candles| - 1].close]
  }

  ghost function MaxOf(s: set<int>): (m: Option<int>)
    ensures m.None? ==> forall x :: x !in s
    ensures m.Some? ==> m.value in s && forall x :: x in s ==> x <= m.value
  {
    if !exists x :: x in s then None
    else
      var x :| x in s;
      var m := MaxOf(s - {x});
      assert forall y :: y in s ==> y == x || y in s - {x};
      if m.Some? && m.value >= x then m else Some(x)
  }

  ghost function UpTo(prices: Prices, ts: int): set<int> { set t | t in prices && t <= ts }

  /** The price at the greatest timestamp at or before ts. */
  ghost function Latest(prices: Prices, ts: int): Option<real> {
    match MaxOf(UpTo(prices, ts))
    case Some(t) => Some(prices[t])
    case None => None
  }

  /** Carrying forward is looking up: at a timestamp of its own a price is new, otherwise it is the one before. */
  lemma LatestStep(prices: Prices, ts: int)
    ensures Latest(prices, ts) == if ts in prices then Some(prices[ts]) else Latest(prices, ts - 1)
  {
    if ts in prices {
      assert ts in UpTo(prices, ts);
    } else {
      assert UpTo(prices, ts) == UpTo(prices, ts - 1);
    }
  }

  lemma LatestWithoutNews(prices: Prices, t: int, u: int)
    requires t <= u && forall x :: t < x <= u ==> x !in prices
    ensures Latest(prices, t) == Latest(prices, u)
  {
    assert UpTo(prices, t) == UpTo(prices, u);
  }

  lemma NothingYet(prices: Prices, t: int)
    requires forall x :: x in prices ==> t < x
    ensures Latest(prices, t) == None
  {
    assert UpTo(prices, t) == {};
  }

  ghost function Contribution(h: Holding, books: map<string, Prices>, ts: int): real {
    if h.symbol !in books then 0.0
    else match Latest(books[h.symbol], ts)
      case Some(price) => h.quantity * price
      case None => 0.0
  }

  /** Quantity times latest price, over all holdings; an asset without a price yet counts nothing. */
  ghost function ValueAt(holdings: seq<Holding>, books: map<string, Prices>, ts: int): real {
    if holdings == [] then 0.0
    else ValueAt(holdings[..|holdings| - 1], books, ts) + Contribution(holdings[|holdings| - 1], books, ts)
  }

  /** Portfolios add up at every timestamp too. */
  lemma {:induction false} PointsAddUp(x: seq<Holding>, y: seq<Holding>, books: map<string, Prices>, ts: int)
    ensures ValueAt(x + y, books, ts) == ValueAt(x, books, ts) + ValueAt(y, books, ts)
  {
    hide Contribution;
    if y == [] {
      assert x + y == x;
    } else {
      PointsAddUp(x, y[..|y| - 1], books, ts);
      assert (x + y)[..|x + y| - 1] == x + y[..|y| - 1];
    }
  }

  /** The last of the latest candles at or before a timestamp. */
  ghost predicate IsCurrent(candles: seq<Close>, i: nat, ts: int) {
    && i < |candles| && candles[i].ts <= ts
    && (forall j :: 0 <= j < |candles| && candles[j].ts <= ts ==> candles[j].ts <= candles[i].ts)
    && (forall j :: i < j < |candles| ==> candles[j].ts != candles[i].ts)
  }

  lemma {:induction false} PriceIsLastClose(candles: seq<Close>, i: nat)
    requires i < |candles| && forall j :: i < j < |candles| ==> candles[j].ts != candles[i].ts
    ensures candles[i].ts in PricesOf(candles) && PricesOf(candles)[candles[i].ts] == candles[i].close
  {
    if i < |candles| - 1 {
      PriceIsLastClose(candles[..|candles| - 1], i);
      assert candles[|candles| - 1].ts != candles[i].ts;
    }
  }

  lemma {:induction false} PriceTimes(candles: seq<Close>, t: int)
    ensures t in PricesOf(candles) <==> exists j :: 0 <= j < |candles| && candles[j].ts == t
  {
    if candles != [] {
      var front := candles[..|candles| - 1];
      PriceTimes(front, t);
      assert forall j :: 0 <= j < |front| ==> front[j] == candles[j];
    }
  }

  /** The timestamps of a series are those of the fetched candles of the held assets. */
  lemma TimesAreCandleTimes(holdings: seq<Holding>, candles: map<string, seq<Close>>, t: int)
    ensures t in AllTimes(BooksOf(holdings, candles)) <==>
      exists h, c :: h in holdings && h.symbol in candles && c in candles[h.symbol] && c.ts == t
  {
    var books := BooksOf(holdings, candles);
    hide PricesOf;
    if t in AllTimes(books) {
      var a :| a in books && t in books[a];
      var h :| h in holdings && h.symbol == a;
      PriceTimes(candles[a], t);
      var j :| 0 <= j < |candles[a]| && candles[a][j].ts == t;
      assert candles[h.symbol][j] in candles[h.symbol];
    }
    if h, c :| h in holdings && h.symbol in candles && c in candles[h.symbol] && c.ts == t {
      var j :| 0 <= j < |candles[h.symbol]| && candles[h.symbol][j] == c;
      PriceTimes(candles[h.symbol], t);
      assert h.symbol in books && t in books[h.symbol];
    }
  }

  /** One holding at one timestamp: its quantity times the close of its latest candle at or before it, or nothing. */
  lemma OnePoint(h: Holding, holdings: seq<Holding>, candles: map<string, seq<Close>>, ts: int)
    requires h in holdings
    ensures
      var value := ValueAt([h], BooksOf(holdings, candles), ts);
      && (forall i: nat :: h.symbol in candles && IsCurrent(candles[h.symbol], i, ts) ==> value == h.quantity * candles[h.symbol][i].close)
      && (h.symbol !in candles || (forall j :: 0 <= j < |candles[h.symbol]| ==> candles[h.symbol][j].ts > ts) ==> value == 0.0)
  {
    var books := BooksOf(holdings, candles);
    assert [h][..0] == [];
    assert ValueAt([h], books, ts) == Contribution(h, books, ts);
    hide ValueAt;
    if h.symbol in candles {
      assert h.symbol in Symbols(holdings) && books[h.symbol] == PricesOf(candles[h.symbol]);
      forall i: nat | IsCurrent(candles[h.symbol], i, ts) ensures Contribution(h, books, ts) == h.quantity * candles[h.symbol][i].close {
        CurrentIsLatest(candles[h.symbol], i, ts);
      }
      if forall j :: 0 <= j < |candles[h.symbol]| ==> candles[h.symbol][j].ts > ts {
        forall t | t in books[h.symbol] ensures ts < t {
          PriceTimes(candles[h.symbol], t);
        }
        NothingYet(books[h.symbol], ts);
      }
    }
  }

  lemma CurrentIsLatest(candles: seq<Close>, i: nat, ts: int)
    requires IsCurrent(candles, i, ts)
    ensures Latest(PricesOf(candles), ts) == Some(candles[i].close)
  {
    PriceIsLastClose(candles, i);
    forall t | t in PricesOf(candles) && t <= ts ensures t <= candles[i].ts {
      PriceTimes(candles, t);
    }
    hide PricesOf;
    assert candles[i].ts in UpTo(PricesOf(candles), ts);
  }

  ghost function Symbols(holdings: seq<Holding>): set<string> { set h | h in holdings :: h.symbol }

  /** The price histories of the held assets whose candles could be fetched. */
  ghost function BooksOf(holdings: seq<Holding>, candles: map<string, seq<Close>>): map<string, Prices> {
    map a | a in candles && a in Symbols(holdings) :: PricesOf(candles[a])
  }

  ghost function AllTimes(books: map<string, Prices>): set<int> { set a, t | a in books && t in books[a] :: t }

  ghost predicate InOrder(points: seq<Point>) { forall i, j :: 0 <= i < j < |points| ==> points[i].ts < points[j].ts }

  function Known(lastKnown: map<string, real>, a: string): Option<real> {
    if a in lastKnown then Some(lastKnown[a]) else None
  }

  /** lastKnown in the middle of a timestamp: new for the assets already visited, as of before for the others. */
  ghost predicate Carried(lastKnown: map<string, real>, books: map<string, Prices>, visited: set<string>, ts: int) {
    forall a :: a in books ==> Known(lastKnown, a) == Latest(books[a], if a in visited then ts else ts - 1)
  }

  lemma VisitAsset(lastKnown: map<string, real>, books: map<string, Prices>, visited: set<string>, ts: int, a: string)
    requires Carried(lastKnown, books, visited, ts) && a in books
    ensures ts in books[a] ==>
      Latest(books[a], ts) == Some(books[a][ts]) && Carried(lastKnown[a := books[a][ts]], books, visited + {a}, ts)
    ensures ts !in books[a] ==> Latest(books[a], ts) == Known(lastKnown, a) && Carried(lastKnown, books, visited + {a}, ts)
  {
    LatestStep(books[a], ts);
    hide Latest;
    assert Known(lastKnown, a) == Latest(books[a], if a in visited then ts else ts - 1);
  }

  /** Between two consecutive timestamps nothing changes. */
  lemma NextTimestamp(lastKnown: map<string, real>, books: map<string, Prices>, visited: set<string>, ts: int, next: int)
    requires Carried(lastKnown, books, visited, ts) && (forall a :: a in books ==> a in visited) && ts < next
    requires forall a, x :: a in books && x in books[a] ==> x <= ts || x >= next
    ensures Carried(lastKnown, books, {}, next)
  {
    forall a | a in books ensures Known(lastKnown, a) == Latest(books[a], next - 1) {
      LatestWithoutNews(books[a], ts, next - 1);
    }
  }

  /** What one holding adds at a timestamp: its own price there, else the carried one, else nothing. */
  method Visit(h: Holding, books: map<string, Prices>, ts: int, before: map<string, real>, ghost visited: set<string>)
    returns (value: real, lastKnown: map<string, real>)
    requires Carried(before, books, visited, ts)
    ensures value == Contribution(h, books, ts) && Carried(lastKnown, books, visited + {h.symbol}, ts)
  {
    hide Carried, Latest;
    value, lastKnown := 0.0, before;
    if h.symbol in books {
      VisitAsset(lastKnown, books, visited, ts, h.symbol);
      if ts in books[h.symbol] {
        var closePrice := books[h.symbol][ts];
        lastKnown := lastKnown[h.symbol := closePrice];
        value := h.quantity * closePrice;
      } else if h.symbol in lastKnown {
        value := h.quantity * lastKnown[h.symbol];
      }
    } else {
      VisitStranger(lastKnown, books, visited, ts, h.symbol);
    }
  }

  lemma OneMoreHolding(holdings: seq<Holding>, i: nat, books: map<string, Prices>, ts: int)
    requires i < |holdings|
    ensures Symbols(holdings[..i + 1]) == Symbols(holdings[..i]) + {holdings[i].symbol}
    ensures ValueAt(holdings[..i + 1], books, ts) == ValueAt(holdings[..i], books, ts) + Contribution(holdings[i], books, ts)
  {
    hide Contribution;
    var upto := holdings[..i + 1];
    assert upto[..i] == holdings[..i] && upto == holdings[..i] + [holdings[i]];
  }

  method ValueOfPoint(holdings: seq<Holding>, books: map<string, Prices>, ts: int, before: map<string, real>)
    returns (value: real, lastKnown: map<string, real>)
    requires Carried(before, books, {}, ts)
    ensures value == ValueAt(holdings, books, ts) && Carried(lastKnown, books, Symbols(holdings), ts)
  {
    value, lastKnown := 0.0, before;
    assert Symbols(holdings[..0]) == {};
    assert ValueAt(holdings[..0], books, ts) == 0.0;
    hide Carried, Contribution, ValueAt, Symbols;
    for i := 0 to |holdings|
      invariant value == ValueAt(holdings[..i], books, ts)
      invariant Carried(lastKnown, books, Symbols(holdings[..i]), ts)
    {
      var added;
      added, lastKnown := Visit(holdings[i], books, ts, lastKnown, Symbols(holdings[..i]));
      OneMoreHolding(holdings, i, books, ts);
      value := value + added;
    }
    assert holdings[..|holdings|] == holdings;
  }

  lemma VisitStranger(lastKnown: map<string, real>, books: map<string, Prices>, visited: set<string>, ts: int, a: string)
    requires Carried(lastKnown, books, visited, ts) && a !in books
    ensures Carried(lastKnown, books, visited + {a}, ts)
  {
    hide Latest;
  }

  method Collect(candles: seq<Close>) returns (prices: Prices)
    ensures prices == PricesOf(candles)
  {
    prices := map[];
    for i := 0 to |candles|
      invariant prices == PricesOf(candles[..i])
    {
      assert candles[..i + 1][..i] == candles[..i];
      prices := prices[candles[i].ts := candles[i].close];
    }
    assert candles[..|candles|] == candles;
  }

  /** candles: the fetched series per asset; an asset whose fetch failed is absent. */
  method FetchAll(holdings: seq<Holding>, candles: map<string, seq<Close>>) returns (books: map<string, Prices>)
    ensures books == BooksOf(holdings, candles)
  {
    books := map[];
    for i := 0 to |holdings|
      invariant books == BooksOf(holdings[..i], candles)
    {
      var h := holdings[i];
      assert holdings[..i + 1] == holdings[..i] + [h];
      assert Symbols(holdings[..i + 1]) == Symbols(holdings[..i]) + {h.symbol};
      if h.symbol !in books && h.symbol in candles {
        var prices := Collect(candles[h.symbol]);
        books := books[h.symbol := prices];
      }
    }
    assert holdings[..|holdings|] == holdings;
  }

  /** The values at the given timestamps, oldest first, carrying the last known prices along. */
  method Series(holdings: seq<Holding>, books: map<string, Prices>, timestamps: seq<int>) returns (points: seq<Point>)
    requires Increasing(timestamps) && forall t :: t in timestamps <==> t in AllTimes(books)
    requires forall a :: a in books ==> a in Symbols(holdings)
    ensures |points| == |timestamps|
    ensures forall j :: 0 <= j < |points| ==> points[j] == Point(timestamps[j], ValueAt(holdings, books, timestamps[j]))
  {
    points := [];
    var lastKnown: map<string, real> := map[];
    if timestamps != [] {
      StartOfSeries(books, timestamps);
    }
    hide Latest, ValueAt, Carried, Symbols, AllTimes, Increasing;
    for i := 0 to |timestamps|
      invariant |points| == i && forall j :: 0 <= j < i ==> points[j] == Point(timestamps[j], ValueAt(holdings, books, timestamps[j]))
      invariant i < |timestamps| ==> Carried(lastKnown, books, {}, timestamps[i])
    {
      var ts := timestamps[i];
      var value;
      value, lastKnown := ValueOfPoint(holdings, books, ts, lastKnown);
      if i + 1 < |timestamps| {
        NoTimeBetween(books, timestamps, i);
        NextTimestamp(lastKnown, books, Symbols(holdings), ts, timestamps[i + 1]);
      }
      points := points + [Point(ts, value)];
    }
  }

  /** One point per timestamp of any fetched candle, in time order, each the direct lookup of every holding. */
  method ComputeHistorical(holdings: seq<Holding>, candles: map<string, seq<Close>>) returns (points: seq<Point>)
    ensures InOrder(points)
    ensures forall t :: t in AllTimes(BooksOf(holdings, candles)) <==> exists p :: p in points && p.ts == t
    ensures forall p :: p in points ==> p.value == ValueAt(holdings, BooksOf(holdings, candles), p.ts)
  {
    var books := FetchAll(holdings, candles);
    assert forall a :: a in books ==> a in Symbols(holdings);
    var times := set a, t | a in books && t in books[a] :: t;
    assert times == AllTimes(books);
    hide BooksOf, Symbols, AllTimes, ValueAt;
    var timestamps := SortedKeys(times);
    if timestamps == [] {
      return [];
    }
    points := Series(holdings, books, timestamps);
    SeriesCovers(points, timestamps);
  }

  lemma SeriesCovers(points: seq<Point>, timestamps: seq<int>)
    requires |points| == |timestamps| && forall j :: 0 <= j < |points| ==> points[j].ts == timestamps[j]
    ensures forall t :: t in timestamps <==> exists p :: p in points && p.ts == t
  {
    forall t | t in timestamps ensures exists p :: p in points && p.ts == t {
      var i :| 0 <= i < |timestamps| && timestamps[i] == t;
      assert points[i] in points;
    }
  }

  lemma StartOfSeries(books: map<string, Prices>, timestamps: seq<int>)
    requires timestamps != [] && Increasing(timestamps)
    requires forall t :: t in timestamps <==> t in AllTimes(books)
    ensures Carried(map[], books, {}, timestamps[0])
  {
    forall a | a in books ensures Latest(books[a], timestamps[0] - 1) == None {
      forall x | x in books[a] ensures timestamps[0] - 1 < x {
        assert x in AllTimes(books);
        var i :| 0 <= i < |timestamps| && timestamps[i] == x;
      }
      NothingYet(books[a], timestamps[0] - 1);
    }
  }

  lemma NoTimeBetween(books: map<string, Prices>, timestamps: seq<int>, i: nat)
    requires i + 1 < |timestamps| && Increasing(timestamps)
    requires forall t :: t in timestamps <==> t in AllTimes(books)
    ensures timestamps[i] < timestamps[i + 1]
    ensures forall a, x :: a in books && x in books[a] ==> x <= timestamps[i] || x >= timestamps[i + 1]
  {
    forall a, x | a in books && x in books[a] ensures x <= timestamps[i] || x >= timestamps[i + 1] {
      assert x in AllTimes(books);
      var k :| 0 <= k < |timestamps| && timestamps[k] == x;
    }
  }
}
