/** The FIFO profit-and-loss engine (backend/internal/portfolio/pnl_engine.go). */
module PnLEngine {
  import opened Common

  datatype Kind = Buy | Sell | Transfer | Fee
  datatype Resolution = Exact | Hourly | Daily | Unresolvable

  datatype Tx = Tx(asset: string, kind: Kind, quantity: real, reference: Option<real>,
                   timestamp: int, resolution: Resolution)

  datatype Lot = Lot(quantity: real, unitCost: real)

  function UnitPrice(t: Tx): real {
    if t.reference.Some? && t.quantity != 0.0 then t.reference.value / t.quantity else 0.0
  }

  // ---------- one asset's book, step by step ----------

  /** Everything the engine keeps for one asset. */
  datatype Book = Book(queue: seq<Lot>, realized: real, count: nat)

  /** What the sell loop leaves of the queue, and the P&L it realizes. */
  function Match(queue: seq<Lot>, remaining: real, price: real): (seq<Lot>, real) {
    if remaining <= 0.0 || queue == [] then (queue, 0.0)
    else
      var lot := queue[0];
      var matched := if lot.quantity > remaining then remaining else lot.quantity;
      var left := lot.quantity - matched;
      var gain := Times(price - lot.unitCost, matched);
      if left <= 0.0 then
        var (rest, more) := Match(queue[1..], remaining - matched, price);
        (rest, gain + more)
      else
        ([Lot(left, lot.unitCost)] + queue[1..], gain)
  }

  function Apply(b: Book, t: Tx): Book {
    match t.kind
    case Buy => b.(queue := b.queue + [Lot(t.quantity, UnitPrice(t))], count := b.count + 1)
    case Sell =>
      var (rest, gain) := Match(b.queue, t.quantity, UnitPrice(t));
      Book(rest, b.realized + gain, b.count + 1)
    case _ => b.(count := b.count + 1)
  }

  function BookOf(txs: seq<Tx>, a: string): Book {
    if txs == [] then Book([], 0.0, 0)
    else
      var t := txs[|txs| - 1];
      var b := BookOf(txs[..|txs| - 1], a);
      if t.asset == a then Apply(b, t) else b
  }

  function Unrealized(queue: seq<Lot>, price: real): real {
    if queue == [] then 0.0
    else Times(price - queue[0].unitCost, queue[0].quantity) + Unrealized(queue[1..], price)
  }

  function UnrealizedOf(queue: seq<Lot>, price: Option<real>): real {
    if price.Some? then Unrealized(queue, price.value) else 0.0
  }

  /** The sell loop: mutates the head lot, pops spent lots, drops what exceeds the holdings. */
  method SellLoop(fifo: seq<Lot>, quantity: real, price: real) returns (queue: seq<Lot>, realized: real)
    ensures (queue, realized) == Match(fifo, quantity, price)
  {
    queue, realized := fifo, 0.0;
    var remaining := quantity;
    while remaining > 0.0 && |queue| > 0
      invariant Match(fifo, quantity, price).0 == Match(queue, remaining, price).0
      invariant Match(fifo, quantity, price).1 == realized + Match(queue, remaining, price).1
      decreases |queue|, remaining > 0.0
    {
      var matched := queue[0].quantity;
      if matched > remaining {
        matched := remaining;
      }
      realized := realized + Times(price - queue[0].unitCost, matched);
      var left := queue[0].quantity - matched;
      remaining := remaining - matched;
      if left <= 0.0 {
        queue := queue[1..];
      } else {
        queue := [Lot(left, queue[0].unitCost)] + queue[1..];
      }
    }
  }

  // ---------- closed form ----------

  function Buys(txs: seq<Tx>, a: string): seq<Lot> {
    if txs == [] then []
    else
      var t := txs[|txs| - 1];
      Buys(txs[..|txs| - 1], a) + if t.asset == a && t.kind.Buy? then [Lot(t.quantity, UnitPrice(t))] else []
  }

  function Units(lots: seq<Lot>): real {
    if lots == [] then 0.0 else lots[0].quantity + Units(lots[1..])
  }

  /** The units a sell can match when c of the lots' units are already gone. */
  function Matched(lots: seq<Lot>, c: real, quantity: real): real {
    Max(0.0, Min(quantity, Units(lots) - c))
  }

  /** C: how many bought units the sells have used up. */
  function Used(txs: seq<Tx>, a: string): real {
    if txs == [] then 0.0
    else
      var t, before := txs[|txs| - 1], txs[..|txs| - 1];
      Used(before, a) +
      if t.asset == a && t.kind.Sell? then Matched(Buys(before, a), Used(before, a), t.quantity) else 0.0
  }

  /** What the matched units were sold for. */
  function Proceeds(txs: seq<Tx>, a: string): real {
    if txs == [] then 0.0
    else
      var t, before := txs[|txs| - 1], txs[..|txs| - 1];
      Proceeds(before, a) +
      if t.asset == a && t.kind.Sell? then Times(UnitPrice(t), Matched(Buys(before, a), Used(before, a), t.quantity)) else 0.0
  }

  function Clamp(x: real, hi: real): real { Max(0.0, Min(x, hi)) }

  /** Lot i covers the units [before_i, before_i + quantity_i); the first c units cost this much. */
  function CostOfFirst(lots: seq<Lot>, c: real): real {
    if lots == [] then 0.0
    else Times(lots[0].unitCost, Clamp(c, lots[0].quantity)) + CostOfFirst(lots[1..], c - lots[0].quantity)
  }

  /** The part of each lot that lies beyond the first c units. */
  function Surviving(lots: seq<Lot>, c: real): seq<Lot> {
    if lots == [] then []
    else
      (if c < lots[0].quantity then [Lot(lots[0].quantity - Max(c, 0.0), lots[0].unitCost)] else [])
      + Surviving(lots[1..], c - lots[0].quantity)
  }

  predicate Positive(lots: seq<Lot>) {
    forall i :: 0 <= i < |lots| ==> lots[i].quantity > 0.0
  }

  predicate PositiveBuys(txs: seq<Tx>) {
    forall i :: 0 <= i < |txs| && txs[i].kind.Buy? ==> txs[i].quantity > 0.0
  }

  lemma {:induction false} UnitsNonNegative(lots: seq<Lot>)
    requires Positive(lots)
    ensures Units(lots) >= 0.0
    ensures lots != [] ==> Units(lots) >= lots[0].quantity
  {
    hide Times, UnitPrice;
    if lots != [] {
      UnitsNonNegative(lots[1..]);
    }
  }

  lemma {:induction false} NothingCut(lots: seq<Lot>, c: real)
    requires Positive(lots) && c <= 0.0
    ensures Surviving(lots, c) == lots
    ensures CostOfFirst(lots, c) == 0.0
  {
    hide Times, UnitPrice;
    if lots != [] {
      TimesZero(lots[0].unitCost);
      NothingCut(lots[1..], c - lots[0].quantity);
      assert lots == [lots[0]] + lots[1..];
    }
  }

  /** The sell ends inside the head lot. */
  lemma SellInsideHead(lots: seq<Lot>, c: real, m: real, price: real)
    requires Positive(lots) && lots != [] && 0.0 <= c && 0.0 < m < lots[0].quantity - c
    ensures Match(Surviving(lots, c), m, price)
            == (Surviving(lots, c + m), Times(price, m) - (CostOfFirst(lots, c + m) - CostOfFirst(lots, c)))
  {
    hide Times, UnitPrice, Surviving, CostOfFirst;
    HeadSurvives(lots, c);
    HeadSurvives(lots, c + m);
    TimesSub(price, lots[0].unitCost, m);
    TimesAdd(lots[0].unitCost, c, m);
  }

  lemma PastHead(lots: seq<Lot>, c: real)
    requires Positive(lots) && lots != [] && lots[0].quantity <= c
    ensures Surviving(lots, c) == Surviving(lots[1..], c - lots[0].quantity)
    ensures CostOfFirst(lots, c)
            == Times(lots[0].unitCost, lots[0].quantity) + CostOfFirst(lots[1..], c - lots[0].quantity)
  {
    hide Times, UnitPrice;
  }

  ghost predicate CutMoves(lots: seq<Lot>, c: real, quantity: real, price: real) {
    var m := Matched(lots, c, quantity);
    Match(Surviving(lots, c), quantity, price)
    == (Surviving(lots, c + m), Times(price, m) - (CostOfFirst(lots, c + m) - CostOfFirst(lots, c)))
  }

  lemma HeadSpent(lots: seq<Lot>, c: real, quantity: real, price: real)
    requires Positive(lots) && lots != [] && 0.0 <= c < lots[0].quantity <= c + quantity
    ensures
      var first := lots[0].quantity - c;
      var (left, gain) := Match(lots[1..], quantity - first, price);
      Match(Surviving(lots, c), quantity, price) == (left, Times(price - lots[0].unitCost, first) + gain)
  {
    hide Times, UnitPrice, Surviving, CostOfFirst;
    HeadSurvives(lots, c);
    assert Surviving(lots, c)[1..] == lots[1..];
  }

  lemma MatchedPastHead(lots: seq<Lot>, c: real, quantity: real)
    requires Positive(lots) && lots != [] && 0.0 <= c < lots[0].quantity <= c + quantity
    ensures
      var first := lots[0].quantity - c;
      var more := Matched(lots[1..], 0.0, quantity - first);
      more >= 0.0 && Matched(lots, c, quantity) == first + more
  {
    assert Units(lots) == lots[0].quantity + Units(lots[1..]);
    UnitsNonNegative(lots[1..]);
  }

  lemma CutFromZero(lots: seq<Lot>, quantity: real, price: real)
    requires Positive(lots) && CutMoves(lots, 0.0, quantity, price)
    ensures
      var m := Matched(lots, 0.0, quantity);
      Match(lots, quantity, price) == (Surviving(lots, m), Times(price, m) - CostOfFirst(lots, m))
  {
    hide Times, Surviving, CostOfFirst, Match, Matched;
    NothingCut(lots, 0.0);
    assert 0.0 + Matched(lots, 0.0, quantity) == Matched(lots, 0.0, quantity);
  }

  /** The sell spends the head lot and goes on with the next one. */
  lemma SellSpendsHead(lots: seq<Lot>, c: real, quantity: real, price: real)
    requires Positive(lots) && lots != [] && 0.0 <= c < lots[0].quantity <= c + quantity
    requires CutMoves(lots[1..], 0.0, quantity - (lots[0].quantity - c), price)
    ensures CutMoves(lots, c, quantity, price)
  {
    hide Times, UnitPrice, Surviving, CostOfFirst, Units, Match, Matched;
    CutFromZero(lots[1..], quantity - (lots[0].quantity - c), price);
    HeadSpent(lots, c, quantity, price);
    MatchedPastHead(lots, c, quantity);
    SpendsHeadSum(lots, c, Matched(lots[1..], 0.0, quantity - (lots[0].quantity - c)), price);
  }

  lemma SpendsHeadSum(lots: seq<Lot>, c: real, more: real, price: real)
    requires Positive(lots) && lots != [] && 0.0 <= c < lots[0].quantity && more >= 0.0
    ensures
      var first, rest := lots[0].quantity - c, lots[1..];
      var m := first + more;
      && Surviving(lots, c + m) == Surviving(rest, more)
      && Times(price - lots[0].unitCost, first) + (Times(price, more) - CostOfFirst(rest, more))
         == Times(price, m) - (CostOfFirst(lots, c + m) - CostOfFirst(lots, c))
  {
    hide Times, UnitPrice, Surviving, CostOfFirst, Units, Match;
    var first := lots[0].quantity - c;
    HeadSurvives(lots, c);
    PastHead(lots, c + (first + more));
    assert c + (first + more) - lots[0].quantity == more;
    TimesSub(price, lots[0].unitCost, first);
    TimesAdd(lots[0].unitCost, c, first);
    TimesAdd(price, first, more);
  }

  /** One sell moves the cut from c to c + m and realizes price times m minus the cost of those units. */
  lemma {:induction false} SellMovesTheCut(lots: seq<Lot>, c: real, quantity: real, price: real)
    requires Positive(lots) && 0.0 <= c <= Units(lots)
    ensures CutMoves(lots, c, quantity, price)
  {
    hide Times, UnitPrice;
    if lots == [] || quantity <= 0.0 {
      TimesZero(price);
      assert Matched(lots, c, quantity) == 0.0 && c + 0.0 == c;
    } else if lots[0].quantity <= c {
      hide Surviving, CostOfFirst, Match;
      PastHead(lots, c);
      PastHead(lots, c + Matched(lots, c, quantity));
      SellMovesTheCut(lots[1..], c - lots[0].quantity, quantity, price);
    } else if quantity < lots[0].quantity - c {
      UnitsNonNegative(lots[1..]);
      SellInsideHead(lots, c, quantity, price);
    } else {
      UnitsNonNegative(lots[1..]);
      hide CutMoves;
      SellMovesTheCut(lots[1..], 0.0, quantity - (lots[0].quantity - c), price);
      SellSpendsHead(lots, c, quantity, price);
    }
  }

  lemma HeadSurvives(lots: seq<Lot>, c: real)
    requires Positive(lots) && lots != [] && 0.0 <= c < lots[0].quantity
    ensures Surviving(lots, c) == [Lot(lots[0].quantity - c, lots[0].unitCost)] + lots[1..]
    ensures CostOfFirst(lots, c) == Times(lots[0].unitCost, c)
  {
    hide Times, UnitPrice;
    assert Clamp(c, lots[0].quantity) == c && Max(c, 0.0) == c;
    assert Positive(lots[1..]) by {
      assert forall i :: 0 <= i < |lots[1..]| ==> lots[1..][i] == lots[i + 1];
    }
    var rest := c - lots[0].quantity;
    assert Surviving(lots, c) == [Lot(lots[0].quantity - c, lots[0].unitCost)] + Surviving(lots[1..], rest);
    assert CostOfFirst(lots, c) == Times(lots[0].unitCost, c) + CostOfFirst(lots[1..], rest);
    hide Surviving, CostOfFirst, Positive;
    NothingCut(lots[1..], rest);
  }

  lemma {:induction false} AppendUnits(lots: seq<Lot>, l: Lot)
    ensures Units(lots + [l]) == Units(lots) + l.quantity
  {
    if lots == [] {
      assert lots + [l] == [l];
    } else {
      assert (lots + [l])[1..] == lots[1..] + [l];
      AppendUnits(lots[1..], l);
    }
  }

  lemma {:induction false} AppendCost(lots: seq<Lot>, l: Lot, c: real)
    ensures CostOfFirst(lots + [l], c) == CostOfFirst(lots, c) + Times(l.unitCost, Clamp(c - Units(lots), l.quantity))
  {
    hide Times, Clamp;
    if lots == [] {
      assert lots + [l] == [l] && c - 0.0 == c;
    } else {
      assert (lots + [l])[1..] == lots[1..] + [l];
      AppendCost(lots[1..], l, c - lots[0].quantity);
      assert c - lots[0].quantity - Units(lots[1..]) == c - Units(lots);
    }
  }

  lemma {:induction false} AppendSurviving(lots: seq<Lot>, l: Lot, c: real)
    ensures Surviving(lots + [l], c) == Surviving(lots, c) + Surviving([l], c - Units(lots))
  {
    if lots == [] {
      assert lots + [l] == [l] && c - 0.0 == c;
    } else {
      var rest, d := lots[1..], c - lots[0].quantity;
      var head := if c < lots[0].quantity then [Lot(lots[0].quantity - Max(c, 0.0), lots[0].unitCost)] else [];
      assert (lots + [l])[1..] == rest + [l] && (lots + [l])[0] == lots[0];
      assert Surviving(lots + [l], c) == head + Surviving(rest + [l], d);
      assert Surviving(lots, c) == head + Surviving(rest, d);
      assert c - Units(lots) == d - Units(rest);
      hide Surviving, Units;
      AppendSurviving(rest, l, d);
      assert head + (Surviving(rest, d) + Surviving([l], d - Units(rest)))
          == (head + Surviving(rest, d)) + Surviving([l], d - Units(rest));
    }
  }

  lemma Snoc<T>(s: seq<T>, t: T)
    ensures (s + [t])[..|s + [t]| - 1] == s && (s + [t])[|s + [t]| - 1] == t
  {
  }

  /** One more transaction, seen by the book and by the closed form. */
  lemma ExtendBook(pre: seq<Tx>, t: Tx, a: string)
    ensures BookOf(pre + [t], a) == if t.asset == a then Apply(BookOf(pre, a), t) else BookOf(pre, a)
  {
    hide Apply;
    Snoc(pre, t);
  }

  lemma Extend(pre: seq<Tx>, t: Tx, a: string)
    ensures Buys(pre + [t], a)
            == if t.asset == a && t.kind.Buy? then Buys(pre, a) + [Lot(t.quantity, UnitPrice(t))] else Buys(pre, a)
    ensures
      var m := if t.asset == a && t.kind.Sell? then Matched(Buys(pre, a), Used(pre, a), t.quantity) else 0.0;
      && Used(pre + [t], a) == Used(pre, a) + m
      && Proceeds(pre + [t], a) == Proceeds(pre, a) + Times(UnitPrice(t), m)
  {
    hide Times, UnitPrice, Match, Units;
    Snoc(pre, t);
    TimesZero(UnitPrice(t));
  }

  /** FIFO refines its closed form, also when sells exceed the holdings. */
  lemma {:induction false} FifoClosedForm(txs: seq<Tx>, a: string)
    requires PositiveBuys(txs)
    ensures Positive(Buys(txs, a))
    ensures 0.0 <= Used(txs, a) <= Units(Buys(txs, a))
    ensures BookOf(txs, a).queue == Surviving(Buys(txs, a), Used(txs, a))
    ensures BookOf(txs, a).realized == Proceeds(txs, a) - CostOfFirst(Buys(txs, a), Used(txs, a))
  {
    hide Times, UnitPrice;
    if txs != [] {
      var t, before := txs[|txs| - 1], txs[..|txs| - 1];
      assert txs == before + [t];
      FifoClosedForm(before, a);
      ClosedFormStep(before, t, a);
    }
  }

  lemma ClosedFormStep(before: seq<Tx>, t: Tx, a: string)
    requires t.kind.Buy? ==> t.quantity > 0.0
    requires Positive(Buys(before, a)) && 0.0 <= Used(before, a) <= Units(Buys(before, a))
    requires BookOf(before, a).queue == Surviving(Buys(before, a), Used(before, a))
    requires BookOf(before, a).realized == Proceeds(before, a) - CostOfFirst(Buys(before, a), Used(before, a))
    ensures
      var txs := before + [t];
      && Positive(Buys(txs, a)) && 0.0 <= Used(txs, a) <= Units(Buys(txs, a))
      && BookOf(txs, a).queue == Surviving(Buys(txs, a), Used(txs, a))
      && BookOf(txs, a).realized == Proceeds(txs, a) - CostOfFirst(Buys(txs, a), Used(txs, a))
  {
    hide Times, UnitPrice, Buys, Used, Proceeds, BookOf, Match;
    ExtendBook(before, t, a);
    Extend(before, t, a);
    TimesZero(UnitPrice(t));
    var lots, c := Buys(before, a), Used(before, a);
    if t.asset == a && t.kind.Buy? {
      var l := Lot(t.quantity, UnitPrice(t));
      AppendUnits(lots, l);
      AppendCost(lots, l, c);
      AppendSurviving(lots, l, c);
      NothingCut([l], c - Units(lots));
      TimesZero(l.unitCost);
    } else if t.asset == a && t.kind.Sell? {
      SellMovesTheCut(lots, c, t.quantity, UnitPrice(t));
    }
  }

  // ---------- conservation ----------

  lemma ValueOfHead(lots: seq<Lot>, c: real, price: real)
    requires Positive(lots) && lots != [] && 0.0 <= c < lots[0].quantity
    requires Unrealized(lots[1..], price) == Times(price, Units(lots[1..])) - CostOfFirst(lots[1..], Units(lots[1..]))
    ensures Unrealized(Surviving(lots, c), price)
            == Times(price, Units(lots) - c) - (CostOfFirst(lots, Units(lots)) - CostOfFirst(lots, c))
  {
    var head, rest := lots[0], lots[1..];
    var left := head.quantity - c;
    assert Units(lots) == head.quantity + Units(rest);
    UnitsNonNegative(rest);
    hide Times, UnitPrice, Surviving, CostOfFirst, Units;
    HeadSurvives(lots, c);
    assert Surviving(lots, c)[1..] == rest;
    PastHead(lots, Units(lots));
    assert Units(lots) - head.quantity == Units(rest) && Units(lots) - c == left + Units(rest);
    TimesAdd(price, left, Units(rest));
    TimesSub(price, head.unitCost, left);
    TimesAdd(head.unitCost, c, left);
  }

  /** The market value of the units beyond the first c, minus what they cost. */
  ghost predicate ValueIs(lots: seq<Lot>, c: real, price: real) {
    Unrealized(Surviving(lots, c), price)
    == Times(price, Units(lots) - c) - (CostOfFirst(lots, Units(lots)) - CostOfFirst(lots, c))
  }

  lemma ValuePastHead(lots: seq<Lot>, c: real, price: real)
    requires Positive(lots) && lots != [] && lots[0].quantity <= c
    requires ValueIs(lots[1..], c - lots[0].quantity, price)
    ensures ValueIs(lots, c, price)
  {
    var q, rest := lots[0].quantity, lots[1..];
    assert Units(lots) == q + Units(rest);
    UnitsNonNegative(rest);
    hide Times, Units, Surviving, CostOfFirst, Unrealized;
    PastHead(lots, c);
    PastHead(lots, Units(lots));
    assert Units(lots) - q == Units(rest) && Units(rest) - (c - q) == Units(lots) - c;
  }

  lemma {:induction false} ValueOfSurviving(lots: seq<Lot>, c: real, price: real)
    requires Positive(lots) && 0.0 <= c <= Units(lots)
    ensures ValueIs(lots, c, price)
  {
    hide Times, UnitPrice;
    if lots == [] {
      TimesZero(price);
    } else {
      var q, rest := lots[0].quantity, lots[1..];
      assert Units(lots) == q + Units(rest);
      UnitsNonNegative(rest);
      hide Units, Surviving, CostOfFirst, Unrealized;
      if q <= c {
        ValueOfSurviving(rest, c - q, price);
        hide ValueIs;
        ValuePastHead(lots, c, price);
      } else {
        NothingCut(rest, 0.0);
        ValueOfSurviving(rest, 0.0, price);
        assert Units(rest) - 0.0 == Units(rest);
        ValueOfHead(lots, c, price);
      }
    }
  }

  /** The assets that occur, in any transaction kind. */
  ghost function AssetsOf(txs: seq<Tx>): set<string> { set t | t in txs :: t.asset }

  // ---------- conservation, in money ----------

  /** What a transaction is worth; a missing reference value counts nothing. */
  function Worth(t: Tx): real { if t.reference.Some? then t.reference.value else 0.0 }

  /** The units held: bought, less what sells took, and no sell takes more than there is. */
  function Held(txs: seq<Tx>, a: string): real {
    if txs == [] then 0.0
    else
      var t, held := txs[|txs| - 1], Held(txs[..|txs| - 1], a);
      if t.asset == a && t.kind.Buy? then held + t.quantity
      else if t.asset == a && t.kind.Sell? then held - Max(0.0, Min(t.quantity, held))
      else held
  }

  /** The money paid for an asset: the reference values of its buys. */
  function Paid(txs: seq<Tx>, a: string): real {
    if txs == [] then 0.0
    else
      var t := txs[|txs| - 1];
      Paid(txs[..|txs| - 1], a) + if t.asset == a && t.kind.Buy? then Worth(t) else 0.0
  }

  /** The money received: the reference values of its sells, of an uncovered one the share that was held. */
  function Received(txs: seq<Tx>, a: string): real {
    if txs == [] then 0.0
    else
      var t, held := txs[|txs| - 1], Held(txs[..|txs| - 1], a);
      Received(txs[..|txs| - 1], a) +
      if t.asset != a || !t.kind.Sell? || t.quantity <= 0.0 then 0.0
      else if t.quantity <= held then Worth(t)
      else Worth(t) * held / t.quantity
  }

  lemma {:induction false} HeldIsUncut(txs: seq<Tx>, a: string)
    ensures Held(txs, a) == Units(Buys(txs, a)) - Used(txs, a)
  {
    hide Units, UnitPrice;
    if txs == [] {
      NoUnits();
    } else {
      var t, before := txs[|txs| - 1], txs[..|txs| - 1];
      HeldIsUncut(before, a);
      AppendUnits(Buys(before, a), Lot(t.quantity, UnitPrice(t)));
      assert Buys(before, a) + [] == Buys(before, a);
    }
  }

  lemma NoUnits()
    ensures Units([]) == 0.0
  {
  }

  /** A price per unit times the units is the transaction's worth; of a share of the units, that share. */
  lemma ShareOfWorth(t: Tx, m: real)
    requires t.quantity != 0.0
    ensures Times(UnitPrice(t), t.quantity) == Worth(t)
    ensures Times(UnitPrice(t), m) == Worth(t) * m / t.quantity
  {
    if t.reference.Some? {
      var v, q := t.reference.value, t.quantity;
      assert v / q * q == v;
      assert v / q * m * q == v * m;
    }
  }

  /** The lots cost no more than they do altogether. */
  lemma {:induction false} NoCostBeyond(lots: seq<Lot>, c: real)
    requires Positive(lots) && c >= Units(lots)
    ensures CostOfFirst(lots, c) == CostOfFirst(lots, Units(lots))
  {
    hide Times;
    if lots != [] {
      UnitsNonNegative(lots[1..]);
      NoCostBeyond(lots[1..], c - lots[0].quantity);
    }
  }

  lemma {:induction false} CostIsPaid(txs: seq<Tx>, a: string)
    requires PositiveBuys(txs)
    ensures CostOfFirst(Buys(txs, a), Units(Buys(txs, a))) == Paid(txs, a)
  {
    hide Times, UnitPrice, CostOfFirst, Units, Worth;
    if txs == [] {
      NothingCut([], 0.0);
      NoUnits();
    } else {
      var t, before := txs[|txs| - 1], txs[..|txs| - 1];
      CostIsPaid(before, a);
      FifoClosedForm(before, a);
      hide BookOf, Used, Proceeds, Surviving;
      var lots := Buys(before, a);
      assert lots + [] == lots;
      if t.asset == a && t.kind.Buy? {
        CostOfOneMore(lots, Lot(t.quantity, UnitPrice(t)));
        ShareOfWorth(t, t.quantity);
      }
    }
  }

  lemma CostOfOneMore(lots: seq<Lot>, l: Lot)
    requires Positive(lots) && l.quantity > 0.0
    ensures CostOfFirst(lots + [l], Units(lots + [l])) == CostOfFirst(lots, Units(lots)) + Times(l.unitCost, l.quantity)
  {
    hide Times, CostOfFirst, Units;
    AppendUnits(lots, l);
    AppendCost(lots, l, Units(lots + [l]));
    NoCostBeyond(lots, Units(lots + [l]));
  }

  lemma {:induction false} ProceedsAreReceived(txs: seq<Tx>, a: string)
    requires PositiveBuys(txs)
    ensures Proceeds(txs, a) == Received(txs, a)
  {
    hide Times, UnitPrice, Units, Worth;
    if txs != [] {
      var t, before := txs[|txs| - 1], txs[..|txs| - 1];
      ProceedsAreReceived(before, a);
      FifoClosedForm(before, a);
      HeldIsUncut(before, a);
      hide BookOf, Buys, Used, CostOfFirst, Surviving, Held;
      if t.asset == a && t.kind.Sell? {
        OneSellEarns(t, Held(before, a));
      }
    }
  }

  lemma OneSellEarns(t: Tx, held: real)
    requires held >= 0.0
    ensures Times(UnitPrice(t), Max(0.0, Min(t.quantity, held)))
            == if t.quantity <= 0.0 then 0.0 else if t.quantity <= held then Worth(t) else Worth(t) * held / t.quantity
  {
    hide Times, UnitPrice, Worth;
    if t.quantity <= 0.0 {
      TimesZero(UnitPrice(t));
    } else {
      ShareOfWorth(t, held);
    }
  }

  /** A sell that the holdings cover realizes its reference value minus the cost of the units it takes. */
  lemma CoveredSellEarnsItsWorth(pre: seq<Tx>, t: Tx)
    requires PositiveBuys(pre) && t.kind.Sell? && 0.0 < t.quantity <= Held(pre, t.asset)
    ensures Proceeds(pre + [t], t.asset) == Proceeds(pre, t.asset) + Worth(t)
    ensures
      var lots, c := Buys(pre, t.asset), Used(pre, t.asset);
      BookOf(pre + [t], t.asset).realized
      == BookOf(pre, t.asset).realized + Worth(t) - (CostOfFirst(lots, c + t.quantity) - CostOfFirst(lots, c))
  {
    hide Times, UnitPrice, Units, Worth, BookOf, Buys, Used, CostOfFirst, Surviving, Held, Proceeds;
    var a := t.asset;
    FifoClosedForm(pre, a);
    FifoClosedForm(pre + [t], a);
    HeldIsUncut(pre, a);
    Extend(pre, t, a);
    OneSellEarns(t, Held(pre, a));
  }

  /** The money received, plus the market value of what is held, minus the money paid. */
  ghost function CashBalance(txs: seq<Tx>, a: string, price: Option<real>): real {
    Received(txs, a) + Times(price.GetOr(0.0), Held(txs, a)) - Paid(txs, a)
  }

  lemma PnLConservation(txs: seq<Tx>, a: string, price: Option<real>)
    requires PositiveBuys(txs)
    requires BookOf(txs, a).queue != [] ==> price.Some?
    ensures BookOf(txs, a).realized + UnrealizedOf(BookOf(txs, a).queue, price) == CashBalance(txs, a, price)
  {
    hide Times, UnitPrice, BookOf, Buys, Used, Proceeds, CostOfFirst, Surviving, Units, Held, Paid, Received;
    FifoClosedForm(txs, a);
    ValueOfSurviving(Buys(txs, a), Used(txs, a), price.GetOr(0.0));
    HeldIsUncut(txs, a);
    CostIsPaid(txs, a);
    ProceedsAreReceived(txs, a);
  }

  // ---------- independence and splitting ----------

  function Only(txs: seq<Tx>, a: string): seq<Tx> {
    if txs == [] then []
    else Only(txs[..|txs| - 1], a) + if txs[|txs| - 1].asset == a then [txs[|txs| - 1]] else []
  }

  lemma {:induction false} OnlyItsOwn(txs: seq<Tx>, a: string)
    ensures forall t :: multiset(Only(txs, a))[t] == if t.asset == a then multiset(txs)[t] else 0
  {
    if txs != [] {
      OnlyItsOwn(txs[..|txs| - 1], a);
      assert txs == txs[..|txs| - 1] + [txs[|txs| - 1]];
    }
  }

  /** One asset's book does not see the other assets' transactions, and counts its own. */
  lemma {:induction false} AssetsAreIndependent(txs: seq<Tx>, a: string)
    ensures BookOf(txs, a) == BookOf(Only(txs, a), a)
    ensures BookOf(txs, a).count == |Only(txs, a)|
  {
    hide Times, UnitPrice;
    if txs != [] {
      var t, before := txs[|txs| - 1], txs[..|txs| - 1];
      AssetsAreIndependent(before, a);
      if t.asset == a {
        assert Only(txs, a)[..|Only(txs, a)| - 1] == Only(before, a);
      } else {
        assert Only(txs, a) == Only(before, a);
      }
    }
  }

  /** Two histories that no later transaction and no price can tell apart. */
  ghost predicate SameAccount(x: seq<Tx>, y: seq<Tx>, a: string) {
    && Units(Buys(x, a)) == Units(Buys(y, a))
    && Used(x, a) == Used(y, a)
    && Proceeds(x, a) == Proceeds(y, a)
    && forall c :: CostOfFirst(Buys(x, a), c) == CostOfFirst(Buys(y, a), c)
  }

  lemma SameAccountStep(x: seq<Tx>, y: seq<Tx>, t: Tx, a: string)
    requires SameAccount(x, y, a)
    ensures SameAccount(x + [t], y + [t], a)
  {
    hide Times, UnitPrice, Buys, Used, Proceeds, CostOfFirst, Units;
    Extend(x, t, a);
    Extend(y, t, a);
    if t.asset == a && t.kind.Buy? {
      var l := Lot(t.quantity, UnitPrice(t));
      forall c
        ensures CostOfFirst(Buys(x, a) + [l], c) == CostOfFirst(Buys(y, a) + [l], c)
        ensures Units(Buys(x, a) + [l]) == Units(Buys(y, a) + [l])
      {
        AppendUnits(Buys(x, a), l);
        AppendCost(Buys(x, a), l, c);
        AppendUnits(Buys(y, a), l);
        AppendCost(Buys(y, a), l, c);
      }
      AppendUnits(Buys(x, a), l);
      AppendCost(Buys(x, a), l, 0.0);
      AppendUnits(Buys(y, a), l);
      AppendCost(Buys(y, a), l, 0.0);
    }
  }

  lemma {:induction false} SameAccountExtends(x: seq<Tx>, y: seq<Tx>, post: seq<Tx>, a: string)
    requires SameAccount(x, y, a)
    ensures SameAccount(x + post, y + post, a)
  {
    hide SameAccount;
    if post == [] {
      assert x + post == x && y + post == y;
    } else {
      var t, before := post[|post| - 1], post[..|post| - 1];
      SameAccountExtends(x, y, before, a);
      SameAccountStep(x + before, y + before, t, a);
      assert x + before + [t] == x + post && y + before + [t] == y + post;
    }
  }

  lemma SameAccountSamePnL(x: seq<Tx>, y: seq<Tx>, a: string, price: real)
    requires PositiveBuys(x) && PositiveBuys(y) && SameAccount(x, y, a)
    ensures BookOf(x, a).realized == BookOf(y, a).realized
    ensures Unrealized(BookOf(x, a).queue, price) == Unrealized(BookOf(y, a).queue, price)
  {
    hide Times, UnitPrice;
    hide BookOf, Buys, Used, Proceeds, CostOfFirst, Surviving, Units;
    FifoClosedForm(x, a);
    FifoClosedForm(y, a);
    ValueOfSurviving(Buys(x, a), Used(x, a), price);
    ValueOfSurviving(Buys(y, a), Used(y, a), price);
  }

  predicate Halves(t: Tx, t1: Tx, t2: Tx) {
    && t1.asset == t2.asset == t.asset && t1.kind == t2.kind == t.kind
    && t1.quantity > 0.0 && t2.quantity > 0.0 && t.quantity == t1.quantity + t2.quantity
    && UnitPrice(t1) == UnitPrice(t2) == UnitPrice(t)
  }

  lemma SplitCost(lots: seq<Lot>, l: Lot, l1: Lot, l2: Lot, c: real)
    requires l1.quantity > 0.0 && l2.quantity > 0.0 && l.quantity == l1.quantity + l2.quantity
    requires l.unitCost == l1.unitCost == l2.unitCost
    ensures Units(lots + [l]) == Units(lots + [l1] + [l2])
    ensures CostOfFirst(lots + [l], c) == CostOfFirst(lots + [l1] + [l2], c)
  {
    hide Times, CostOfFirst, Units;
    AppendUnits(lots, l);
    AppendCost(lots, l, c);
    AppendUnits(lots, l1);
    AppendCost(lots, l1, c);
    AppendUnits(lots + [l1], l2);
    AppendCost(lots + [l1], l2, c);
    var x := c - Units(lots);
    assert c - Units(lots + [l1]) == x - l1.quantity;
    assert Clamp(x, l.quantity) == Clamp(x, l1.quantity) + Clamp(x - l1.quantity, l2.quantity);
    TimesAdd(l.unitCost, Clamp(x, l1.quantity), Clamp(x - l1.quantity, l2.quantity));
  }

  lemma SplitMatch(lots: seq<Lot>, c: real, q1: real, q2: real, price: real)
    requires q1 > 0.0 && q2 > 0.0 && c <= Units(lots)
    ensures
      var m, m1 := Matched(lots, c, q1 + q2), Matched(lots, c, q1);
      var m2 := Matched(lots, c + m1, q2);
      m == m1 + m2 && Times(price, m) == Times(price, m1) + Times(price, m2)
  {
    hide Times, Units;
    var m1 := Matched(lots, c, q1);
    assert Matched(lots, c, q1 + q2) == m1 + Matched(lots, c + m1, q2);
    TimesAdd(price, m1, Matched(lots, c + m1, q2));
  }

  lemma SplitAtTheEnd(pre: seq<Tx>, t: Tx, t1: Tx, t2: Tx, a: string)
    requires PositiveBuys(pre) && Halves(t, t1, t2)
    ensures SameAccount(pre + [t], pre + [t1] + [t2], a)
  {
    hide Times, UnitPrice, Buys, Used, Proceeds, CostOfFirst, Units, Matched;
    Extend(pre, t, a);
    Extend(pre, t1, a);
    Extend(pre + [t1], t2, a);
    TimesZero(UnitPrice(t));
    FifoClosedForm(pre, a);
    var lots := Buys(pre, a);
    if t.asset == a && t.kind.Buy? {
      var l, l1, l2 := Lot(t.quantity, UnitPrice(t)), Lot(t1.quantity, UnitPrice(t)), Lot(t2.quantity, UnitPrice(t));
      SplitCost(lots, l, l1, l2, 0.0);
      forall c ensures CostOfFirst(lots + [l], c) == CostOfFirst(lots + [l1] + [l2], c) {
        SplitCost(lots, l, l1, l2, c);
      }
    } else if t.asset == a && t.kind.Sell? {
      SplitMatch(lots, Used(pre, a), t1.quantity, t2.quantity, UnitPrice(t));
    }
  }

  /** Splitting one buy (or one sell) in two, anywhere in a history, changes no P&L. */
  lemma SplittingIsInvisible(pre: seq<Tx>, t: Tx, t1: Tx, t2: Tx, post: seq<Tx>, a: string, price: real)
    requires PositiveBuys(pre) && PositiveBuys(post) && Halves(t, t1, t2)
    ensures
      var x, y := pre + [t] + post, pre + [t1] + [t2] + post;
      && BookOf(x, a).realized == BookOf(y, a).realized
      && Unrealized(BookOf(x, a).queue, price) == Unrealized(BookOf(y, a).queue, price)
  {
    hide SameAccount, BookOf, Unrealized, UnitPrice;
    SplitAtTheEnd(pre, t, t1, t2, a);
    SameAccountExtends(pre + [t], pre + [t1] + [t2], post, a);
    SameAccountSamePnL(pre + [t] + post, pre + [t1] + [t2] + post, a, price);
  }

  // ---------- the whole snapshot ----------

  datatype AssetPnL = AssetPnL(asset: string, realized: real, unrealized: real, total: real, count: nat)

  datatype Snapshot = Snapshot(totalRealized: real, totalUnrealized: real, totalPnL: real,
                               hasApproximate: bool, excludedCount: nat, assets: seq<AssetPnL>)

  function Resolved(txs: seq<Tx>): seq<Tx> {
    if txs == [] then []
    else
      Resolved(txs[..|txs| - 1])
      + if txs[|txs| - 1].resolution.Unresolvable? then [] else [txs[|txs| - 1]]
  }

  /** Resolving drops the unresolvable transactions, each as often as it occurs, and keeps the order of the others. */
  lemma {:induction false} ResolvedAre(txs: seq<Tx>)
    ensures forall t :: multiset(Resolved(txs))[t] == if t.resolution.Unresolvable? then 0 else multiset(txs)[t]
  {
    if txs != [] {
      ResolvedAre(txs[..|txs| - 1]);
      assert txs == txs[..|txs| - 1] + [txs[|txs| - 1]];
    }
  }

  lemma {:induction false} ResolvedAppend(x: seq<Tx>, y: seq<Tx>)
    ensures Resolved(x + y) == Resolved(x) + Resolved(y)
  {
    if y == [] {
      assert x + y == x;
    } else {
      ResolvedAppend(x, y[..|y| - 1]);
      assert (x + y)[..|x + y| - 1] == x + y[..|y| - 1];
    }
  }

  predicate Approximate(t: Tx) { t.resolution.Hourly? || t.resolution.Daily? }

  /** One asset's line, from its book and the current price (None: no price available). */
  function Entry(txs: seq<Tx>, a: string, price: string -> Option<real>): AssetPnL {
    var b := BookOf(txs, a);
    var u := UnrealizedOf(b.queue, price(a));
    AssetPnL(a, b.realized, u, b.realized + u, b.count)
  }

  ghost predicate IsSnapshot(s: Snapshot, txs: seq<Tx>, price: string -> Option<real>) {
    var rs := Resolved(txs);
    && s.excludedCount == |txs| - |rs|
    && (s.hasApproximate <==> exists t :: t in txs && (t.resolution == Hourly || t.resolution == Daily))
    && s.totalRealized == SetSum(AssetsOf(rs), a => Entry(rs, a, price).realized)
    && s.totalUnrealized == SetSum(AssetsOf(rs), a => Entry(rs, a, price).unrealized)
    && s.totalPnL == s.totalRealized + s.totalUnrealized
    && IsBreakdown(s.assets, rs, price)
  }

  /** One line per asset that occurs, in strictly increasing symbol order. */
  ghost predicate IsBreakdown(assets: seq<AssetPnL>, rs: seq<Tx>, price: string -> Option<real>) {
    && (forall e :: e in assets ==> e.asset in AssetsOf(rs) && e == Entry(rs, e.asset, price))
    && (forall a :: a in AssetsOf(rs) ==> Entry(rs, a, price) in assets)
    && (forall i, j :: 0 <= i < j < |assets| ==>
          StrLeq(assets[i].asset, assets[j].asset) && assets[i].asset != assets[j].asset)
  }

  function Get<V>(m: map<string, V>, a: string, default: V): V {
    if a in m then m[a] else default
  }

  /** The three per-asset maps agree with the books of the transactions seen so far. */
  ghost predicate Tracks(queues: map<string, seq<Lot>>, realized: map<string, real>, counts: map<string, nat>, txs: seq<Tx>) {
    && queues.Keys + realized.Keys <= counts.Keys == AssetsOf(txs)
    && forall a :: BookOf(txs, a) == Book(Get(queues, a, []), Get(realized, a, 0.0), Get(counts, a, 0))
  }

  /** Updating one asset's entries by the transaction keeps the maps and the books in step. */
  lemma TracksOneMore(q: map<string, seq<Lot>>, r: map<string, real>, c: map<string, nat>,
                      q': map<string, seq<Lot>>, r': map<string, real>, c': map<string, nat>, txs: seq<Tx>, t: Tx)
    requires Tracks(q, r, c, txs)
    requires q'.Keys <= q.Keys + {t.asset} && r'.Keys <= r.Keys + {t.asset} && c'.Keys == c.Keys + {t.asset}
    requires forall b :: b != t.asset ==>
      Get(q', b, []) == Get(q, b, []) && Get(r', b, 0.0) == Get(r, b, 0.0) && Get(c', b, 0) == Get(c, b, 0)
    requires
      var a := t.asset;
      Book(Get(q', a, []), Get(r', a, 0.0), Get(c', a, 0)) == Apply(Book(Get(q, a, []), Get(r, a, 0.0), Get(c, a, 0)), t)
    ensures Tracks(q', r', c', txs + [t])
  {
    hide BookOf, Apply, Get;
    forall b ensures BookOf(txs + [t], b) == if b == t.asset then Apply(BookOf(txs, b), t) else BookOf(txs, b) {
      ExtendBook(txs, t, b);
    }
    assert AssetsOf(txs + [t]) == AssetsOf(txs) + {t.asset};
  }

  lemma TracksNothing()
    ensures Tracks(map[], map[], map[], [])
  {
  }

  method FillQueues(txs: seq<Tx>)
    returns (queues: map<string, seq<Lot>>, realized: map<string, real>, counts: map<string, nat>)
    ensures Tracks(queues, realized, counts, txs)
  {
    hide BookOf, UnitPrice, Match, Tracks, AssetsOf;
    queues, realized, counts := map[], map[], map[];
    TracksNothing();
    for i := 0 to |txs|
      invariant Tracks(queues, realized, counts, txs[..i])
    {
      var t := txs[i];
      var a := t.asset;
      ghost var q, r, c := queues, realized, counts;
      counts := counts[a := Get(counts, a, 0) + 1];
      match t.kind {
        case Buy =>
          queues := queues[a := Get(queues, a, []) + [Lot(t.quantity, UnitPrice(t))]];
        case Sell =>
          var queue, gain := SellLoop(Get(queues, a, []), t.quantity, UnitPrice(t));
          realized := realized[a := Get(realized, a, 0.0) + gain];
          queues := queues[a := queue];
        case _ =>
      }
      TracksOneMore(q, r, c, queues, realized, counts, txs[..i], t);
      assert txs[..i + 1] == txs[..i] + [t];
    }
    assert txs[..|txs|] == txs;
  }

  /** Unrealized P&L per asset: map iteration, in whatever order it comes. */
  method Mark(queues: map<string, seq<Lot>>, price: string -> Option<real>) returns (unrealized: map<string, real>)
    ensures unrealized.Keys <= queues.Keys
    ensures forall a :: Get(unrealized, a, 0.0) == UnrealizedOf(Get(queues, a, []), price(a))
  {
    unrealized := map[];
    var todo := queues.Keys;
    while todo != {}
      invariant todo <= queues.Keys && unrealized.Keys <= queues.Keys - todo
      invariant forall a :: a !in todo ==> Get(unrealized, a, 0.0) == UnrealizedOf(Get(queues, a, []), price(a))
      decreases todo
    {
      var a :| a in todo;
      todo := todo - {a};
      var queue, current := queues[a], price(a);
      if |queue| > 0 && current.Some? {
        var sum, k := 0.0, 0;
        while k < |queue|
          invariant 0 <= k <= |queue|
          invariant Unrealized(queue, current.value) == sum + Unrealized(queue[k..], current.value)
        {
          assert queue[k..][1..] == queue[k + 1..];
          sum := sum + Times(current.value - queue[k].unitCost, queue[k].quantity);
          k := k + 1;
        }
        unrealized := unrealized[a := sum];
      }
    }
  }

  /** The FIFO computation over transactions that are already in time order. */
  method Compute(txs: seq<Tx>, price: string -> Option<real>) returns (s: Snapshot)
    ensures IsSnapshot(s, txs, price)
  {
    hide BookOf, Tracks, UnrealizedOf, IsBreakdown, AssetsOf, Entry;
    var rs: seq<Tx>, excluded, approximate := [], 0, false;
    for i := 0 to |txs|
      invariant rs == Resolved(txs[..i]) && excluded == i - |rs| && excluded >= 0
      invariant approximate <==> exists t :: t in txs[..i] && Approximate(t)
    {
      assert txs[..i + 1][..i] == txs[..i];
      assert forall t :: t in txs[..i + 1] <==> t in txs[..i] || t == txs[i];
      if txs[i].resolution.Unresolvable? {
        excluded := excluded + 1;
      } else {
        approximate := approximate || Approximate(txs[i]);
        rs := rs + [txs[i]];
      }
    }
    assert txs[..|txs|] == txs;

    var queues, realized, counts := FillQueues(rs);
    var unrealized := Mark(queues, price);
    var assets, totalRealized, totalUnrealized := Breakdown(rs, queues, realized, counts, unrealized, price);
    s := Snapshot(totalRealized, totalUnrealized, totalRealized + totalUnrealized, approximate, excluded, assets);
  }

  method Breakdown(ghost rs: seq<Tx>, ghost queues: map<string, seq<Lot>>, realized: map<string, real>,
                   counts: map<string, nat>, unrealized: map<string, real>, ghost price: string -> Option<real>)
    returns (assets: seq<AssetPnL>, totalRealized: real, totalUnrealized: real)
    requires Tracks(queues, realized, counts, rs) && unrealized.Keys <= queues.Keys
    requires forall a :: Get(unrealized, a, 0.0) == UnrealizedOf(Get(queues, a, []), price(a))
    ensures IsBreakdown(assets, rs, price)
    ensures totalRealized == SetSum(AssetsOf(rs), a => Entry(rs, a, price).realized)
    ensures totalUnrealized == SetSum(AssetsOf(rs), a => Entry(rs, a, price).unrealized)
  {
    hide Collected, IsBreakdown, AssetsOf;
    var lines;
    lines, totalRealized, totalUnrealized := Lines(rs, queues, realized, counts, unrealized, price);
    BySymbolIsWeakOrder();
    assets := SortSlice(lines, BySymbol);
    AllCollected(lines, totalRealized, totalUnrealized, rs, price);
    SortedBreakdown(lines, assets, rs, price);
  }

  function BySymbol(x: AssetPnL, y: AssetPnL): bool { StrLeq(x.asset, y.asset) }

  lemma BySymbolIsWeakOrder()
    ensures WeakOrder(BySymbol)
  {
    StrWeakOrder();
  }

  lemma AllCollected(lines: seq<AssetPnL>, totalRealized: real, totalUnrealized: real, rs: seq<Tx>, price: string -> Option<real>)
    requires Collected(lines, totalRealized, totalUnrealized, {}, rs, price)
    ensures totalRealized == SetSum(AssetsOf(rs), a => Entry(rs, a, price).realized)
    ensures totalUnrealized == SetSum(AssetsOf(rs), a => Entry(rs, a, price).unrealized)
    ensures Distinct(lines)
    ensures forall e :: e in lines ==> e.asset in AssetsOf(rs) && e == Entry(rs, e.asset, price)
    ensures forall a :: a in AssetsOf(rs) ==> Entry(rs, a, price) in lines
  {
    hide Entry, AssetsOf;
    SumEmpty((a: string) => Entry(rs, a, price).realized);
    SumEmpty((a: string) => Entry(rs, a, price).unrealized);
    assert AssetsOf(rs) - {} == AssetsOf(rs);
  }

  lemma SortedBreakdown(lines: seq<AssetPnL>, assets: seq<AssetPnL>, rs: seq<Tx>, price: string -> Option<real>)
    requires Distinct(lines) && multiset(lines) == multiset(assets) && Sorted(assets, BySymbol)
    requires forall e :: e in lines ==> e.asset in AssetsOf(rs) && e == Entry(rs, e.asset, price)
    requires forall a :: a in AssetsOf(rs) ==> Entry(rs, a, price) in lines
    ensures IsBreakdown(assets, rs, price)
  {
    hide Entry, AssetsOf;
    DistinctPermutation(lines, assets);
    forall i, j | 0 <= i < j < |assets|
      ensures StrLeq(assets[i].asset, assets[j].asset) && assets[i].asset != assets[j].asset
    {
      assert BySymbol(assets[i], assets[j]);
      assert assets[i] in lines && assets[j] in lines;
    }
  }

  lemma LineOf(rs: seq<Tx>, queues: map<string, seq<Lot>>, realized: map<string, real>,
               counts: map<string, nat>, price: string -> Option<real>, a: string)
    requires Tracks(queues, realized, counts, rs)
    ensures
      var gain, paper := Get(realized, a, 0.0), UnrealizedOf(Get(queues, a, []), price(a));
      Entry(rs, a, price) == AssetPnL(a, gain, paper, gain + paper, Get(counts, a, 0))
  {
    hide Times, UnrealizedOf;
    assert BookOf(rs, a) == Book(Get(queues, a, []), Get(realized, a, 0.0), Get(counts, a, 0));
  }

  /** The loop's progress: the lines of the assets that are not in todo any more, and their totals. */
  ghost predicate Collected(lines: seq<AssetPnL>, totalRealized: real, totalUnrealized: real, todo: set<string>,
                            rs: seq<Tx>, price: string -> Option<real>) {
    var all, r, u := AssetsOf(rs), (a: string) => Entry(rs, a, price).realized, (a: string) => Entry(rs, a, price).unrealized;
    && todo <= all
    && (forall e :: e in lines ==> e.asset in all - todo && e == Entry(rs, e.asset, price))
    && (forall a :: a in all - todo ==> Entry(rs, a, price) in lines)
    && Distinct(lines)
    && totalRealized + SetSum(todo, r) == SetSum(all, r)
    && totalUnrealized + SetSum(todo, u) == SetSum(all, u)
  }

  lemma StartCollecting(rs: seq<Tx>, queues: map<string, seq<Lot>>, realized: map<string, real>,
                        counts: map<string, nat>, unrealized: map<string, real>, price: string -> Option<real>)
    requires Tracks(queues, realized, counts, rs) && unrealized.Keys <= queues.Keys
    ensures Collected([], 0.0, 0.0, realized.Keys + unrealized.Keys + counts.Keys, rs, price)
  {
    hide BookOf, Entry;
    assert realized.Keys + unrealized.Keys + counts.Keys == AssetsOf(rs);
  }

  lemma CollectOne(lines: seq<AssetPnL>, totalRealized: real, totalUnrealized: real, todo: set<string>,
                   rs: seq<Tx>, price: string -> Option<real>, a: string)
    requires Collected(lines, totalRealized, totalUnrealized, todo, rs, price) && a in todo
    ensures
      var e := Entry(rs, a, price);
      Collected(lines + [e], totalRealized + e.realized, totalUnrealized + e.unrealized, todo - {a}, rs, price)
  {
    var e := Entry(rs, a, price);
    assert e.asset == a;
    hide Entry, SetSum, AssetsOf;
    var r, u := (a: string) => Entry(rs, a, price).realized, (a: string) => Entry(rs, a, price).unrealized;
    SumRemove(todo, r, a);
    SumRemove(todo, u, a);
  }

  /** The lines and the totals, in map iteration order. */
  method Lines(ghost rs: seq<Tx>, ghost queues: map<string, seq<Lot>>, realized: map<string, real>,
               counts: map<string, nat>, unrealized: map<string, real>, ghost price: string -> Option<real>)
    returns (lines: seq<AssetPnL>, totalRealized: real, totalUnrealized: real)
    requires Tracks(queues, realized, counts, rs) && unrealized.Keys <= queues.Keys
    requires forall a :: Get(unrealized, a, 0.0) == UnrealizedOf(Get(queues, a, []), price(a))
    ensures Collected(lines, totalRealized, totalUnrealized, {}, rs, price)
  {
    hide Collected, Entry, Tracks, BookOf, UnrealizedOf, AssetsOf;
    lines := [];
    totalRealized, totalUnrealized := 0.0, 0.0;
    var todo := realized.Keys + unrealized.Keys + counts.Keys;
    StartCollecting(rs, queues, realized, counts, unrealized, price);
    while todo != {}
      invariant Collected(lines, totalRealized, totalUnrealized, todo, rs, price)
      decreases todo
    {
      var a :| a in todo;
      CollectOne(lines, totalRealized, totalUnrealized, todo, rs, price, a);
      LineOf(rs, queues, realized, counts, price, a);
      todo := todo - {a};
      var gain, paper := Get(realized, a, 0.0), Get(unrealized, a, 0.0);
      lines := lines + [AssetPnL(a, gain, paper, gain + paper, Get(counts, a, 0))];
      totalRealized, totalUnrealized := totalRealized + gain, totalUnrealized + paper;
    }
  }

  /** Conservation for a whole snapshot: the total P&L is the sum of the assets' cash balances. */
  lemma SnapshotConservation(s: Snapshot, txs: seq<Tx>, price: string -> Option<real>)
    requires IsSnapshot(s, txs, price) && PositiveBuys(Resolved(txs))
    requires forall a :: BookOf(Resolved(txs), a).queue != [] ==> price(a).Some?
    ensures s.totalPnL == SetSum(AssetsOf(Resolved(txs)), a => CashBalance(Resolved(txs), a, price(a)))
    ensures forall e :: e in s.assets ==>
      && e.total == e.realized + e.unrealized == CashBalance(Resolved(txs), e.asset, price(e.asset))
      && e.count == |Only(Resolved(txs), e.asset)| && (price(e.asset).None? ==> e.unrealized == 0.0)
  {
    var rs := Resolved(txs);
    var r, u := (a: string) => Entry(rs, a, price).realized, (a: string) => Entry(rs, a, price).unrealized;
    var cash := (a: string) => CashBalance(rs, a, price(a));
    forall a ensures cash(a) == r(a) + u(a) {
      PnLConservation(rs, a, price(a));
    }
    SumAdd(AssetsOf(rs), r, u, cash);
    forall e | e in s.assets
      ensures e.total == e.realized + e.unrealized == CashBalance(rs, e.asset, price(e.asset)) && e.count == |Only(rs, e.asset)|
    {
      PnLConservation(rs, e.asset, price(e.asset));
      AssetsAreIndependent(rs, e.asset);
    }
  }
}
