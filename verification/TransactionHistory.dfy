/** Where the engine's transactions come from: paging, sorting and ties
    (backend/internal/portfolio/pnl_engine.go, backend/internal/storage/postgres/transaction_repository.go). */
module TransactionHistory {
  import opened Common
  import opened PnLEngine

  // ---------- pages ----------

  const BATCH_SIZE: nat := 500

  /** The comparisons of the sort and of the query. */
  predicate Earlier(x: Tx, y: Tx) { x.timestamp <= y.timestamp }
  predicate Later(x: Tx, y: Tx) { x.timestamp >= y.timestamp }

  predicate OldestFirst(txs: seq<Tx>) { forall i, j :: 0 <= i < j < |txs| ==> txs[i].timestamp <= txs[j].timestamp }
  predicate NewestFirst(txs: seq<Tx>) { forall i, j :: 0 <= i < j < |txs| ==> txs[i].timestamp >= txs[j].timestamp }

  /** An answer to ORDER BY tx_timestamp DESC: tied rows come in any order, anew in every query. */
  ghost predicate IsListing(view: seq<Tx>, rows: seq<Tx>) { multiset(view) == multiset(rows) && NewestFirst(view) }

  /** LIMIT and OFFSET of the p-th page, counted from one. */
  function PageOf(view: seq<Tx>, p: nat): seq<Tx>
    requires p >= 1
  {
    view[MinInt((p - 1) * BATCH_SIZE, |view|)..MinInt(p * BATCH_SIZE, |view|)]
  }

  /** The rows collected from pages 1, 2, ..., each cut from its own listing. */
  function Loaded(views: seq<seq<Tx>>): seq<Tx> {
    if views == [] then [] else Loaded(views[..|views| - 1]) + PageOf(views[|views| - 1], |views|)
  }

  /** How many pages are asked for: one at least, then until all rows are counted. */
  function Pages(n: nat): nat { if n == 0 then 1 else (n + BATCH_SIZE - 1) / BATCH_SIZE }

  ghost predicate AreListings(views: seq<seq<Tx>>, rows: seq<Tx>) {
    forall i :: 0 <= i < |views| ==> IsListing(views[i], rows)
  }

  /** No page boundary falls inside a group of tied rows that are not all equal. */
  ghost predicate CleanPages(newest: seq<Tx>) {
    forall b :: IsBoundary(b, |newest|) ==> CleanCut(newest, b)
  }

  predicate IsBoundary(b: int, n: nat) { 0 < b < n && b % BATCH_SIZE == 0 }

  ghost predicate CleanCut(newest: seq<Tx>, b: nat)
    requires 0 < b < |newest|
  {
    newest[b - 1].timestamp == newest[b].timestamp ==>
      forall x, y :: x in newest && y in newest && x.timestamp == y.timestamp == newest[b].timestamp ==> x == y
  }

  // ---------- a clean cut is the same in every listing ----------

  /** Bags of one size are equal, or each has more of something. */
  lemma SameSizeBags(a: multiset<Tx>, b: multiset<Tx>)
    requires |a| == |b|
    ensures a == b || exists x :: a[x] > b[x]
  {
    if forall x :: a[x] <= b[x] {
      assert a <= b;
      assert |b - a| == 0;
      assert b == a + (b - a);
    }
  }

  lemma CutCounts(s: seq<Tx>, b: nat)
    requires b <= |s|
    ensures multiset(s) == multiset(s[..b]) + multiset(s[b..])
  {
    assert s == s[..b] + s[b..];
  }

  /** A row of the first part is not earlier than a row of the second. */
  lemma AcrossTheCut(s: seq<Tx>, b: nat, x: Tx, y: Tx)
    requires NewestFirst(s) && b <= |s| && x in s[..b] && y in s[b..]
    ensures x.timestamp >= y.timestamp
    ensures 0 < b < |s| && x.timestamp >= s[b - 1].timestamp >= s[b].timestamp >= y.timestamp
  {
    var i :| 0 <= i < b && s[i] == x;
    var j :| b <= j < |s| && s[j] == y;
    assert s[i].timestamp >= s[j].timestamp;
    assert i < b - 1 ==> s[i].timestamp >= s[b - 1].timestamp;
    assert s[b - 1].timestamp >= s[b].timestamp;
    assert b < j ==> s[b].timestamp >= s[j].timestamp;
  }

  lemma BeyondTheCut(r: seq<Tx>, v: seq<Tx>, b: nat, x: Tx)
    requires multiset(v) == multiset(r) && b <= |r| && b <= |v| && multiset(r[..b])[x] > multiset(v[..b])[x]
    ensures x in r[..b] && x in v[b..]
  {
    CutCounts(r, b);
    CutCounts(v, b);
    assert multiset(r)[x] == multiset(r[..b])[x] + multiset(r[b..])[x];
    assert multiset(v)[x] == multiset(v[..b])[x] + multiset(v[b..])[x];
    assert x in multiset(r[..b]) && x in multiset(v[b..]);
  }

  /** If two listings begin with different rows, tied and different rows meet at the cut. */
  lemma CutsDiffer(r: seq<Tx>, v: seq<Tx>, b: nat) returns (x: Tx, y: Tx)
    requires IsListing(v, r) && NewestFirst(r) && b <= |r| == |v| && multiset(v[..b]) != multiset(r[..b])
    ensures x in r && y in r && x != y && 0 < b < |r|
    ensures x.timestamp == y.timestamp == r[b - 1].timestamp == r[b].timestamp
  {
    var p, q := multiset(r[..b]), multiset(v[..b]);
    SameSizeBags(p, q);
    SameSizeBags(q, p);
    x :| p[x] > q[x];
    y :| q[y] > p[y];
    BeyondTheCut(r, v, b, x);
    BeyondTheCut(v, r, b, y);
    AcrossTheCut(r, b, x, y);
    AcrossTheCut(v, b, y, x);
    assert x in r && y in r;
  }

  lemma CleanCutIsFixed(r: seq<Tx>, v: seq<Tx>, b: nat)
    requires IsListing(v, r) && NewestFirst(r) && b <= |r|
    requires 0 < b < |r| ==> CleanCut(r, b)
    ensures |v| == |r| && multiset(v[..b]) == multiset(r[..b])
  {
    SamePopulation(v, r);
    if multiset(v[..b]) != multiset(r[..b]) {
      var x, y := CutsDiffer(r, v, b);
    }
  }

  lemma {:induction false} LoadedIsPrefix(views: seq<seq<Tx>>, r: seq<Tx>)
    requires NewestFirst(r) && AreListings(views, r) && CleanPages(r)
    ensures multiset(Loaded(views)) == multiset(r[..MinInt(|views| * BATCH_SIZE, |r|)])
  {
    if views != [] {
      var k := |views|;
      var front, v := views[..k - 1], views[k - 1];
      assert IsListing(v, r);
      LoadedIsPrefix(front, r);
      BoundaryIsClean(r, k - 1);
      BoundaryIsClean(r, k);
      hide Loaded, CleanCut, CleanPages;
      PageIsFixed(r, v, MinInt((k - 1) * BATCH_SIZE, |r|), MinInt(k * BATCH_SIZE, |r|));
    }
  }

  lemma PageIsFixed(r: seq<Tx>, v: seq<Tx>, lo: nat, hi: nat)
    requires IsListing(v, r) && NewestFirst(r) && lo <= hi <= |r|
    requires 0 < lo < |r| ==> CleanCut(r, lo)
    requires 0 < hi < |r| ==> CleanCut(r, hi)
    ensures |v| == |r| && multiset(r[..lo]) + multiset(v[lo..hi]) == multiset(r[..hi])
  {
    CleanCutIsFixed(r, v, lo);
    CleanCutIsFixed(r, v, hi);
    assert v[..hi] == v[..lo] + v[lo..hi];
  }

  lemma BoundaryIsClean(r: seq<Tx>, k: nat)
    requires CleanPages(r)
    ensures var b := MinInt(k * BATCH_SIZE, |r|); 0 < b < |r| ==> CleanCut(r, b)
  {
    MulMod(k, BATCH_SIZE);
    var b := MinInt(k * BATCH_SIZE, |r|);
    if 0 < b < |r| {
      assert IsBoundary(b, |r|);
    }
  }

  lemma PagesCoverAll(n: nat)
    ensures Pages(n) >= 1 && Pages(n) * BATCH_SIZE >= n && (Pages(n) - 1) * BATCH_SIZE < n + (if n == 0 then 1 else 0)
  {
  }

  /** With clean page boundaries nothing is lost or repeated, whatever orders the queries choose ... */
  lemma CleanPagesLoadAll(rows: seq<Tx>, r: seq<Tx>, views: seq<seq<Tx>>)
    requires IsListing(r, rows) && CleanPages(r) && AreListings(views, rows) && |views| == Pages(|rows|)
    ensures multiset(Loaded(views)) == multiset(rows)
  {
    SamePopulation(r, rows);
    PagesCoverAll(|rows|);
    LoadedIsPrefix(views, r);
    assert r[..|r|] == r;
  }

  // ---------- a straddled group can lose a row ----------

  function Swap(s: seq<Tx>, i: nat, j: nat): seq<Tx>
    requires i < j < |s|
  {
    s[i := s[j]][j := s[i]]
  }

  lemma SwapTied(s: seq<Tx>, i: nat, j: nat)
    requires i < j < |s| && s[i].timestamp == s[j].timestamp
    ensures multiset(Swap(s, i, j)) == multiset(s)
    ensures forall k :: 0 <= k < |s| ==> Swap(s, i, j)[k].timestamp == s[k].timestamp
  {
    assert s == s[..i] + [s[i]] + s[i + 1..j] + [s[j]] + s[j + 1..];
    assert Swap(s, i, j) == s[..i] + [s[j]] + s[i + 1..j] + [s[i]] + s[j + 1..];
  }

  /** A group across a cut with two different rows has different rows on the two sides. */
  lemma DifferentAcross(r: seq<Tx>, b: nat) returns (i: nat, j: nat)
    requires NewestFirst(r) && 0 < b < |r| && !CleanCut(r, b)
    ensures i < b <= j < |r| && r[i].timestamp == r[j].timestamp && r[i] != r[j]
  {
    var t := r[b].timestamp;
    var x, y :| x in r && y in r && x.timestamp == y.timestamp == t && x != y;
    var z := if x == r[b] then y else x;
    var k :| 0 <= k < |r| && r[k] == z;
    if k < b {
      return k, b;
    }
    if r[b - 1] != r[k] {
      return b - 1, k;
    }
    return b - 1, b;
  }

  /** The choice that takes one listing up to page k and another one after it. */
  function TwoListings(v: seq<Tx>, r: seq<Tx>, k: nat, pages: nat): seq<seq<Tx>> {
    seq(pages, i requires 0 <= i < pages => if i < k then v else r)
  }

  /** What that choice loads: the beginning of the one and the rest of the other. */
  lemma {:induction false} LoadedFromTwo(v: seq<Tx>, r: seq<Tx>, k: nat, pages: nat)
    requires |v| == |r| && k * BATCH_SIZE <= |r|
    ensures
      var cut, end := k * BATCH_SIZE, MinInt(pages * BATCH_SIZE, |r|);
      Loaded(TwoListings(v, r, k, pages)) == if end <= cut then v[..end] else v[..cut] + r[cut..end]
    decreases pages
  {
    if pages > 0 {
      var all := TwoListings(v, r, k, pages);
      assert all[..pages - 1] == TwoListings(v, r, k, pages - 1);
      assert all[pages - 1] == if pages - 1 < k then v else r;
      assert Loaded(all) == Loaded(all[..pages - 1]) + PageOf(all[pages - 1], pages);
      hide Loaded, TwoListings;
      LoadedFromTwo(v, r, k, pages - 1);
      OnePageMore(v, r, k, pages);
    }
  }

  lemma OnePageMore(v: seq<Tx>, r: seq<Tx>, k: nat, pages: nat)
    requires |v| == |r| && k * BATCH_SIZE <= |r| && pages > 0
    ensures
      var cut, was, end := k * BATCH_SIZE, MinInt((pages - 1) * BATCH_SIZE, |r|), MinInt(pages * BATCH_SIZE, |r|);
      (if was <= cut then v[..was] else v[..cut] + r[cut..was]) + PageOf(if pages - 1 < k then v else r, pages)
      == if end <= cut then v[..end] else v[..cut] + r[cut..end]
  {
    var cut, was, end := k * BATCH_SIZE, MinInt((pages - 1) * BATCH_SIZE, |r|), MinInt(pages * BATCH_SIZE, |r|);
    if pages <= k {
      assert v[..end] == v[..was] + v[was..end];
    } else if pages - 1 == k {
      assert was == cut;
    } else {
      assert was <= cut ==> was == cut == |r|;
      assert was > cut ==> r[cut..end] == r[cut..was] + r[was..end];
    }
  }

  lemma SwapIsListing(r: seq<Tx>, i: nat, j: nat)
    requires NewestFirst(r) && i < j < |r| && r[i].timestamp == r[j].timestamp
    ensures IsListing(Swap(r, i, j), r) && |Swap(r, i, j)| == |r|
  {
    SwapTied(r, i, j);
    hide Swap;
  }

  lemma TwoAreListings(v: seq<Tx>, r: seq<Tx>, k: nat, pages: nat)
    requires IsListing(v, r) && NewestFirst(r)
    ensures AreListings(TwoListings(v, r, k, pages), r) && |TwoListings(v, r, k, pages)| == pages
  {
    hide NewestFirst;
  }

  /** A choice of orders that repeats the row at j and misses the row at i. */
  lemma StraddledRowIsLost(r: seq<Tx>, b: nat) returns (i: nat, j: nat, views: seq<seq<Tx>>)
    requires NewestFirst(r) && IsBoundary(b, |r|) && !CleanCut(r, b)
    ensures i < b <= j < |r| && r[i].timestamp == r[j].timestamp && r[i] != r[j]
    ensures AreListings(views, r) && |views| == Pages(|r|)
    ensures multiset(Loaded(views)) == multiset(r) - multiset{r[i]} + multiset{r[j]}
  {
    i, j := DifferentAcross(r, b);
    SwapIsListing(r, i, j);
    SwappedPrefix(r, i, j, b);
    hide NewestFirst, CleanCut, Swap, Loaded, TwoListings, IsListing, Pages;
    views := TwoListings(Swap(r, i, j), r, b / BATCH_SIZE, Pages(|r|));
    TwoAreListings(Swap(r, i, j), r, b / BATCH_SIZE, Pages(|r|));
    LoadedAcross(Swap(r, i, j), r, b);
  }

  lemma LoadedAcross(v: seq<Tx>, r: seq<Tx>, b: nat)
    requires |v| == |r| && IsBoundary(b, |r|)
    ensures Loaded(TwoListings(v, r, b / BATCH_SIZE, Pages(|r|))) == v[..b] + r[b..]
  {
    hide Loaded, TwoListings;
    PagesCoverAll(|r|);
    LoadedFromTwo(v, r, b / BATCH_SIZE, Pages(|r|));
    hide Pages;
    assert r[b..|r|] == r[b..];
  }

  lemma SwappedPrefix(r: seq<Tx>, i: nat, j: nat, b: nat)
    requires i < b <= j < |r|
    ensures multiset(Swap(r, i, j)[..b] + r[b..]) == multiset(r) - multiset{r[i]} + multiset{r[j]}
  {
    var mixed := Swap(r, i, j)[..b] + r[b..];
    assert mixed == r[..i] + [r[j]] + r[i + 1..];
    assert r == r[..i] + [r[i]] + r[i + 1..];
  }

  /** Paging returns every row exactly as often as stored, whatever orders the queries choose, if and only if no
      page boundary falls inside a group of tied rows that are not all equal. */
  lemma PagingIsExactWhen(rows: seq<Tx>, r: seq<Tx>)
    requires IsListing(r, rows)
    ensures (forall views :: AreListings(views, rows) && |views| == Pages(|rows|) ==> multiset(Loaded(views)) == multiset(rows))
      <==> CleanPages(r)
  {
    SamePopulation(r, rows);
    if CleanPages(r) {
      forall views | AreListings(views, rows) && |views| == Pages(|rows|) ensures multiset(Loaded(views)) == multiset(rows) {
        CleanPagesLoadAll(rows, r, views);
      }
    } else {
      var b :| IsBoundary(b, |r|) && !CleanCut(r, b);
      var i, j, views := StraddledRowIsLost(r, b);
      assert AreListings(views, rows);
      LostIsNotExact(multiset(r), r[i], r[j]);
    }
  }

  lemma LostIsNotExact(m: multiset<Tx>, x: Tx, y: Tx)
    requires x in m && x != y
    ensures m - multiset{x} + multiset{y} != m
  {
    assert (m - multiset{x} + multiset{y})[x] == m[x] - 1;
  }

  /** For instance: after 499 newer rows two tied rows straddle the first boundary, and one of them never comes. */
  lemma TiedRowsAcrossPages(newer: Tx, x: Tx, y: Tx) returns (rows: seq<Tx>, views: seq<seq<Tx>>)
    requires newer.timestamp > x.timestamp == y.timestamp && x != y
    ensures |rows| == 501 && x in rows && y in rows && AreListings(views, rows) && |views| == Pages(|rows|)
    ensures x !in Loaded(views)
  {
    var first := seq(BATCH_SIZE - 1, i => newer);
    rows := first + [x] + [y];
    assert forall i :: 0 <= i < BATCH_SIZE - 1 ==> first[i] == newer;
    LastTwo(first, newer, x, y);
    OnlyOnce(first, x, y);
    var i, j;
    i, j, views := StraddledRowIsLost(rows, BATCH_SIZE);
    assert rows[i] == x && rows[j] == y;
    hide Loaded, Pages, AreListings, NewestFirst;
    assert multiset(Loaded(views))[x] == 0;
    assert x in Loaded(views) <==> x in multiset(Loaded(views));
  }

  lemma LastTwo(first: seq<Tx>, newer: Tx, x: Tx, y: Tx)
    requires |first| > 0 && (forall i :: 0 <= i < |first| ==> first[i] == newer)
    requires newer.timestamp > x.timestamp == y.timestamp && x != y
    ensures
      var rows := first + [x] + [y];
      && NewestFirst(rows) && !CleanCut(rows, |first| + 1) && x in rows && y in rows
      && forall i :: 0 <= i <= |first| && rows[i].timestamp == x.timestamp ==> i == |first|
  {
    var rows, n := first + [x] + [y], |first|;
    assert forall i :: 0 <= i < n ==> rows[i] == newer;
    assert rows[n] == x && rows[n + 1] == y;
  }

  lemma OnlyOnce(first: seq<Tx>, x: Tx, y: Tx)
    requires x !in first && x != y
    ensures multiset(first + [x] + [y])[x] == 1
  {
    assert multiset(first)[x] == 0;
  }

  // ---------- loading and storing ----------

  method ListByUser(rows: seq<Tx>, p: nat) returns (batch: seq<Tx>, total: nat, ghost view: seq<Tx>)
    requires p >= 1
    ensures IsListing(view, rows) && batch == PageOf(view, p)
    ensures total == if batch == [] then 0 else |rows|
  {
    var listing := SortSlice(rows, Later);
    assert forall i, j :: 0 <= i < j < |listing| ==> Later(listing[i], listing[j]);
    view := listing;
    SamePopulation(listing, rows);
    batch := listing[MinInt((p - 1) * BATCH_SIZE, |listing|)..MinInt(p * BATCH_SIZE, |listing|)];
    total := if batch == [] then 0 else |rows|;
  }

  /** Everything the pages returned, in time order; the count comes with the rows, so an empty page reports zero. */
  method LoadAllTransactions(rows: seq<Tx>) returns (all: seq<Tx>, ghost views: seq<seq<Tx>>)
    ensures AreListings(views, rows) && |views| == Pages(|rows|)
    ensures multiset(all) == multiset(Loaded(views)) && OldestFirst(all)
  {
    all, views := [], [];
    var page := 1;
    hide IsListing;
    while true
      invariant page == |views| + 1 && AreListings(views, rows) && all == Loaded(views)
      invariant |all| == (page - 1) * BATCH_SIZE && (page == 1 || |all| < |rows|)
      decreases |rows| - |all|
    {
      var batch, total;
      ghost var view;
      batch, total, view := ListByUser(rows, page);
      ListingSize(view, rows);
      all := all + batch;
      ghost var before := views;
      views := views + [view];
      assert views[..|before|] == before;
      if |all| >= total || |batch| == 0 {
        break;
      }
      page := page + 1;
    }
    assert |views| == Pages(|rows|) && all == Loaded(views);
    hide Loaded;
    all := SortSlice(all, Earlier);
    assert forall i, j :: 0 <= i < j < |all| ==> Earlier(all[i], all[j]);
  }

  lemma ListingSize(view: seq<Tx>, rows: seq<Tx>)
    requires IsListing(view, rows)
    ensures |view| == |rows|
  {
    SamePopulation(view, rows);
  }

  class Engine {
    const rows: seq<Tx>
    var snapshots: map<string, Snapshot>

    constructor (rows: seq<Tx>)
      ensures this.rows == rows && snapshots == map[]
    {
      this.rows, snapshots := rows, map[];
    }

    /** Stores the snapshot of what the pages returned, in some time order; with clean page boundaries that is
        every stored row, each as often as stored. */
    method ComputeAndStore(quote: string, price: string -> Option<real>) returns (s: Snapshot, ghost txs: seq<Tx>)
      modifies this
      ensures snapshots == old(snapshots)[quote := s]
      ensures OldestFirst(txs) && IsSnapshot(s, txs, price)
      ensures exists views :: AreListings(views, rows) && |views| == Pages(|rows|) && multiset(txs) == multiset(Loaded(views))
      ensures forall r :: IsListing(r, rows) && CleanPages(r) ==> multiset(txs) == multiset(rows)
    {
      var all;
      ghost var views;
      all, views := LoadAllTransactions(rows);
      s := Compute(all, price);
      txs := all;
      snapshots := snapshots[quote := s];
      forall r | IsListing(r, rows) && CleanPages(r) ensures multiset(txs) == multiset(rows) {
        CleanPagesLoadAll(rows, r, views);
      }
    }
  }

  // ---------- ties: when is the order determined ----------

  lemma WithoutLast(s: seq<Tx>)
    requires s != []
    ensures multiset(s[..|s| - 1]) == multiset(s) - multiset{s[|s| - 1]}
  {
    assert s == s[..|s| - 1] + [s[|s| - 1]];
  }

  predicate TiedAreEqual(x: seq<Tx>) {
    forall i, j :: 0 <= i < j < |x| && x[i].timestamp == x[j].timestamp ==> x[i] == x[j]
  }

  lemma LatestIsLast(x: seq<Tx>, y: seq<Tx>)
    requires multiset(x) == multiset(y) && OldestFirst(x) && OldestFirst(y) && x != [] && |x| == |y|
    requires TiedAreEqual(x)
    ensures x[|x| - 1] == y[|y| - 1]
  {
    SamePopulation(x, y);
    var n := |x| - 1;
    assert x[n] in y && y[n] in x;
    var i :| 0 <= i < |y| && y[i] == x[n];
    var j :| 0 <= j < |x| && x[j] == y[n];
    assert i < n ==> y[i].timestamp <= y[n].timestamp;
    assert j < n ==> x[j].timestamp <= x[n].timestamp;
  }

  lemma {:induction false} EqualTiesDetermine(x: seq<Tx>, y: seq<Tx>)
    requires multiset(x) == multiset(y) && OldestFirst(x) && OldestFirst(y) && TiedAreEqual(x)
    ensures x == y
  {
    assert |x| == |y| by {
      SamePopulation(x, y);
    }
    if x != [] {
      var n := |x| - 1;
      var x', y' := x[..n], y[..n];
      assert x[n] == y[n] by {
        LatestIsLast(x, y);
      }
      assert multiset(x') == multiset(y') by {
        WithoutLast(x);
        WithoutLast(y);
      }
      EqualTiesDetermine(x', y');
      assert x == x' + [x[n]] && y == y' + [y[n]];
    }
  }

  /** The sorted order is unique if and only if rows with one timestamp are equal. */
  lemma OrderIsUniqueExactlyWhen(x: seq<Tx>)
    requires OldestFirst(x)
    ensures (forall y :: multiset(y) == multiset(x) && OldestFirst(y) ==> y == x) <==> TiedAreEqual(x)
  {
    if TiedAreEqual(x) {
      forall y | multiset(y) == multiset(x) && OldestFirst(y) ensures y == x {
        EqualTiesDetermine(x, y);
      }
    } else {
      var i, j :| 0 <= i < j < |x| && x[i].timestamp == x[j].timestamp && x[i] != x[j];
      var y := Swap(x, i, j);
      SwapTied(x, i, j);
      assert OldestFirst(y);
      assert y[i] != x[i];
    }
  }

  // ---------- ties: when does the order matter ----------

  /** Two neighbours can change places without consequence for an asset: unless both touch it, always; two buys
      at one unit cost; two sells at one price, or covered together, or one of them selling nothing; a buy and a
      sell that is covered by what was held before. */
  predicate Commute(pre: seq<Tx>, t: Tx, u: Tx, a: string) {
    if t.asset != a || u.asset != a then true
    else match (t.kind, u.kind)
      case (Buy, Buy) => UnitPrice(t) == UnitPrice(u)
      case (Sell, Sell) =>
        UnitPrice(t) == UnitPrice(u) || t.quantity <= 0.0 || u.quantity <= 0.0
        || Held(pre, a) == 0.0 || t.quantity + u.quantity <= Held(pre, a)
      case (Buy, Sell) => u.quantity <= Held(pre, a)
      case (Sell, Buy) => t.quantity <= Held(pre, a)
      case _ => true
  }

  ghost predicate SamePnL(x: seq<Tx>, y: seq<Tx>, a: string, price: real) {
    && BookOf(x, a).realized == BookOf(y, a).realized
    && Unrealized(BookOf(x, a).queue, price) == Unrealized(BookOf(y, a).queue, price)
  }

  /** What a transaction adds to the lots of an asset. */
  function LotsOf(t: Tx, a: string): seq<Lot> {
    if t.asset == a && t.kind.Buy? then [Lot(t.quantity, UnitPrice(t))] else []
  }

  /** The units a transaction sells of what is held. */
  function Sold(t: Tx, a: string, held: real): real {
    if t.asset == a && t.kind.Sell? then Max(0.0, Min(t.quantity, held)) else 0.0
  }

  function Added(t: Tx, a: string): real { if t.asset == a && t.kind.Buy? then t.quantity else 0.0 }

  /** The units two further transactions sell, and what they earn. */
  function SoldByTwo(pre: seq<Tx>, t: Tx, u: Tx, a: string): real {
    var held := Held(pre, a);
    var m := Sold(t, a, held);
    m + Sold(u, a, held - m + Added(t, a))
  }

  function EarnedByTwo(pre: seq<Tx>, t: Tx, u: Tx, a: string): real {
    var held := Held(pre, a);
    var m := Sold(t, a, held);
    Times(UnitPrice(t), m) + Times(UnitPrice(u), Sold(u, a, held - m + Added(t, a)))
  }

  lemma TwoMore(pre: seq<Tx>, t: Tx, u: Tx, a: string)
    ensures
      var x := pre + [t] + [u];
      && Buys(x, a) == Buys(pre, a) + LotsOf(t, a) + LotsOf(u, a)
      && Used(x, a) == Used(pre, a) + SoldByTwo(pre, t, u, a)
      && Proceeds(x, a) == Proceeds(pre, a) + EarnedByTwo(pre, t, u, a)
      && Units(Buys(x, a)) == Units(Buys(pre, a)) + Added(t, a) + Added(u, a)
  {
    hide Times, UnitPrice, Buys, Used, Proceeds, Units, Sold, Added, LotsOf;
    OneMore(pre, t, a);
    OneMore(pre + [t], u, a);
    HeldIsUncut(pre, a);
    HeldIsUncut(pre + [t], a);
    hide Held;
    assert Held(pre + [t], a) == Held(pre, a) - Sold(t, a, Held(pre, a)) + Added(t, a);
  }

  lemma OneMore(pre: seq<Tx>, t: Tx, a: string)
    ensures
      var m := Sold(t, a, Held(pre, a));
      && Buys(pre + [t], a) == Buys(pre, a) + LotsOf(t, a)
      && Used(pre + [t], a) == Used(pre, a) + m
      && Proceeds(pre + [t], a) == Proceeds(pre, a) + Times(UnitPrice(t), m)
      && Units(Buys(pre + [t], a)) == Units(Buys(pre, a)) + Added(t, a)
  {
    hide Times, UnitPrice, Buys, Used, Proceeds, Units, Held;
    HeldIsUncut(pre, a);
    Extend(pre, t, a);
    assert Buys(pre, a) + [] == Buys(pre, a);
    if t.asset == a && t.kind.Buy? {
      AppendUnits(Buys(pre, a), Lot(t.quantity, UnitPrice(t)));
    }
  }

  predicate Bought(t: Tx) { t.kind.Buy? ==> t.quantity > 0.0 }

  /** The cost of the first c units of two more lots. */
  lemma CostOfTwoLots(lots: seq<Lot>, l: Lot, k: Lot, c: real)
    ensures
      var beyond := c - Units(lots);
      CostOfFirst(lots + [l] + [k], c) == CostOfFirst(lots, c)
        + Times(l.unitCost, Clamp(beyond, l.quantity)) + Times(k.unitCost, Clamp(beyond - l.quantity, k.quantity))
  {
    hide Times, CostOfFirst, Units;
    AppendUnits(lots, l);
    AppendCost(lots, l, c);
    AppendCost(lots + [l], k, c);
    assert c - Units(lots + [l]) == c - Units(lots) - l.quantity;
  }

  lemma EqualCostsCommute(lots: seq<Lot>, l: Lot, k: Lot, c: real)
    requires l.unitCost == k.unitCost && l.quantity > 0.0 && k.quantity > 0.0
    ensures CostOfFirst(lots + [l] + [k], c) == CostOfFirst(lots + [k] + [l], c)
  {
    hide Times, CostOfFirst, Units;
    CostOfTwoLots(lots, l, k, c);
    CostOfTwoLots(lots, k, l, c);
    var z := c - Units(lots);
    TimesAdd(l.unitCost, Clamp(z, l.quantity), Clamp(z - l.quantity, k.quantity));
    TimesAdd(l.unitCost, Clamp(z, k.quantity), Clamp(z - k.quantity, l.quantity));
    assert Clamp(z, l.quantity) + Clamp(z - l.quantity, k.quantity) == Clamp(z, k.quantity) + Clamp(z - k.quantity, l.quantity);
  }

  lemma LotsCommute(lots: seq<Lot>, pre: seq<Tx>, t: Tx, u: Tx, a: string, c: real)
    requires Bought(t) && Bought(u) && Commute(pre, t, u, a)
    ensures CostOfFirst(lots + LotsOf(t, a) + LotsOf(u, a), c) == CostOfFirst(lots + LotsOf(u, a) + LotsOf(t, a), c)
  {
    hide Times, UnitPrice, CostOfFirst, Held;
    if t.asset == u.asset == a && t.kind.Buy? && u.kind.Buy? {
      EqualCostsCommute(lots, Lot(t.quantity, UnitPrice(t)), Lot(u.quantity, UnitPrice(u)), c);
    } else {
      assert LotsOf(t, a) == [] || LotsOf(u, a) == [];
      assert lots + LotsOf(t, a) + LotsOf(u, a) == lots + LotsOf(u, a) + LotsOf(t, a);
    }
  }

  /** If the guard holds, no later transaction and no price can tell the two orders apart. */
  lemma CommutingKeepsAccount(pre: seq<Tx>, t: Tx, u: Tx, a: string)
    requires PositiveBuys(pre) && Bought(t) && Bought(u) && Commute(pre, t, u, a)
    ensures SameAccount(pre + [t] + [u], pre + [u] + [t], a)
  {
    hide Times, UnitPrice, Buys, Used, Proceeds, Units, CostOfFirst, Surviving, BookOf, Sold, Added, LotsOf, Commute,
         SoldByTwo, EarnedByTwo;
    TwoMore(pre, t, u, a);
    TwoMore(pre, u, t, a);
    HeldIsNonNegative(pre, a);
    SameProceeds(pre, t, u, a);
    forall c ensures CostOfFirst(Buys(pre + [t] + [u], a), c) == CostOfFirst(Buys(pre + [u] + [t], a), c) {
      LotsCommute(Buys(pre, a), pre, t, u, a, c);
    }
    hide Held;
  }

  lemma HeldIsNonNegative(pre: seq<Tx>, a: string)
    requires PositiveBuys(pre)
    ensures Held(pre, a) >= 0.0
  {
    hide Buys, Used, Proceeds, Units, CostOfFirst, Surviving, BookOf, Held;
    FifoClosedForm(pre, a);
    HeldIsUncut(pre, a);
  }

  /** Commuting transactions sell the same units for the same proceeds in both orders. */
  lemma SameProceeds(pre: seq<Tx>, t: Tx, u: Tx, a: string)
    requires Bought(t) && Bought(u) && Commute(pre, t, u, a) && Held(pre, a) >= 0.0
    ensures SoldByTwo(pre, t, u, a) == SoldByTwo(pre, u, t, a)
    ensures EarnedByTwo(pre, t, u, a) == EarnedByTwo(pre, u, t, a)
  {
    var held := Held(pre, a);
    hide Times, UnitPrice, Held;
    var m, n' := Sold(t, a, held), Sold(u, a, held);
    var n, m' := Sold(u, a, held - m + Added(t, a)), Sold(t, a, held - n' + Added(u, a));
    assert m + n == m' + n';
    if UnitPrice(t) == UnitPrice(u) {
      TimesAdd(UnitPrice(t), m, n);
      TimesAdd(UnitPrice(t), m', n');
    } else {
      assert m == m' && n == n';
    }
  }

  // ---------- and it matters otherwise ----------

  lemma DifferentProducts(p: real, q: real, m: real)
    requires p != q && m != 0.0
    ensures Times(p, m) != Times(q, m)
  {
    TimesSub(p, q, m);
    assert Times(p - q, m) != 0.0;
  }

  lemma SellsEarnDifferently(pre: seq<Tx>, t: Tx, u: Tx, a: string)
    requires t.kind.Sell? && u.kind.Sell? && !Commute(pre, t, u, a) && Held(pre, a) >= 0.0
    ensures SoldByTwo(pre, t, u, a) == SoldByTwo(pre, u, t, a)
    ensures EarnedByTwo(pre, t, u, a) != EarnedByTwo(pre, u, t, a)
  {
    var held := Held(pre, a);
    hide Times, UnitPrice, Held;
    var m, n' := Sold(t, a, held), Sold(u, a, held);
    var n, m' := Sold(u, a, held - m), Sold(t, a, held - n');
    assert m + n == m' + n' && m' < m;
    TimesDifference(UnitPrice(t), m, m');
    TimesDifference(UnitPrice(u), n', n);
    DifferentProducts(UnitPrice(t), UnitPrice(u), m - m');
    assert n' - n == m - m';
  }

  /** Two sells at different prices that together exceed the holdings earn different proceeds in the two orders. */
  lemma SellsDiffer(pre: seq<Tx>, t: Tx, u: Tx, a: string)
    requires PositiveBuys(pre) && t.kind.Sell? && u.kind.Sell? && !Commute(pre, t, u, a)
    ensures BookOf(pre + [t] + [u], a).realized != BookOf(pre + [u] + [t], a).realized
  {
    hide Times, UnitPrice, Buys, Used, Proceeds, Units, CostOfFirst, Surviving, BookOf, Sold, Commute, SoldByTwo, EarnedByTwo;
    TwoMore(pre, t, u, a);
    TwoMore(pre, u, t, a);
    HeldIsNonNegative(pre, a);
    FifoClosedForm(pre + [t] + [u], a);
    FifoClosedForm(pre + [u] + [t], a);
    SellsEarnDifferently(pre, t, u, a);
    assert Buys(pre, a) + [] + [] == Buys(pre, a);
  }

  lemma TimesDifference(p: real, m: real, n: real)
    ensures Times(p, m) - Times(p, n) == Times(p, m - n)
  {
    TimesAdd(p, m - n, n);
  }

  lemma DifferentSlopes(m: real, n: real)
    requires m != n
    ensures Times(0.0, m) == Times(0.0, n) == 0.0 && Times(1.0, m) != Times(1.0, n)
  {
  }

  /** Different numbers of units left over from the same lots: one of two prices shows it. */
  lemma RemainingShows(x: seq<Tx>, y: seq<Tx>, a: string) returns (price: real)
    requires PositiveBuys(x) && PositiveBuys(y) && Buys(x, a) == Buys(y, a) && Used(x, a) != Used(y, a)
    ensures Unrealized(BookOf(x, a).queue, price) != Unrealized(BookOf(y, a).queue, price)
  {
    hide Times, Buys, Used, Proceeds, Units, CostOfFirst, Surviving, BookOf, Unrealized;
    FifoClosedForm(x, a);
    FifoClosedForm(y, a);
    var lots := Buys(x, a);
    ValueOfSurviving(lots, Used(x, a), 0.0);
    ValueOfSurviving(lots, Used(y, a), 0.0);
    ValueOfSurviving(lots, Used(x, a), 1.0);
    ValueOfSurviving(lots, Used(y, a), 1.0);
    DifferentSlopes(Units(lots) - Used(x, a), Units(lots) - Used(y, a));
    price := if Unrealized(BookOf(x, a).queue, 0.0) != Unrealized(BookOf(y, a).queue, 0.0) then 0.0 else 1.0;
  }

  /** A sell beyond the holdings reaches a tied buy in one order only. */
  lemma BuyAndSellDiffer(pre: seq<Tx>, t: Tx, u: Tx, a: string) returns (price: real)
    requires PositiveBuys(pre) && t.kind.Buy? && t.quantity > 0.0 && u.kind.Sell? && !Commute(pre, t, u, a)
    ensures Unrealized(BookOf(pre + [t] + [u], a).queue, price) != Unrealized(BookOf(pre + [u] + [t], a).queue, price)
  {
    hide Times, UnitPrice, Buys, Used, Proceeds, Units, CostOfFirst, Surviving, BookOf, Unrealized;
    var x, y, held := pre + [t] + [u], pre + [u] + [t], Held(pre, a);
    TwoMore(pre, t, u, a);
    TwoMore(pre, u, t, a);
    HeldIsNonNegative(pre, a);
    hide Held;
    assert Sold(u, a, held + t.quantity) > Sold(u, a, held);
    assert SoldByTwo(pre, t, u, a) > SoldByTwo(pre, u, t, a);
    assert Buys(pre, a) + [] == Buys(pre, a) && Buys(x, a) + [] == Buys(x, a);
    hide Sold;
    price := RemainingShows(x, y, a);
  }

  lemma CostsDiffer(lots: seq<Lot>, l: Lot, k: Lot)
    requires l.unitCost != k.unitCost && l.quantity > 0.0 && k.quantity > 0.0
    ensures
      var c := Units(lots) + Min(l.quantity, k.quantity);
      CostOfFirst(lots + [l] + [k], c) != CostOfFirst(lots + [k] + [l], c)
  {
    hide Times, CostOfFirst, Units;
    var m := Min(l.quantity, k.quantity);
    CostOfTwoLots(lots, l, k, Units(lots) + m);
    CostOfTwoLots(lots, k, l, Units(lots) + m);
    TimesZero(l.unitCost);
    TimesZero(k.unitCost);
    DifferentProducts(l.unitCost, k.unitCost, m);
    assert Clamp(m, l.quantity) == m == Clamp(m, k.quantity);
    assert Clamp(m - l.quantity, k.quantity) == 0.0 == Clamp(m - k.quantity, l.quantity);
  }

  /** Nothing but a sell of what was held and `more` units, at no price. */
  lemma SellingMore(x: seq<Tx>, sell: Tx, a: string, c: real)
    requires PositiveBuys(x) && sell.asset == a && sell.kind.Sell? && sell.reference.None?
    requires 0.0 <= sell.quantity == c - Used(x, a) && c <= Units(Buys(x, a))
    ensures BookOf(x + [sell], a).realized == Proceeds(x, a) - CostOfFirst(Buys(x, a), c)
  {
    hide Buys, Used, Proceeds, Units, CostOfFirst, Surviving, BookOf, Held;
    HeldIsUncut(x, a);
    OneMore(x, sell, a);
    assert UnitPrice(sell) == 0.0;
    assert Times(0.0, sell.quantity) == 0.0;
    assert Buys(x, a) + [] == Buys(x, a);
    FifoClosedForm(x + [sell], a);
  }

  /** Two buys at different unit costs: a sell of what was held and of the smaller buy uses up different lots. */
  lemma BuysDiffer(pre: seq<Tx>, t: Tx, u: Tx, a: string) returns (post: seq<Tx>)
    requires PositiveBuys(pre) && t.kind.Buy? && t.quantity > 0.0 && u.kind.Buy? && u.quantity > 0.0 && !Commute(pre, t, u, a)
    ensures PositiveBuys(post)
    ensures BookOf(pre + [t] + [u] + post, a).realized != BookOf(pre + [u] + [t] + post, a).realized
  {
    hide Times, UnitPrice, Buys, Used, Proceeds, Units, CostOfFirst, Surviving, BookOf, Held;
    var m := Min(t.quantity, u.quantity);
    var sell := Tx(a, Sell, Held(pre, a) + m, None, t.timestamp, Exact);
    post := [sell];
    TwoMore(pre, t, u, a);
    TwoMore(pre, u, t, a);
    FifoClosedForm(pre, a);
    HeldIsUncut(pre, a);
    var lots, c := Buys(pre, a), Units(Buys(pre, a)) + m;
    var l, k := Lot(t.quantity, UnitPrice(t)), Lot(u.quantity, UnitPrice(u));
    TimesZero(UnitPrice(t));
    TimesZero(UnitPrice(u));
    SellingMore(pre + [t] + [u], sell, a, c);
    SellingMore(pre + [u] + [t], sell, a, c);
    CostsDiffer(lots, l, k);
  }

  /** If the guard fails, some continuation and some price give different profits in the two orders. */
  lemma NotCommutingShows(pre: seq<Tx>, t: Tx, u: Tx, a: string) returns (post: seq<Tx>, price: real)
    requires PositiveBuys(pre) && Bought(t) && Bought(u) && !Commute(pre, t, u, a)
    ensures PositiveBuys(post) && !SamePnL(pre + [t] + [u] + post, pre + [u] + [t] + post, a, price)
  {
    hide UnitPrice, BookOf, Held, Unrealized;
    post, price := [], 0.0;
    assert pre + [t] + [u] + [] == pre + [t] + [u] && pre + [u] + [t] + [] == pre + [u] + [t];
    match (t.kind, u.kind) {
      case (Sell, Sell) => SellsDiffer(pre, t, u, a);
      case (Buy, Sell) => price := BuyAndSellDiffer(pre, t, u, a);
      case (Sell, Buy) => price := BuyAndSellDiffer(pre, u, t, a);
      case _ => post := BuysDiffer(pre, t, u, a);
    }
  }

  /** Two tied neighbours: their order is without consequence, now and for every continuation and price, if and
      only if the guard holds; equivalently if and only if the two orders leave the same account. */
  lemma OrderMattersExactlyWhen(pre: seq<Tx>, t: Tx, u: Tx, a: string)
    requires PositiveBuys(pre) && Bought(t) && Bought(u)
    ensures SameAccount(pre + [t] + [u], pre + [u] + [t], a) <==> Commute(pre, t, u, a)
    ensures
      (forall post, price :: PositiveBuys(post) ==> SamePnL(pre + [t] + [u] + post, pre + [u] + [t] + post, a, price))
      <==> Commute(pre, t, u, a)
  {
    var x, y := pre + [t] + [u], pre + [u] + [t];
    assert PositiveBuys(x) && PositiveBuys(y);
    hide SameAccount, SamePnL, Commute;
    if Commute(pre, t, u, a) {
      CommutingKeepsAccount(pre, t, u, a);
    } else {
      var post, price := NotCommutingShows(pre, t, u, a);
    }
    if SameAccount(x, y, a) {
      forall post, price | PositiveBuys(post) ensures SamePnL(x + post, y + post, a, price) {
        SameAccountSameFuture(x, y, post, a, price);
      }
    }
  }

  lemma SameAccountSameFuture(x: seq<Tx>, y: seq<Tx>, post: seq<Tx>, a: string, price: real)
    requires PositiveBuys(x) && PositiveBuys(y) && PositiveBuys(post) && SameAccount(x, y, a)
    ensures SamePnL(x + post, y + post, a, price)
  {
    SameAccountExtends(x, y, post, a);
    assert PositiveBuys(x + post) && PositiveBuys(y + post);
    hide SameAccount, BookOf, Unrealized;
    SameAccountSamePnL(x + post, y + post, a, price);
  }

  /** For instance: a sell of just what a tied buy brings realizes a gain in one order and nothing in the other. */
  lemma TiesDoNotDetermine(buy: Tx, sell: Tx)
    requires buy.kind.Buy? && sell.kind.Sell? && buy.asset == sell.asset && buy.timestamp == sell.timestamp
    requires buy.quantity == sell.quantity > 0.0 && UnitPrice(buy) != UnitPrice(sell)
    ensures multiset([buy, sell]) == multiset([sell, buy])
    ensures OldestFirst([buy, sell]) && OldestFirst([sell, buy])
    ensures BookOf([buy, sell], buy.asset).realized != BookOf([sell, buy], buy.asset).realized
  {
    assert [buy] + [sell] == [buy, sell] && [sell] + [buy] == [sell, buy];
    hide UnitPrice, BookOf;
    TiedBooks(buy, sell);
  }

  lemma TiedBooks(buy: Tx, sell: Tx)
    requires buy.kind.Buy? && sell.kind.Sell? && buy.asset == sell.asset
    requires buy.quantity == sell.quantity > 0.0 && UnitPrice(buy) != UnitPrice(sell)
    ensures BookOf([buy] + [sell], buy.asset).realized != BookOf([sell] + [buy], buy.asset).realized
  {
    hide UnitPrice, Match, Times, BookOf;
    var a, lot := buy.asset, Lot(buy.quantity, UnitPrice(buy));
    OneLot(lot, UnitPrice(sell));
    BookOfNothing(a);
    assert [] + [lot] == [lot] && [] + [buy] == [buy] && [] + [sell] == [sell];
    ExtendBook([], buy, a);
    ExtendBook([], sell, a);
    ExtendBook([buy], sell, a);
    ExtendBook([sell], buy, a);
  }

  lemma OneLot(lot: Lot, price: real)
    requires lot.quantity > 0.0 && price != lot.unitCost
    ensures Match([lot], lot.quantity, price).1 != 0.0
    ensures Match([], lot.quantity, price) == ([], 0.0)
  {
    assert Match([lot][1..], 0.0, price).1 == 0.0;
    assert Times(price - lot.unitCost, lot.quantity) != 0.0;
  }

  lemma BookOfNothing(a: string)
    ensures BookOf([], a) == Book([], 0.0, 0)
  {
  }
}
