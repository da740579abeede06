/** Vocabulary shared by the components: optional values, UTC truncation, sums that do not
    depend on an enumeration order, and the contract of Go's sort.Slice. */
module Common {

  datatype Option<+T> = None | Some(value: T) {
    function GetOr(default: T): T {
      match this
      case Some(v) => v
      case None => default
    }
  }

  const HOUR: int := 3600
  const DAY: int := 86400

  /** time.Truncate on Unix seconds: always rounds towards the past, also before 1970. */
  function Trunc(t: int, unit: int): int
    requires unit > 0
  {
    t / unit * unit
  }

  predicate Aligned(t: int, unit: int)
    requires unit > 0
  {
    t % unit == 0
  }

  lemma TruncBounds(t: int, unit: int)
    requires unit > 0
    ensures Trunc(t, unit) <= t < Trunc(t, unit) + unit
    ensures Aligned(Trunc(t, unit), unit)
  {
    assert t == unit * (t / unit) + t % unit;
    MulMod(t / unit, unit);
  }

  lemma MulMod(k: int, unit: int)
    requires unit > 0
    ensures (k * unit) % unit == 0
  {
    var r := (k * unit) % unit;
    var q := (k * unit) / unit;
    assert k * unit == unit * q + r;
    assert k - q >= 1 ==> (k - q) * unit >= unit;
    assert k - q <= -1 ==> (k - q) * unit <= -unit;
  }

  /** A multiple of the unit that lies in (t - unit, t] is the truncation of t. */
  lemma TruncUnique(t: int, unit: int, m: int)
    requires unit > 0 && Aligned(m, unit) && m <= t < m + unit
    ensures Trunc(t, unit) == m
  {
    var a, b := m / unit, t / unit;
    assert m == unit * a;
    assert t == unit * b + t % unit;
    assert b - a >= 1 ==> unit * (b - a) >= unit;
    assert b - a <= -1 ==> unit * (b - a) <= -unit;
  }

  lemma DaysAreWholeHours(t: int)
    requires Aligned(t, DAY)
    ensures Aligned(t, HOUR)
  {
    assert t == 24 * (t / DAY) * HOUR;
    MulMod(24 * (t / DAY), HOUR);
  }

  lemma UnitsAreWholeHours()
    ensures Aligned(HOUR, HOUR) && Aligned(DAY, HOUR)
  {
  }

  lemma AlignedShift(a: int, b: int, unit: int)
    requires unit > 0 && Aligned(a, unit) && Aligned(b, unit)
    ensures Aligned(a + b, unit) && Aligned(a - b, unit)
  {
    var p, q := a / unit, b / unit;
    assert a == unit * p && b == unit * q;
    assert a + b == (p + q) * unit && a - b == (p - q) * unit;
    MulMod(p + q, unit);
    MulMod(p - q, unit);
  }

  /** Truncating to the hour and then to the day is truncating to the day. */
  lemma DayOfHour(t: int)
    ensures Trunc(Trunc(t, HOUR), DAY) == Trunc(t, DAY)
  {
    var h, d := Trunc(t, HOUR), Trunc(t, DAY);
    TruncBounds(t, HOUR);
    TruncBounds(t, DAY);
    assert d == HOUR * (24 * (t / DAY));
    TruncUnique(h, DAY, d) by {
      assert h == HOUR * (t / HOUR);
    }
  }

  function Max(a: real, b: real): real { if a >= b then a else b }

  function Min(a: real, b: real): real { if a <= b then a else b }

  function MinInt(a: int, b: int): int { if a <= b then a else b }

  /** A product that lemmas can hide, to keep non-linear reasoning in one place. */
  function Times(a: real, b: real): real { a * b }

  lemma TimesAdd(a: real, b: real, c: real)
    ensures Times(a, b + c) == Times(a, b) + Times(a, c)
  {
  }

  lemma TimesSub(a: real, b: real, c: real)
    ensures Times(a - b, c) == Times(a, c) - Times(b, c)
  {
  }

  lemma TimesZero(a: real)
    ensures Times(a, 0.0) == 0.0
  {
  }

  lemma TimesOneMore(a: real, n: real)
    ensures Times(a, n + 1.0) == Times(a, n) + a
  {
  }

  // ---------- sums ----------

  /** The sum of f over a finite set; SumRemove shows that the enumeration order is irrelevant. */
  ghost function SetSum<T(!new)>(s: set<T>, f: T -> real): real {
    if s == {} then 0.0 else var x :| x in s; f(x) + SetSum(s - {x}, f)
  }

  lemma SumEmpty<T(!new)>(f: T -> real)
    ensures SetSum({}, f) == 0.0
  {
  }

  lemma {:induction false} SumRemove<T(!new)>(s: set<T>, f: T -> real, x: T)
    requires x in s
    ensures SetSum(s, f) == f(x) + SetSum(s - {x}, f)
    decreases s
  {
    var y :| y in s && SetSum(s, f) == f(y) + SetSum(s - {y}, f);
    if x != y {
      SumRemove(s - {y}, f, x);
      SumRemove(s - {x}, f, y);
      assert s - {y} - {x} == s - {x} - {y};
    }
  }

  lemma SumInsert<T(!new)>(s: set<T>, f: T -> real, x: T)
    requires x !in s
    ensures SetSum(s + {x}, f) == SetSum(s, f) + f(x)
  {
    SumRemove(s + {x}, f, x);
    assert s + {x} - {x} == s;
  }

  lemma {:induction false} SameSum<T(!new)>(s: set<T>, f: T -> real, g: T -> real)
    requires forall x :: x in s ==> f(x) == g(x)
    ensures SetSum(s, f) == SetSum(s, g)
    decreases s
  {
    if s != {} {
      var x :| x in s;
      SumRemove(s, f, x);
      SumRemove(s, g, x);
      SameSum(s - {x}, f, g);
    }
  }

  lemma {:induction false} SumUnion<T(!new)>(s: set<T>, t: set<T>, f: T -> real)
    requires s !! t
    ensures SetSum(s + t, f) == SetSum(s, f) + SetSum(t, f)
    decreases s
  {
    if s == {} {
      assert s + t == t;
    } else {
      var x :| x in s;
      SumRemove(s, f, x);
      SumRemove(s + t, f, x);
      assert (s + t) - {x} == (s - {x}) + t;
      SumUnion(s - {x}, t, f);
    }
  }

  lemma {:induction false} SumAdd<T(!new)>(s: set<T>, f: T -> real, g: T -> real, h: T -> real)
    requires forall x :: x in s ==> h(x) == f(x) + g(x)
    ensures SetSum(s, h) == SetSum(s, f) + SetSum(s, g)
    decreases s
  {
    if s != {} {
      var x :| x in s;
      SumRemove(s, f, x);
      SumRemove(s, g, x);
      SumRemove(s, h, x);
      SumAdd(s - {x}, f, g, h);
    }
  }

  /** The sum of f over a multiset, every copy counted. */
  ghost function BagSum<T(!new)>(s: multiset<T>, f: T -> real): real
    decreases |s|
  {
    if s == multiset{} then 0.0 else var x :| x in s; f(x) + BagSum(s - multiset{x}, f)
  }

  lemma {:induction false} BagRemove<T(!new)>(s: multiset<T>, f: T -> real, x: T)
    requires x in s
    ensures BagSum(s, f) == f(x) + BagSum(s - multiset{x}, f)
    decreases |s|
  {
    var y :| y in s && BagSum(s, f) == f(y) + BagSum(s - multiset{y}, f);
    hide BagSum;
    if x != y {
      BagRemove(s - multiset{y}, f, x);
      BagRemove(s - multiset{x}, f, y);
      assert s - multiset{y} - multiset{x} == s - multiset{x} - multiset{y};
    }
  }

  lemma {:induction false} BagOfSet<T(!new)>(s: set<T>, f: T -> real)
    ensures BagSum(multiset(s), f) == SetSum(s, f)
    decreases s
  {
    if s != {} {
      var x :| x in s;
      SumRemove(s, f, x);
      BagRemove(multiset(s), f, x);
      assert multiset(s) - multiset{x} == multiset(s - {x});
      BagOfSet(s - {x}, f);
    }
  }

  // ---------- sort.Slice ----------

  ghost predicate WeakOrder<T(!new)>(leq: (T, T) -> bool) {
    && (forall x, y :: leq(x, y) || leq(y, x))
    && (forall x, y, z :: leq(x, y) && leq(y, z) ==> leq(x, z))
  }

  ghost predicate Sorted<T>(s: seq<T>, leq: (T, T) -> bool) {
    forall i, j :: 0 <= i < j < |s| ==> leq(s[i], s[j])
  }

  lemma FitsBefore<T(!new)>(r: seq<T>, k: nat, x: T, leq: (T, T) -> bool)
    requires WeakOrder(leq) && Sorted(r, leq) && k <= |r|
    requires k < |r| ==> !leq(r[k], x)
    ensures forall j :: k <= j < |r| ==> leq(x, r[j])
  {
    forall j | k <= j < |r| ensures leq(x, r[j]) {
      assert leq(x, r[k]);
      assert j > k ==> leq(r[k], r[j]);
    }
  }

  lemma InsertSorted<T(!new)>(r: seq<T>, k: nat, x: T, leq: (T, T) -> bool)
    requires Sorted(r, leq) && k <= |r|
    requires forall j :: 0 <= j < k ==> leq(r[j], x)
    requires forall j :: k <= j < |r| ==> leq(x, r[j])
    ensures Sorted(r[..k] + [x] + r[k..], leq)
  {
    var s := r[..k] + [x] + r[k..];
    forall i, j | 0 <= i < j < |s| ensures leq(s[i], s[j]) {
      if j < k {
        assert s[i] == r[i] && s[j] == r[j];
      } else if j == k {
        assert s[i] == r[i] && s[j] == x;
      } else {
        assert s[j] == r[j - 1];
        assert s[i] == if i < k then r[i] else if i == k then x else r[i - 1];
      }
    }
  }

  lemma InsertCount<T>(r: seq<T>, k: nat, x: T)
    requires k <= |r|
    ensures multiset(r[..k] + [x] + r[k..]) == multiset(r) + multiset{x}
  {
    assert r == r[..k] + r[k..];
  }

  /** The contract of sort.Slice: a sorted permutation, with nothing said about ties. */
  method SortSlice<T(!new)>(s: seq<T>, leq: (T, T) -> bool) returns (r: seq<T>)
    requires WeakOrder(leq)
    ensures Sorted(r, leq)
    ensures multiset(r) == multiset(s)
  {
    hide WeakOrder, Sorted;
    r := [];
    SortedNothing(leq);
    for i := 0 to |s|
      invariant Sorted(r, leq)
      invariant multiset(r) == multiset(s[..i])
    {
      var k := 0;
      while k < |r| && leq(r[k], s[i])
        invariant 0 <= k <= |r|
        invariant forall j :: 0 <= j < k ==> leq(r[j], s[i])
      {
        k := k + 1;
      }
      assert s[..i + 1] == s[..i] + [s[i]];
      FitsBefore(r, k, s[i], leq);
      InsertSorted(r, k, s[i], leq);
      InsertCount(r, k, s[i]);
      r := r[..k] + [s[i]] + r[k..];
    }
    assert s[..|s|] == s;
  }

  lemma SortedNothing<T>(leq: (T, T) -> bool)
    ensures Sorted([], leq)
  {
  }

  // ---------- sequences without repetition ----------

  predicate Distinct<T(==)>(s: seq<T>) {
    forall i, j :: 0 <= i < j < |s| ==> s[i] != s[j]
  }

  lemma DistinctConcat<T>(s: seq<T>, t: seq<T>)
    requires Distinct(s) && Distinct(t) && forall x :: x in s ==> x !in t
    ensures Distinct(s + t)
  {
    forall i, j | 0 <= i < j < |s + t| ensures (s + t)[i] != (s + t)[j] {
      if i < |s| <= j {
        assert s[i] in s && t[j - |s|] in t;
      }
    }
  }

  lemma {:induction false} DistinctMultiplicity<T>(s: seq<T>)
    ensures Distinct(s) <==> forall x :: x in s ==> multiset(s)[x] == 1
  {
    if s != [] {
      var last, front := s[|s| - 1], s[..|s| - 1];
      assert s == front + [last];
      DistinctMultiplicity(front);
      if Distinct(s) {
        assert Distinct(front) && last !in front;
      } else if Distinct(front) {
        assert last in front;
        assert multiset(s)[last] >= 2;
      } else {
        var x :| x in front && multiset(front)[x] != 1;
        assert multiset(s)[x] >= multiset(front)[x] > 1;
      }
    }
  }

  lemma DistinctPermutation<T>(s: seq<T>, r: seq<T>)
    requires Distinct(s) && multiset(s) == multiset(r)
    ensures Distinct(r) && |r| == |s| && (forall x :: x in r <==> x in s)
  {
    SamePopulation(s, r);
    DistinctMultiplicity(s);
    DistinctMultiplicity(r);
  }

  lemma SamePopulation<T>(s: seq<T>, r: seq<T>)
    requires multiset(s) == multiset(r)
    ensures |r| == |s| && (forall x :: x in r <==> x in s)
  {
    assert |multiset(s)| == |s| && |multiset(r)| == |r|;
    forall x ensures x in r <==> x in s {
      assert x in r <==> x in multiset(r);
      assert x in s <==> x in multiset(s);
    }
  }

  /** Ranging over a Go map: every element once, in some order. */
  method Enumerate<T(==)>(s: set<T>) returns (list: seq<T>)
    ensures Distinct(list) && forall x :: x in list <==> x in s
  {
    list := [];
    var todo := s;
    while todo != {}
      invariant todo <= s && Distinct(list)
      invariant forall x :: x in list <==> x in s - todo
      decreases todo
    {
      var x :| x in todo;
      assert forall y :: y in list + [x] <==> y in list || y == x;
      list, todo := list + [x], todo - {x};
    }
  }

  ghost predicate Increasing(a: seq<int>) { forall i, j :: 0 <= i < j < |a| ==> a[i] < a[j] }

  /** The keys of a map, sorted. */
  method SortedKeys(keys: set<int>) returns (r: seq<int>)
    ensures forall k :: k in r <==> k in keys
    ensures forall i :: 0 <= i < |r| ==> r[i] in keys
    ensures Increasing(r)
  {
    var list := Enumerate(keys);
    var leq := (x: int, y: int) => x <= y;
    r := SortSlice(list, leq);
    DistinctPermutation(list, r);
    assert forall i, j :: 0 <= i < j < |r| ==> leq(r[i], r[j]);
  }

  // ---------- string order ----------

  /** Go's string comparison, on code points. */
  predicate StrLeq(a: string, b: string) {
    a == [] || (b != [] && (a[0] < b[0] || (a[0] == b[0] && StrLeq(a[1..], b[1..]))))
  }

  /** The first difference decides, and a prefix comes first. */
  lemma {:induction false} StrLeqMeans(a: string, b: string)
    ensures StrLeq(a, b) <==> a <= b || exists i :: DiffersAt(a, b, i) && a[i] < b[i]
  {
    if a != [] && b != [] {
      StrLeqMeans(a[1..], b[1..]);
      if a[0] != b[0] {
        assert DiffersAt(a, b, 0);
      } else {
        assert a[1..] <= b[1..] <==> a <= b;
        if i :| DiffersAt(a[1..], b[1..], i) && a[1..][i] < b[1..][i] {
          assert DiffersAt(a, b, i + 1);
        }
        if i :| DiffersAt(a, b, i) && a[i] < b[i] {
          assert DiffersAt(a[1..], b[1..], i - 1);
        }
      }
    }
  }

  predicate DiffersAt(a: string, b: string, i: int) {
    0 <= i < |a| && i < |b| && a[i] != b[i] && forall j :: 0 <= j < i ==> a[j] == b[j]
  }

  lemma {:induction false} StrTotal(a: string, b: string)
    ensures StrLeq(a, b) || StrLeq(b, a)
    ensures StrLeq(a, b) && StrLeq(b, a) ==> a == b
  {
    if a != [] && b != [] {
      StrTotal(a[1..], b[1..]);
      assert a == [a[0]] + a[1..] && b == [b[0]] + b[1..];
    }
  }

  lemma {:induction false} StrTransitive(a: string, b: string, c: string)
    requires StrLeq(a, b) && StrLeq(b, c)
    ensures StrLeq(a, c)
  {
    if a != [] && a[0] == b[0] == c[0] {
      StrTransitive(a[1..], b[1..], c[1..]);
    }
  }

  lemma StrWeakOrder()
    ensures WeakOrder(StrLeq)
  {
    forall x, y ensures StrLeq(x, y) || StrLeq(y, x) {
      StrTotal(x, y);
    }
    forall x, y, z | StrLeq(x, y) && StrLeq(y, z) ensures StrLeq(x, z) {
      StrTransitive(x, y, z);
    }
  }
}
