/** Task identifiers (backend/internal/planner/scheduler.go, taskID): fields joined by colons, times in decimal. */
module TaskIds {

  function Digit(n: nat): char
    requires n < 10
  {
    ('0' as int + n) as char
  }

  function Digits(n: nat): string {
    if n < 10 then [Digit(n)] else Digits(n / 10) + [Digit(n % 10)]
  }

  /** fmt's %d. */
  function Decimal(n: int): string {
    if n < 0 then "-" + Digits(-n) else Digits(n)
  }

  function Join(a: string, b: string): string { a + ":" + b }

  /** "type:symbol:interval:start:end". */
  function TaskId(taskType: string, symbol: string, interval: string, start: int, end: int): string {
    Join(Join(Join(Join(taskType, symbol), interval), Decimal(start)), Decimal(end))
  }

  /** The part before the first colon. */
  function TypeOfId(id: string): string {
    if id == [] || id[0] == ':' then [] else [id[0]] + TypeOfId(id[1..])
  }

  lemma {:induction false} TypeOfPrefixed(taskType: string, rest: string)
    requires ':' !in taskType
    ensures TypeOfId(Join(taskType, rest)) == taskType
  {
    if taskType != [] {
      TypeOfPrefixed(taskType[1..], rest);
      assert Join(taskType, rest)[1..] == Join(taskType[1..], rest);
      assert taskType[0] != ':';
      assert Join(taskType, rest)[0] == taskType[0];
    } else {
      assert Join(taskType, rest)[0] == ':';
    }
  }

  /** A task id names its type. */
  lemma TypeOfTaskId(taskType: string, symbol: string, interval: string, start: int, end: int)
    requires ':' !in taskType
    ensures TypeOfId(TaskId(taskType, symbol, interval, start, end)) == taskType
  {
    var rest := Join(Join(Join(symbol, interval), Decimal(start)), Decimal(end));
    assert TaskId(taskType, symbol, interval, start, end) == Join(taskType, rest);
    TypeOfPrefixed(taskType, rest);
  }

  lemma {:induction false} DigitsAreDigits(n: nat)
    ensures forall c :: c in Digits(n) ==> '0' <= c <= '9'
  {
    if n >= 10 {
      DigitsAreDigits(n / 10);
    }
  }

  lemma {:induction false} DigitsInjective(m: nat, n: nat)
    requires Digits(m) == Digits(n)
    ensures m == n
  {
    var s, t := Digits(m), Digits(n);
    assert s[|s| - 1] == Digit(m % 10) && t[|t| - 1] == Digit(n % 10);
    assert m >= 10 ==> |s| == |Digits(m / 10)| + 1 >= 2;
    assert n >= 10 ==> |t| == |Digits(n / 10)| + 1 >= 2;
    if m >= 10 && n >= 10 {
      assert s[..|s| - 1] == Digits(m / 10) && t[..|t| - 1] == Digits(n / 10);
      DigitsInjective(m / 10, n / 10);
    }
  }

  lemma DecimalInjective(m: int, n: int)
    requires Decimal(m) == Decimal(n)
    ensures m == n
  {
    DigitsAreDigits(if m < 0 then -m else m);
    DigitsAreDigits(if n < 0 then -n else n);
    assert m < 0 ==> Decimal(m)[0] == '-' && Decimal(m)[1..] == Digits(-m);
    assert n < 0 ==> Decimal(n)[0] == '-' && Decimal(n)[1..] == Digits(-n);
    assert m >= 0 ==> |Digits(m)| >= 1 && Digits(m)[0] in Digits(m);
    assert n >= 0 ==> |Digits(n)| >= 1 && Digits(n)[0] in Digits(n);
    DigitsInjective(if m < 0 then -m else m, if n < 0 then -n else n);
  }

  lemma DecimalHasNoColon(n: int)
    ensures ':' !in Decimal(n)
  {
    DigitsAreDigits(if n < 0 then -n else n);
  }

  /** The number that a decimal string of digits names. */
  function Value(s: string): int {
    if s == [] then 0 else 10 * Value(s[..|s| - 1]) + (s[|s| - 1] as int - '0' as int)
  }

  lemma {:induction false} DigitsRead(n: nat)
    ensures forall c :: c in Digits(n) ==> '0' <= c <= '9'
    ensures Value(Digits(n)) == n && Digits(n) != [] && (n > 0 ==> Digits(n)[0] != '0')
  {
    DigitsAreDigits(n);
    if n >= 10 {
      DigitsRead(n / 10);
      assert Digits(n)[..|Digits(n)| - 1] == Digits(n / 10);
    } else {
      assert Digits(n)[..0] == [];
    }
  }

  /** An id spells out its fields between colons, the times as decimal numbers without leading zeros. */
  lemma TaskIdSpellsItsFields(taskType: string, symbol: string, interval: string, start: int, end: int) returns (from: string, to: string)
    ensures TaskId(taskType, symbol, interval, start, end) == taskType + ":" + symbol + ":" + interval + ":" + from + ":" + to
    ensures Spells(from, start) && Spells(to, end)
  {
    from, to := Decimal(start), Decimal(end);
    DigitsRead(if start < 0 then -start else start);
    DigitsRead(if end < 0 then -end else end);
    hide Digits;
    assert start < 0 ==> from[0] == '-' && from[1..] == Digits(-start);
    assert end < 0 ==> to[0] == '-' && to[1..] == Digits(-end);
  }

  predicate Spells(s: string, n: int) {
    var digits := if n < 0 && s != [] then s[1..] else s;
    && (n < 0 ==> s != [] && s[0] == '-')
    && digits != [] && (forall c :: c in digits ==> '0' <= c <= '9') && (n != 0 ==> digits[0] != '0')
    && Value(digits) == if n < 0 then -n else n
  }

  /** The last colon splits an id in one way. */
  lemma LastColonSplits(a: string, b: string, c: string, d: string)
    requires Join(a, b) == Join(c, d) && ':' !in b && ':' !in d
    ensures a == c && b == d
  {
    var s := Join(a, b);
    assert s[|a|] == ':' && s[|c|] == ':';
    assert forall k :: |a| < k < |s| ==> s[k] in b;
    assert forall k :: |c| < k < |s| ==> s[k] in d;
    assert !(|a| < |c|) && !(|c| < |a|);
    assert s[..|a|] == a && s[..|c|] == c && s[|a| + 1..] == b && s[|c| + 1..] == d;
  }

  /** Ids of one type are equal only if every field is, colons in symbols or not. */
  lemma TaskIdInjective(taskType: string, s: string, i: string, start: int, end: int, t: string, j: string, start': int, end': int)
    requires ':' !in i && ':' !in j
    requires TaskId(taskType, s, i, start, end) == TaskId(taskType, t, j, start', end')
    ensures s == t && i == j && start == start' && end == end'
  {
    hide Decimal;
    DecimalHasNoColon(start);
    DecimalHasNoColon(end);
    DecimalHasNoColon(start');
    DecimalHasNoColon(end');
    var a, b := Join(taskType, s), Join(taskType, t);
    LastColonSplits(Join(Join(a, i), Decimal(start)), Decimal(end), Join(Join(b, j), Decimal(start')), Decimal(end'));
    LastColonSplits(Join(a, i), Decimal(start), Join(b, j), Decimal(start'));
    LastColonSplits(a, i, b, j);
    DecimalInjective(start, start');
    DecimalInjective(end, end');
    assert a[|taskType| + 1..] == s && b[|taskType| + 1..] == t;
  }
}
