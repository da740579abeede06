/** The leader lease (backend/internal/storage/postgres/lease_repository.go). `now` is the database clock of a
    statement; it never goes back. */
module Lease {
  import opened Common

  datatype Lease = Lease(holder: string, expiresAt: int)

  /** A successful acquire or renew. */
  datatype Grant = Grant(holder: string, at: int, until: int)

  /** The WHERE clause of the upsert: no row, an expired one, or the caller's own. */
  predicate Grants(row: Option<Lease>, holder: string, now: int) {
    row.None? || row.value.expiresAt < now || row.value.holder == holder
  }

  // ---------- histories of grants ----------

  /** Grants are in time order, and another holder follows only after the expiry. */
  ghost predicate IsHistory(grants: seq<Grant>) {
    forall i :: 0 < i < |grants| ==>
      grants[i - 1].at <= grants[i].at
      && (grants[i].holder == grants[i - 1].holder || grants[i - 1].until < grants[i].at)
  }

  /** What a grant must respect to follow a history: it is what the upsert checks on the row. */
  ghost predicate Follows(grants: seq<Grant>, g: Grant) {
    grants != [] ==>
      var last := grants[|grants| - 1];
      last.at <= g.at && (g.holder == last.holder || last.until < g.at)
  }

  lemma HistoryGrows(grants: seq<Grant>, g: Grant)
    requires IsHistory(grants) && Follows(grants, g)
    ensures IsHistory(grants + [g])
  {
  }

  /** When tenure i ends: at its expiry, or earlier when its holder renews. */
  function End(grants: seq<Grant>, i: nat): int
    requires i < |grants|
  {
    if i + 1 < |grants| && grants[i + 1].holder == grants[i].holder
    then MinInt(grants[i].until, grants[i + 1].at)
    else grants[i].until
  }

  lemma {:induction false} InTimeOrder(grants: seq<Grant>, i: nat, j: nat)
    requires IsHistory(grants) && i <= j < |grants|
    ensures grants[i].at <= grants[j].at
  {
    if i < j {
      InTimeOrder(grants, i, j - 1);
    }
  }

  /** Tenures of different holders never overlap, whatever TTLs were asked for. */
  lemma TenuresAreDisjoint(grants: seq<Grant>, i: nat, j: nat)
    requires IsHistory(grants) && i < j < |grants| && grants[i].holder != grants[j].holder
    ensures End(grants, i) <= grants[j].at
  {
    InTimeOrder(grants, i + 1, j);
  }

  /** A renewal that moves the expiry of a still running lease to an earlier time. */
  predicate Shortens(before: Grant, after: Grant) {
    after.holder == before.holder && after.until < before.until && after.at <= before.until
  }

  ghost predicate NeverShortens(grants: seq<Grant>) { forall i :: 0 < i < |grants| ==> !Shortens(grants[i - 1], grants[i]) }

  /** An earlier expiry has passed, or is still covered by the latest one. */
  lemma {:induction false} ExpiriesAreCovered(grants: seq<Grant>, i: nat, j: nat)
    requires IsHistory(grants) && NeverShortens(grants) && i <= j < |grants|
    ensures grants[i].until < grants[j].at || grants[i].until <= grants[j].until
    ensures grants[i].holder != grants[j].holder ==> grants[i].until < grants[j].at
  {
    if i < j {
      ExpiriesAreCovered(grants, i, j - 1);
      assert !Shortens(grants[j - 1], grants[j]);
    }
  }

  ghost predicate IntervalsDisjoint(grants: seq<Grant>) {
    forall i, j :: 0 <= i < j < |grants| && grants[i].holder != grants[j].holder ==> grants[i].until < grants[j].at
  }

  /** The whole intervals from grant to expiry are disjoint too, if no renewal shortens its lease ... */
  lemma LastingRenewalsKeepIntervalsDisjoint(grants: seq<Grant>)
    requires IsHistory(grants) && NeverShortens(grants)
    ensures IntervalsDisjoint(grants)
  {
    forall i, j | 0 <= i < j < |grants| && grants[i].holder != grants[j].holder ensures grants[i].until < grants[j].at {
      ExpiriesAreCovered(grants, i, j);
    }
  }

  /** ... and only then: after a shortening renewal another holder can be granted the lease before the expiry
      that was promised first. */
  lemma ShorteningRenewalsCanOverlap(grants: seq<Grant>, other: string) returns (next: Grant)
    requires IsHistory(grants) && |grants| >= 2 && Shortens(grants[|grants| - 2], grants[|grants| - 1])
    requires other != grants[|grants| - 1].holder
    ensures IsHistory(grants + [next]) && next.holder == other && !IntervalsDisjoint(grants + [next])
  {
    var last, before := grants[|grants| - 1], grants[|grants| - 2];
    next := Grant(other, if last.until + 1 >= last.at then last.until + 1 else last.at, before.until + 1);
    var longer := grants + [next];
    assert longer[|grants| - 2] == before && longer[|grants|] == next;
    assert next.at <= before.until;
  }

  /** The exact condition, at each renewal: every continuation whose own renewals are lasting keeps all intervals
      disjoint if and only if this renewal does not shorten its lease. */
  lemma RenewalsAreSafeExactlyWhen(grants: seq<Grant>)
    requires IsHistory(grants) && |grants| >= 2 && NeverShortens(grants[..|grants| - 1])
    ensures
      var last := grants[|grants| - 1];
      (forall more :: IsHistory(grants + more) && NeverShortens([last] + more) ==> IntervalsDisjoint(grants + more))
      <==> !Shortens(grants[|grants| - 2], last)
  {
    var last, before := grants[|grants| - 1], grants[|grants| - 2];
    if Shortens(before, last) {
      var next := ShorteningRenewalsCanOverlap(grants, last.holder + "'");
      assert NeverShortens([last] + [next]);
    } else {
      forall more | IsHistory(grants + more) && NeverShortens([last] + more) ensures IntervalsDisjoint(grants + more) {
        var all := grants + more;
        forall i | 0 < i < |all| ensures !Shortens(all[i - 1], all[i]) {
          if i < |grants| - 1 {
            assert all[i] == grants[..|grants| - 1][i] && all[i - 1] == grants[..|grants| - 1][i - 1];
          } else if i >= |grants| {
            assert all[i] == ([last] + more)[i - |grants| + 1] && all[i - 1] == ([last] + more)[i - |grants|];
          }
        }
        LastingRenewalsKeepIntervalsDisjoint(all);
      }
    }
  }

  // ---------- the repository, called one at a time ----------

  /** The row is the latest grant of a history. */
  ghost predicate RowOf(row: Lease, grants: seq<Grant>) {
    grants != [] && IsHistory(grants) && row == Lease(grants[|grants| - 1].holder, grants[|grants| - 1].until)
  }

  lemma RowGrows(row: Lease, grants: seq<Grant>, holder: string, now: int, until: int)
    requires RowOf(row, grants) && grants[|grants| - 1].at <= now && (row.expiresAt < now || row.holder == holder)
    ensures RowOf(Lease(holder, until), grants + [Grant(holder, now, until)])
  {
    HistoryGrows(grants, Grant(holder, now, until));
  }

  function Past(grants: map<string, seq<Grant>>, name: string): seq<Grant> { if name in grants then grants[name] else [] }

  function LatestAt(grants: seq<Grant>): int { if grants == [] then 0 else grants[|grants| - 1].at }

  class LeaseRepository {
    var rows: map<string, Lease>
    ghost var grants: map<string, seq<Grant>>

    ghost predicate Valid()
      reads this
    {
      rows.Keys == grants.Keys && forall n :: n in rows ==> RowOf(rows[n], grants[n])
    }

    /** The time of the latest grant, if there is one. */
    ghost predicate NotBefore(name: string, now: int)
      reads this
    {
      name in grants ==> LatestAt(grants[name]) <= now
    }

    constructor ()
      ensures Valid() && rows == map[] && grants == map[]
    {
      rows, grants := map[], map[];
    }

    method AcquireOrRenew(name: string, holder: string, ttl: int, now: int) returns (current: Lease, acquired: bool)
      requires Valid() && NotBefore(name, now)
      modifies this
      ensures Valid() && NotBefore(name, now)
      ensures name in rows && current == rows[name]
      ensures acquired <==> name !in old(rows) || old(rows)[name].expiresAt < now || old(rows)[name].holder == holder
      ensures acquired <==> current.holder == holder
      ensures acquired ==> current == Lease(holder, now + ttl) && rows == old(rows)[name := current]
      ensures acquired ==> grants == old(grants)[name := Past(old(grants), name) + [Grant(holder, now, now + ttl)]]
      ensures !acquired ==> rows == old(rows) && grants == old(grants)
    {
      if name !in rows || rows[name].expiresAt < now || rows[name].holder == holder {
        current := Lease(holder, now + ttl);
        ghost var past := Past(grants, name);
        if name in rows {
          RowGrows(rows[name], past, holder, now, now + ttl);
        }
        assert RowOf(current, past + [Grant(holder, now, now + ttl)]);
        hide RowOf;
        rows := rows[name := current];
        grants := grants[name := past + [Grant(holder, now, now + ttl)]];
        return current, true;
      }
      hide RowOf;
      return rows[name], rows[name].holder == holder;
    }
  }

  // ---------- concurrent callers of one lease ----------

  /** reading: callers whose upsert returned no row and who are about to read the current lease. */
  datatype Sys = Sys(row: Option<Lease>, grants: seq<Grant>, clock: int, reading: set<string>, answers: seq<Answer>)

  /** What a caller was told, and how many grants there had been. */
  datatype Answer = Answer(holder: string, acquired: bool, after: nat)

  datatype Step =
    | Upsert(holder: string, ttl: int, now: int)       // the upsert and its answer
    | UpsertLost(holder: string, ttl: int, now: int)   // it takes effect, its answer is lost
    | Read(holder: string)                             // the read after a refusal
    | GiveUp(holder: string)                           // the read fails

  predicate Enabled(s: Sys, step: Step) {
    match step
    case Upsert(holder, _, now) => holder !in s.reading && s.clock <= now
    case UpsertLost(holder, _, now) => holder !in s.reading && s.clock <= now
    case Read(holder) => holder in s.reading && s.row.Some?
    case GiveUp(holder) => holder in s.reading
  }

  function Granted(s: Sys, holder: string, ttl: int, now: int): Sys {
    s.(row := Some(Lease(holder, now + ttl)), grants := s.grants + [Grant(holder, now, now + ttl)], clock := now)
  }

  function Do(s: Sys, step: Step): Sys
    requires Enabled(s, step)
  {
    match step
    case Upsert(holder, ttl, now) =>
      if Grants(s.row, holder, now)
      then Granted(s, holder, ttl, now).(answers := s.answers + [Answer(holder, true, |s.grants| + 1)])
      else s.(clock := now, reading := s.reading + {holder})
    case UpsertLost(holder, ttl, now) => if Grants(s.row, holder, now) then Granted(s, holder, ttl, now) else s.(clock := now)
    case Read(holder) =>
      s.(reading := s.reading - {holder},
         answers := s.answers + [Answer(holder, s.row.value.holder == holder, |s.grants|)])
    case GiveUp(holder) => s.(reading := s.reading - {holder})
  }

  ghost predicate IsRun(trace: seq<Sys>, steps: seq<Step>) {
    && |trace| == |steps| + 1
    && trace[0].row.None? && trace[0].grants == [] && trace[0].reading == {} && trace[0].answers == []
    && forall i :: 0 <= i < |steps| ==> Enabled(trace[i], steps[i]) && trace[i + 1] == Do(trace[i], steps[i])
  }

  /** An acquired answer is the latest grant at the time, to that caller. */
  predicate Backed(a: Answer, grants: seq<Grant>) {
    a.acquired ==> 0 < a.after <= |grants| && grants[a.after - 1].holder == a.holder
  }

  ghost predicate Inv(s: Sys) {
    && IsHistory(s.grants)
    && (s.row.None? <==> s.grants == [])
    && (s.grants != [] ==>
          var g := s.grants[|s.grants| - 1]; s.row == Some(Lease(g.holder, g.until)) && g.at <= s.clock)
    && (forall h :: h in s.reading ==> s.row.Some? && s.row.value.holder != h)
    && (forall a :: a in s.answers ==> Backed(a, s.grants))
  }

  lemma GrantKeepsInv(s: Sys, holder: string, ttl: int, now: int)
    requires Inv(s) && holder !in s.reading && s.clock <= now && Grants(s.row, holder, now)
    ensures Inv(Granted(s, holder, ttl, now)) && Backed(Answer(holder, true, |s.grants| + 1), Granted(s, holder, ttl, now).grants)
  {
    HistoryGrows(s.grants, Grant(holder, now, now + ttl));
    hide IsHistory, Follows;
    forall a | a in s.answers ensures Backed(a, s.grants + [Grant(holder, now, now + ttl)]) {
      assert Backed(a, s.grants);
    }
  }

  lemma StepKeepsInv(s: Sys, step: Step)
    requires Inv(s) && Enabled(s, step)
    ensures Inv(Do(s, step))
  {
    if (step.Upsert? || step.UpsertLost?) && Grants(s.row, step.holder, step.now) {
      GrantKeepsInv(s, step.holder, step.ttl, step.now);
      hide Granted;
    }
    hide IsHistory, Backed;
  }

  /** In every run, however calls interleave: the grants form a history, so tenures are disjoint, and a caller is
      told it acquired the lease only if it was granted it; a read after a refusal never says so. */
  lemma {:induction false} RunsKeepInv(trace: seq<Sys>, steps: seq<Step>, n: nat)
    requires IsRun(trace, steps) && n <= |steps|
    ensures Inv(trace[n])
  {
    hide Do, Enabled;
    if n > 0 {
      RunsKeepInv(trace, steps, n - 1);
      StepKeepsInv(trace[n - 1], steps[n - 1]);
    }
  }

  /** Two callers that were both told they lead, by different grants, have disjoint tenures. */
  lemma LeadersAreDisjoint(trace: seq<Sys>, steps: seq<Step>, n: nat, a: Answer, b: Answer)
    requires IsRun(trace, steps) && n <= |steps| && a in trace[n].answers && b in trace[n].answers
    requires a.acquired && b.acquired && a.holder != b.holder && a.after <= b.after
    ensures 0 < a.after < b.after <= |trace[n].grants|
    ensures trace[n].grants[a.after - 1].holder == a.holder && trace[n].grants[b.after - 1].holder == b.holder
    ensures End(trace[n].grants, a.after - 1) <= trace[n].grants[b.after - 1].at
  {
    hide Do, Enabled;
    RunsKeepInv(trace, steps, n);
    assert Backed(a, trace[n].grants) && Backed(b, trace[n].grants);
    TenuresAreDisjoint(trace[n].grants, a.after - 1, b.after - 1);
  }
}
