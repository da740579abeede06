/** The login rate limiter (backend/internal/auth/ratelimit.go): lazily pruned sliding windows and progressive
    IP bans, proved against the full history of recorded attempts. Every clock reading is a parameter; readings
    never go back. */
module RateLimiter {
  import opened Common

  datatype Ban = Ban(bannedAt: int, tier: nat)

  const TIERS := 3

  function Threshold(tier: nat): int { if tier == 0 then 20 else if tier == 1 then 40 else 60 }

  /** How long a tier bans, in seconds. */
  function Duration(tier: nat): int { if tier == 0 then 900 else if tier == 1 then 1800 else 3600 }

  // ---------- the reference: the full history ----------

  /** How many attempts of the history are not before the cutoff. */
  function Within(history: seq<int>, cutoff: int): nat {
    if history == [] then 0
    else Within(history[..|history| - 1], cutoff) + if history[|history| - 1] >= cutoff then 1 else 0
  }

  predicate Ordered(history: seq<int>) { forall i, j :: 0 <= i < j < |history| ==> history[i] <= history[j] }

  /** The kept entries are the history without a prefix that has left the window for good. */
  ghost predicate Keeps(entries: seq<int>, history: seq<int>, horizon: int) {
    && |entries| <= |history| && entries == history[|history| - |entries|..]
    && forall i :: 0 <= i < |history| - |entries| ==> history[i] < horizon
  }

  lemma {:induction false} WithinSplits(a: seq<int>, b: seq<int>, cutoff: int)
    ensures Within(a + b, cutoff) == Within(a, cutoff) + Within(b, cutoff)
  {
    if b == [] {
      assert a + b == a;
    } else {
      assert (a + b)[..|a + b| - 1] == a + b[..|b| - 1];
      WithinSplits(a, b[..|b| - 1], cutoff);
    }
  }

  lemma {:induction false} NoneCurrent(s: seq<int>, cutoff: int)
    requires forall i :: 0 <= i < |s| ==> s[i] < cutoff
    ensures Within(s, cutoff) == 0
  {
    if s != [] {
      NoneCurrent(s[..|s| - 1], cutoff);
    }
  }

  lemma {:induction false} AllCurrent(s: seq<int>, cutoff: int)
    requires forall i :: 0 <= i < |s| ==> s[i] >= cutoff
    ensures Within(s, cutoff) == |s|
  {
    if s != [] {
      AllCurrent(s[..|s| - 1], cutoff);
    }
  }

  lemma CutCount(s: seq<int>, cutoff: int, i: nat)
    requires i <= |s| && (forall j :: 0 <= j < i ==> s[j] < cutoff) && (forall j :: i <= j < |s| ==> s[j] >= cutoff)
    ensures Within(s, cutoff) == |s| - i
  {
    hide Within;
    NoneCurrent(s[..i], cutoff);
    AllCurrent(s[i..], cutoff);
    WithinSplits(s[..i], s[i..], cutoff);
    assert s == s[..i] + s[i..];
  }

  lemma OrderedSuffix(entries: seq<int>, history: seq<int>, horizon: int, cutoff: int, i: nat)
    requires Keeps(entries, history, horizon) && Ordered(history) && i < |entries| && entries[i] >= cutoff
    ensures forall j :: i <= j < |entries| ==> entries[j] >= cutoff
  {
    var n := |history| - |entries|;
    forall j | i <= j < |entries| ensures entries[j] >= cutoff {
      assert entries[j] == history[n + j] && entries[i] == history[n + i];
    }
  }

  /** Dropping a prefix that is out of the window keeps what is needed, and loses no count. */
  lemma KeepsDrop(entries: seq<int>, history: seq<int>, horizon: int, i: nat)
    requires Keeps(entries, history, horizon) && i <= |entries| && forall j :: 0 <= j < i ==> entries[j] < horizon
    ensures Keeps(entries[i..], history, horizon)
  {
    var n := |history| - |entries|;
    forall j | 0 <= j < n + i ensures history[j] < horizon {
      if j >= n {
        assert history[j] == entries[j - n];
      }
    }
  }

  lemma KeepsCount(entries: seq<int>, history: seq<int>, horizon: int)
    requires Keeps(entries, history, horizon)
    ensures Within(history, horizon) == Within(entries, horizon)
  {
    hide Within;
    var n := |history| - |entries|;
    NoneCurrent(history[..n], horizon);
    WithinSplits(history[..n], entries, horizon);
    assert history == history[..n] + history[n..];
  }

  /** Counting what pruning leaves is counting the whole history within the window. */
  lemma PrunedCount(entries: seq<int>, history: seq<int>, cutoff: int, i: nat)
    requires Keeps(entries, history, cutoff) && Ordered(history) && i <= |entries|
    requires forall j :: 0 <= j < i ==> entries[j] < cutoff
    requires i < |entries| ==> entries[i] >= cutoff
    ensures Within(history, cutoff) == |entries| - i && Keeps(entries[i..], history, cutoff)
  {
    if i < |entries| {
      OrderedSuffix(entries, history, cutoff, cutoff, i);
    }
    KeepsDrop(entries, history, cutoff, i);
    KeepsCount(entries, history, cutoff);
    hide Keeps, Ordered, Within;
    CutCount(entries, cutoff, i);
  }

  type Ledger = map<string, seq<int>>

  function Of(m: Ledger, key: string): seq<int> { if key in m then m[key] else [] }

  /** One key's kept entries against its full history, which is in order and past. */
  ghost predicate TracksKey(entries: seq<int>, history: seq<int>, horizon: int, clock: int) {
    Keeps(entries, history, horizon) && Ordered(history) && forall t :: t in history ==> t <= clock
  }

  ghost predicate Tracks(kept: Ledger, history: Ledger, horizon: int, clock: int) {
    forall k :: TracksKey(Of(kept, k), Of(history, k), horizon, clock)
  }

  lemma TracksNothing(horizon: int, clock: int)
    ensures TracksKey([], [], horizon, clock)
  {
  }

  lemma TracksKeyLater(entries: seq<int>, history: seq<int>, horizon: int, clock: int, later: int, now: int)
    requires TracksKey(entries, history, horizon, clock) && horizon <= later && clock <= now
    ensures TracksKey(entries, history, later, now)
  {
  }

  lemma TracksLater(kept: Ledger, history: Ledger, horizon: int, clock: int, later: int, now: int)
    requires Tracks(kept, history, horizon, clock) && horizon <= later && clock <= now
    ensures Tracks(kept, history, later, now)
  {
    hide TracksKey, Of;
    forall k ensures TracksKey(Of(kept, k), Of(history, k), later, now) {
      TracksKeyLater(Of(kept, k), Of(history, k), horizon, clock, later, now);
    }
  }

  /** Changing one key's entries and history, correctly, keeps the whole ledger correct. */
  lemma TracksUpdate(kept: Ledger, history: Ledger, horizon: int, clock: int, key: string, after: Ledger, full: Ledger)
    requires Tracks(kept, history, horizon, clock) && TracksKey(Of(after, key), Of(full, key), horizon, clock)
    requires forall k :: k != key ==> Of(after, k) == Of(kept, k) && Of(full, k) == Of(history, k)
    ensures Tracks(after, full, horizon, clock)
  {
    hide TracksKey, Of;
    forall k ensures TracksKey(Of(after, k), Of(full, k), horizon, clock) {
      assert TracksKey(Of(kept, k), Of(history, k), horizon, clock);
    }
  }

  lemma TracksKeyRecord(entries: seq<int>, history: seq<int>, horizon: int, clock: int, now: int)
    requires TracksKey(entries, history, horizon, clock) && clock <= now
    ensures TracksKey(entries + [now], history + [now], horizon, now)
  {
    assert forall i :: 0 <= i < |history| ==> history[i] in history;
  }

  lemma TracksRecord(kept: Ledger, history: Ledger, horizon: int, clock: int, key: string, now: int)
    requires Tracks(kept, history, horizon, clock) && clock <= now
    ensures Tracks(kept[key := Of(kept, key) + [now]], history[key := Of(history, key) + [now]], horizon, now)
  {
    hide TracksKey;
    TracksLater(kept, history, horizon, clock, horizon, now);
    TracksKeyRecord(Of(kept, key), Of(history, key), horizon, clock, now);
    TracksUpdate(kept, history, horizon, now, key, kept[key := Of(kept, key) + [now]], history[key := Of(history, key) + [now]]);
  }

  lemma TracksReset(kept: Ledger, history: Ledger, horizon: int, clock: int, key: string)
    requires Tracks(kept, history, horizon, clock)
    ensures Tracks(kept - {key}, history - {key}, horizon, clock)
  {
    hide TracksKey;
    TracksNothing(horizon, clock);
    TracksUpdate(kept, history, horizon, clock, key, kept - {key}, history - {key});
  }

  lemma PrunedKey(entries: seq<int>, history: seq<int>, cutoff: int, clock: int, i: nat)
    requires TracksKey(entries, history, cutoff, clock) && i <= |entries|
    requires forall j :: 0 <= j < i ==> entries[j] < cutoff
    requires i < |entries| ==> entries[i] >= cutoff
    ensures Within(history, cutoff) == |entries| - i && TracksKey(entries[i..], history, cutoff, clock)
  {
    PrunedCount(entries, history, cutoff, i);
  }

  // ---------- the reference for IP bans ----------

  /** One IP: every failure since the last reset, and its ban. */
  datatype IpState = IpState(history: seq<int>, ban: Option<Ban>)

  predicate Banned(s: IpState, now: int) { s.ban.Some? && now < s.ban.value.bannedAt + Duration(s.ban.value.tier) }

  /** The highest tier whose threshold the count reaches. */
  function TierFor(count: int): (tier: Option<nat>)
    ensures tier.None? <==> count < Threshold(0)
    ensures tier.Some? ==> tier.value < TIERS && count >= Threshold(tier.value)
    ensures tier.Some? ==> forall j :: tier.value < j < TIERS ==> count < Threshold(j)
  {
    if count >= 60 then Some(2) else if count >= 40 then Some(1) else if count >= 20 then Some(0) else None
  }

  /** An attempt: refused during a ban; otherwise judged by the failures within the window. */
  function AttemptIp(s: IpState, window: int, checked: int, pruned: int, banned: int): (IpState, bool) {
    if Banned(s, checked) then (s, false)
    else
      var tier := TierFor(Within(s.history, pruned - window));
      if tier.Some? then (s.(ban := Some(Ban(banned, tier.value))), false) else (s.(ban := None), true)
  }

  /** Cutting one key's entries, or dropping the key when nothing is left, touches no other key. */
  lemma CutLedger(kept: Ledger, key: string, i: nat, after: Ledger)
    requires i <= |Of(kept, key)|
    requires after == (if i == 0 && (key !in kept || kept[key] != []) then kept
                       else if i == |Of(kept, key)| then kept - {key} else kept[key := Of(kept, key)[i..]])
    ensures Of(after, key) == Of(kept, key)[i..] && forall k :: k != key ==> Of(after, k) == Of(kept, k)
  {
  }

  // ---------- the limiter ----------

  class RateLimiter {
    var attempts: Ledger
    var ipAttempts: Ledger
    var ipBans: map<string, Ban>
    const maxAttempts: int
    const window: int

    /** Every record since the key's last reset, and the latest clock reading. */
    ghost var history: Ledger
    ghost var ipHistory: Ledger
    ghost var clock: int

    ghost predicate Valid()
      reads this
    {
      && Tracks(attempts, history, clock - window, clock)
      && Tracks(ipAttempts, ipHistory, clock - window, clock)
      && (forall ip :: ip in ipBans ==> ipBans[ip].tier < TIERS && ipBans[ip].bannedAt <= clock)
    }

    ghost function View(ip: string): IpState
      reads this
    {
      IpState(Of(ipHistory, ip), if ip in ipBans then Some(ipBans[ip]) else None)
    }

    constructor (maxAttempts: int, window: int, ghost now: int)
      ensures Valid() && history == map[] && ipHistory == map[] && ipBans == map[] && clock == now
      ensures this.maxAttempts == maxAttempts && this.window == window
    {
      attempts, ipAttempts, ipBans := map[], map[], map[];
      this.maxAttempts, this.window := maxAttempts, window;
      history, ipHistory, clock := map[], map[], now;
    }

    /** The index of the first entry still within the window. */
    static method FirstCurrent(entries: seq<int>, cutoff: int) returns (i: nat)
      ensures i <= |entries| && (forall j :: 0 <= j < i ==> entries[j] < cutoff) && (i < |entries| ==> entries[i] >= cutoff)
    {
      i := 0;
      while i < |entries| && entries[i] < cutoff
        invariant i <= |entries| && forall j :: 0 <= j < i ==> entries[j] < cutoff
      {
        i := i + 1;
      }
    }

    /** The key's entries without those before the cutoff; an empty list is removed. */
    static method Prune(kept: Ledger, key: string, cutoff: int, ghost history: Ledger, ghost clock: int) returns (after: Ledger)
      requires Tracks(kept, history, cutoff, clock)
      ensures Tracks(after, history, cutoff, clock) && |Of(after, key)| == Within(Of(history, key), cutoff)
    {
      assert TracksKey(Of(kept, key), Of(history, key), cutoff, clock);
      assert Of(kept, key) == if key in kept then kept[key] else [];
      hide Tracks, TracksKey, Keeps, Within, Ordered, Of;
      after := kept;
      var i := 0;
      if key in kept {
        i := FirstCurrent(kept[key], cutoff);
        if i == |kept[key]| {
          after := kept - {key};
        } else if i > 0 {
          after := kept[key := kept[key][i..]];
        }
      }
      CutLedger(kept, key, i, after);
      PrunedKey(Of(kept, key), Of(history, key), cutoff, clock, i);
      TracksUpdate(kept, history, cutoff, clock, key, after, history);
    }

    method PruneExpired(email: string, now: int)
      requires Valid() && clock <= now
      modifies this`attempts, this`clock
      ensures Valid() && clock == now && |Of(attempts, email)| == Within(Of(history, email), now - window)
    {
      hide Tracks, Within;
      Tick(now);
      attempts := Prune(attempts, email, now - window, history, now);
    }

    method PruneIPExpired(ip: string, now: int)
      requires Valid() && clock <= now
      modifies this`ipAttempts, this`clock
      ensures Valid() && clock == now && |Of(ipAttempts, ip)| == Within(Of(ipHistory, ip), now - window)
    {
      hide Tracks, Within;
      Tick(now);
      ipAttempts := Prune(ipAttempts, ip, now - window, ipHistory, now);
    }

    /** Allowed exactly when fewer than maxAttempts of all failures since the last Reset lie within the window. */
    method Allow(email: string, now: int) returns (allowed: bool)
      requires Valid() && clock <= now
      modifies this`attempts, this`clock
      ensures Valid() && clock == now
      ensures allowed <==> Within(Of(history, email), now - window) < maxAttempts
    {
      PruneExpired(email, now);
      var n := if email in attempts then |attempts[email]| else 0;
      return n < maxAttempts;
    }

    method Record(email: string, pruned: int, now: int)
      requires Valid() && clock <= pruned <= now
      modifies this`attempts, this`history, this`clock
      ensures Valid() && clock == now && history == old(history)[email := Of(old(history), email) + [now]]
    {
      hide Tracks;
      PruneExpired(email, pruned);
      TracksRecord(attempts, history, pruned - window, pruned, email, now);
      TracksLater(ipAttempts, ipHistory, pruned - window, pruned, now - window, now);
      attempts := attempts[email := (if email in attempts then attempts[email] else []) + [now]];
      history := history[email := Of(history, email) + [now]];
      TracksLater(attempts, history, pruned - window, now, now - window, now);
      clock := now;
    }

    method Reset(email: string)
      requires Valid()
      modifies this`attempts, this`history
      ensures Valid() && history == old(history) - {email}
    {
      hide Tracks;
      TracksReset(attempts, history, clock - window, clock, email);
      attempts := attempts - {email};
      history := history - {email};
    }

    /** The answer and the IP's new state are those of the reference; no other IP is touched. */
    method AllowIP(ip: string, checked: int, pruned: int, banned: int) returns (allowed: bool)
      requires Valid() && clock <= checked <= pruned <= banned
      modifies this`ipAttempts, this`ipBans, this`clock
      ensures Valid() && checked <= clock <= banned
      ensures (View(ip), allowed) == AttemptIp(old(View(ip)), window, checked, pruned, banned)
      ensures forall other :: other != ip ==> View(other) == old(View(other))
    {
      hide Tracks, Within, TierFor;
      Tick(checked);
      if ip in ipBans {
        var ban := ipBans[ip];
        if ban.tier < TIERS {
          var banEnd := ban.bannedAt + Duration(ban.tier);
          if checked < banEnd {
            return false;
          }
        }
        ipBans := ipBans - {ip};
      }
      PruneIPExpired(ip, pruned);
      var count := if ip in ipAttempts then |ipAttempts[ip]| else 0;
      var tier := HighestTier(count);
      if tier.Some? {
        Tick(banned);
        ipBans := ipBans[ip := Ban(banned, tier.value)];
        return false;
      }
      return true;
    }

    /** Time passes. */
    ghost method Tick(now: int)
      requires Valid() && clock <= now
      modifies this`clock
      ensures Valid() && clock == now
    {
      hide Tracks;
      TracksLater(attempts, history, clock - window, clock, now - window, now);
      TracksLater(ipAttempts, ipHistory, clock - window, clock, now - window, now);
      clock := now;
    }

    /** The tiers are tried from the highest down. */
    static method HighestTier(count: int) returns (tier: Option<nat>)
      ensures tier == TierFor(count)
    {
      var i := TIERS;
      while i > 0
        invariant 0 <= i <= TIERS && forall j :: i <= j < TIERS ==> count < Threshold(j)
      {
        i := i - 1;
        if count >= Threshold(i) {
          return Some(i);
        }
      }
      return None;
    }

    method RecordIP(ip: string, pruned: int, now: int)
      requires Valid() && clock <= pruned <= now
      modifies this`ipAttempts, this`ipHistory, this`clock
      ensures Valid() && clock == now
      ensures View(ip) == old(View(ip)).(history := old(View(ip)).history + [now])
      ensures forall other :: other != ip ==> View(other) == old(View(other))
    {
      hide Tracks;
      PruneIPExpired(ip, pruned);
      TracksRecord(ipAttempts, ipHistory, pruned - window, pruned, ip, now);
      TracksLater(attempts, history, pruned - window, pruned, now - window, now);
      ipAttempts := ipAttempts[ip := (if ip in ipAttempts then ipAttempts[ip] else []) + [now]];
      ipHistory := ipHistory[ip := Of(ipHistory, ip) + [now]];
      TracksLater(ipAttempts, ipHistory, pruned - window, now, now - window, now);
      clock := now;
    }

    method ResetIP(ip: string)
      requires Valid()
      modifies this`ipAttempts, this`ipHistory, this`ipBans
      ensures Valid() && View(ip) == IpState([], None)
      ensures forall other :: other != ip ==> View(other) == old(View(other))
    {
      hide Tracks;
      TracksReset(ipAttempts, ipHistory, clock - window, clock, ip);
      ipAttempts := ipAttempts - {ip};
      ipHistory := ipHistory - {ip};
      ipBans := ipBans - {ip};
    }
  }

  // ---------- runs of calls for one IP ----------

  datatype Op =
    | Attempt(checked: int, pruned: int, banned: int)   // AllowIP and its clock readings
    | Failure(at: int)                                  // RecordIP
    | Success(at: int)                                  // ResetIP

  function First(op: Op): int { if op.Attempt? then op.checked else op.at }
  function Last(op: Op): int { if op.Attempt? then op.banned else op.at }

  /** The clock never goes back. */
  ghost predicate Timed(ops: seq<Op>) {
    && (forall i :: 0 <= i < |ops| && ops[i].Attempt? ==> ops[i].checked <= ops[i].pruned <= ops[i].banned)
    && (forall i, j :: 0 <= i < j < |ops| ==> Last(ops[i]) <= First(ops[j]))
  }

  function StepIp(s: IpState, window: int, op: Op): IpState {
    match op
    case Attempt(checked, pruned, banned) => AttemptIp(s, window, checked, pruned, banned).0
    case Failure(at) => s.(history := s.history + [at])
    case Success(_) => IpState([], None)
  }

  function RunIp(window: int, ops: seq<Op>): IpState {
    if ops == [] then IpState([], None) else StepIp(RunIp(window, ops[..|ops| - 1]), window, ops[|ops| - 1])
  }

  /** The answer to the attempt at position k. */
  predicate AllowedAt(window: int, ops: seq<Op>, k: nat)
    requires k < |ops| && ops[k].Attempt?
  {
    AttemptIp(RunIp(window, ops[..k]), window, ops[k].checked, ops[k].pruned, ops[k].banned).1
  }

  /** The attempt at position i imposed a ban of this tier. */
  predicate BansAt(window: int, ops: seq<Op>, i: nat, tier: nat) {
    i < |ops| && ops[i].Attempt? &&
    var before := RunIp(window, ops[..i]);
    !Banned(before, ops[i].checked) && TierFor(Within(before.history, ops[i].pruned - window)) == Some(tier)
  }

  /** Until the ban ends or a success resets it, the state still holds that ban. */
  lemma {:induction false} BanStays(window: int, ops: seq<Op>, i: nat, tier: nat, k: nat)
    requires Timed(ops) && i < k <= |ops| && BansAt(window, ops, i, tier)
    requires forall j :: i < j < k ==> !ops[j].Success? && First(ops[j]) < ops[i].banned + Duration(tier)
    ensures RunIp(window, ops[..k]).ban == Some(Ban(ops[i].banned, tier))
  {
    hide Within, TierFor;
    var before := ops[..k - 1];
    assert ops[..k][..k - 1] == before && ops[..k][k - 1] == ops[k - 1];
    if k > i + 1 {
      BanStays(window, ops, i, tier, k - 1);
    }
  }

  /** Once an attempt is banned at a tier, every attempt before that tier's duration ends is refused unless a
      success comes between. */
  lemma BansHold(window: int, ops: seq<Op>, i: nat, tier: nat, k: nat)
    requires Timed(ops) && i < k < |ops| && ops[k].Attempt? && BansAt(window, ops, i, tier)
    requires forall j :: i < j < k ==> !ops[j].Success?
    requires ops[k].checked < ops[i].banned + Duration(tier)
    ensures !AllowedAt(window, ops, k)
  {
    hide Within, TierFor, RunIp;
    forall j | i < j < k ensures First(ops[j]) < ops[i].banned + Duration(tier) {
      assert First(ops[j]) <= Last(ops[j]) <= First(ops[k]);
    }
    BanStays(window, ops, i, tier, k);
  }

  lemma {:induction false} HistoryIsPast(window: int, ops: seq<Op>, k: nat)
    requires Timed(ops) && k <= |ops|
    ensures forall t :: t in RunIp(window, ops[..k]).history ==> exists j :: 0 <= j < k && t == Last(ops[j])
  {
    hide Within, TierFor, AttemptIp;
    if k > 0 {
      assert ops[..k][..k - 1] == ops[..k - 1];
      HistoryIsPast(window, ops, k - 1);
      var before := RunIp(window, ops[..k - 1]);
      if ops[k - 1].Attempt? {
        AttemptsKeepHistory(before, window, ops[k - 1]);
      }
      assert RunIp(window, ops[..k]) == StepIp(before, window, ops[k - 1]);
    }
  }

  lemma AttemptsKeepHistory(s: IpState, window: int, op: Op)
    requires op.Attempt?
    ensures StepIp(s, window, op).history == s.history
  {
  }

  lemma {:induction false} NoFailuresNoHistory(window: int, ops: seq<Op>, i: nat, k: nat)
    requires i <= k <= |ops| && forall j :: i <= j < k ==> ops[j].Attempt?
    ensures RunIp(window, ops[..k]).history == RunIp(window, ops[..i]).history
  {
    hide AttemptIp;
    if i < k {
      assert ops[..k][..k - 1] == ops[..k - 1];
      NoFailuresNoHistory(window, ops, i, k - 1);
      AttemptsKeepHistory(RunIp(window, ops[..k - 1]), window, ops[k - 1]);
    }
  }

  /** A ban that is served is lifted: with no failure since, the first attempt after its end whose window
      starts after the ban is allowed. */
  lemma ServedBansLift(window: int, ops: seq<Op>, i: nat, tier: nat, k: nat)
    requires Timed(ops) && i < k < |ops| && BansAt(window, ops, i, tier) && ops[k].Attempt?
    requires forall j :: i < j < k ==> ops[j].Attempt? && ops[j].checked < ops[i].banned + Duration(tier)
    requires ops[k].checked >= ops[i].banned + Duration(tier) && ops[k].pruned - window > ops[i].banned
    ensures AllowedAt(window, ops, k)
  {
    var s := RunIp(window, ops[..k]);
    BanStays(window, ops, i, tier, k);
    hide AttemptIp, BansAt;
    NoFailuresNoHistory(window, ops, i, k);
    HistoryIsPast(window, ops, i);
    hide RunIp, Within;
    forall m | 0 <= m < |s.history| ensures s.history[m] < ops[k].pruned - window {
      assert s.history[m] in s.history;
      var j :| 0 <= j < i && s.history[m] == Last(ops[j]);
      assert Last(ops[j]) <= First(ops[i]) <= ops[i].banned;
    }
    NoneCurrent(s.history, ops[k].pruned - window);
    ClearedIsAllowed(s, window, ops[k]);
    hide AttemptIp;
  }

  lemma ClearedIsAllowed(s: IpState, window: int, op: Op)
    requires op.Attempt? && !Banned(s, op.checked) && Within(s.history, op.pruned - window) == 0
    ensures AttemptIp(s, window, op.checked, op.pruned, op.banned).1
  {
    hide Within;
  }

  /** The failures after the latest success. */
  function FailuresSince(ops: seq<Op>): seq<int> {
    if ops == [] then []
    else match ops[|ops| - 1]
      case Attempt(_, _, _) => FailuresSince(ops[..|ops| - 1])
      case Failure(at) => FailuresSince(ops[..|ops| - 1]) + [at]
      case Success(_) => []
  }

  lemma {:induction false} HistoryIs(window: int, ops: seq<Op>)
    ensures RunIp(window, ops).history == FailuresSince(ops)
  {
    hide AttemptIp;
    if ops != [] {
      HistoryIs(window, ops[..|ops| - 1]);
      if ops[|ops| - 1].Attempt? {
        AttemptsKeepHistory(RunIp(window, ops[..|ops| - 1]), window, ops[|ops| - 1]);
      }
    }
  }

  /** The attempt at position i imposed a ban that no success has lifted before k. */
  ghost predicate StandsAt(window: int, ops: seq<Op>, i: nat, tier: nat, k: nat) {
    i < k <= |ops| && BansAt(window, ops, i, tier) && forall j :: i < j < k ==> !ops[j].Success?
  }

  /** A ban in the state was imposed by some attempt, and no success came after it. */
  lemma {:induction false} BansWereImposed(window: int, ops: seq<Op>, k: nat) returns (i: nat)
    requires k <= |ops| && RunIp(window, ops[..k]).ban.Some?
    ensures
      var b := RunIp(window, ops[..k]).ban.value;
      StandsAt(window, ops, i, b.tier, k) && ops[i].banned == b.bannedAt
  {
    hide Within, TierFor;
    assert k > 0;
    var before := RunIp(window, ops[..k - 1]);
    assert ops[..k][..k - 1] == ops[..k - 1];
    assert RunIp(window, ops[..k]) == StepIp(before, window, ops[k - 1]);
    var tier := RunIp(window, ops[..k]).ban.value.tier;
    if BansAt(window, ops, k - 1, tier) {
      i := k - 1;
    } else {
      i := BansWereImposed(window, ops, k - 1);
    }
  }

  // ---------- refusals, in counts and seconds ----------

  /** The failures since the latest success that lie within the window of the attempt at position k. */
  function FailCount(window: int, ops: seq<Op>, k: nat): nat
    requires k < |ops| && ops[k].Attempt?
  {
    Within(FailuresSince(ops[..k]), ops[k].pruned - window)
  }

  /** 20 failures ban for a quarter of an hour, 40 for half an hour, 60 for an hour. */
  function BanSeconds(failures: nat): int { if failures >= 60 then 3600 else if failures >= 40 then 1800 else 900 }

  /** An earlier attempt, itself not in a ban, met 20 failures or more; its ban is not over, and no success came since. */
  ghost predicate InBan(window: int, ops: seq<Op>, k: nat)
    requires k < |ops| && ops[k].Attempt?
    decreases k
  {
    exists i: nat :: i < k && ops[i].Attempt? && !InBan(window, ops, i) && FailCount(window, ops, i) >= 20
      && (forall j :: i < j < k ==> !ops[j].Success?)
      && ops[k].checked < ops[i].banned + BanSeconds(FailCount(window, ops, i))
  }

  lemma BanLength(count: nat)
    ensures TierFor(count).Some? <==> count >= 20
    ensures count >= 20 ==> Duration(TierFor(count).value) == BanSeconds(count)
  {
  }

  lemma BanImposed(window: int, ops: seq<Op>, i: nat)
    requires i < |ops| && ops[i].Attempt?
    requires Banned(RunIp(window, ops[..i]), ops[i].checked) <==> InBan(window, ops, i)
    ensures
      var count := FailCount(window, ops, i);
      && (forall tier :: BansAt(window, ops, i, tier) ==> !InBan(window, ops, i) && count >= 20 && Duration(tier) == BanSeconds(count))
      && (!InBan(window, ops, i) && count >= 20 ==> BansAt(window, ops, i, TierFor(count).value))
  {
    HistoryIs(window, ops[..i]);
    BanLength(FailCount(window, ops, i));
    hide RunIp, Within, FailuresSince, InBan, Banned, TierFor, Duration;
  }

  /** The state holds a running ban exactly when an earlier attempt imposed one. */
  lemma {:induction false} BannedExactlyWhen(window: int, ops: seq<Op>, k: nat)
    requires Timed(ops) && k < |ops| && ops[k].Attempt?
    ensures Banned(RunIp(window, ops[..k]), ops[k].checked) <==> InBan(window, ops, k)
    decreases k
  {
    var s := RunIp(window, ops[..k]);
    hide RunIp, BansAt, FailCount, Duration, BanSeconds;
    if Banned(s, ops[k].checked) {
      var i := BansWereImposed(window, ops, k);
      BansAreAttempts(window, ops, i, s.ban.value.tier);
      BannedExactlyWhen(window, ops, i);
      BanImposed(window, ops, i);
    }
    if InBan(window, ops, k) {
      var i: nat :| i < k && ops[i].Attempt? && !InBan(window, ops, i) && FailCount(window, ops, i) >= 20
        && (forall j :: i < j < k ==> !ops[j].Success?)
        && ops[k].checked < ops[i].banned + BanSeconds(FailCount(window, ops, i));
      BannedExactlyWhen(window, ops, i);
      BanImposed(window, ops, i);
      BanStillHeld(window, ops, i, TierFor(FailCount(window, ops, i)).value, k);
    }
  }

  lemma BansAreAttempts(window: int, ops: seq<Op>, i: nat, tier: nat)
    requires BansAt(window, ops, i, tier)
    ensures i < |ops| && ops[i].Attempt?
  {
    hide RunIp, TierFor, Within;
  }

  lemma BanStillHeld(window: int, ops: seq<Op>, i: nat, tier: nat, k: nat)
    requires Timed(ops) && i < k < |ops| && ops[k].Attempt? && BansAt(window, ops, i, tier)
    requires (forall j :: i < j < k ==> !ops[j].Success?) && ops[k].checked < ops[i].banned + Duration(tier)
    ensures Banned(RunIp(window, ops[..k]), ops[k].checked)
  {
    BansAreAttempts(window, ops, i, tier);
    hide RunIp, BansAt, Duration;
    forall j | i < j < k ensures First(ops[j]) < ops[i].banned + Duration(tier) {
      assert First(ops[j]) <= Last(ops[j]) <= First(ops[k]);
    }
    BanStays(window, ops, i, tier, k);
  }

  /** Over every sequence of calls: an attempt is refused exactly when it falls into the ban of an earlier one, or
      meets 20 failures or more itself. */
  lemma RefusedExactlyWhen(window: int, ops: seq<Op>, k: nat)
    requires Timed(ops) && k < |ops| && ops[k].Attempt?
    ensures !AllowedAt(window, ops, k) <==> InBan(window, ops, k) || FailCount(window, ops, k) >= 20
  {
    BannedExactlyWhen(window, ops, k);
    HistoryIs(window, ops[..k]);
    BanLength(FailCount(window, ops, k));
    hide RunIp, Within, FailuresSince, InBan, Banned, TierFor;
  }
}
