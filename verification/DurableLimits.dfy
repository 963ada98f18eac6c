// internal/authz/limits.go:193-363 and the oauth_attempts rows of internal/store/authz.go: the
// credential-failure limiter. Every duration a spec names is a whole number of milliseconds, so the
// comparisons of the code between nanosecond readings and millisecond columns are exactly these.
module DurableLimits {
  import opened Numbers
  import opened Wrappers

  datatype Spec = Spec(kind: string, perSource: nat, global: nat, windowMs: int, baseMs: int, maxMs: int)

  const MINUTE := 60_000
  const ADMIN_SECRET := Spec("admin_secret", 5, 20, 15 * MINUTE, MINUTE, 24 * 60 * MINUTE)
  const REFRESH_TOKEN := Spec("refresh_token", 30, 0, 15 * MINUTE, MINUTE, 24 * 60 * MINUTE)
  const OAUTH_TOKEN := Spec("oauth_token", 30, 0, 15 * MINUTE, MINUTE, 24 * 60 * MINUTE)
  const ENROLLMENT := Spec("enrollment", 10, 0, 15 * MINUTE, MINUTE, 24 * 60 * MINUTE)
  const GLOBAL_SOURCE := "*global*"

  // One row; 0 stands for "no window yet" and "no cooldown".
  datatype Attempt = Attempt(windowStart: int, failures: int, steps: int, until: int)

  const NEVER_FAILED := Attempt(0, 0, 0, 0)

  function Pow2(n: nat): (p: int)
    ensures p >= 1
  {
    if n == 0 then 1 else 2 * Pow2(n - 1)
  }

  // BaseCooldown doubled once per step after the first, capped.
  function Cooldown(spec: Spec, steps: int): int {
    if spec.baseMs <= 0 then spec.maxMs
    else Min(spec.baseMs * Pow2(if steps < 1 then 0 else steps - 1), spec.maxMs)
  }

  // limits.go:348-363. The loop stops doubling at the cap, so it never holds twice the cap or more
  // and cannot overflow into a short cooldown.
  method CooldownFor(spec: Spec, requested: int) returns (d: int)
    ensures d == Cooldown(spec, requested)
  {
    var steps := if requested < 1 then 1 else requested;
    d := spec.baseMs;
    var i := 1;
    while i < steps
      invariant 1 <= i <= steps && Doubled(spec, i, d)
      invariant d == spec.baseMs || d < 2 * spec.maxMs
    {
      if d >= spec.maxMs { break; }
      DoubledOnce(spec, i, d);
      d := d * 2;
      i := i + 1;
    }
    CooldownReached(spec, i, steps, d);
    if d > spec.maxMs || d <= 0 { d := spec.maxMs; }
  }

  predicate Doubled(spec: Spec, i: nat, d: int)
    requires i >= 1
  {
    if spec.baseMs <= 0 then d <= 0 else d == spec.baseMs * Pow2(i - 1)
  }

  lemma DoubledOnce(spec: Spec, i: nat, d: int)
    requires i >= 1 && Doubled(spec, i, d)
    ensures Doubled(spec, i + 1, d * 2)
  {
    assert Pow2(i) == 2 * Pow2(i - 1);
    assert spec.baseMs * (2 * Pow2(i - 1)) == spec.baseMs * Pow2(i - 1) * 2;
  }

  lemma CooldownReached(spec: Spec, i: nat, steps: nat, d: int)
    requires 1 <= i <= steps && Doubled(spec, i, d) && (i == steps || d >= spec.maxMs)
    ensures Cooldown(spec, steps) == if d > spec.maxMs || d <= 0 then spec.maxMs else d
  {
    if spec.baseMs > 0 {
      DoublingGrows(spec.baseMs, i - 1, steps - 1);
      DoublingGrows(spec.baseMs, 0, i - 1);
    }
  }

  lemma {:induction false} DoublingGrows(base: int, i: nat, j: nat)
    requires base > 0 && i <= j
    ensures base * Pow2(i) <= base * Pow2(j)
  {
    if i < j {
      DoublingGrows(base, i, j - 1);
      assert base * Pow2(j) == 2 * (base * Pow2(j - 1));
    }
  }

  predicate CoolingDown(a: Attempt, now: int) { a.until != 0 && now < a.until }

  // limits.go:325-343
  function Advance(spec: Spec, limit: nat, a: Attempt, now: int): Attempt {
    var row := if a.windowStart == 0 || now - a.windowStart >= spec.windowMs
                  then Attempt(now, 0, if CoolingDown(a, now) then a.steps else 0, a.until) else a;
    var counted := row.(failures := row.failures + 1);
    if limit > 0 && counted.failures >= limit
    then counted.(steps := counted.steps + 1, until := now + Cooldown(spec, counted.steps + 1))
    else counted
  }

  class Limiter {
    // oauth_attempts, keyed by (kind, source).
    var rows: map<(string, string), Attempt>

    constructor ()
      ensures rows == map[]
    {
      rows := map[];
    }

    function Row(kind: string, source: string): Attempt
      reads this
    {
      if (kind, source) in rows then rows[(kind, source)] else NEVER_FAILED
    }

    function Keys(spec: Spec, source: string): seq<string> {
      if spec.global > 0 then [source, GLOBAL_SOURCE] else [source]
    }

    // Refused exactly while the source, or everyone together, is cooling down.
    method Check(spec: Spec, source: string, now: int) returns (wait: Option<int>)
      ensures wait.Some? <==> exists k :: k in Keys(spec, source) && CoolingDown(Row(spec.kind, k), now)
      ensures wait.Some? ==> wait.value > 0
      ensures wait.Some? ==> exists k :: k in Keys(spec, source) && Row(spec.kind, k).until == now + wait.value
    {
      var keys := [source];
      if spec.global > 0 { keys := keys + [GLOBAL_SOURCE]; }
      assert keys == Keys(spec, source);
      for i := 0 to |keys|
        invariant forall j :: 0 <= j < i ==> !CoolingDown(Row(spec.kind, keys[j]), now)
      {
        if (spec.kind, keys[i]) !in rows || rows[(spec.kind, keys[i])].until == 0 { continue; }
        var until := rows[(spec.kind, keys[i])].until;
        if now < until {
          assert keys[i] in Keys(spec, source) && CoolingDown(Row(spec.kind, keys[i]), now);
          return Some(until - now);
        }
      }
      return None;
    }

    // Counts one failure against the source and, where there is one, the global budget.
    method RecordFailure(spec: Spec, source: string, now: int) returns (out: Attempt)
      modifies this
      ensures out == Advance(spec, spec.perSource, old(Row(spec.kind, source)), now)
      ensures source != GLOBAL_SOURCE ==> Row(spec.kind, source) == out
      ensures var shared := if source == GLOBAL_SOURCE then out else old(Row(spec.kind, GLOBAL_SOURCE));
        Row(spec.kind, GLOBAL_SOURCE) == if spec.global > 0 then Advance(spec, spec.global, shared, now) else shared
      ensures forall kind, other :: kind != spec.kind || (other != source && other != GLOBAL_SOURCE) ==>
                Row(kind, other) == old(Row(kind, other))
    {
      out := Advance(spec, spec.perSource, Row(spec.kind, source), now);
      rows := rows[(spec.kind, source) := out];
      if spec.global > 0 {
        rows := rows[(spec.kind, GLOBAL_SOURCE) := Advance(spec, spec.global, Row(spec.kind, GLOBAL_SOURCE), now)];
      }
    }
  }

  // ----- runs of one row -----

  function After(spec: Spec, limit: nat, a: Attempt, ts: seq<int>): Attempt
    decreases ts
  {
    if ts == [] then a else After(spec, limit, Advance(spec, limit, a, ts[0]), ts[1..])
  }

  predicate Sensible(spec: Spec) { 0 < spec.baseMs && 0 < spec.windowMs <= spec.maxMs }

  // A cooldown still running at `t` was set no later than t, for no longer than its step allows.
  predicate Anchored(spec: Spec, a: Attempt, t: int) {
    && a.steps >= 0 && a.failures >= 0
    && (a.until <= t || (a.steps >= 1 && a.until <= t + Cooldown(spec, a.steps)))
  }

  lemma AdvanceAnchored(spec: Spec, limit: nat, a: Attempt, t: int, now: int)
    requires Sensible(spec) && 0 <= t <= now && Anchored(spec, a, t)
    ensures Anchored(spec, Advance(spec, limit, a, now), now)
    ensures Advance(spec, limit, a, now).until >= a.until
  {
    DoublingGrows(spec.baseMs, if a.steps < 1 then 0 else a.steps - 1, a.steps);
  }

  // The cooldown never moves back, whatever windows open while it runs.
  lemma {:induction false} CooldownNeverMovesBack(spec: Spec, limit: nat, a: Attempt, t: int, ts: seq<int>)
    requires Sensible(spec) && 0 <= t && Anchored(spec, a, t) && Ordered([t] + ts)
    ensures After(spec, limit, a, ts).until >= a.until
    ensures Anchored(spec, After(spec, limit, a, ts), ([t] + ts)[|ts|])
    decreases ts
  {
    if ts != [] {
      assert ([t] + ts)[0] == t && ([t] + ts)[1] == ts[0];
      AdvanceAnchored(spec, limit, a, t, ts[0]);
      assert [ts[0]] + ts[1..] == ([t] + ts)[1..];
      CooldownNeverMovesBack(spec, limit, Advance(spec, limit, a, ts[0]), ts[0], ts[1..]);
    }
  }

  lemma CooldownIsMonotone(spec: Spec, limit: nat, ts: seq<int>, i: nat, j: nat)
    requires Sensible(spec) && Ordered(ts) && (ts != [] ==> 0 <= ts[0]) && i <= j <= |ts|
    ensures After(spec, limit, NEVER_FAILED, ts[..i]).until <= After(spec, limit, NEVER_FAILED, ts[..j]).until
  {
    var early, late := ts[..i], ts[..j][i..];
    var t := if i == 0 then 0 else ts[i - 1];
    AfterSplit(spec, limit, NEVER_FAILED, ts[..j], i);
    assert ts[..j][..i] == early;
    OrderedParts(ts, i);
    OrderedParts(ts, j);
    OrderedParts(ts[..j], i);
    OrderedAfter(0, early);
    CooldownNeverMovesBack(spec, limit, NEVER_FAILED, 0, early);
    assert ([0] + early)[|early|] == t;
    assert late != [] ==> late[0] == ts[i];
    OrderedAfter(t, late);
    CooldownNeverMovesBack(spec, limit, After(spec, limit, NEVER_FAILED, early), t, late);
  }

  lemma {:induction false} AfterSplit(spec: Spec, limit: nat, a: Attempt, ts: seq<int>, i: nat)
    requires i <= |ts|
    ensures After(spec, limit, a, ts) == After(spec, limit, After(spec, limit, a, ts[..i]), ts[i..])
    decreases ts
  {
    if i == 0 {
      assert ts[0..] == ts;
    } else {
      AfterSplit(spec, limit, Advance(spec, limit, a, ts[0]), ts[1..], i - 1);
      assert ts[1..][..i - 1] == ts[..i][1..] && ts[1..][i - 1..] == ts[i..];
    }
  }

  // ----- how many failures one window can hold -----

  // Every failure was recorded at an instant at which Check passed.
  ghost predicate Gated(spec: Spec, limit: nat, a: Attempt, ts: seq<int>)
    decreases ts
  {
    ts == [] || (!CoolingDown(a, ts[0]) && Gated(spec, limit, Advance(spec, limit, a, ts[0]), ts[1..]))
  }

  // k cooldowns, back to back, outlast a window.
  predicate Outlasts(spec: Spec, k: nat) { spec.baseMs * (Pow2(k) - 1) >= spec.windowMs }

  predicate LeastOutlasting(spec: Spec, k: nat) {
    k > 0 && Outlasts(spec, k) && !Outlasts(spec, k - 1)
  }

  lemma FourSteps()
    ensures forall spec :: spec in {ADMIN_SECRET, REFRESH_TOKEN, OAUTH_TOKEN, ENROLLMENT} ==>
      Sensible(spec) && LeastOutlasting(spec, 4)
  {
    assert Pow2(1) == 2 && Pow2(2) == 4 && Pow2(3) == 8 && Pow2(4) == 16;
  }

  // What a row can look like while every failure is gated.
  ghost predicate InWindow(spec: Spec, limit: nat, k: nat, a: Attempt, now: int) {
    && 0 <= a.steps <= k && 0 < a.windowStart <= now && 0 < a.failures <= limit + k - 1
    && (a.steps == 0 ==> a.failures < limit)
    && (a.steps > 0 ==> a.failures == limit - 1 + a.steps)
    && (a.steps > 0 ==> a.until >= a.windowStart + Min(spec.baseMs * (Pow2(a.steps) - 1), spec.windowMs))
  }

  lemma StepFits(spec: Spec, k: nat, j: nat)
    requires Sensible(spec) && Outlasts(spec, k) && spec.baseMs * (Pow2(j) - 1) < spec.windowMs
    ensures j < k
  {
    if k <= j { DoublingGrows(spec.baseMs, k, j); }
  }

  // One more step of the escalation inside a window: it starts before the window is over, and ends
  // no earlier than one more cooldown later, or than the window does.
  lemma Escalation(spec: Spec, k: nat, start: int, j: nat, until: int, now: int)
    requires Sensible(spec) && Outlasts(spec, k) && 0 < j
    requires until >= start + Min(spec.baseMs * (Pow2(j) - 1), spec.windowMs)
    requires until <= now < start + spec.windowMs
    ensures j < k
    ensures now + Cooldown(spec, j + 1) >= start + Min(spec.baseMs * (Pow2(j + 1) - 1), spec.windowMs)
  {
    var reached, next := spec.baseMs * (Pow2(j) - 1), spec.baseMs * Pow2(j);
    Product(spec.baseMs, Pow2(j) - 1);
    EscalationLine(start, reached, next, spec.windowMs, spec.maxMs, until, now);
    StepFits(spec, k, j);
    OneMoreStep(spec.baseMs, Pow2(j));
    NextCooldown(spec, j);
    assert Pow2(j + 1) == 2 * Pow2(j);
  }

  lemma EscalationLine(start: int, reached: int, next: int, window: int, max: int, until: int, now: int)
    requires until >= start + Min(reached, window) && until <= now < start + window && window <= max && 0 <= reached
    ensures reached < window && now + Min(next, max) >= start + Min(reached + next, window)
  {}

  lemma Product(a: nat, b: nat)
    ensures a * b >= 0
  {}

  lemma OneMoreStep(base: int, p: int)
    ensures base * (2 * p - 1) == base * (p - 1) + base * p
  {
    assert 2 * p - 1 == (p - 1) + p;
  }

  lemma NextCooldown(spec: Spec, j: nat)
    requires spec.baseMs > 0
    ensures Cooldown(spec, j + 1) == Min(spec.baseMs * Pow2(j), spec.maxMs)
  {}

  lemma FirstStep(spec: Spec)
    requires Sensible(spec)
    ensures Cooldown(spec, 1) >= Min(spec.baseMs * (Pow2(1) - 1), spec.windowMs)
  {
    assert Pow2(0) == 1 && Pow2(1) == 2;
  }

  lemma GatedAdvance(spec: Spec, limit: nat, k: nat, a: Attempt, now: int)
    requires Sensible(spec) && limit > 0 && k > 0 && Outlasts(spec, k) && now > 0
    requires a == NEVER_FAILED || InWindow(spec, limit, k, a, now)
    requires !CoolingDown(a, now)
    ensures InWindow(spec, limit, k, Advance(spec, limit, a, now), now)
  {
    if a.windowStart != 0 && now - a.windowStart < spec.windowMs && a.steps > 0 {
      Product(spec.baseMs, Pow2(a.steps) - 1);
      assert a.until > 0;
      Escalation(spec, k, a.windowStart, a.steps, a.until, now);
    } else {
      FirstStep(spec);
    }
  }

  // However long the run, no window holds more than limit + k - 1 failures and no escalation goes
  // past k steps, where k cooldowns outlast a window.
  lemma {:induction false} WindowHoldsFew(spec: Spec, limit: nat, k: nat, a: Attempt, ts: seq<int>, now: int)
    requires Sensible(spec) && limit > 0 && k > 0 && Outlasts(spec, k)
    requires Ordered(ts) && (ts != [] ==> 0 < now <= ts[0])
    requires a == NEVER_FAILED || InWindow(spec, limit, k, a, now)
    requires Gated(spec, limit, a, ts)
    ensures ts == [] || InWindow(spec, limit, k, After(spec, limit, a, ts), ts[|ts| - 1])
    decreases ts
  {
    if ts != [] {
      GatedAdvance(spec, limit, k, a, ts[0]);
      WindowHoldsFew(spec, limit, k, Advance(spec, limit, a, ts[0]), ts[1..], ts[0]);
      if |ts| == 1 { assert ts[1..] == []; }
    }
  }

  lemma FailuresPerWindow(spec: Spec, limit: nat, k: nat, ts: seq<int>)
    requires Sensible(spec) && limit > 0 && k > 0 && Outlasts(spec, k)
    requires Ordered(ts) && (ts != [] ==> 0 < ts[0]) && Gated(spec, limit, NEVER_FAILED, ts)
    ensures var a := After(spec, limit, NEVER_FAILED, ts);
      a.failures <= limit + k - 1 && 0 <= a.steps <= k
  {
    if ts != [] { WindowHoldsFew(spec, limit, k, NEVER_FAILED, ts, ts[0]); }
  }

  lemma OneMore(spec: Spec, limit: nat, a: Attempt, t: int, rest: seq<int>)
    requires !CoolingDown(a, t) && Gated(spec, limit, Advance(spec, limit, a, t), rest)
    ensures Gated(spec, limit, a, [t] + rest)
    ensures After(spec, limit, a, [t] + rest) == After(spec, limit, Advance(spec, limit, a, t), rest)
  {
    assert ([t] + rest)[1..] == rest;
  }

  // The bound is reached: eight admin-secret failures in one fifteen-minute window, the last four
  // each at the end of the cooldown before.
  lemma EightIsReached()
    ensures var ts := [1, 1, 1, 1, 1, 1 + MINUTE, 1 + 3 * MINUTE, 1 + 7 * MINUTE];
      && Gated(ADMIN_SECRET, 5, NEVER_FAILED, ts)
      && After(ADMIN_SECRET, 5, NEVER_FAILED, ts) == Attempt(1, 8, 4, 1 + 15 * MINUTE)
  {
    assert Pow2(0) == 1 && Pow2(1) == 2 && Pow2(2) == 4 && Pow2(3) == 8;
    var s := ADMIN_SECRET;
    var t6, t7, t8 := 1 + MINUTE, 1 + 3 * MINUTE, 1 + 7 * MINUTE;
    OneMore(s, 5, Attempt(1, 7, 3, t8), t8, []);
    OneMore(s, 5, Attempt(1, 6, 2, t7), t7, [t8]);
    OneMore(s, 5, Attempt(1, 5, 1, t6), t6, [t7] + [t8]);
    OneMore(s, 5, Attempt(1, 4, 0, 0), 1, [t6, t7, t8]);
    OneMore(s, 5, Attempt(1, 3, 0, 0), 1, [1, t6, t7, t8]);
    OneMore(s, 5, Attempt(1, 2, 0, 0), 1, [1, 1, t6, t7, t8]);
    OneMore(s, 5, Attempt(1, 1, 0, 0), 1, [1, 1, 1, t6, t7, t8]);
    OneMore(s, 5, NEVER_FAILED, 1, [1, 1, 1, 1, t6, t7, t8]);
  }

  // A call checks the row at one moment and records its failure at a later one; `passed` counts the
  // calls between the two.
  datatype Desk = Desk(row: Attempt, passed: nat)

  datatype Call = CheckNow(now: int) | FailNow(now: int) | SucceedNow(now: int)

  function Serve(spec: Spec, limit: nat, d: Desk, call: Call): Desk {
    match call
    case CheckNow(now) => if CoolingDown(d.row, now) then d else d.(passed := d.passed + 1)
    case FailNow(now) =>
      if d.passed == 0 then d else Desk(Advance(spec, limit, d.row, now), d.passed - 1)
    case SucceedNow(now) => if d.passed == 0 then d else d.(passed := d.passed - 1)
  }

  // A call passes its check unless the row is cooling down, and ends once, with a failure that counts or
  // without one.
  lemma CallsEndOnce(spec: Spec, limit: nat, d: Desk, now: int)
    ensures Serve(spec, limit, d, CheckNow(now)).row == Serve(spec, limit, d, SucceedNow(now)).row == d.row
    ensures Serve(spec, limit, d, CheckNow(now)).passed
         == d.passed + (if d.row.until != 0 && now < d.row.until then 0 else 1)
    ensures d.passed > 0 ==> Serve(spec, limit, d, SucceedNow(now)).passed == d.passed - 1
    ensures d.passed > 0 ==>
      Serve(spec, limit, d, FailNow(now)) == Desk(Advance(spec, limit, d.row, now), d.passed - 1)
    ensures d.passed == 0 ==> Serve(spec, limit, d, SucceedNow(now)) == Serve(spec, limit, d, FailNow(now)) == d
  {}

  function ServeAll(spec: Spec, limit: nat, d: Desk, calls: seq<Call>): Desk
    decreases calls
  {
    if calls == [] then d else ServeAll(spec, limit, Serve(spec, limit, d, calls[0]), calls[1..])
  }

  lemma {:induction false} AllPass(spec: Spec, limit: nat, d: Desk, now: int, n: nat, rest: seq<Call>)
    requires !CoolingDown(d.row, now)
    ensures ServeAll(spec, limit, d, seq(n, _ => CheckNow(now)) + rest)
         == ServeAll(spec, limit, d.(passed := d.passed + n), rest)
    decreases n
  {
    var calls := seq(n, _ => CheckNow(now)) + rest;
    if n == 0 {
      assert calls == rest;
    } else {
      assert calls[1..] == seq(n - 1, _ => CheckNow(now)) + rest;
      AllPass(spec, limit, d.(passed := d.passed + 1), now, n - 1, rest);
    }
  }

  lemma {:induction false} AllCount(spec: Spec, limit: nat, d: Desk, now: int, n: nat)
    requires 0 < spec.windowMs && now > 0 && d.passed == n && (d.row == NEVER_FAILED || d.row.windowStart == now)
    ensures ServeAll(spec, limit, d, seq(n, _ => FailNow(now))).row.failures == d.row.failures + n
    decreases n
  {
    var calls := seq(n, _ => FailNow(now));
    if n > 0 {
      assert calls[1..] == seq(n - 1, _ => FailNow(now));
      AllCount(spec, limit, Serve(spec, limit, d, calls[0]), now, n - 1);
    }
  }

  // Nothing bounds a window when checks and failures overlap: n calls whose checks all pass, on a row
  // that has seen no failure, before any of them records one, are all counted in one window.
  lemma UngatedIsUnbounded(spec: Spec, limit: nat, now: int, n: nat)
    requires 0 < spec.windowMs && now > 0
    ensures !CoolingDown(NEVER_FAILED, now)
    ensures var d := ServeAll(spec, limit, Desk(NEVER_FAILED, 0), seq(n, _ => CheckNow(now)));
      d == Desk(NEVER_FAILED, n) && ServeAll(spec, limit, d, seq(n, _ => FailNow(now))).row.failures == n
  {
    AllPass(spec, limit, Desk(NEVER_FAILED, 0), now, n, []);
    assert seq(n, _ => CheckNow(now)) + [] == seq(n, _ => CheckNow(now));
    AllCount(spec, limit, Desk(NEVER_FAILED, n), now, n);
  }

  // ----- when at most m calls are between their check and their failure -----

  ghost predicate AtMost(spec: Spec, limit: nat, d: Desk, calls: seq<Call>, m: nat)
    decreases calls
  {
    d.passed <= m && (calls == [] || AtMost(spec, limit, Serve(spec, limit, d, calls[0]), calls[1..], m))
  }

  ghost predicate InOrder(now: int, calls: seq<Call>)
    decreases calls
  {
    calls == [] || (now <= calls[0].now && InOrder(calls[0].now, calls[1..]))
  }

  // From its s-th step on, one cooldown outlasts a window.
  predicate Covers(spec: Spec, s: nat) { s > 0 && spec.baseMs * Pow2(s - 1) >= spec.windowMs }

  lemma FiveSteps()
    ensures forall spec :: spec in {ADMIN_SECRET, REFRESH_TOKEN, OAUTH_TOKEN, ENROLLMENT} ==>
      Sensible(spec) && Covers(spec, 5) && !Covers(spec, 4)
  {
    assert Pow2(1) == 2 && Pow2(2) == 4 && Pow2(3) == 8 && Pow2(4) == 16;
  }

  lemma CoveringCooldown(spec: Spec, s: nat, steps: nat)
    requires Sensible(spec) && Covers(spec, s) && s <= steps
    ensures Cooldown(spec, steps) >= spec.windowMs
  {
    DoublingGrows(spec.baseMs, s - 1, steps - 1);
  }

  // A window with limit + s - 1 failures is closed to checks until it ends; only the calls that had
  // passed before can still fail in it.
  ghost predicate Shared(spec: Spec, limit: nat, s: nat, m: nat, d: Desk, now: int) {
    var a := d.row;
    && a.windowStart >= 0 && a.steps >= 0 && 0 <= a.failures <= limit + s + m - 2
    && (a.failures >= limit ==> a.steps >= a.failures - limit + 1)
    && (a.failures >= limit + s - 1 ==>
          && a.windowStart > 0 && a.until >= a.windowStart + spec.windowMs
          && (a.failures + d.passed <= limit + s + m - 2 || now >= a.windowStart + spec.windowMs))
  }

  lemma SharedFailure(spec: Spec, limit: nat, s: nat, m: nat, d: Desk, now: int)
    requires Sensible(spec) && Covers(spec, s) && limit > 0 && now > 0
    requires Shared(spec, limit, s, m, d, now) && 0 < d.passed <= m
    requires d.row.windowStart <= now
    ensures Shared(spec, limit, s, m, Serve(spec, limit, d, FailNow(now)), now)
    ensures Serve(spec, limit, d, FailNow(now)).row.windowStart <= now
  {
    var a := Advance(spec, limit, d.row, now);
    if a.steps >= s { CoveringCooldown(spec, s, a.steps); }
  }

  lemma SharedServe(spec: Spec, limit: nat, s: nat, m: nat, d: Desk, now: int, call: Call)
    requires Sensible(spec) && Covers(spec, s) && limit > 0 && 0 < now <= call.now
    requires Shared(spec, limit, s, m, d, now) && d.passed <= m && d.row.windowStart <= now
    ensures var t := Serve(spec, limit, d, call);
      Shared(spec, limit, s, m, t, call.now) && t.row.windowStart <= call.now
  {
    assert Shared(spec, limit, s, m, d, call.now);
    if call.FailNow? && d.passed > 0 { SharedFailure(spec, limit, s, m, d, call.now); }
  }

  lemma {:induction false} SharedServeAll(spec: Spec, limit: nat, s: nat, m: nat, d: Desk, now: int, calls: seq<Call>)
    requires Sensible(spec) && Covers(spec, s) && limit > 0 && now > 0 && InOrder(now, calls)
    requires Shared(spec, limit, s, m, d, now) && d.row.windowStart <= now && AtMost(spec, limit, d, calls, m)
    ensures ServeAll(spec, limit, d, calls).row.failures <= limit + s + m - 2
    decreases calls
  {
    if calls != [] {
      SharedServe(spec, limit, s, m, d, now, calls[0]);
      SharedServeAll(spec, limit, s, m, Serve(spec, limit, d, calls[0]), calls[0].now, calls[1..]);
    }
  }

  // However checks and failures overlap: with never more than m calls between the two, no window holds
  // more than limit + s + m - 2 failures, where the s-th cooldown outlasts a window.
  lemma FailuresPerSharedWindow(spec: Spec, limit: nat, s: nat, m: nat, calls: seq<Call>)
    requires Sensible(spec) && Covers(spec, s) && limit > 0 && m > 0
    requires InOrder(1, calls) && AtMost(spec, limit, Desk(NEVER_FAILED, 0), calls, m)
    ensures ServeAll(spec, limit, Desk(NEVER_FAILED, 0), calls).row.failures <= limit + s + m - 2
  {
    SharedServeAll(spec, limit, s, m, Desk(NEVER_FAILED, 0), 1, calls);
  }

  // n readings of a clock that stands still.
  function Repeated(now: int, n: nat): seq<int> { seq(n, _ => now) }

  // n calls at one instant, all checked before the first of them fails.
  function Together(now: int, n: nat): seq<Call> { seq(n, _ => CheckNow(now)) + seq(n, _ => FailNow(now)) }

  lemma {:induction false} ChecksGo(spec: Spec, limit: nat, d: Desk, t: int, now: int, n: nat, rest: seq<Call>, m: nat)
    requires t <= now && !CoolingDown(d.row, now) && d.passed + n <= m
    requires InOrder(now, rest) && AtMost(spec, limit, d.(passed := d.passed + n), rest, m)
    ensures var calls := seq(n, _ => CheckNow(now)) + rest;
      InOrder(t, calls) && AtMost(spec, limit, d, calls, m)
    decreases n
  {
    var calls := seq(n, _ => CheckNow(now)) + rest;
    if n == 0 {
      assert calls == rest;
    } else {
      assert calls[1..] == seq(n - 1, _ => CheckNow(now)) + rest;
      ChecksGo(spec, limit, d.(passed := d.passed + 1), now, now, n - 1, rest, m);
    }
  }

  lemma {:induction false} FailsGo(spec: Spec, limit: nat, d: Desk, now: int, n: nat, rest: seq<Call>, m: nat)
    requires n <= d.passed <= m && InOrder(now, rest)
    requires AtMost(spec, limit, Desk(After(spec, limit, d.row, Repeated(now, n)), d.passed - n), rest, m)
    ensures var calls := seq(n, _ => FailNow(now)) + rest;
      && InOrder(now, calls) && AtMost(spec, limit, d, calls, m)
      && ServeAll(spec, limit, d, calls)
         == ServeAll(spec, limit, Desk(After(spec, limit, d.row, Repeated(now, n)), d.passed - n), rest)
    decreases n
  {
    var calls := seq(n, _ => FailNow(now)) + rest;
    if n == 0 {
      assert calls == rest;
    } else {
      var more, next := seq(n - 1, _ => FailNow(now)) + rest, Serve(spec, limit, d, FailNow(now));
      assert calls == [FailNow(now)] + more;
      FirstAgain(spec, limit, d.row, now, n);
      FailsGo(spec, limit, next, now, n - 1, rest, m);
      FirstCall(spec, limit, d, FailNow(now), more, m);
    }
  }

  lemma FirstAgain(spec: Spec, limit: nat, a: Attempt, now: int, n: nat)
    requires n > 0
    ensures After(spec, limit, a, Repeated(now, n))
         == After(spec, limit, Advance(spec, limit, a, now), Repeated(now, n - 1))
  {
    assert Repeated(now, n)[1..] == Repeated(now, n - 1);
  }

  lemma FirstCall(spec: Spec, limit: nat, d: Desk, call: Call, rest: seq<Call>, m: nat)
    requires d.passed <= m && AtMost(spec, limit, Serve(spec, limit, d, call), rest, m) && InOrder(call.now, rest)
    ensures AtMost(spec, limit, d, [call] + rest, m) && InOrder(call.now, [call] + rest)
    ensures ServeAll(spec, limit, d, [call] + rest) == ServeAll(spec, limit, Serve(spec, limit, d, call), rest)
  {
    assert ([call] + rest)[1..] == rest;
  }

  lemma TogetherGo(spec: Spec, limit: nat, a: Attempt, t: int, now: int, n: nat, rest: seq<Call>, m: nat)
    requires t <= now && !CoolingDown(a, now) && n <= m && InOrder(now, rest)
    requires AtMost(spec, limit, Desk(After(spec, limit, a, Repeated(now, n)), 0), rest, m)
    ensures var calls := Together(now, n) + rest;
      && InOrder(t, calls) && AtMost(spec, limit, Desk(a, 0), calls, m)
      && ServeAll(spec, limit, Desk(a, 0), calls)
         == ServeAll(spec, limit, Desk(After(spec, limit, a, Repeated(now, n)), 0), rest)
  {
    var fails := seq(n, _ => FailNow(now)) + rest;
    assert Together(now, n) + rest == seq(n, _ => CheckNow(now)) + fails;
    FailsGo(spec, limit, Desk(a, n), now, n, rest, m);
    ChecksGo(spec, limit, Desk(a, 0), t, now, n, fails, m);
    AllPass(spec, limit, Desk(a, 0), now, n, fails);
  }

  lemma {:induction false} AllInTheWindow(spec: Spec, limit: nat, a: Attempt, now: int, n: nat)
    requires a.windowStart != 0 && now - a.windowStart < spec.windowMs
    ensures After(spec, limit, a, Repeated(now, n)).failures == a.failures + n
    decreases n
  {
    if n > 0 {
      FirstAgain(spec, limit, a, now, n);
      AllInTheWindow(spec, limit, Advance(spec, limit, a, now), now, n - 1);
    }
  }

  lemma TwoAtOnce(spec: Spec, limit: nat, a: Attempt, now: int)
    ensures After(spec, limit, a, Repeated(now, 2)) == Advance(spec, limit, Advance(spec, limit, a, now), now)
  {
    var once := Advance(spec, limit, a, now);
    assert Repeated(now, 2)[1..] == [now] && [now][1..] == [];
    assert After(spec, limit, once, [now]) == After(spec, limit, Advance(spec, limit, once, now), []);
  }

  // The bound is reached whenever two or more can overlap: three pairs of admin-secret failures, one
  // pair more as the cooldown of two steps ends, and m as the one of four does.
  lemma SharedBoundIsReached(m: nat)
    requires m >= 2
    ensures var early := Together(1, 2) + (Together(1, 2) + (Together(1, 2) + Together(1 + 2 * MINUTE, 2)));
      var calls := early + Together(1 + 10 * MINUTE, m);
      && InOrder(1, calls) && AtMost(ADMIN_SECRET, 5, Desk(NEVER_FAILED, 0), calls, m)
      && ServeAll(ADMIN_SECRET, 5, Desk(NEVER_FAILED, 0), calls).row.failures == 5 + 5 + m - 2
  {
    assert Pow2(0) == 1 && Pow2(1) == 2 && Pow2(2) == 4 && Pow2(3) == 8;
    var s, t, u, pair := ADMIN_SECRET, 1 + 2 * MINUTE, 1 + 10 * MINUTE, Together(1, 2);
    TwoAtOnce(s, 5, NEVER_FAILED, 1);
    TwoAtOnce(s, 5, Attempt(1, 2, 0, 0), 1);
    TwoAtOnce(s, 5, Attempt(1, 4, 0, 0), 1);
    TwoAtOnce(s, 5, Attempt(1, 6, 2, t), t);
    AllInTheWindow(s, 5, Attempt(1, 8, 4, u), u, m);
    assert Together(u, m) + [] == Together(u, m);
    TogetherGo(s, 5, Attempt(1, 8, 4, u), t, u, m, [], m);
    TogetherGo(s, 5, Attempt(1, 6, 2, t), 1, t, 2, Together(u, m), m);
    TogetherGo(s, 5, Attempt(1, 4, 0, 0), 1, 1, 2, Together(t, 2) + Together(u, m), m);
    TogetherGo(s, 5, Attempt(1, 2, 0, 0), 1, 1, 2, pair + (Together(t, 2) + Together(u, m)), m);
    TogetherGo(s, 5, NEVER_FAILED, 1, 1, 2, pair + (pair + (Together(t, 2) + Together(u, m))), m);
    assert pair + (pair + (pair + Together(t, 2))) + Together(u, m)
        == pair + (pair + (pair + (Together(t, 2) + Together(u, m))));
  }

  // ----- how many failures any interval can hold -----

  // From the start of a window, n windows of time hold at most n windows of failures.
  lemma {:induction false} SpreadFrom(spec: Spec, limit: nat, k: nat, a: Attempt, ts: seq<int>, now: int, n: nat)
    requires Sensible(spec) && limit > 0 && k > 0 && Outlasts(spec, k)
    requires Ordered(ts) && InWindow(spec, limit, k, a, now) && (ts != [] ==> now <= ts[0])
    requires Gated(spec, limit, a, ts)
    requires (if ts == [] then now else ts[|ts| - 1]) - a.windowStart < n * spec.windowMs
    ensures |ts| + a.failures <= (limit + k - 1) * n
    decreases ts
  {
    var most := limit + k - 1;
    assert n > 0;
    Split(most, n);
    if ts == [] {
    } else {
      GatedAdvance(spec, limit, k, a, ts[0]);
      var a' := Advance(spec, limit, a, ts[0]);
      assert ts[1..] != [] ==> ts[1..][|ts[1..]| - 1] == ts[|ts| - 1];
      if a'.windowStart == a.windowStart {
        SpreadFrom(spec, limit, k, a', ts[1..], ts[0], n);
      } else {
        Split(spec.windowMs, n);
        assert ts[|ts| - 1] >= ts[0];
        SpreadFrom(spec, limit, k, a', ts[1..], ts[0], n - 1);
      }
    }
  }

  lemma Split(unit: int, n: nat)
    requires unit > 0 && n > 0
    ensures unit * n == n * unit == unit + unit * (n - 1) == unit + (n - 1) * unit
    ensures unit * n >= unit
  {
    assert unit * (n - 1) >= 0;
  }

  lemma SpreadFromAnywhere(spec: Spec, limit: nat, k: nat, a: Attempt, ts: seq<int>, n: nat)
    requires Sensible(spec) && limit > 0 && k > 0 && Outlasts(spec, k)
    requires ts != [] && Ordered(ts) && 0 < ts[0] && ts[|ts| - 1] - ts[0] < n * spec.windowMs
    requires a == NEVER_FAILED || InWindow(spec, limit, k, a, ts[0])
    requires Gated(spec, limit, a, ts)
    ensures |ts| <= (limit + k - 1) * (n + 1)
  {
    GatedAdvance(spec, limit, k, a, ts[0]);
    assert |ts| > 1 ==> ts[1..][|ts[1..]| - 1] == ts[|ts| - 1];
    Split(spec.windowMs, n + 1);
    SpreadFrom(spec, limit, k, Advance(spec, limit, a, ts[0]), ts[1..], ts[0], n + 1);
  }

  // Any stretch of failures spanning less than n windows of time holds at most (limit + k - 1)
  // failures for each of the n + 1 windows it can touch.
  lemma FailuresPerInterval(spec: Spec, limit: nat, k: nat, ts: seq<int>, i: nat, j: nat, n: nat)
    requires Sensible(spec) && limit > 0 && k > 0 && Outlasts(spec, k)
    requires Ordered(ts) && (ts != [] ==> 0 < ts[0]) && Gated(spec, limit, NEVER_FAILED, ts)
    requires i < j <= |ts| && ts[j - 1] - ts[i] < n * spec.windowMs
    ensures j - i <= (limit + k - 1) * (n + 1)
  {
    var early, stretch := ts[..i], ts[i..j];
    GatedSplit(spec, limit, NEVER_FAILED, ts, j);
    GatedSplit(spec, limit, NEVER_FAILED, ts[..j], i);
    assert ts[..j][..i] == early && ts[..j][i..] == stretch;
    OrderedParts(ts, j);
    OrderedParts(ts[..j], i);
    var a := After(spec, limit, NEVER_FAILED, early);
    if i > 0 {
      assert early[0] == ts[0] && early[i - 1] == ts[i - 1] <= stretch[0];
      WindowHoldsFew(spec, limit, k, NEVER_FAILED, early, ts[0]);
      InWindowLater(spec, limit, k, a, ts[i - 1], stretch[0]);
    }
    assert stretch[0] == ts[i] && stretch[j - i - 1] == ts[j - 1];
    SpreadFromAnywhere(spec, limit, k, a, stretch, n);
  }

  lemma InWindowLater(spec: Spec, limit: nat, k: nat, a: Attempt, now: int, later: int)
    requires InWindow(spec, limit, k, a, now) && now <= later
    ensures InWindow(spec, limit, k, a, later)
  {}

  lemma GatedFirst(spec: Spec, limit: nat, a: Attempt, ts: seq<int>)
    requires ts != []
    ensures Gated(spec, limit, a, ts) <==>
      !CoolingDown(a, ts[0]) && Gated(spec, limit, Advance(spec, limit, a, ts[0]), ts[1..])
    ensures After(spec, limit, a, ts) == After(spec, limit, Advance(spec, limit, a, ts[0]), ts[1..])
  {}

  lemma {:induction false} GatedSplit(spec: Spec, limit: nat, a: Attempt, ts: seq<int>, i: nat)
    requires i <= |ts| && Gated(spec, limit, a, ts)
    ensures Gated(spec, limit, a, ts[..i]) && Gated(spec, limit, After(spec, limit, a, ts[..i]), ts[i..])
    decreases ts
  {
    if i == 0 {
      assert ts[0..] == ts && ts[..0] == [];
    } else {
      var next := Advance(spec, limit, a, ts[0]);
      GatedFirst(spec, limit, a, ts);
      GatedSplit(spec, limit, next, ts[1..], i - 1);
      assert ts[..i][1..] == ts[1..][..i - 1] && ts[1..][i - 1..] == ts[i..];
      GatedFirst(spec, limit, a, ts[..i]);
    }
  }
}
