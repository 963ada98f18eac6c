// internal/authz/limits.go:27-119: the lazily refilled token bucket. One token is UNIT units, a unit
// being one nanosecond at one token a minute, so that a refill is a product and nothing is rounded.
module TokenBuckets {
  import opened Numbers
  import opened Wrappers

  const UNIT: int := 60_000_000_000
  const SECOND: int := 1_000_000_000

  datatype Spec = Spec(name: string, perMinute: nat, burst: nat) {
    predicate Sensible() { perMinute > 0 }
  }

  const READS := Spec("reads", 300, 100)
  const MUTATIONS := Spec("mutations", 120, 30)
  const ADMIN := Spec("admin", 120, 30)
  const UNAUTHENTICATED := Spec("unauthenticated", 60, 20)
  const SPECS := [READS, MUTATIONS, ADMIN, UNAUTHENTICATED]

  datatype Bucket = Bucket(level: int, last: int)

  function Capacity(spec: Spec): int { spec.burst * UNIT }

  // What the bucket holds at `now`; a bucket that does not exist yet is full.
  function Level(spec: Spec, b: Option<Bucket>, now: int): int {
    match b
    case None => Capacity(spec)
    case Some(bucket) =>
      if now > bucket.last then Min(Capacity(spec), bucket.level + (now - bucket.last) * spec.perMinute)
      else bucket.level
  }

  function Admit(spec: Spec, b: Option<Bucket>, now: int): (Bucket, bool) {
    var level := Level(spec, b, now);
    if level >= UNIT then (Bucket(level - UNIT, now), true) else (Bucket(level, now), false)
  }

  // rateLimited (errors.go:67-78): whole seconds, rounded up, at least one.
  function RetryAfter(waitNs: int): int {
    if waitNs <= 0 then SECOND else (waitNs + SECOND - 1) / SECOND * SECOND
  }

  function FullKey(spec: Spec, key: string): string { spec.name + "|" + key }

  class Buckets {
    var m: map<string, Bucket>

    constructor ()
      ensures m == map[]
    {
      m := map[];
    }

    method Allow(spec: Spec, key: string, now: int) returns (refusal: Option<int>)
      requires spec.Sensible()
      modifies this
      ensures var full := FullKey(spec, key);
        var was := if full in old(m) then Some(old(m)[full]) else None;
        && m == old(m)[full := Admit(spec, was, now).0]
        && (refusal.None? <==> Admit(spec, was, now).1)
        && (refusal.Some? ==> refusal.value == RetryAfter((UNIT - Level(spec, was, now)) / spec.perMinute))
    {
      var full := FullKey(spec, key);
      var tokens, elapsed;
      if full !in m {
        tokens := Capacity(spec);
      } else {
        tokens, elapsed := m[full].level, now - m[full].last;
        if elapsed > 0 {
          tokens := Min(Capacity(spec), tokens + elapsed * spec.perMinute);
        }
      }
      if tokens >= UNIT {
        m := m[full := Bucket(tokens - UNIT, now)];
        return None;
      }
      m := m[full := Bucket(tokens, now)];
      var deficit := UNIT - tokens;
      return Some(RetryAfter(deficit / spec.perMinute));
    }
  }

  // Two surfaces never share a bucket, and two keys of one surface never do.
  lemma BucketsAreSeparate(i: nat, j: nat, key: string, other: string)
    requires i < |SPECS| && j < |SPECS|
    ensures FullKey(SPECS[i], key) == FullKey(SPECS[j], other) <==> i == j && key == other
  {
    var a, b := FullKey(SPECS[i], key), FullKey(SPECS[j], other);
    assert a[|SPECS[i].name|] == '|' && b[|SPECS[j].name|] == '|';
    assert a[|SPECS[i].name| + 1..] == key && b[|SPECS[j].name| + 1..] == other;
    assert a[0] == SPECS[i].name[0] && b[0] == SPECS[j].name[0];
  }

  // ----- runs of one bucket -----

  function After(spec: Spec, b: Option<Bucket>, ts: seq<int>): Option<Bucket>
    decreases ts
  {
    if ts == [] then b else After(spec, Some(Admit(spec, b, ts[0]).0), ts[1..])
  }

  function Decisions(spec: Spec, b: Option<Bucket>, ts: seq<int>): (ds: seq<bool>)
    ensures |ds| == |ts|
    decreases ts
  {
    if ts == [] then [] else [Admit(spec, b, ts[0]).1] + Decisions(spec, Some(Admit(spec, b, ts[0]).0), ts[1..])
  }

  function Admitted(ds: seq<bool>): nat {
    if ds == [] then 0 else (if ds[0] then 1 else 0) + Admitted(ds[1..])
  }

  // A bucket a nondecreasing clock can produce, not written after `now`.
  predicate Sound(spec: Spec, b: Option<Bucket>, now: int) {
    b.Some? ==> 0 <= b.value.level <= Capacity(spec) && b.value.last <= now
  }

  lemma AdmitSound(spec: Spec, b: Option<Bucket>, now: int)
    requires Sound(spec, b, now)
    ensures Sound(spec, Some(Admit(spec, b, now).0), now)
  {
    if b.Some? && now > b.value.last { Products(now - b.value.last, 0, spec.perMinute); }
  }

  lemma Products(a: int, b: int, rate: nat)
    ensures a * rate + b * rate == (a + b) * rate
    ensures a >= 0 ==> a * rate >= 0
  {}

  // Nothing more than the bucket's size is ever in it, whatever order the clock is read in.
  predicate Bounded(spec: Spec, b: Option<Bucket>) { b.Some? ==> 0 <= b.value.level <= Capacity(spec) }

  lemma AdmitBounded(spec: Spec, b: Option<Bucket>, now: int)
    requires Bounded(spec, b)
    ensures 0 <= Level(spec, b, now) <= Capacity(spec) && Bounded(spec, Some(Admit(spec, b, now).0))
  {
    if b.Some? && now > b.value.last { Products(now - b.value.last, 0, spec.perMinute); }
  }

  function Forward(from: int, to: int): nat { if to > from then to - from else 0 }

  // How far a list of readings goes forward, steps back not counted.
  function Climb(ts: seq<int>): nat {
    if |ts| < 2 then 0 else Forward(ts[0], ts[1]) + Climb(ts[1..])
  }

  lemma {:induction false} ClimbOrdered(ts: seq<int>)
    requires ts != [] && Ordered(ts)
    ensures Climb(ts) == ts[|ts| - 1] - ts[0]
  {
    if |ts| > 1 { ClimbOrdered(ts[1..]); }
  }

  lemma OneRefill(spec: Spec, bucket: Bucket, later: int, more: nat)
    ensures Level(spec, Some(bucket), later) + more * spec.perMinute
         <= bucket.level + (Forward(bucket.last, later) + more) * spec.perMinute
  {
    Products(Forward(bucket.last, later), more, spec.perMinute);
  }

  // What is admitted, plus what is left, was there at the start or has been refilled since.
  lemma {:induction false} Spending(spec: Spec, b: Option<Bucket>, ts: seq<int>)
    requires ts != [] && Bounded(spec, b)
    ensures Admitted(Decisions(spec, b, ts)) * UNIT <= Level(spec, b, ts[0]) + Climb(ts) * spec.perMinute
    decreases ts
  {
    var b' := Some(Admit(spec, b, ts[0]).0);
    AdmitBounded(spec, b, ts[0]);
    if |ts| > 1 {
      Spending(spec, b', ts[1..]);
      OneRefill(spec, b'.value, ts[1], Climb(ts[1..]));
    } else {
      assert ts[1..] == [];
    }
  }

  lemma {:induction false} DecisionsSplit(spec: Spec, b: Option<Bucket>, ts: seq<int>, i: nat)
    requires i <= |ts|
    ensures Decisions(spec, b, ts) == Decisions(spec, b, ts[..i]) + Decisions(spec, After(spec, b, ts[..i]), ts[i..])
    decreases ts
  {
    if i == 0 {
      assert ts[0..] == ts;
    } else {
      DecisionsSplit(spec, Some(Admit(spec, b, ts[0]).0), ts[1..], i - 1);
      assert ts[1..][..i - 1] == ts[..i][1..] && ts[1..][i - 1..] == ts[i..];
    }
  }

  lemma {:induction false} AfterSound(spec: Spec, b: Option<Bucket>, ts: seq<int>, now: int)
    requires Ordered(ts) && (ts != [] ==> Sound(spec, b, ts[0]) && ts[|ts| - 1] <= now)
    requires Sound(spec, b, now)
    ensures Sound(spec, After(spec, b, ts), now)
    decreases ts
  {
    if ts != [] {
      AdmitSound(spec, b, ts[0]);
      AfterSound(spec, Some(Admit(spec, b, ts[0]).0), ts[1..], now);
    }
  }

  lemma DecisionsStretch(spec: Spec, b: Option<Bucket>, ts: seq<int>, i: nat, j: nat)
    requires i <= j <= |ts|
    ensures Decisions(spec, b, ts)[i..j] == Decisions(spec, After(spec, b, ts[..i]), ts[i..j])
  {
    DecisionsSplit(spec, b, ts, j);
    DecisionsSplit(spec, b, ts[..j], i);
    assert ts[..j][..i] == ts[..i] && ts[..j][i..] == ts[i..j];
  }

  lemma {:induction false} AfterBounded(spec: Spec, b: Option<Bucket>, ts: seq<int>)
    requires Bounded(spec, b)
    ensures Bounded(spec, After(spec, b, ts))
    decreases ts
  {
    if ts != [] {
      AdmitBounded(spec, b, ts[0]);
      AfterBounded(spec, Some(Admit(spec, b, ts[0]).0), ts[1..]);
    }
  }

  // With the clock read in any order at all, a stretch admits at most Burst + rate x the time its
  // readings go forward.
  lemma WindowInAnyOrder(spec: Spec, ts: seq<int>, i: nat, j: nat)
    requires i < j <= |ts|
    ensures Admitted(Decisions(spec, None, ts)[i..j]) * UNIT <= spec.burst * UNIT + Climb(ts[i..j]) * spec.perMinute
  {
    var b := After(spec, None, ts[..i]);
    AfterBounded(spec, None, ts[..i]);
    DecisionsStretch(spec, None, ts, i, j);
    Spending(spec, b, ts[i..j]);
    AdmitBounded(spec, b, ts[i]);
  }

  predicate WindowHolds(spec: Spec, ts: seq<int>, i: nat, j: nat)
    requires i < j <= |ts|
  {
    Admitted(Decisions(spec, None, ts)[i..j]) * UNIT <= spec.burst * UNIT + (ts[j - 1] - ts[i]) * spec.perMinute
  }

  // Over any stretch of any run of one bucket, at most Burst + rate x elapsed calls are admitted.
  lemma SlidingWindow(spec: Spec, ts: seq<int>, i: nat, j: nat)
    requires Ordered(ts) && i < j <= |ts|
    ensures WindowHolds(spec, ts, i, j)
  {
    WindowInAnyOrder(spec, ts, i, j);
    ClimbOrdered(ts[i..j]);
  }

  // A bucket that starts with a token for every call admits them all.
  lemma {:induction false} AllAdmitted(spec: Spec, b: Option<Bucket>, ts: seq<int>)
    requires Bounded(spec, b) && |ts| * UNIT <= (if b.Some? then b.value.level else Capacity(spec))
    ensures forall d :: d in Decisions(spec, b, ts) ==> d
    decreases ts
  {
    if ts != [] {
      AdmitBounded(spec, b, ts[0]);
      if b.Some? && ts[0] > b.value.last { Products(ts[0] - b.value.last, 0, spec.perMinute); }
      AllAdmitted(spec, Some(Admit(spec, b, ts[0]).0), ts[1..]);
    }
  }

  lemma {:induction false} FirstDescent(ts: seq<int>) returns (k: nat)
    requires !Ordered(ts)
    ensures k + 1 < |ts| && ts[k] > ts[k + 1]
  {
    var i, j :| 0 <= i <= j < |ts| && ts[i] > ts[j];
    k := i;
    while ts[k] <= ts[k + 1]
      invariant i <= k < j && ts[k] >= ts[i]
      decreases j - k
    {
      k := k + 1;
    }
  }

  lemma StepBackTooFar(back: int, size: nat)
    requires back < 0
    ensures 2 * UNIT > size * UNIT + back * (size * UNIT)
  {
    assert back * (size * UNIT) <= -1 * (size * UNIT);
  }

  // One step back is enough to break the bound, for a bucket large enough and filled fast enough.
  lemma DescentBreaksTheBound(ts: seq<int>, k: nat)
    requires k + 1 < |ts| && ts[k] > ts[k + 1]
    ensures !WindowHolds(Spec("", |ts| * UNIT, |ts|), ts, k, k + 2)
  {
    var spec := Spec("", |ts| * UNIT, |ts|);
    AllAdmitted(spec, None, ts);
    var ds := Decisions(spec, None, ts);
    assert ds[k] in ds && ds[k + 1] in ds;
    assert ds[k] && ds[k + 1];
    assert ds[k..k + 2] == [ds[k], ds[k + 1]];
    assert [true, true][1..] == [true] && [true][1..] == [];
    assert Admitted([true]) == 1 && Admitted([true, true]) == 2;
    StepBackTooFar(ts[k + 1] - ts[k], |ts|);
  }

  // The readings of the clock in lock order never go back exactly when the bound holds over every
  // stretch, for every bucket.
  lemma WindowsHoldIffOrdered(ts: seq<int>)
    ensures Ordered(ts) <==> forall spec, i: nat, j: nat :: i < j <= |ts| ==> WindowHolds(spec, ts, i, j)
  {
    if Ordered(ts) {
      forall spec, i: nat, j: nat | i < j <= |ts| ensures WindowHolds(spec, ts, i, j) { SlidingWindow(spec, ts, i, j); }
    } else {
      var k := FirstDescent(ts);
      DescentBreaksTheBound(ts, k);
    }
  }

  lemma LevelAtMostFull(spec: Spec, b: Option<Bucket>, now: int)
    requires Sound(spec, b, now)
    ensures 0 <= Level(spec, b, now) <= Capacity(spec)
  {
    if b.Some? { Products(now - b.value.last, 0, spec.perMinute); }
  }

  // The clock is read before the lock is taken; with readings out of order the bound fails. Here a
  // bucket of one token, refilled once a minute, admits two calls that read the same instant.
  lemma BoundNeedsAnOrderedClock()
    ensures var spec, ts := Spec("one", 1, 1), [60_000_000_000, 0, 60_000_000_000];
      && Decisions(spec, None, ts) == [true, false, true]
      && Admitted([true, false, true]) * UNIT > Capacity(spec) + (ts[2] - ts[0]) * spec.perMinute
  {
    var spec, minute := Spec("one", 1, 1), 60_000_000_000;
    var empty0, empty1 := Some(Bucket(0, 0)), Some(Bucket(0, minute));
    assert Admit(spec, None, minute) == (empty1.value, true);
    assert Admit(spec, empty1, 0) == (empty0.value, false);
    assert Admit(spec, empty0, minute) == (empty1.value, true);
    assert [minute, 0, minute][1..] == [0, minute] && [0, minute][1..] == [minute] && [minute][1..] == [];
    assert Decisions(spec, empty1, [0, minute]) == [false, true];
    assert [true, false, true][1..] == [false, true] && [false, true][1..] == [true] && [true][1..] == [];
  }

  // A refused call leaves every later level what it would have been.
  lemma RefusalIsFree(spec: Spec, b: Option<Bucket>, now: int, later: int)
    requires Sound(spec, b, now) && now <= later && !Admit(spec, b, now).1
    ensures Level(spec, Some(Admit(spec, b, now).0), later) == Level(spec, b, later)
  {
    if b.Some? {
      Products(now - b.value.last, later - now, spec.perMinute);
      if spec.burst == 0 {
        Products(later - now, 0, spec.perMinute);
        Products(later - b.value.last, 0, spec.perMinute);
        Products(now - b.value.last, 0, spec.perMinute);
      }
    } else {
      Products(later - now, 0, spec.perMinute);
    }
  }

  // Deleting a refused call from a run changes no other decision.
  lemma DeletingARefusal(spec: Spec, ts: seq<int>, i: nat)
    requires Ordered(ts) && i < |ts| && !Decisions(spec, None, ts)[i]
    ensures var ds := Decisions(spec, None, ts);
      Decisions(spec, None, ts[..i] + ts[i + 1..]) == ds[..i] + ds[i + 1..]
  {
    var b := After(spec, None, ts[..i]);
    AfterSound(spec, None, ts[..i], ts[i]);
    DecisionsSplit(spec, None, ts, i);
    var b' := Some(Admit(spec, b, ts[i]).0);
    assert ts[i..][1..] == ts[i + 1..];
    assert Decisions(spec, b, ts[i..]) == [false] + Decisions(spec, b', ts[i + 1..]);
    var kept := ts[..i] + ts[i + 1..];
    DecisionsSplit(spec, None, kept, i);
    assert kept[..i] == ts[..i] && kept[i..] == ts[i + 1..];
    if i + 1 < |ts| {
      RefusalIsFree(spec, b, ts[i], ts[i + 1]);
      assert Decisions(spec, b, ts[i + 1..]) == Decisions(spec, b', ts[i + 1..]);
    }
  }

  lemma RoundsUp(wait: int)
    requires wait >= 0
    ensures RetryAfter(wait) >= SECOND && RetryAfter(wait) >= wait
    ensures RetryAfter(wait) == wait <==> wait % SECOND == 0 && wait > 0
    ensures RetryAfter(wait) % SECOND == 0 && (wait > 0 ==> RetryAfter(wait) < wait + SECOND)
  {}

  lemma Enough(deficit: int, rate: int, wait: int, rest: int, retry: int)
    requires deficit == wait * rate + rest && 0 <= rest < rate && retry >= wait
    ensures retry * rate >= deficit <==> rest == 0 || retry > wait
  {
    if retry > wait { assert retry * rate >= (wait + 1) * rate == wait * rate + rate; }
  }

  // Retry-After is truncated to a nanosecond and then rounded up to a second. A caller that waits
  // that long is admitted unless the truncation lost something and the rounding did not restore it.
  lemma RetryAfterHonoured(spec: Spec, b: Option<Bucket>, now: int)
    requires spec.Sensible() && spec.burst > 0 && Sound(spec, b, now) && !Admit(spec, b, now).1
    ensures var deficit := UNIT - Level(spec, b, now);
      var wait := deficit / spec.perMinute;
      var admitted := Admit(spec, Some(Admit(spec, b, now).0), now + RetryAfter(wait)).1;
      admitted <==> (deficit % spec.perMinute == 0 || wait % SECOND != 0 || wait == 0)
  {
    LevelAtMostFull(spec, b, now);
    var deficit, rate := UNIT - Level(spec, b, now), spec.perMinute;
    var wait := deficit / rate;
    RoundsUp(wait);
    Enough(deficit, rate, wait, deficit % rate, RetryAfter(wait));
  }

  lemma NothingLost(deficit: int, rate: int, wait: int, rest: int)
    requires 0 < deficit <= UNIT && rate >= 60 && deficit == wait * rate + rest && 0 <= rest < rate
    requires wait >= SECOND
    ensures rest == 0
  {
    assert wait * rate >= SECOND * rate >= SECOND * 60;
  }

  // At sixty a minute and above, which is every surface there is, that never happens.
  lemma RetryAfterSuffices(spec: Spec, b: Option<Bucket>, now: int)
    requires spec.perMinute >= 60 && spec.burst > 0 && Sound(spec, b, now) && !Admit(spec, b, now).1
    ensures Admit(spec, Some(Admit(spec, b, now).0),
                  now + RetryAfter((UNIT - Level(spec, b, now)) / spec.perMinute)).1
  {
    LevelAtMostFull(spec, b, now);
    var deficit, rate := UNIT - Level(spec, b, now), spec.perMinute;
    if (deficit / rate) % SECOND == 0 && deficit / rate != 0 {
      NothingLost(deficit, rate, deficit / rate, deficit % rate);
    }
    RetryAfterHonoured(spec, b, now);
  }
}
