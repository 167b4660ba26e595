/**
 * Whole runs of the rate limiter: any number of replicas, any pattern of Redis errors. The
 * independent reference is counting: how many calls of the run so far fell into the same slot.
 */
module RateLimitRuns {
  import opened Integers
  import opened RateLimiter

  datatype Call = Call(replica: nat, key: string, window: int, limit: int, clock: nat, now: nat, reply: Reply) {
    function Slot(): RateLimiter.Slot {
      SlotAt(key, window, clock)
    }
  }

  /** One Redis shared by every replica; one fallback map per replica. */
  datatype World = World(redis: RedisKeys, locals: map<nat, Buckets>) {
    function Local(replica: nat): Buckets {
      if replica in locals then locals[replica] else map[]
    }
  }

  function Step(w: World, c: Call): (World, nat) {
    var (keys, buckets, count) := Failover(w.redis, w.Local(c.replica), c.key, c.window, c.clock, c.now, c.reply);
    (World(keys, w.locals[c.replica := buckets]), count)
  }

  function After(calls: seq<Call>): World {
    if calls == [] then World(map[], map[]) else Step(After(calls[..|calls| - 1]), calls[|calls| - 1]).0
  }

  function CountOf(calls: seq<Call>): nat
    requires calls != []
  {
    Step(After(calls[..|calls| - 1]), calls[|calls| - 1]).1
  }

  // ---- The reference: counting calls ------------------------------------------------------

  /** Calls that bumped the shared counter of a slot. */
  function Arrivals(calls: seq<Call>, slot: Slot): nat {
    if calls == [] then 0
    else
      var c := calls[|calls| - 1];
      Arrivals(calls[..|calls| - 1], slot) + if c.Slot() == slot && c.reply != Refused then 1 else 0
  }

  /** Calls that bumped one replica's fallback counter of a slot. */
  function Fallbacks(calls: seq<Call>, replica: nat, slot: Slot): nat {
    if calls == [] then 0
    else
      var c := calls[|calls| - 1];
      Fallbacks(calls[..|calls| - 1], replica, slot) +
        if c.Slot() == slot && c.reply != Answered && c.replica == replica then 1 else 0
  }

  lemma {:induction false} FallbackCountsItsCalls(calls: seq<Call>, replica: nat, slot: Slot)
    ensures Tally(After(calls).Local(replica), LocalKey(slot)) == Fallbacks(calls, replica, slot)
  {
    if calls != [] {
      var c := calls[|calls| - 1];
      FallbackCountsItsCalls(calls[..|calls| - 1], replica, slot);
      KeysAreInjective(c.Slot(), slot);
    }
  }

  // ---- When Redis forgets nothing that still matters ----------------------------------------

  /** Windows below a second last a second. */
  predicate SameLength(a: int, b: int) {
    a == b || (a <= 1 && b <= 1)
  }

  /** No longer than a window of this many seconds, in milliseconds. */
  predicate FitsWindow(span: int, window: int) {
    span <= 1000 * window || span <= 1000
  }

  predicate OneWindowPerKey(calls: seq<Call>) {
    forall i, j :: 0 <= i < j < |calls| && calls[i].key == calls[j].key ==>
      SameLength(calls[i].window, calls[j].window)
  }

  predicate RedisTimeIsMonotone(calls: seq<Call>) {
    forall i, j :: 0 <= i < j < |calls| ==> calls[i].now <= calls[j].now
  }

  /** No replica's clock is further than `skew` milliseconds from the Redis clock. */
  predicate WithinSkew(calls: seq<Call>, skew: nat) {
    forall i :: 0 <= i < |calls| ==> calls[i].clock - skew <= calls[i].now <= calls[i].clock + skew
  }

  predicate SkewIsHarmless(calls: seq<Call>, skew: nat) {
    forall i :: 0 <= i < |calls| ==> FitsWindow(2 * skew, calls[i].window)
  }

  predicate Timely(calls: seq<Call>, skew: nat) {
    OneWindowPerKey(calls) && RedisTimeIsMonotone(calls) && WithinSkew(calls, skew) && SkewIsHarmless(calls, skew)
  }

  /** Two calls with one window share a counter exactly when both fall between the same two multiples of it. */
  lemma SlotsAreWindows(key: string, window: int, a: nat, b: nat)
    ensures
      var span: nat := 1000 * if window > 1 then window else 1;
      SlotAt(key, window, a) == SlotAt(key, window, b) <==>
        exists n: nat :: n * span <= a < (n + 1) * span && n * span <= b < (n + 1) * span
  {
    var span: nat := 1000 * if window > 1 then window else 1;
    SlotSpansItsWindow(key, window, a);
    SlotSpansItsWindow(key, window, b);
    var n := SlotAt(key, window, a).bucket;
    assert (n + 1) * span == n * span + span;
    if m: nat :| m * span <= a < (m + 1) * span && m * span <= b < (m + 1) * span {
      assert (m + 1) * span == m * span + span;
      WindowIsOneBucket(m, WindowSeconds(window), a);
      WindowIsOneBucket(m, WindowSeconds(window), b);
    }
  }

  lemma SlotSpansItsWindow(key: string, window: int, clock: nat)
    ensures
      var b, span := SlotAt(key, window, clock).bucket, MILLIS * WindowSeconds(window);
      b * span <= clock < b * span + span
  {
    var w := WindowSeconds(window);
    var seconds := clock / MILLIS;
    var b := seconds / w;
    assert b * w <= seconds < b * w + w;
    assert b * (MILLIS * w) == MILLIS * (b * w);
  }

  /** Two calls in one slot are less than twice the window apart on the Redis clock. */
  lemma SameSlotIsSoon(first: Call, later: Call, skew: nat)
    requires first.Slot() == later.Slot() && SameLength(first.window, later.window)
    requires WithinSkew([first, later], skew) && SkewIsHarmless([first, later], skew)
    ensures later.now < first.now + MILLIS * (2 * WindowSeconds(first.window))
  {
    SlotSpansItsWindow(first.key, first.window, first.clock);
    SlotSpansItsWindow(later.key, later.window, later.clock);
    assert [first, later][0] == first && [first, later][1] == later;
  }

  /** What Redis holds for a slot: the exact number of arrivals, dated by the first of them. */
  ghost predicate Holds(keys: RedisKeys, calls: seq<Call>, slot: Slot) {
    var k := RedisKey(slot);
    if Arrivals(calls, slot) == 0 then k !in keys
    else
      && k in keys
      && keys[k].count == Arrivals(calls, slot)
      && exists i :: 0 <= i < |calls| && Dates(keys[k], calls[i], slot)
  }

  predicate Dates(counter: Counter, first: Call, slot: Slot) {
    first.Slot() == slot && counter.expiresAt == first.now + MILLIS * (2 * WindowSeconds(first.window))
  }

  /** What one call does to the Redis entry under k. */
  lemma StepOnRedis(w: World, c: Call, slot: Slot)
    ensures
      var k, keys := RedisKey(slot), Step(w, c).0.redis;
      if c.Slot() == slot && c.reply != Refused then
        && k in keys
        && keys[k].count == LiveCount(w.redis, k, c.now) + 1
        && keys[k].expiresAt ==
           if keys[k].count == 1 then c.now + MILLIS * (2 * WindowSeconds(c.window)) else w.redis[k].expiresAt
      else
        (k in keys <==> k in w.redis) && (k in keys ==> keys[k] == w.redis[k])
  {
    KeysAreInjective(c.Slot(), slot);
  }

  /** An entry dated by an earlier call is still alive for a later call in its slot. */
  lemma HeldCounterIsLive(calls: seq<Call>, keys: RedisKeys, slot: Slot, skew: nat)
    requires calls != [] && Timely(calls, skew) && calls[|calls| - 1].Slot() == slot
    requires Holds(keys, calls[..|calls| - 1], slot)
    ensures LiveCount(keys, RedisKey(slot), calls[|calls| - 1].now) == Arrivals(calls[..|calls| - 1], slot)
  {
    var before, c := calls[..|calls| - 1], calls[|calls| - 1];
    if Arrivals(before, slot) > 0 {
      var i :| 0 <= i < |before| && Dates(keys[RedisKey(slot)], before[i], slot);
      assert calls[i] == before[i];
      SameSlotIsSoon(calls[i], c, skew);
    }
  }

  lemma {:induction false} RedisCountsArrivals(calls: seq<Call>, slot: Slot, skew: nat)
    requires Timely(calls, skew)
    ensures Holds(After(calls).redis, calls, slot)
  {
    if calls != [] {
      var before, c := calls[..|calls| - 1], calls[|calls| - 1];
      RedisCountsArrivals(before, slot, skew);
      StepOnRedis(After(before), c, slot);
      if c.Slot() == slot {
        HeldCounterIsLive(calls, After(before).redis, slot, skew);
      }
      HoldsAfterStep(After(before).redis, After(calls).redis, calls, slot);
    }
  }

  lemma HoldsAfterStep(keys: RedisKeys, keys': RedisKeys, calls: seq<Call>, slot: Slot)
    requires calls != [] && Holds(keys, calls[..|calls| - 1], slot)
    requires
      var k, c := RedisKey(slot), calls[|calls| - 1];
      if c.Slot() == slot && c.reply != Refused then
        && k in keys'
        && keys'[k].count == Arrivals(calls, slot)
        && (if keys'[k].count == 1 then Dates(keys'[k], c, slot)
          else k in keys && keys'[k].expiresAt == keys[k].expiresAt)
      else
        (k in keys' <==> k in keys) && (k in keys' ==> keys'[k] == keys[k])
    ensures Holds(keys', calls, slot)
  {
    var before, k := calls[..|calls| - 1], RedisKey(slot);
    if Arrivals(before, slot) > 0 {
      var i :| 0 <= i < |before| && Dates(keys[k], before[i], slot);
      assert calls[i] == before[i] && Dates(keys'[k], calls[i], slot);
    } else if Arrivals(calls, slot) > 0 {
      assert Dates(keys'[k], calls[|calls| - 1], slot);
    }
  }

  /** The answer of every call is its rank among the calls that bumped the same counter. */
  lemma CountIsRank(calls: seq<Call>, skew: nat)
    requires calls != [] && Timely(calls, skew)
    ensures
      var c := calls[|calls| - 1];
      CountOf(calls) ==
        if c.reply == Answered then Arrivals(calls, c.Slot()) else Fallbacks(calls, c.replica, c.Slot())
  {
    var before, c := calls[..|calls| - 1], calls[|calls| - 1];
    RedisCountsArrivals(before, c.Slot(), skew);
    HeldCounterIsLive(calls, After(before).redis, c.Slot(), skew);
    FallbackCountsItsCalls(before, c.replica, c.Slot());
  }

  // ---- Expiry is invisible ----------------------------------------------------------------

  /** The never-purged map the same calls would have filled. */
  function NeverPurged(calls: seq<Call>): Buckets {
    if calls == [] then map[]
    else LocalIncrement(NeverPurged(calls[..|calls| - 1]), calls[|calls| - 1].Slot()).0
  }

  function NeverPurgedCount(calls: seq<Call>): nat
    requires calls != []
  {
    LocalIncrement(NeverPurged(calls[..|calls| - 1]), calls[|calls| - 1].Slot()).1
  }

  predicate AllAnswered(calls: seq<Call>) {
    forall i :: 0 <= i < |calls| ==> calls[i].reply == Answered
  }

  lemma {:induction false} NeverPurgedCountsArrivals(calls: seq<Call>, slot: Slot)
    requires AllAnswered(calls)
    ensures Tally(NeverPurged(calls), LocalKey(slot)) == Arrivals(calls, slot)
  {
    if calls != [] {
      NeverPurgedCountsArrivals(calls[..|calls| - 1], slot);
      KeysAreInjective(calls[|calls| - 1].Slot(), slot);
    }
  }

  /** The expiring shared counter refines the map that never forgets. */
  lemma ExpiryIsInvisible(calls: seq<Call>, skew: nat)
    requires calls != [] && AllAnswered(calls) && Timely(calls, skew)
    ensures CountOf(calls) == NeverPurgedCount(calls)
  {
    CountIsRank(calls, skew);
    NeverPurgedCountsArrivals(calls[..|calls| - 1], calls[|calls| - 1].Slot());
  }

  /** Runs on one window, all answered, with clocks no further than `skew` from the Redis clock. */
  predicate SkewedRun(calls: seq<Call>, window: int, skew: nat) {
    && calls != []
    && AllAnswered(calls)
    && RedisTimeIsMonotone(calls)
    && WithinSkew(calls, skew)
    && forall i :: 0 <= i < |calls| ==> calls[i].window == window
  }

  /** Two calls at the ends of one window whose clocks err in opposite directions. */
  function StretchedRun(window: int, skew: nat): seq<Call> {
    var span := MILLIS * WindowSeconds(window);
    var start := (skew + 1) * span;
    [ Call(0, "k", window, 1, start, start - skew, Answered),
      Call(1, "k", window, 1, start + span - 1, start + span - 1 + skew, Answered) ]
  }

  lemma {:induction false} StretchedRunStaysInOneSlot(window: int, skew: nat)
    ensures var run := StretchedRun(window, skew); run[0].Slot() == run[1].Slot()
  {
    var w, run := WindowSeconds(window), StretchedRun(window, skew);
    WindowIsOneBucket(skew + 1, w, run[0].clock);
    WindowIsOneBucket(skew + 1, w, run[1].clock);
  }

  lemma WindowIsOneBucket(n: nat, w: nat, clock: nat)
    requires w >= 1 && n * (MILLIS * w) <= clock < n * (MILLIS * w) + MILLIS * w
    ensures clock / MILLIS / w == n
  {
    assert n * (MILLIS * w) == MILLIS * (n * w);
    var m := n * w;
    assert MILLIS * m <= clock < MILLIS * (m + w);
    QuotientIn(clock / MILLIS, w, n);
  }

  lemma QuotientIn(a: nat, w: nat, n: nat)
    requires w >= 1 && n * w <= a < n * w + w
    ensures a / w == n
  {
    var q := a / w;
    assert q * w <= a < q * w + w;
    Scaled(q + 1, n, w);
    Scaled(n + 1, q, w);
  }

  lemma {:induction false} StretchedRunForgets(window: int, skew: nat)
    requires !FitsWindow(2 * skew, window)
    ensures CountOf(StretchedRun(window, skew)) == 1
    ensures NeverPurgedCount(StretchedRun(window, skew)) == 2
  {
    var run := StretchedRun(window, skew);
    StretchedRunStaysInOneSlot(window, skew);
    assert run[0].now + MILLIS * (2 * WindowSeconds(window)) < run[1].now;
    hide SlotAt, RedisKey, LocalKey, StretchedRun;
    var first := run[..1];
    assert run[..|run| - 1] == first && first[..0] == [] && first[0] == run[0];
    assert After(first) == Step(After([]), run[0]).0;
    assert NeverPurged(first) == LocalIncrement(NeverPurged([]), run[0].Slot()).0;
  }

  lemma StretchedRunIsSkewed(window: int, skew: nat)
    ensures SkewedRun(StretchedRun(window, skew), window, skew)
  {
    var span := MILLIS * WindowSeconds(window);
    Scaled(1, span, skew + 1);
    assert (skew + 1) * span >= skew + 1;
  }

  /** Half a window of clock skew is exactly what a deadline of two windows tolerates. */
  lemma {:induction false} SkewToleranceIsExact(window: int, skew: nat)
    ensures
      (forall calls :: SkewedRun(calls, window, skew) ==> CountOf(calls) == NeverPurgedCount(calls))
      <==> FitsWindow(2 * skew, window)
  {
    if FitsWindow(2 * skew, window) {
      forall calls | SkewedRun(calls, window, skew)
        ensures CountOf(calls) == NeverPurgedCount(calls)
      {
        ExpiryIsInvisible(calls, skew);
      }
    } else {
      var run := StretchedRun(window, skew);
      StretchedRunForgets(window, skew);
      StretchedRunIsSkewed(window, skew);
    }
  }

  /** Perfect clocks, no errors, and any of two windows per call. */
  predicate TwoWindowRun(calls: seq<Call>, w1: int, w2: int) {
    && calls != []
    && AllAnswered(calls)
    && RedisTimeIsMonotone(calls)
    && forall i :: 0 <= i < |calls| ==>
         calls[i].clock == calls[i].now && (calls[i].window == w1 || calls[i].window == w2)
  }

  /** Both windows have a bucket of this number, and the shorter one's is forgotten before the longer one's begins. */
  function ClashingRun(shorter: int, longer: int): seq<Call> {
    var bucket := 2 * WindowSeconds(shorter);
    var first, second := bucket * (MILLIS * WindowSeconds(shorter)), bucket * (MILLIS * WindowSeconds(longer)) + 1;
    [ Call(0, "k", shorter, 1, first, first, Answered), Call(0, "k", longer, 1, second, second, Answered) ]
  }

  lemma ClashingRunSharesACounter(shorter: int, longer: int)
    requires shorter < longer && longer > 1
    ensures
      var run := ClashingRun(shorter, longer);
      && run[0].Slot() == run[1].Slot()
      && run[0].now + MILLIS * (2 * WindowSeconds(shorter)) < run[1].now
  {
    var a, b := WindowSeconds(shorter), WindowSeconds(longer);
    var first, second := 2 * a * (MILLIS * a), 2 * a * (MILLIS * b);
    WindowIsOneBucket(2 * a, a, first);
    WindowIsOneBucket(2 * a, b, second + 1);
    assert first + MILLIS * (2 * a) <= second by {
      LongerBucketsAreLater(2 * a, a, b);
    }
  }

  lemma LongerBucketsAreLater(n: nat, a: nat, b: nat)
    requires a < b
    ensures n * (MILLIS * a) + MILLIS * n <= n * (MILLIS * b)
  {
    Scaled(MILLIS * a + MILLIS, MILLIS * b, n);
  }

  /** A key used with two different windows: Redis forgets a call the map remembers. */
  lemma {:induction false} MixedWindowsDisagree(shorter: int, longer: int)
    requires shorter < longer && longer > 1
    ensures CountOf(ClashingRun(shorter, longer)) == 1 && NeverPurgedCount(ClashingRun(shorter, longer)) == 2
  {
    var run := ClashingRun(shorter, longer);
    ClashingRunSharesACounter(shorter, longer);
    var first := run[..1];
    assert run[..|run| - 1] == first && first[..0] == [] && first[0] == run[0];
    hide SlotAt, RedisKey, LocalKey, ClashingRun;
    assert After(first) == Step(After([]), run[0]).0;
    assert NeverPurged(first) == LocalIncrement(NeverPurged([]), run[0].Slot()).0;
  }

  lemma ClashingRunIsTwoWindow(shorter: int, longer: int)
    requires shorter < longer && longer > 1
    ensures TwoWindowRun(ClashingRun(shorter, longer), shorter, longer)
    ensures TwoWindowRun(ClashingRun(shorter, longer), longer, shorter)
  {
    ClashingRunSharesACounter(shorter, longer);
  }

  /** Expiry is invisible in all runs over two windows exactly when the windows are as long as each other. */
  lemma MixedWindowsAgreeIff(w1: int, w2: int)
    ensures
      (forall calls :: TwoWindowRun(calls, w1, w2) ==> CountOf(calls) == NeverPurgedCount(calls))
      <==> SameLength(w1, w2)
  {
    if SameLength(w1, w2) {
      forall calls | TwoWindowRun(calls, w1, w2) ensures CountOf(calls) == NeverPurgedCount(calls) {
        ExpiryIsInvisible(calls, 0);
      }
    } else {
      var shorter := if w1 < w2 then w1 else w2;
      var longer := if w1 < w2 then w2 else w1;
      MixedWindowsDisagree(shorter, longer);
      ClashingRunIsTwoWindow(shorter, longer);
      assert TwoWindowRun(ClashingRun(shorter, longer), w1, w2);
    }
  }

  // ---- Failing open has a bound -------------------------------------------------------------

  /** Calls of the run that were let through, in one slot. */
  function Allowed(calls: seq<Call>, slot: Slot): nat {
    if calls == [] then 0
    else
      var c := calls[|calls| - 1];
      Allowed(calls[..|calls| - 1], slot) + if c.Slot() == slot && Judge(CountOf(calls), c.limit).allowed then 1 else 0
  }

  function Capped(n: nat, limit: nat): nat {
    if n < limit then n else limit
  }

  function FallbackCapacity(calls: seq<Call>, slot: Slot, limit: nat, replicas: nat): nat {
    if replicas == 0 then 0
    else FallbackCapacity(calls, slot, limit, replicas - 1) + Capped(Fallbacks(calls, replicas - 1, slot), limit)
  }

  predicate LimitAtMost(calls: seq<Call>, limit: nat) {
    forall i :: 0 <= i < |calls| ==> calls[i].limit <= limit
  }

  predicate ReplicasBelow(calls: seq<Call>, replicas: nat) {
    forall i :: 0 <= i < |calls| ==> calls[i].replica < replicas
  }

  lemma {:induction false} FallbackCapacityGrows(calls: seq<Call>, slot: Slot, limit: nat, replicas: nat)
    requires calls != []
    ensures
      var before, c := calls[..|calls| - 1], calls[|calls| - 1];
      FallbackCapacity(calls, slot, limit, replicas) >= FallbackCapacity(before, slot, limit, replicas) +
        if c.Slot() == slot && c.reply != Answered && c.replica < replicas && Fallbacks(calls, c.replica, slot) <= limit
        then 1 else 0
  {
    if replicas > 0 {
      FallbackCapacityGrows(calls, slot, limit, replicas - 1);
    }
  }

  lemma {:induction false} FallbackCapacityIsBounded(calls: seq<Call>, slot: Slot, limit: nat, replicas: nat)
    ensures FallbackCapacity(calls, slot, limit, replicas) <= replicas * limit
  {
    if replicas > 0 {
      FallbackCapacityIsBounded(calls, slot, limit, replicas - 1);
      assert replicas * limit == (replicas - 1) * limit + limit;
    }
  }

  /** Every allowed call uses up capacity of the counter that answered it. */
  lemma {:induction false} AllowedUsesCapacity(calls: seq<Call>, slot: Slot, limit: nat, replicas: nat, skew: nat)
    requires Timely(calls, skew) && LimitAtMost(calls, limit) && ReplicasBelow(calls, replicas)
    ensures Allowed(calls, slot) <=
      Capped(Arrivals(calls, slot), limit) + FallbackCapacity(calls, slot, limit, replicas)
  {
    if calls != [] {
      AllowedUsesCapacity(calls[..|calls| - 1], slot, limit, replicas, skew);
      FallbackCapacityGrows(calls, slot, limit, replicas);
      CountIsRank(calls, skew);
    }
  }

  /** N replicas, any errors: at most (N+1) times the limit gets through per key and window. */
  lemma FailOpenIsBounded(calls: seq<Call>, slot: Slot, limit: nat, replicas: nat, skew: nat)
    requires Timely(calls, skew) && LimitAtMost(calls, limit) && ReplicasBelow(calls, replicas)
    ensures Allowed(calls, slot) <= (replicas + 1) * limit
  {
    AllowedUsesCapacity(calls, slot, limit, replicas, skew);
    FallbackCapacityIsBounded(calls, slot, limit, replicas);
    assert (replicas + 1) * limit == replicas * limit + limit;
  }

  /** A call with perfect clocks. */
  function Probe(window: int, at: nat, replica: nat, reply: Reply, limit: nat): Call {
    Call(replica, "k", window, limit, at, at, reply)
  }

  function Repeat(calls: seq<Call>, c: Call, n: nat): seq<Call> {
    if n == 0 then calls else Repeat(calls, c, n - 1) + [c]
  }

  /** Redis answers until the shared limit is spent, then goes away for every replica in turn. */
  function OutageRun(window: int, start: seq<Call>, at: nat, limit: nat, replicas: nat): seq<Call> {
    if replicas == 0 then Repeat(start, Probe(window, at, 0, Answered, limit), limit)
    else
      var before := OutageRun(window, start, at, limit, replicas - 1);
      Repeat(before, Probe(window, at, replicas - 1, Refused, limit), limit)
  }

  ghost predicate Probes(window: int, calls: seq<Call>, limit: nat, replicas: nat, until: nat) {
    && RedisTimeIsMonotone(calls)
    && forall i :: 0 <= i < |calls| ==>
         && calls[i] == Probe(window, calls[i].now, calls[i].replica, calls[i].reply, limit)
         && calls[i].replica < replicas && calls[i].now <= until
  }

  /** One more call in the slot, whose counter still has room under the limit, is let through. */
  lemma AppendedCall(before: seq<Call>, c: Call, slot: Slot, other: Slot)
    requires c.Slot() == slot != other && Timely(before + [c], 0)
    requires (if c.reply == Answered then Arrivals(before, slot) else Fallbacks(before, c.replica, slot)) < c.limit
    ensures
      var run := before + [c];
      && Allowed(run, slot) == Allowed(before, slot) + 1
      && Arrivals(run, slot) == Arrivals(before, slot) + (if c.reply == Refused then 0 else 1)
      && (forall r: nat :: Fallbacks(run, r, slot) ==
           Fallbacks(before, r, slot) + if c.reply != Answered && r == c.replica then 1 else 0)
      && Untouched(before, run, other)
  {
    var run := before + [c];
    assert run[..|run| - 1] == before && run[|run| - 1] == c;
    CountIsRank(run, 0);
  }

  ghost predicate Untouched(before: seq<Call>, run: seq<Call>, slot: Slot) {
    && Allowed(run, slot) == Allowed(before, slot)
    && Arrivals(run, slot) == Arrivals(before, slot)
    && forall r: nat :: Fallbacks(run, r, slot) == Fallbacks(before, r, slot)
  }

  ghost predicate Unused(calls: seq<Call>, slot: Slot) {
    Untouched([], calls, slot)
  }

  lemma ProbesAreTimely(window: int, calls: seq<Call>, limit: nat, replicas: nat, until: nat)
    requires Probes(window, calls, limit, replicas, until)
    ensures Timely(calls, 0) && LimitAtMost(calls, limit) && ReplicasBelow(calls, replicas) && AllOn(calls, window)
  {
  }

  lemma {:induction false} RepeatSpends(window: int, calls: seq<Call>, c: Call, slot: Slot, other: Slot, limit: nat,
                                        replicas: nat, n: nat)
    requires Probes(window, calls, limit, replicas, c.now) && c == Probe(window, c.now, c.replica, c.reply, limit)
        && c.replica < replicas
    requires c.reply != Lost && c.Slot() == slot != other
    requires (if c.reply == Answered then Arrivals(calls, slot) else Fallbacks(calls, c.replica, slot)) + n <= limit
    ensures
      var run := Repeat(calls, c, n);
      && Probes(window, run, limit, replicas, c.now)
      && Allowed(run, slot) == Allowed(calls, slot) + n
      && Arrivals(run, slot) == Arrivals(calls, slot) + (if c.reply == Answered then n else 0)
      && (forall r: nat :: Fallbacks(run, r, slot) ==
           Fallbacks(calls, r, slot) + if c.reply == Refused && r == c.replica then n else 0)
      && Untouched(calls, run, other)
  {
    hide Allowed, Arrivals, Fallbacks, SlotAt;
    if n > 0 {
      RepeatSpends(window, calls, c, slot, other, limit, replicas, n - 1);
      ProbesAreTimely(window, Repeat(calls, c, n), limit, replicas, c.now);
      AppendedCall(Repeat(calls, c, n - 1), c, slot, other);
    }
  }

  lemma {:induction false} OutageRunSpends(window: int, start: seq<Call>, at: nat, other: Slot, limit: nat, spent: nat,
                                           replicas: nat)
    requires spent <= replicas && 0 < replicas && Probes(window, start, limit, replicas, at)
    requires Unused(start, SlotAt("k", window, at)) && other != SlotAt("k", window, at)
    ensures
      var run, slot := OutageRun(window, start, at, limit, spent), SlotAt("k", window, at);
      && Probes(window, run, limit, replicas, at)
      && Allowed(run, slot) == (spent + 1) * limit
      && (forall r: nat :: r >= spent ==> Fallbacks(run, r, slot) == 0)
      && Untouched(start, run, other)
  {
    var slot := SlotAt("k", window, at);
    NothingIsUnused(slot);
    hide Allowed, Arrivals, Fallbacks, SlotAt;
    if spent == 0 {
      RepeatSpends(window, start, Probe(window, at, 0, Answered, limit), slot, other, limit, replicas, limit);
    } else {
      OutageRunSpends(window, start, at, other, limit, spent - 1, replicas);
      RepeatSpends(window, OutageRun(window, start, at, limit, spent - 1), Probe(window, at, spent - 1, Refused, limit),
        slot, other, limit, replicas, limit);
      assert (spent + 1) * limit == spent * limit + limit;
    }
  }

  lemma NothingIsUnused(slot: Slot)
    ensures Allowed([], slot) == Arrivals([], slot) == 0 && forall r: nat :: Fallbacks([], r, slot) == 0
  {
  }

  predicate AllOn(calls: seq<Call>, window: int) {
    forall i :: 0 <= i < |calls| ==> calls[i].window == window
  }

  /** The bound is the exact worst case: for every window, every N and every limit some run attains it. */
  lemma FailOpenBoundIsAttained(window: int, limit: nat, replicas: nat)
    requires 0 < replicas
    ensures exists calls, slot ::
      && Timely(calls, 0)
      && LimitAtMost(calls, limit)
      && ReplicasBelow(calls, replicas)
      && AllOn(calls, window)
      && Allowed(calls, slot) == (replicas + 1) * limit
  {
    var run, slot := OutageRun(window, [], 0, limit, replicas), SlotAt("k", window, 0);
    OutageRunSpends(window, [], 0, slot.(bucket := slot.bucket + 1), limit, replicas, replicas);
    ProbesAreTimely(window, run, limit, replicas, 0);
    assert Allowed(run, slot) == (replicas + 1) * limit;
  }

  /** Without errors the shared counter is exact: precisely the first `limit` calls get through. */
  lemma {:induction false} SharedLimitIsExact(calls: seq<Call>, slot: Slot, limit: nat, skew: nat)
    requires Timely(calls, skew) && AllAnswered(calls)
    requires forall i :: 0 <= i < |calls| ==> calls[i].limit == limit
    ensures Allowed(calls, slot) == Capped(Arrivals(calls, slot), limit)
  {
    if calls != [] {
      SharedLimitIsExact(calls[..|calls| - 1], slot, limit, skew);
      CountIsRank(calls, skew);
    }
  }

  lemma {:induction false} ArrivalsConcat(calls: seq<Call>, more: seq<Call>, slot: Slot)
    ensures Arrivals(calls + more, slot) == Arrivals(calls, slot) + Arrivals(more, slot)
  {
    if more == [] {
      assert calls + more == calls;
    } else {
      assert (calls + more)[..|calls + more| - 1] == calls + more[..|more| - 1];
      ArrivalsConcat(calls, more[..|more| - 1], slot);
    }
  }

  /** What an answer calls remaining is how many more calls in its slot get through while Redis answers. */
  lemma RemainingIsWhatIsLeft(calls: seq<Call>, more: seq<Call>, skew: nat)
    requires calls != [] && more != [] && Timely(calls + more, skew) && AllAnswered(calls + more)
    requires
      var c, d := calls[|calls| - 1], more[|more| - 1];
      d.Slot() == c.Slot() && d.limit == c.limit
    ensures
      var c, d := calls[|calls| - 1], more[|more| - 1];
      Judge(CountOf(calls + more), d.limit).allowed
      <==> Arrivals(more, c.Slot()) <= Judge(CountOf(calls), c.limit).remaining
  {
    hide CountOf, SlotAt, Timely, Arrivals, Fallbacks;
    var all, slot := calls + more, calls[|calls| - 1].Slot();
    assert all[|all| - 1] == more[|more| - 1] && calls[|calls| - 1] == all[|calls| - 1];
    PrefixIsTimely(calls, more, skew);
    CountIsRank(all, skew);
    CountIsRank(calls, skew);
    ArrivalsConcat(calls, more, slot);
    LastCallArrives(more);
  }

  lemma PrefixIsTimely(calls: seq<Call>, more: seq<Call>, skew: nat)
    requires Timely(calls + more, skew)
    ensures Timely(calls, skew)
  {
    assert forall i :: 0 <= i < |calls| ==> calls[i] == (calls + more)[i];
  }

  lemma LastCallArrives(calls: seq<Call>)
    requires calls != [] && calls[|calls| - 1].reply != Refused
    ensures Arrivals(calls, calls[|calls| - 1].Slot()) >= 1
  {
  }

  /** Calls let through on one key while the replicas' clocks read [from, from + span). */
  function AllowedWithin(calls: seq<Call>, key: string, from: nat, span: nat): nat {
    if calls == [] then 0
    else
      var c := calls[|calls| - 1];
      AllowedWithin(calls[..|calls| - 1], key, from, span) +
        if c.key == key && from <= c.clock < from + span && Judge(CountOf(calls), c.limit).allowed then 1 else 0
  }

  lemma {:induction false} IntervalMeetsTwoSlots(calls: seq<Call>, key: string, window: int, from: nat, span: nat)
    requires FitsWindow(span, window)
    requires forall i :: 0 <= i < |calls| && calls[i].key == key ==> SameLength(calls[i].window, window)
    ensures
      var slot := SlotAt(key, window, from);
      AllowedWithin(calls, key, from, span) <= Allowed(calls, slot) + Allowed(calls, slot.(bucket := slot.bucket + 1))
  {
    if calls != [] {
      var c := calls[|calls| - 1];
      IntervalMeetsTwoSlots(calls[..|calls| - 1], key, window, from, span);
      if c.key == key && from <= c.clock < from + span {
        BucketMovesByAtMostOne(window, from, c.clock);
      }
    }
  }

  lemma BucketMovesByAtMostOne(window: int, from: nat, clock: nat)
    requires from <= clock < from + MILLIS * WindowSeconds(window)
    ensures
      var w := WindowSeconds(window);
      from / MILLIS / w <= clock / MILLIS / w <= from / MILLIS / w + 1
  {
    var w, a, b := WindowSeconds(window), from / MILLIS, clock / MILLIS;
    assert a <= b <= a + w;
    var q, r := a / w, b / w;
    assert q * w <= a < q * w + w;
    assert r * w <= b < r * w + w;
    Scaled(q + 2, r, w);
    Scaled(r + 1, q, w);
  }

  /** Across a window boundary the worst case doubles, and no more. */
  lemma FailOpenIsBoundedInAnyInterval(
      calls: seq<Call>, key: string, window: int, from: nat, span: nat, limit: nat, replicas: nat, skew: nat)
    requires FitsWindow(span, window)
    requires Timely(calls, skew) && LimitAtMost(calls, limit) && ReplicasBelow(calls, replicas)
    requires forall i :: 0 <= i < |calls| && calls[i].key == key ==> SameLength(calls[i].window, window)
    ensures AllowedWithin(calls, key, from, span) <= 2 * ((replicas + 1) * limit)
    ensures AllAnswered(calls) && (forall i :: 0 <= i < |calls| ==> calls[i].limit == limit) ==>
      AllowedWithin(calls, key, from, span) <= 2 * limit
  {
    var slot := SlotAt(key, window, from);
    var next := slot.(bucket := slot.bucket + 1);
    IntervalMeetsTwoSlots(calls, key, window, from, span);
    FailOpenIsBounded(calls, slot, limit, replicas, skew);
    FailOpenIsBounded(calls, next, limit, replicas, skew);
    if AllAnswered(calls) && forall i :: 0 <= i < |calls| ==> calls[i].limit == limit {
      SharedLimitIsExact(calls, slot, limit, skew);
      SharedLimitIsExact(calls, next, limit, skew);
    }
  }

  /** The last millisecond of the first window. */
  function LastMoment(window: int): nat
    requires window >= 1
  {
    MILLIS * window - 1
  }

  /** All that an outage lets through in the last millisecond of a window, and again in the first of the next. */
  function BoundaryRun(window: int, limit: nat, spent: nat): seq<Call>
    requires 1 <= window
  {
    OutageRun(window, OutageRun(window, [], LastMoment(window), limit, spent), LastMoment(window) + 1, limit, spent)
  }

  lemma BoundaryRunSpends(window: int, limit: nat, spent: nat, replicas: nat)
    requires spent <= replicas && 0 < replicas && 1 <= window
    ensures
      var run := BoundaryRun(window, limit, spent);
      && Probes(window, run, limit, replicas, LastMoment(window) + 1)
      && Allowed(run, Slot("k", 0)) == Allowed(run, Slot("k", 1)) == (spent + 1) * limit
  {
    var first := OutageRun(window, [], LastMoment(window), limit, spent);
    assert SlotAt("k", window, LastMoment(window)) == Slot("k", 0)
        && SlotAt("k", window, LastMoment(window) + 1) == Slot("k", 1);
    hide Allowed, Arrivals, Fallbacks, SlotAt;
    OutageRunSpends(window, [], LastMoment(window), Slot("k", 1), limit, spent, replicas);
    OutageRunSpends(window, first, LastMoment(window) + 1, Slot("k", 0), limit, spent, replicas);
  }

  /** Probes around the boundary all fall into one interval, and into the two slots. */
  lemma {:induction false} BothSlotsCount(window: int, calls: seq<Call>)
    requires 1 <= window
    requires forall i :: 0 <= i < |calls| ==>
      calls[i].key == "k" && calls[i].window == window && LastMoment(window) <= calls[i].clock <= LastMoment(window) + 1
    ensures AllowedWithin(calls, "k", LastMoment(window), MILLIS * window)
        == Allowed(calls, Slot("k", 0)) + Allowed(calls, Slot("k", 1))
  {
    hide CountOf, Judge;
    if calls != [] {
      BothSlotsCount(window, calls[..|calls| - 1]);
    }
  }

  lemma {:induction false} RepeatsAreLate(window: int, calls: seq<Call>, c: Call, n: nat)
    requires 1 <= window
    requires c.now >= LastMoment(window) && forall i :: 0 <= i < |calls| ==> calls[i].now >= LastMoment(window)
    ensures forall i :: 0 <= i < |Repeat(calls, c, n)| ==> Repeat(calls, c, n)[i].now >= LastMoment(window)
    ensures AllAnswered(calls) && c.reply == Answered ==> AllAnswered(Repeat(calls, c, n))
  {
    if n > 0 {
      RepeatsAreLate(window, calls, c, n - 1);
    }
  }

  lemma {:induction false} OutageIsLate(window: int, start: seq<Call>, at: nat, limit: nat, spent: nat)
    requires 1 <= window
    requires at >= LastMoment(window) && forall i :: 0 <= i < |start| ==> start[i].now >= LastMoment(window)
    ensures forall i :: 0 <= i < |OutageRun(window, start, at, limit, spent)| ==>
      OutageRun(window, start, at, limit, spent)[i].now >= LastMoment(window)
    ensures spent == 0 && AllAnswered(start) ==> AllAnswered(OutageRun(window, start, at, limit, spent))
  {
    if spent == 0 {
      RepeatsAreLate(window, start, Probe(window, at, 0, Answered, limit), limit);
    } else {
      OutageIsLate(window, start, at, limit, spent - 1);
      RepeatsAreLate(window, OutageRun(window, start, at, limit, spent - 1),
        Probe(window, at, spent - 1, Refused, limit), limit);
    }
  }

  /** The doubled bound is an exact worst case too. */
  lemma IntervalBoundIsAttained(window: int, limit: nat, replicas: nat)
    requires 0 < replicas && 1 <= window
    ensures exists calls ::
      && Timely(calls, 0) && LimitAtMost(calls, limit) && ReplicasBelow(calls, replicas)
      && AllOn(calls, window)
      && AllowedWithin(calls, "k", LastMoment(window), MILLIS * window) == 2 * ((replicas + 1) * limit)
  {
    hide *;
    BoundaryRunIsWorst(window, limit, replicas, replicas);
  }

  /** And so it is without errors. */
  lemma SharedIntervalBoundIsAttained(window: int, limit: nat)
    requires 1 <= window
    ensures exists calls ::
      && Timely(calls, 0) && LimitAtMost(calls, limit) && AllAnswered(calls) && AllOn(calls, window)
      && AllowedWithin(calls, "k", LastMoment(window), MILLIS * window) == 2 * limit
  {
    hide *;
    BoundaryRunIsWorst(window, limit, 0, 1);
    assert AllowedWithin(BoundaryRun(window, limit, 0), "k", LastMoment(window), MILLIS * window) == 2 * limit;
  }

  lemma BoundaryRunIsWorst(window: int, limit: nat, spent: nat, replicas: nat)
    requires spent <= replicas && 0 < replicas && 1 <= window
    ensures
      var run := BoundaryRun(window, limit, spent);
      && Timely(run, 0) && LimitAtMost(run, limit) && ReplicasBelow(run, replicas)
      && AllOn(run, window) && AllowedWithin(run, "k", LastMoment(window), MILLIS * window) == 2 * ((spent + 1) * limit)
      && (spent == 0 ==> AllAnswered(run))
  {
    var run := BoundaryRun(window, limit, spent);
    BoundaryRunSpends(window, limit, spent, replicas);
    ProbesAreTimely(window, run, limit, replicas, LastMoment(window) + 1);
    OutageIsLate(window, [], LastMoment(window), limit, spent);
    OutageIsLate(window, OutageRun(window, [], LastMoment(window), limit, spent), LastMoment(window) + 1, limit, spent);
    hide AllowedWithin, Allowed, Timely, OutageRun, Repeat;
    BothSlotsCount(window, run);
  }
}
