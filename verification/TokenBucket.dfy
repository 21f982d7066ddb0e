/** The token bucket that api/rate_limit.py evaluates inside Redis: the script's two hash
    fields as an object, what one evaluation answers as a function, and what a whole run of
    evaluations on one key amounts to. Times are milliseconds; token counts are exact. */
module TokenBucket {
  import opened Common

  datatype Policy = Policy(capacity: int, rate: real) {
    predicate Valid() { 0 <= capacity && 0.0 < rate }
  }

  datatype Bucket = Absent | Present(tokens: real, ts: int)

  datatype Call = Call(now: int, cost: real)

  datatype Reply = Reply(allowed: bool, remaining: int, limit: int, retryAfter: int, resetUnix: int)

  function Ceil(x: real): (c: int)
    ensures x <= c as real < x + 1.0
  {
    -(-x).Floor
  }

  function Min(x: real, y: real): real { if x <= y then x else y }

  function Max(x: int, y: int): int { if x <= y then y else x }

  /** Tokens that flow in between two instants; nothing flows in when the clock went back. */
  function Inflow(p: Policy, from: int, to: int): (r: real)
    requires p.Valid()
    ensures from <= to ==> r == p.rate * ((to - from) as real / 1000.0)
    ensures r >= 0.0
  {
    if to < from then 0.0 else p.rate * ((to - from) as real / 1000.0)
  }

  /** What the bucket holds when a call arrives, before anything is taken. */
  function Level(p: Policy, b: Bucket, now: int): real
    requires p.Valid()
  {
    match b
    case Absent => p.capacity as real
    case Present(tokens, ts) => Min(p.capacity as real, tokens + Inflow(p, ts, now))
  }

  function TtlMs(p: Policy): int
    requires p.Valid()
  {
    Max(1000, Ceil(p.capacity as real / p.rate * 2000.0))
  }

  predicate Admits(p: Policy, b: Bucket, c: Call)
    requires p.Valid()
  {
    Level(p, b, c.now) >= c.cost
  }

  /** The bucket a call leaves behind. */
  function After(p: Policy, b: Bucket, c: Call): Bucket
    requires p.Valid()
  {
    Present(if Admits(p, b, c) then Level(p, b, c.now) - c.cost else Level(p, b, c.now), c.now)
  }

  /** Whole seconds in which `amount` tokens flow in. */
  function SecondsFor(p: Policy, amount: real): int
    requires p.Valid()
  {
    Ceil(amount / p.rate)
  }

  function Answer(p: Policy, b: Bucket, c: Call): Reply
    requires p.Valid()
  {
    var level, left := Level(p, b, c.now), After(p, b, c).tokens;
    var retry := if Admits(p, b, c) then 0 else Max(1, SecondsFor(p, c.cost - level));
    Reply(Admits(p, b, c), left.Floor, p.capacity, retry, c.now / 1000 + SecondsFor(p, p.capacity as real - left))
  }

  lemma RefillIsLevel(p: Policy, tokens: real, ts: int, now: int, elapsed: real)
    requires p.Valid() && elapsed == if now < ts then 0.0 else (now - ts) as real / 1000.0
    ensures Min(p.capacity as real, tokens + p.rate * elapsed) == Level(p, Present(tokens, ts), now)
  {
  }

  lemma FullBucketLevel(p: Policy, now: int)
    requires p.Valid()
    ensures Level(p, Present(p.capacity as real, now), now) == Level(p, Absent, now)
  {
  }

  /** The hash stored under one bucket key. */
  class BucketKey {
    var tokens: Option<real>
    var ts: Option<int>
    var expiresAt: int

    ghost function View(): Bucket
      reads this
    {
      if tokens.Some? && ts.Some? then Present(tokens.value, ts.value) else Absent
    }

    constructor ()
      ensures View() == Absent
    {
      tokens, ts, expiresAt := None, None, 0;
    }

    /** The fields HMGET finds under the key. */
    method Load(b: Bucket)
      modifies this
      ensures View() == b
    {
      match b
      case Absent => tokens, ts := None, None;
      case Present(t, at) => tokens, ts := Some(t), Some(at);
    }

    /** One evaluation of the script. */
    method Eval(p: Policy, now: int, cost: real) returns (r: Reply)
      requires p.Valid()
      modifies this
      ensures View() == After(p, old(View()), Call(now, cost))
      ensures r == Answer(p, old(View()), Call(now, cost))
      ensures tokens.Some? && ts.Some? && expiresAt == now + TtlMs(p)
    {
      var t, at := p.capacity as real, now;
      if tokens.Some? && ts.Some? {
        t, at := tokens.value, ts.value;
      }
      var elapsed := (now - at) as real / 1000.0;
      if elapsed < 0.0 {
        elapsed := 0.0;
      }
      hide Inflow, Level, Ceil;
      RefillIsLevel(p, t, at, now, elapsed);
      FullBucketLevel(p, now);
      t := Min(p.capacity as real, t + p.rate * elapsed);
      assert t == Level(p, old(View()), now);

      var allowed, retryAfter := false, 0;
      if t >= cost {
        t := t - cost;
        allowed := true;
      } else {
        retryAfter := Ceil((cost - t) / p.rate);
        if retryAfter < 1 {
          retryAfter := 1;
        }
      }
      tokens, ts := Some(t), Some(now);
      var ttl := Ceil(p.capacity as real / p.rate * 2000.0);
      if ttl < 1000 {
        ttl := 1000;
      }
      expiresAt := now + ttl;
      r := Reply(allowed, t.Floor, p.capacity, retryAfter, now / 1000 + Ceil((p.capacity as real - t) / p.rate));
    }
  }

  // ------------------------------------------------------------------ runs

  /** The bucket before call n, starting from b. */
  function BucketAt(p: Policy, b: Bucket, calls: seq<Call>, n: nat): Bucket
    requires p.Valid() && n <= |calls|
  {
    if n == 0 then b else After(p, BucketAt(p, b, calls, n - 1), calls[n - 1])
  }

  /** What call n is told. */
  predicate AllowedAt(p: Policy, b: Bucket, calls: seq<Call>, n: nat)
    requires p.Valid() && n < |calls|
  {
    Answer(p, BucketAt(p, b, calls, n), calls[n]).allowed
  }

  /** The parts of an answer agree with each other and with the bucket left behind: a call is
      allowed exactly when its cost was taken, and told to wait exactly when it was not. */
  lemma AnswerIsConsistent(p: Policy, b: Bucket, c: Call)
    requires p.Valid() && c.cost > 0.0
    ensures var reply, after := Answer(p, b, c), After(p, b, c);
      && reply.limit == p.capacity
      && (reply.allowed <==> reply.retryAfter == 0)
      && (!reply.allowed ==> reply.retryAfter >= 1)
      && (reply.allowed <==> after.tokens == Level(p, b, c.now) - c.cost)
      && (!reply.allowed <==> after.tokens == Level(p, b, c.now))
      && (reply.allowed ==> after.tokens >= 0.0)
      && (!reply.allowed ==> after.tokens < c.cost)
  {
    hide Level, SecondsFor, Ceil;
  }

  predicate Monotone(calls: seq<Call>) {
    forall i, j | 0 <= i <= j < |calls| :: calls[i].now <= calls[j].now
  }

  /** A limiter with no state: a call passes when, in every window that ends at it, the cost
      already admitted plus its own fits in the burst plus what flowed in over the window. */
  predicate ScanAdmits(p: Policy, calls: seq<Call>, n: nat)
    requires p.Valid() && n < |calls|
    decreases n, 2
  {
    forall i: nat | i <= n :: calls[n].cost <= Room(p, calls, i, n)
  }

  /** Room left in the window from call i to call n. */
  function Room(p: Policy, calls: seq<Call>, i: nat, n: nat): real
    requires p.Valid() && i <= n < |calls|
    decreases n, 1
  {
    p.capacity as real + Inflow(p, calls[i].now, calls[n].now) - ScanSpent(p, calls, i, n)
  }

  /** Cost the stateless limiter admitted among calls i, ..., n - 1. */
  function ScanSpent(p: Policy, calls: seq<Call>, i: nat, n: nat): real
    requires p.Valid() && i <= n <= |calls|
    decreases n, 0
  {
    if i == n then 0.0
    else ScanSpent(p, calls, i, n - 1) + if ScanAdmits(p, calls, n - 1) then calls[n - 1].cost else 0.0
  }

  lemma InflowAdds(p: Policy, x: int, y: int, z: int)
    requires p.Valid() && x <= y <= z
    ensures Inflow(p, x, z) == Inflow(p, x, y) + Inflow(p, y, z)
  {
    var u, v := (y - x) as real / 1000.0, (z - y) as real / 1000.0;
    assert (z - x) as real / 1000.0 == u + v;
    assert p.rate * (u + v) == p.rate * u + p.rate * v;
  }

  /** The two stored numbers decide exactly what a scan over the whole history decides: the
      refilled level is the tightest of all windows ending at the call. */
  lemma {:induction false} ExactAdmission(p: Policy, calls: seq<Call>, n: nat)
    requires p.Valid() && Monotone(calls) && n < |calls|
    ensures var level := Level(p, BucketAt(p, Absent, calls, n), calls[n].now);
      && (forall i: nat | i <= n :: level <= Room(p, calls, i, n))
      && (exists i: nat | i <= n :: level == Room(p, calls, i, n))
    ensures AllowedAt(p, Absent, calls, n) <==> ScanAdmits(p, calls, n)
  {
    hide Inflow, SecondsFor;
    var level := Level(p, BucketAt(p, Absent, calls, n), calls[n].now);
    assert Room(p, calls, n, n) == p.capacity as real;
    if n == 0 {
      assert level == Room(p, calls, 0, 0);
    } else {
      ExactAdmission(p, calls, n - 1);
      var before := Level(p, BucketAt(p, Absent, calls, n - 1), calls[n - 1].now);
      forall i: nat | i <= n - 1
        ensures Room(p, calls, i, n) - Room(p, calls, i, n - 1)
             == Inflow(p, calls[n - 1].now, calls[n].now) - (if ScanAdmits(p, calls, n - 1) then calls[n - 1].cost else 0.0)
      {
        InflowAdds(p, calls[i].now, calls[n - 1].now, calls[n].now);
      }
      var k: nat :| k <= n - 1 && before == Room(p, calls, k, n - 1);
      assert level == Room(p, calls, n, n) || level == Room(p, calls, k, n);
    }
  }

  /** Total forward movement of the clock the calls carried; going back does not subtract. */
  function ForwardJumps(p: Policy, calls: seq<Call>, n: nat): real
    requires p.Valid() && n <= |calls|
  {
    if n <= 1 then 0.0 else ForwardJumps(p, calls, n - 1) + Inflow(p, calls[n - 2].now, calls[n - 1].now)
  }

  function Admitted(p: Policy, b: Bucket, calls: seq<Call>, n: nat): real
    requires p.Valid() && n <= |calls|
  {
    if n == 0 then 0.0
    else Admitted(p, b, calls, n - 1) + if AllowedAt(p, b, calls, n - 1) then calls[n - 1].cost else 0.0
  }

  /** Whatever clocks the callers bring, even ones that jump back, what is admitted is at most
      the burst plus the inflow over all forward jumps. */
  lemma {:induction false} AdmissionUnderAnyClock(p: Policy, calls: seq<Call>, n: nat)
    requires p.Valid() && n <= |calls|
    requires forall c | c in calls :: c.cost > 0.0
    ensures Admitted(p, Absent, calls, n) <= p.capacity as real + ForwardJumps(p, calls, n)
    ensures n > 0 ==> var b := BucketAt(p, Absent, calls, n);
      && b.Present? && b.ts == calls[n - 1].now && 0.0 <= b.tokens <= p.capacity as real
      && Admitted(p, Absent, calls, n) + b.tokens <= p.capacity as real + ForwardJumps(p, calls, n)
  {
    hide SecondsFor;
    if n > 0 {
      AdmissionUnderAnyClock(p, calls, n - 1);
    }
  }

  // ------------------------------------------------------------------ expiry

  predicate MayExpire(p: Policy, b: Bucket, now: int)
    requires p.Valid()
  {
    b.Present? ==> now >= b.ts + TtlMs(p)
  }

  /** The bucket before call n when Redis dropped the key just before the calls in `dropped`. */
  function ExpiringAt(p: Policy, calls: seq<Call>, dropped: set<nat>, n: nat): Bucket
    requires p.Valid() && n <= |calls|
  {
    var b := if n == 0 then Absent else After(p, ExpiringAt(p, calls, dropped, n - 1), calls[n - 1]);
    if n in dropped then Absent else b
  }

  lemma Scale(rate: real, x: real, y: real)
    requires rate > 0.0
    ensures x <= y <==> rate * x <= rate * y
  {
  }

  lemma Quotient(rate: real, amount: real, s: real)
    requires rate > 0.0
    ensures amount / rate <= s <==> amount <= rate * s
    ensures 0.0 <= amount / rate <==> 0.0 <= amount
  {
    var q := amount / rate;
    assert rate * q == amount;
    Scale(rate, q, s);
    Scale(rate, 0.0, q);
  }

  /** The time to live is the least number of milliseconds, but at least a second, in which twice
      the capacity flows in. */
  lemma TtlIsTight(p: Policy, now: int)
    requires p.Valid()
    ensures TtlMs(p) >= 1000 && Inflow(p, now, now + TtlMs(p)) >= 2.0 * p.capacity as real
    ensures TtlMs(p) > 1000 ==> Inflow(p, now, now + TtlMs(p) - 1) < 2.0 * p.capacity as real
  {
    var q, cap := p.capacity as real / p.rate, p.capacity as real;
    TwiceTheFillTime(p, TtlMs(p));
    TwiceTheFillTime(p, TtlMs(p) - 1);
    assert TtlMs(p) as real >= q * 2000.0;
    assert TtlMs(p) > 1000 ==> (TtlMs(p) - 1) as real < q * 2000.0;
  }

  lemma TwiceTheFillTime(p: Policy, ms: int)
    requires p.Valid()
    ensures ms as real >= p.capacity as real / p.rate * 2000.0 <==> p.rate * (ms as real / 1000.0) >= 2.0 * p.capacity as real
  {
    var q, s := p.capacity as real / p.rate, ms as real / 2000.0;
    Quotient(p.rate, p.capacity as real, s);
    assert p.rate * (ms as real / 1000.0) == 2.0 * (p.rate * s) by {
      assert ms as real / 1000.0 == 2.0 * s;
    }
  }

  lemma ExpiredIsFull(p: Policy, b: Bucket, now: int)
    requires p.Valid() && (b.Present? ==> b.tokens >= 0.0) && MayExpire(p, b, now)
    ensures Level(p, b, now) == p.capacity as real == Level(p, Absent, now)
  {
    if b.Present? {
      var cap, s := p.capacity as real, (now - b.ts) as real / 1000.0;
      Quotient(p.rate, cap, 0.0);
      assert (now - b.ts) as real >= cap / p.rate * 2000.0;
      assert cap / p.rate <= s;
      Quotient(p.rate, cap, s);
      assert Inflow(p, b.ts, now) >= cap;
    }
  }

  /** Losing the key once its time to live is over changes no reply and no later bucket. */
  lemma {:induction false} ExpiryIsInvisible(p: Policy, calls: seq<Call>, dropped: set<nat>, n: nat)
    requires p.Valid() && n < |calls|
    requires forall c | c in calls :: c.cost > 0.0
    requires forall m: nat | m in dropped && 0 < m <= n ::
        MayExpire(p, After(p, ExpiringAt(p, calls, dropped, m - 1), calls[m - 1]), calls[m].now)
    ensures Level(p, ExpiringAt(p, calls, dropped, n), calls[n].now) == Level(p, BucketAt(p, Absent, calls, n), calls[n].now)
    ensures After(p, ExpiringAt(p, calls, dropped, n), calls[n]) == After(p, BucketAt(p, Absent, calls, n), calls[n])
    ensures Answer(p, ExpiringAt(p, calls, dropped, n), calls[n]) == Answer(p, BucketAt(p, Absent, calls, n), calls[n])
  {
    hide Level, Admits, After, Answer;
    if n > 0 {
      ExpiryIsInvisible(p, calls, dropped, n - 1);
      AdmissionUnderAnyClock(p, calls, n);
      if n in dropped {
        ExpiredIsFull(p, BucketAt(p, Absent, calls, n), calls[n].now);
      }
    }
    LevelDecides(p, ExpiringAt(p, calls, dropped, n), BucketAt(p, Absent, calls, n), calls[n]);
  }

  /** What a call does to a bucket and what it answers depend on the level alone. */
  lemma LevelDecides(p: Policy, b: Bucket, b': Bucket, c: Call)
    requires p.Valid() && Level(p, b, c.now) == Level(p, b', c.now)
    ensures After(p, b, c) == After(p, b', c) && Answer(p, b, c) == Answer(p, b', c)
  {
    hide Level, SecondsFor;
  }

  // ------------------------------------------------------------------ headers

  /** A denied call leaves the bucket on the same line: its level at any later time is what it
      would have been without the call. */
  lemma DeniedCallLeavesLevel(p: Policy, b: Bucket, c: Call, now: int)
    requires p.Valid() && c.now <= now && (b.Present? ==> b.ts <= c.now)
    requires !Answer(p, b, c).allowed
    ensures Level(p, After(p, b, c), now) == Level(p, b, now)
  {
    hide SecondsFor;
    if b.Present? {
      InflowAdds(p, b.ts, c.now, now);
    }
  }

  lemma {:induction false} PollingLeavesLevel(p: Policy, b: Bucket, polls: seq<Call>, n: nat, now: int)
    requires p.Valid() && Monotone(polls) && n <= |polls| && b.Present?
    requires forall c | c in polls :: b.ts <= c.now <= now
    requires forall i: nat | i < n :: !AllowedAt(p, b, polls, i)
    ensures var after := BucketAt(p, b, polls, n);
      && Level(p, after, now) == Level(p, b, now)
      && after.Present? && after.ts == if n == 0 then b.ts else polls[n - 1].now
  {
    hide Level, Answer, After;
    if n > 0 {
      PollingLeavesLevel(p, b, polls, n - 1, now);
      assert !AllowedAt(p, b, polls, n - 1);
      AfterIsStamped(p, BucketAt(p, b, polls, n - 1), polls[n - 1]);
      DeniedCallLeavesLevel(p, BucketAt(p, b, polls, n - 1), polls[n - 1], now);
    }
  }

  lemma AfterIsStamped(p: Policy, b: Bucket, c: Call)
    requires p.Valid()
    ensures After(p, b, c).Present? && After(p, b, c).ts == c.now
  {
  }

  /** Rounding up to whole seconds: the amount has flowed in after SecondsFor seconds and has
      not one second earlier. */
  lemma SecondsForIsTight(p: Policy, amount: real, from: int, to: int)
    requires p.Valid() && amount > 0.0 && from <= to
    ensures SecondsFor(p, amount) >= 1
    ensures to - from <= (SecondsFor(p, amount) - 1) * 1000 ==> Inflow(p, from, to) < amount
    ensures to - from >= SecondsFor(p, amount) * 1000 ==> Inflow(p, from, to) >= amount
  {
    Quotient(p.rate, amount, 0.0);
    Quotient(p.rate, amount, (to - from) as real / 1000.0);
  }

  /** After a denial that answers r, and any number of further denied calls, a call of the same
      cost is denied up to r - 1 seconds after the denial and admitted from r seconds on. */
  lemma RetryAfterIsExact(p: Policy, b: Bucket, denied: Call, polls: seq<Call>, now: int)
    requires p.Valid() && denied.cost <= p.capacity as real
    requires !Answer(p, b, denied).allowed
    requires Monotone(polls) && denied.now <= now
    requires forall c | c in polls :: denied.now <= c.now <= now
    requires forall i: nat | i < |polls| :: !AllowedAt(p, After(p, b, denied), polls, i)
    ensures var r := Answer(p, b, denied).retryAfter;
      var again := Answer(p, BucketAt(p, After(p, b, denied), polls, |polls|), Call(now, denied.cost)).allowed;
      && r >= 1
      && (now <= denied.now + (r - 1) * 1000 ==> !again)
      && (now >= denied.now + r * 1000 ==> again)
  {
    hide Inflow, Ceil;
    var b1 := After(p, b, denied);
    PollingLeavesLevel(p, b1, polls, |polls|, now);
    SecondsForIsTight(p, denied.cost - b1.tokens, denied.now, now);
  }

  /** k calls of cost one, all at the same instant. */
  function UnitCalls(now: int, k: nat): (calls: seq<Call>)
    ensures |calls| == k
  {
    seq(k, _ => Call(now, 1.0))
  }

  /** `remaining` is how many further unit calls would pass at that instant, no more, no less. */
  lemma {:induction false} RemainingIsExact(p: Policy, b: Bucket, c: Call, k: nat, j: nat)
    requires p.Valid() && j < k && c.cost > 0.0
    requires b.Present? ==> 0.0 <= b.tokens <= p.capacity as real
    ensures var after, reply := After(p, b, c), Answer(p, b, c);
      && 0 <= reply.remaining <= p.capacity
      && (AllowedAt(p, after, UnitCalls(c.now, k), j) <==> j < reply.remaining)
      && BucketAt(p, after, UnitCalls(c.now, k), j)
         == Present(after.tokens - (if j < reply.remaining then j else reply.remaining) as real, c.now)
  {
    hide Level, Admits, After, Answer, SecondsFor, Inflow, Ceil;
    LeftIsBounded(p, b, c);
    var left := After(p, b, c).tokens;
    if j > 0 {
      RemainingIsExact(p, b, c, k, j - 1);
      OneUnitCall(p, left - (if j - 1 < left.Floor then j - 1 else left.Floor) as real, c.now);
    }
    OneUnitCall(p, left - (if j < left.Floor then j else left.Floor) as real, c.now);
  }

  lemma LeftIsBounded(p: Policy, b: Bucket, c: Call)
    requires p.Valid() && c.cost > 0.0
    requires b.Present? ==> 0.0 <= b.tokens <= p.capacity as real
    ensures After(p, b, c).Present? && After(p, b, c).ts == c.now
    ensures 0.0 <= After(p, b, c).tokens <= p.capacity as real
    ensures Answer(p, b, c).remaining == After(p, b, c).tokens.Floor
  {
    hide Ceil, SecondsFor;
  }

  lemma OneUnitCall(p: Policy, tokens: real, now: int)
    requires p.Valid() && tokens <= p.capacity as real
    ensures var b, unit := Present(tokens, now), Call(now, 1.0);
      && (Answer(p, b, unit).allowed <==> tokens >= 1.0)
      && After(p, b, unit) == Present(if tokens >= 1.0 then tokens - 1.0 else tokens, now)
  {
    hide SecondsFor;
    assert Inflow(p, now, now) == 0.0;
  }

  /** `reset` is the second in which the bucket fills, to within one second either way: full one
      second after it, not yet full one second before it. */
  lemma ResetIsTight(p: Policy, b: Bucket, c: Call, now: int)
    requires p.Valid() && 0.0 < c.cost <= p.capacity as real && c.now <= now
    requires b.Present? ==> 0.0 <= b.tokens <= p.capacity as real
    ensures var after, reply := After(p, b, c), Answer(p, b, c);
      && (now >= (reply.resetUnix + 1) * 1000 ==> Level(p, after, now) == p.capacity as real)
      && (now <= (reply.resetUnix - 1) * 1000 ==> Level(p, after, now) < p.capacity as real)
  {
    hide Inflow, Ceil;
    SecondsForIsTight(p, p.capacity as real - After(p, b, c).tokens, c.now, now);
  }
}
