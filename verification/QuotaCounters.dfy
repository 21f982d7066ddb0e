/** The Redis counters behind the quotas (api/quotas.py:64-71, 122-189), and what check-then-act
    on a daily counter admits. Times are seconds. */
module QuotaCounters {
  import opened Common

  datatype Resource = ConcurrentJobs | JobsPerDay | StorageMb | Instances | LlmTokensPerDay | LiveEndpoints {
    predicate Daily() { JobsPerDay? || LlmTokensPerDay? }
    predicate Absolute() { StorageMb? || Instances? }
  }

  /** A UUID as text; what matters of it is that it holds no slash. */
  type UserId = s: string | '/' !in s witness ""

  /** One Redis key; daily keys carry their day. */
  datatype Key = DayKey(user: UserId, resource: Resource, day: int) | AbsoluteKey(user: UserId, resource: Resource)

  datatype Counter = Counter(value: int, expiresAt: Option<int>)

  type Counters = map<Key, Counter>

  const DAY_SECONDS: int := 24 * 60 * 60

  function Day(now: int): int { now / DAY_SECONDS }

  function CounterKey(user: UserId, resource: Resource, now: int): Key {
    if resource.Daily() then DayKey(user, resource, Day(now)) else AbsoluteKey(user, resource)
  }

  function Read(cs: Counters, key: Key): int {
    if key in cs then cs[key].value else 0
  }

  /** INCRBY, then EXPIRE for daily counters and for counters that start from nothing. */
  function Consume(cs: Counters, key: Key, amount: int, daily: bool, now: int, ttl: int): Counters {
    var value := Read(cs, key) + amount;
    var kept := if key in cs then cs[key].expiresAt else None;
    cs[key := Counter(value, if value == amount || daily then Some(now + ttl) else kept)]
  }

  /** DECRBY, and SET to zero when that went below: a SET drops the time to live. */
  function Give(cs: Counters, key: Key, amount: int): Counters {
    var value := Read(cs, key) - amount;
    if value < 0 then cs[key := Counter(0, None)]
    else cs[key := Counter(value, if key in cs then cs[key].expiresAt else None)]
  }

  datatype Verdict = InvalidAmount | Exceeded(limit: int, current: int) | Granted

  function Judge(current: int, amount: int, limit: int): Verdict {
    if amount < 1 then InvalidAmount
    else if current + amount > limit then Exceeded(limit, current)
    else Granted
  }

  /** Which requests pass, and what a refusal reports. */
  lemma VerdictIff(current: int, amount: int, limit: int)
    ensures Judge(current, amount, limit) == Granted <==> 1 <= amount <= limit - current
    ensures Judge(current, amount, limit) == InvalidAmount <==> amount < 1
    ensures Judge(current, amount, limit) == Exceeded(limit, current) <==> amount >= 1 && limit - current < amount
  {
  }

  /** Day d covers its own 24 hours. */
  lemma DayCovers(now: int, d: int)
    ensures Day(now) == d <==> d * 86400 <= now < (d + 1) * 86400
  {
  }

  /** Two requests count on the same key exactly when user and resource are the same and, for jobs
      and LLM tokens, the day is. */
  lemma CounterKeyIff(u1: UserId, r1: Resource, t1: int, u2: UserId, r2: Resource, t2: int)
    ensures CounterKey(u1, r1, t1) == CounterKey(u2, r2, t2)
       <==> u1 == u2 && r1 == r2 && (r1 == JobsPerDay || r1 == LlmTokensPerDay ==> Day(t1) == Day(t2))
  {
    hide Day;
  }

  /** All resources but the two counted in the database have a counter. */
  lemma CountedInRedisIff(r: Resource)
    ensures r.Daily() || r.Absolute() <==> r != ConcurrentJobs && r != LiveEndpoints
    ensures r.Daily() ==> !r.Absolute()
  {
  }

  /** Consuming adds the amount; the expiry is set anew for daily counters and for counters that
      were at zero, and otherwise stays. */
  lemma ConsumeMovesExpiryIff(cs: Counters, key: Key, amount: int, daily: bool, now: int, ttl: int)
    ensures var after := Consume(cs, key, amount, daily, now, ttl);
      && Read(after, key) == Read(cs, key) + amount
      && (daily || Read(cs, key) == 0 ==> after[key].expiresAt == Some(now + ttl))
      && (!daily && Read(cs, key) != 0 ==> after[key].expiresAt == cs[key].expiresAt)
      && forall other | other != key :: Read(after, other) == Read(cs, other)
  {
  }

  /** Releasing takes the amount off but stops at zero, and only then drops the expiry. */
  lemma GiveStopsAtZero(cs: Counters, key: Key, amount: nat)
    requires key in cs && cs[key].value >= 0
    ensures var was, after := cs[key], Give(cs, key, amount);
      && Read(after, key) == (if amount <= was.value then was.value - amount else 0)
      && after[key].expiresAt == (if amount <= was.value then was.expiresAt else None)
      && forall other | other != key :: Read(after, other) == Read(cs, other)
  {
  }

  class Redis {
    var counters: Counters

    constructor ()
      ensures counters == map[]
    {
      counters := map[];
    }

    /** `enforce`; `rows` is the count of active rows for the resources counted in the database. */
    method Enforce(user: UserId, resource: Resource, amount: int, limit: int, rows: int, now: int, ttl: int) returns (v: Verdict)
      modifies this
      ensures var key := CounterKey(user, resource, now);
        && v == Judge(if resource.Daily() || resource.Absolute() then Read(old(counters), key) else rows, amount, limit)
        && counters == if v.Granted? && (resource.Daily() || resource.Absolute())
                       then Consume(old(counters), key, amount, resource.Daily(), now, ttl) else old(counters)
    {
      if amount < 1 {
        return InvalidAmount;
      }
      var key := CounterKey(user, resource, now);
      var current := rows;
      if !resource.ConcurrentJobs? && !resource.LiveEndpoints? {
        current := if key in counters then counters[key].value else 0;
      }
      if current + amount > limit {
        return Exceeded(limit, current);
      }
      if resource.Daily() || resource.Absolute() {
        var kept := if key in counters then counters[key].expiresAt else None;
        var newValue := (if key in counters then counters[key].value else 0) + amount;
        counters := counters[key := Counter(newValue, kept)];
        if newValue == amount || resource.Daily() {
          counters := counters[key := Counter(newValue, Some(now + ttl))];
        }
      }
      v := Granted;
    }

    /** `release`; false is the ValueError. */
    method Release(user: UserId, resource: Resource, amount: int, now: int) returns (ok: bool)
      modifies this
      ensures ok <==> amount >= 1
      ensures counters == if ok && (resource.Daily() || resource.Absolute())
                          then Give(old(counters), CounterKey(user, resource, now), amount) else old(counters)
    {
      if amount < 1 {
        return false;
      }
      ok := true;
      if !resource.Absolute() && !resource.Daily() {
        return;
      }
      var key := CounterKey(user, resource, now);
      var newValue := (if key in counters then counters[key].value else 0) - amount;
      counters := counters[key := Counter(newValue, if key in counters then counters[key].expiresAt else None)];
      if newValue < 0 {
        counters := counters[key := Counter(0, None)];
      }
    }
  }

  // ------------------------------------------------------------------ one daily counter

  /** The daily job counter of one user: submits read it, and later increment it. */
  datatype State = State(
    now: int,
    counters: Counters,
    pending: nat,              // submits between their read and their increment
    admitted: map<int, nat>)   // history: increments made on each day

  datatype Op =
    | Wait(seconds: nat)
    | ReadCounter(limit: int)   // the check passed
    | Abandon
    | Increment
    | Vanish(day: int)          // Redis drops an expired key

  function JobKey(u: UserId, day: int): Key { DayKey(u, JobsPerDay, day) }

  function AdmittedOn(s: State, day: int): nat { if day in s.admitted then s.admitted[day] else 0 }

  predicate Enabled(u: UserId, s: State, op: Op) {
    match op
    case Wait(_) => true
    case ReadCounter(limit) => Judge(Read(s.counters, CounterKey(u, JobsPerDay, s.now)), 1, limit).Granted?
    case Abandon => s.pending > 0
    case Increment => s.pending > 0
    case Vanish(day) =>
      && JobKey(u, day) in s.counters
      && s.counters[JobKey(u, day)].expiresAt.Some?
      && s.now >= s.counters[JobKey(u, day)].expiresAt.value
  }

  function Apply(u: UserId, ttl: int, s: State, op: Op): State
    requires Enabled(u, s, op)
  {
    match op
    case Wait(seconds) => s.(now := s.now + seconds)
    case ReadCounter(_) => s.(pending := s.pending + 1)
    case Abandon => s.(pending := s.pending - 1)
    case Increment =>
      s.(pending := s.pending - 1,
         counters := Consume(s.counters, CounterKey(u, JobsPerDay, s.now), 1, true, s.now, ttl),
         admitted := s.admitted[Day(s.now) := AdmittedOn(s, Day(s.now)) + 1])
    case Vanish(day) => s.(counters := s.counters - {JobKey(u, day)})
  }

  ghost predicate Run(u: UserId, ttl: int, states: seq<State>, ops: seq<Op>) {
    && |states| == |ops| + 1
    && states[0] == State(states[0].now, map[], 0, map[])
    && forall i | 0 <= i < |ops| :: Enabled(u, states[i], ops[i]) && states[i + 1] == Apply(u, ttl, states[i], ops[i])
  }

  ghost predicate Inv(u: UserId, ttl: int, limit: int, inFlight: nat, s: State) {
    var today := Day(s.now);
    && Read(s.counters, JobKey(u, today)) == AdmittedOn(s, today)
    && AdmittedOn(s, today) + s.pending <= limit + inFlight - 1
    && (limit == 0 ==> s.pending == 0)
    && (forall d | d in s.admitted :: d <= today && s.admitted[d] <= limit + inFlight - 1)
    && (forall d | d > today :: JobKey(u, d) !in s.counters)
    && (forall d | JobKey(u, d) in s.counters && s.counters[JobKey(u, d)].expiresAt.Some? ::
          s.counters[JobKey(u, d)].expiresAt.value >= d * DAY_SECONDS + ttl)
  }

  lemma StepKeepsInv(u: UserId, ttl: int, limit: int, inFlight: nat, s: State, op: Op)
    requires limit >= 0 && inFlight >= 1 && ttl >= DAY_SECONDS
    requires Enabled(u, s, op) && Inv(u, ttl, limit, inFlight, s)
    requires op.ReadCounter? ==> op.limit <= limit
    requires s.pending <= inFlight && Apply(u, ttl, s, op).pending <= inFlight
    ensures Inv(u, ttl, limit, inFlight, Apply(u, ttl, s, op))
  {
    var t := Apply(u, ttl, s, op);
    var today := Day(s.now);
    if op.Wait? {
      assert Day(t.now) >= today;
    } else if op.Vanish? {
      assert s.now < (today + 1) * DAY_SECONDS;
    } else if op.Increment? {
      assert s.now >= today * DAY_SECONDS;
      assert CounterKey(u, JobsPerDay, s.now) == JobKey(u, today);
    }
  }

  /** With a time to live of at least a day and at most k submits of a user between their read
      and their increment, no day admits more than limit + k - 1 jobs; the increments that cross
      midnight are counted on the day they land. */
  lemma {:induction false} DailyOvershootBound(u: UserId, ttl: int, limit: int, inFlight: nat,
      states: seq<State>, ops: seq<Op>, n: nat, day: int)
    requires limit >= 0 && inFlight >= 1 && ttl >= DAY_SECONDS
    requires Run(u, ttl, states, ops) && n < |states|
    requires forall op: Op | op in ops && op.ReadCounter? :: op.limit <= limit
    requires forall s | s in states :: s.pending <= inFlight
    ensures Inv(u, ttl, limit, inFlight, states[n])
    ensures AdmittedOn(states[n], day) <= limit + inFlight - 1
  {
    hide Apply, Enabled;
    if n > 0 {
      DailyOvershootBound(u, ttl, limit, inFlight, states, ops, n - 1, day);
      assert states[n] in states && states[n - 1] in states && ops[n - 1] in ops;
      hide Inv;
      StepKeepsInv(u, ttl, limit, inFlight, states[n - 1], ops[n - 1]);
    }
    InvBounds(u, ttl, limit, inFlight, states[n], day);
  }

  lemma InvBounds(u: UserId, ttl: int, limit: int, inFlight: nat, s: State, day: int)
    requires limit >= 0 && inFlight >= 1 && Inv(u, ttl, limit, inFlight, s)
    ensures AdmittedOn(s, day) <= limit + inFlight - 1
  {
  }
}
