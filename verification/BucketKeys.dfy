/** Which bucket a request is charged to, and that buckets never touch each other
    (api/rate_limit.py, `resolve_identity`, `bucket_key`, `consume_token`). */
module BucketKeys {
  import opened Common
  import opened TokenBucket

  /** The four tiers; only these names reach a bucket key. */
  datatype Tier = Default | Auth | JobsWrite | Llm {
    function Name(): string {
      match this
      case Default => "default"
      case Auth => "auth"
      case JobsWrite => "jobs_write"
      case Llm => "llm"
    }

    /** Sign-in is limited by address whoever asks. */
    predicate ForceIp() { Auth? }
  }

  /** The configured budgets of the tiers. */
  datatype Tiers = Tiers(
    defaultPerMin: int, defaultBurst: int,
    authPerMin: int, authBurst: int,
    jobsWritePerHour: int, jobsWriteBurst: int,
    llmPerMin: int, llmBurst: int)
  {
    predicate Valid() {
      && defaultPerMin > 0 && authPerMin > 0 && jobsWritePerHour > 0 && llmPerMin > 0
      && defaultBurst >= 0 && authBurst >= 0 && jobsWriteBurst >= 0 && llmBurst >= 0
    }

    function Policy(tier: Tier): (p: Policy)
      ensures Valid() ==> p.Valid()
    {
      match tier
      case Default => TokenBucket.Policy(defaultBurst, defaultPerMin as real / 60.0)
      case Auth => TokenBucket.Policy(authBurst, authPerMin as real / 60.0)
      case JobsWrite => TokenBucket.Policy(jobsWriteBurst, jobsWritePerHour as real / 3600.0)
      case Llm => TokenBucket.Policy(llmBurst, llmPerMin as real / 60.0)
    }
  }

  /** Each tier refills by its own budget over its own unit of time, up to its own burst. */
  lemma TiersKeepTheirBudgets(tiers: Tiers, now: int)
    requires tiers.Valid()
    ensures var p := tiers.Policy(Default); p.capacity == tiers.defaultBurst && Inflow(p, now, now + 60_000) == tiers.defaultPerMin as real
    ensures var p := tiers.Policy(Auth); p.capacity == tiers.authBurst && Inflow(p, now, now + 60_000) == tiers.authPerMin as real
    ensures var p := tiers.Policy(JobsWrite);
      p.capacity == tiers.jobsWriteBurst && Inflow(p, now, now + 3_600_000) == tiers.jobsWritePerHour as real
    ensures var p := tiers.Policy(Llm); p.capacity == tiers.llmBurst && Inflow(p, now, now + 60_000) == tiers.llmPerMin as real
  {
  }

  /** What the Authorization header carried: an API key, a token that decodes to a subject, or
      nothing usable. */
  datatype Credential = ApiKey(token: string) | Subject(sub: string) | Unusable

  function ResolveIdentity(credential: Credential, ip: string, forceIp: bool): string {
    if forceIp then "ip:" + ip
    else match credential
      case ApiKey(token) => "key:" + if |token| <= 8 then token else token[..8]
      case Subject(sub) => if sub != "" then "user:" + sub else "ip:" + ip
      case Unusable => "ip:" + ip
  }

  const KEY_PREFIX := "perzforge:ratelimit"

  function BucketKeyOf(tier: Tier, identity: string): string {
    KEY_PREFIX + [':'] + (tier.Name() + [':'] + identity)
  }

  lemma KeyIsInjective(t1: Tier, i1: string, t2: Tier, i2: string)
    ensures BucketKeyOf(t1, i1) == BucketKeyOf(t2, i2) <==> t1 == t2 && i1 == i2
  {
    var k1, k2 := BucketKeyOf(t1, i1), BucketKeyOf(t2, i2);
    var n := |KEY_PREFIX| + 1;
    assert k1[n..] == t1.Name() + [':'] + i1 && k2[n..] == t2.Name() + [':'] + i2;
    if k1 == k2 {
      SplitAtSeparator(':', t1.Name(), i1, t2.Name(), i2);
      SplitAtSeparator(':', t2.Name(), i2, t1.Name(), i1);
      assert t1.Name()[0] == t2.Name()[0];
    }
  }

  /** Who shares a bucket with whom, for callers that are not forced onto their address. */
  predicate SameCaller(c1: Credential, ip1: string, c2: Credential, ip2: string) {
    match (c1, c2)
    case (ApiKey(k1), ApiKey(k2)) => (if |k1| <= 8 then k1 else k1[..8]) == (if |k2| <= 8 then k2 else k2[..8])
    case (Subject(s1), Subject(s2)) => s1 == s2 && (s1 == "" ==> ip1 == ip2)
    case (Subject(s), Unusable) => s == "" && ip1 == ip2
    case (Unusable, Subject(s)) => s == "" && ip1 == ip2
    case (Unusable, Unusable) => ip1 == ip2
    case _ => false
  }

  lemma CallersShareABucketIff(tier: Tier, c1: Credential, ip1: string, c2: Credential, ip2: string)
    ensures BucketKeyOf(tier, ResolveIdentity(c1, ip1, false)) == BucketKeyOf(tier, ResolveIdentity(c2, ip2, false))
       <==> SameCaller(c1, ip1, c2, ip2)
    ensures BucketKeyOf(tier, ResolveIdentity(c1, ip1, true)) == BucketKeyOf(tier, ResolveIdentity(c2, ip2, true))
       <==> ip1 == ip2
    ensures BucketKeyOf(tier, ResolveIdentity(c1, ip1, tier.ForceIp())) == BucketKeyOf(tier, ResolveIdentity(c2, ip2, tier.ForceIp()))
       <==> (if tier == Auth then ip1 == ip2 else SameCaller(c1, ip1, c2, ip2))
  {
    var r1, r2 := ResolveIdentity(c1, ip1, false), ResolveIdentity(c2, ip2, false);
    KeyIsInjective(tier, r1, tier, r2);
    KeyIsInjective(tier, "ip:" + ip1, tier, "ip:" + ip2);
    assert ("ip:" + ip1)[3..] == ip1 && ("ip:" + ip2)[3..] == ip2;
    assert r1[0] == 'k' ==> r1[4..] == if |c1.token| <= 8 then c1.token else c1.token[..8];
    assert r2[0] == 'k' ==> r2[4..] == if |c2.token| <= 8 then c2.token else c2.token[..8];
    assert r1[0] == 'u' ==> r1[5..] == c1.sub;
    assert r2[0] == 'u' ==> r2[5..] == c2.sub;
  }

  // ------------------------------------------------------------------ interleaved runs

  datatype Request = Request(tier: Tier, identity: string, now: int) {
    function Key(): string { BucketKeyOf(tier, identity) }
    /** The limiter always asks for one token. */
    function AsCall(): Call { Call(now, 1.0) }
    predicate For(t: Tier, id: string) { tier == t && identity == id }
  }

  function Stored(store: map<string, Bucket>, key: string): Bucket {
    if key in store then store[key] else Absent
  }

  /** Every bucket before request n. */
  function StoreAt(tiers: Tiers, requests: seq<Request>, n: nat): map<string, Bucket>
    requires tiers.Valid() && n <= |requests|
  {
    if n == 0 then map[]
    else
      var store, r := StoreAt(tiers, requests, n - 1), requests[n - 1];
      store[r.Key() := After(tiers.Policy(r.tier), Stored(store, r.Key()), r.AsCall())]
  }

  function ReplyTo(tiers: Tiers, requests: seq<Request>, n: nat): Reply
    requires tiers.Valid() && n < |requests|
  {
    var r := requests[n];
    Answer(tiers.Policy(r.tier), Stored(StoreAt(tiers, requests, n), r.Key()), r.AsCall())
  }

  /** The calls among the first n requests that belong to one bucket. */
  function OwnCalls(requests: seq<Request>, tier: Tier, identity: string, n: nat): seq<Call>
    requires n <= |requests|
  {
    if n == 0 then [] else
      OwnCalls(requests, tier, identity, n - 1)
      + (if requests[n - 1].For(tier, identity) then [requests[n - 1].AsCall()] else [])
  }

  /** The replies those calls got inside the interleaved run. */
  function OwnReplies(tiers: Tiers, requests: seq<Request>, tier: Tier, identity: string, n: nat): seq<Reply>
    requires tiers.Valid() && n <= |requests|
  {
    if n == 0 then [] else
      OwnReplies(tiers, requests, tier, identity, n - 1)
      + (if requests[n - 1].For(tier, identity) then [ReplyTo(tiers, requests, n - 1)] else [])
  }

  /** The replies of a run on one bucket alone. */
  function RepliesAlone(p: Policy, calls: seq<Call>): seq<Reply>
    requires p.Valid()
  {
    if calls == [] then [] else
      var m := |calls| - 1;
      RepliesAlone(p, calls[..m]) + [Answer(p, BucketAt(p, Absent, calls[..m], m), calls[m])]
  }

  lemma {:induction false} BucketAtPrefix(p: Policy, calls: seq<Call>, more: seq<Call>, n: nat)
    requires p.Valid() && n <= |calls|
    ensures BucketAt(p, Absent, calls + more, n) == BucketAt(p, Absent, calls, n)
  {
    if n > 0 {
      BucketAtPrefix(p, calls, more, n - 1);
    }
  }

  lemma OneMoreCall(p: Policy, calls: seq<Call>, c: Call)
    requires p.Valid()
    ensures RepliesAlone(p, calls + [c]) == RepliesAlone(p, calls) + [Answer(p, BucketAt(p, Absent, calls, |calls|), c)]
    ensures BucketAt(p, Absent, calls + [c], |calls| + 1) == After(p, BucketAt(p, Absent, calls, |calls|), c)
  {
    hide Answer, After;
    assert (calls + [c])[..|calls|] == calls;
    BucketAtPrefix(p, calls, [c], |calls|);
  }

  /** However requests to all buckets interleave, one bucket answers exactly as if its own
      requests had been the only ones. */
  lemma {:induction false} BucketsDoNotInterfere(tiers: Tiers, requests: seq<Request>, tier: Tier, identity: string, n: nat)
    requires tiers.Valid() && n <= |requests|
    ensures var own := OwnCalls(requests, tier, identity, n);
      && OwnReplies(tiers, requests, tier, identity, n) == RepliesAlone(tiers.Policy(tier), own)
      && Stored(StoreAt(tiers, requests, n), BucketKeyOf(tier, identity)) == BucketAt(tiers.Policy(tier), Absent, own, |own|)
  {
    hide Answer, After, BucketKeyOf;
    if n > 0 {
      BucketsDoNotInterfere(tiers, requests, tier, identity, n - 1);
      var r, before := requests[n - 1], OwnCalls(requests, tier, identity, n - 1);
      KeyIsInjective(r.tier, r.identity, tier, identity);
      OneMoreCall(tiers.Policy(tier), before, r.AsCall());
      if r.For(tier, identity) {
        assert OwnCalls(requests, tier, identity, n) == before + [r.AsCall()];
        assert |before + [r.AsCall()]| == |before| + 1;
      } else {
        assert OwnCalls(requests, tier, identity, n) == before;
        var store := StoreAt(tiers, requests, n - 1);
        assert StoreAt(tiers, requests, n)
            == store[r.Key() := After(tiers.Policy(r.tier), Stored(store, r.Key()), r.AsCall())];
      }
    }
  }

  /** Of the requests that find a bucket unused at one instant exactly its burst is allowed: a
      request costs one token. */
  lemma {:induction false} BurstIsExact(tiers: Tiers, requests: seq<Request>, n: nat)
    requires tiers.Valid() && n < |requests|
    requires forall r | r in requests :: r == requests[0]
    ensures var burst := tiers.Policy(requests[0].tier).capacity;
      && (ReplyTo(tiers, requests, n).allowed <==> n < burst)
      && Stored(StoreAt(tiers, requests, n + 1), requests[0].Key())
         == Present((burst - if n < burst then n + 1 else burst) as real, requests[0].now)
  {
    hide BucketKeyOf, Answer, After, Level;
    var r := requests[0];
    var p := tiers.Policy(r.tier);
    assert requests[n] in requests;
    if n == 0 {
      FirstUnitCall(p, r.now);
    } else {
      BurstIsExact(tiers, requests, n - 1);
      OneUnitCall(p, (p.capacity - if n < p.capacity then n else p.capacity) as real, r.now);
    }
  }

  /** The clamps around the script's reply never change it. */
  lemma ClampsNeverBite(p: Policy, b: Bucket, c: Call)
    requires p.Valid() && c.cost > 0.0 && (b.Present? ==> 0.0 <= b.tokens <= p.capacity as real)
    ensures var raw := Answer(p, b, c); raw.(remaining := Max(0, raw.remaining), retryAfter := Max(0, raw.retryAfter)) == raw
  {
    hide Answer, After, Level;
    LeftIsBounded(p, b, c);
    AnswerIsConsistent(p, b, c);
  }

  lemma FirstUnitCall(p: Policy, now: int)
    requires p.Valid()
    ensures var unit := Call(now, 1.0);
      && (Answer(p, Absent, unit).allowed <==> 0 < p.capacity)
      && After(p, Absent, unit) == Present((p.capacity - if 0 < p.capacity then 1 else p.capacity) as real, now)
  {
    hide SecondsFor;
  }

  /** The limiter's share of Redis: one hash per bucket key. */
  class RateLimiter {
    var buckets: map<string, Bucket>
    var scriptLoaded: bool   // Redis forgets loaded scripts when it restarts

    constructor ()
      ensures buckets == map[] && scriptLoaded
    {
      buckets, scriptLoaded := map[], true;
    }

    /** EVALSHA; a NOSCRIPT error loads the script and evaluates it once more. */
    method ConsumeToken(tiers: Tiers, r: Request) returns (reply: Reply)
      requires tiers.Valid()
      modifies this
      ensures scriptLoaded
      ensures buckets == old(buckets)[r.Key() := After(tiers.Policy(r.tier), Stored(old(buckets), r.Key()), r.AsCall())]
      ensures var raw := Answer(tiers.Policy(r.tier), Stored(old(buckets), r.Key()), r.AsCall());
        reply == raw.(remaining := Max(0, raw.remaining), retryAfter := Max(0, raw.retryAfter))
    {
      hide Level, Ceil;
      if !scriptLoaded {
        scriptLoaded := true;
      }
      var p, key := tiers.Policy(r.tier), r.Key();
      var hash := new BucketKey();
      hash.Load(Stored(buckets, key));
      var raw := hash.Eval(p, r.now, 1.0);
      buckets := buckets[key := Present(hash.tokens.value, hash.ts.value)];
      reply := raw.(remaining := Max(0, raw.remaining), retryAfter := Max(0, raw.retryAfter));
    }
  }
}
