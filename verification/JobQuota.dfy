/** The concurrency quota is checked before the job row is inserted, so submits of one user can
    pass each other between the two (api/quotas.py:104-171, api/routers/jobs.py:92-103). How far
    the limit can be overshot, and that no run does worse. */
module JobQuota {
  import opened Common
  import opened JobProtocol

  lemma SubsetIsSmaller<T>(a: set<T>, b: set<T>)
    requires a <= b
    ensures |a| <= |b|
  {
    assert b == a + (b - a);
  }

  /** Only a commit adds an active job, and it adds one: no later step of the protocol brings a
      terminal job back. */
  lemma StepCountsActive(s: State, op: Op, u: UserId)
    requires Enabled(s, op)
    ensures var before, after := ActiveJobs(s.jobs, u), ActiveJobs(Apply(s, op).jobs, u);
      if op.CommitJob? && op.user == u then after == before + {op.id} && op.id !in before else after <= before
  {
    hide Apply, Enabled, Rank;
    var t := Apply(s, op);
    forall id | id in ActiveJobs(t.jobs, u) ensures id in ActiveJobs(s.jobs, u) || op == CommitJob(u, id) {
      StepKeepsOwner(s, op, id);
    }
    if op.CommitJob? && op.user == u {
      forall id | id in ActiveJobs(s.jobs, u) ensures id in ActiveJobs(t.jobs, u) {
        StepKeepsOwner(s, op, id);
      }
      StepKeepsOwner(s, op, op.id);
    }
  }

  lemma StepKeepsOwner(s: State, op: Op, id: JobId)
    requires Enabled(s, op)
    ensures var t := Apply(s, op);
      && (id in s.jobs ==> id in t.jobs && t.jobs[id].user == s.jobs[id].user)
      && (id in s.jobs && s.jobs[id].status.Terminal() ==> t.jobs[id].status.Terminal())
      && (id in t.jobs && id !in s.jobs ==> op == CommitJob(t.jobs[id].user, id))
      && (op.CommitJob? ==> op.id !in s.jobs && op.id in t.jobs && t.jobs[op.id] == Job(op.user, Queued, None))
      && (op.CommitJob? && id in s.jobs ==> t.jobs[id] == s.jobs[id])
  {
  }

  ghost predicate Bounded(states: seq<State>, ops: seq<Op>, u: UserId, limit: int, inFlight: nat) {
    && Run(states, ops)
    && (forall op: Op | op in ops && op.CountJobs? && op.user == u :: op.limit <= limit)
    && (forall s | s in states :: Counted(s, u) <= inFlight)
  }

  lemma NobodyIsActive(u: UserId)
    ensures ActiveJobs(Init().jobs, u) == {} && Counted(Init(), u) == 0
  {
  }

  lemma StepMovesCounted(s: State, op: Op, u: UserId)
    requires Enabled(s, op)
    ensures Counted(Apply(s, op), u) == Counted(s, u) + (if op.CountJobs? && op.user == u then 1 else 0)
                                      - (if (op.GiveUp? || op.CommitJob?) && op.user == u then 1 else 0)
    ensures op.CountJobs? && op.user == u ==> |ActiveJobs(s.jobs, u)| + 1 <= op.limit
  {
    hide ActiveJobs, IsQueued;
  }

  lemma StepKeepsBound(s: State, op: Op, u: UserId, limit: int, inFlight: nat)
    requires Enabled(s, op) && |ActiveJobs(s.jobs, u)| + Counted(s, u) <= limit + inFlight - 1
    requires op.CountJobs? && op.user == u ==> op.limit <= limit
    requires Counted(s, u) <= inFlight && Counted(Apply(s, op), u) <= inFlight
    ensures |ActiveJobs(Apply(s, op).jobs, u)| + Counted(Apply(s, op), u) <= limit + inFlight - 1
  {
    StepCountsActive(s, op, u);
    StepMovesCounted(s, op, u);
    hide Apply, Enabled, ActiveJobs, Counted;
    if op.CommitJob? && op.user == u {
    } else {
      SubsetIsSmaller(ActiveJobs(Apply(s, op).jobs, u), ActiveJobs(s.jobs, u));
    }
    if op.CountJobs? && op.user == u {
      assert |ActiveJobs(Apply(s, op).jobs, u)| <= limit - 1;
    }
  }

  /** With at most k submits of a user between their count and their commit, the user's active
      jobs never exceed limit + k - 1; so never the limit when submits are serialised. */
  lemma {:induction false} OvershootBound(states: seq<State>, ops: seq<Op>, n: nat, u: UserId, limit: int, inFlight: nat)
    requires Bounded(states, ops, u, limit, inFlight) && n < |states|
    requires limit >= 0 && inFlight >= 1
    ensures |ActiveJobs(states[n].jobs, u)| + Counted(states[n], u) <= limit + inFlight - 1
  {
    hide Apply, Enabled, ActiveJobs;
    if n == 0 {
      NobodyIsActive(u);
    } else {
      OvershootBound(states, ops, n - 1, u, limit, inFlight);
      assert states[n] in states && states[n - 1] in states && ops[n - 1] in ops;
      StepKeepsBound(states[n - 1], ops[n - 1], u, limit, inFlight);
    }
  }

  // ------------------------------------------------------------------ the bound is reached

  function FirstIds(m: nat): (r: set<nat>)
    ensures |r| == m
    ensures forall i :: i in r <==> 0 <= i < m
  {
    if m == 0 then {} else FirstIds(m - 1) + {m - 1}
  }

  lemma Extend(states: seq<State>, ops: seq<Op>, op: Op)
    requires Run(states, ops) && Enabled(states[|ops|], op)
    ensures Run(states + [Apply(states[|ops|], op)], ops + [op])
  {
  }

  /** m committed jobs of one user and c submits past their count. */
  ghost predicate Crowd(s: State, u: UserId, m: nat, c: nat) {
    && s.pushed == [] && Counted(s, u) == c
    && ActiveJobs(s.jobs, u) == FirstIds(m)
    && forall id: JobId :: id in s.jobs <==> id < m
  }

  lemma OneMoreCount(states: seq<State>, ops: seq<Op>, u: UserId, limit: int, inFlight: nat, m: nat, c: nat)
    returns (states': seq<State>, ops': seq<Op>)
    requires Bounded(states, ops, u, limit, inFlight) && Crowd(states[|ops|], u, m, c) && m < limit && c < inFlight
    ensures Bounded(states', ops', u, limit, inFlight) && Crowd(states'[|ops'|], u, m, c + 1)
  {
    var op := CountJobs(u, limit);
    Extend(states, ops, op);
    states', ops' := states + [Apply(states[|ops|], op)], ops + [op];
  }

  lemma OneMoreCommit(states: seq<State>, ops: seq<Op>, u: UserId, limit: int, inFlight: nat, m: nat, c: nat)
    returns (states': seq<State>, ops': seq<Op>)
    requires Bounded(states, ops, u, limit, inFlight) && Crowd(states[|ops|], u, m, c) && 0 < c <= inFlight
    ensures Bounded(states', ops', u, limit, inFlight) && Crowd(states'[|ops'|], u, m + 1, c - 1)
  {
    var op := CommitJob(u, m);
    StepCountsActive(states[|ops|], op, u);
    Extend(states, ops, op);
    states', ops' := states + [Apply(states[|ops|], op)], ops + [op];
  }

  /** The bound is attained, for every limit and every number of submits in flight. */
  lemma OvershootIsAttained(u: UserId, limit: nat, inFlight: nat) returns (states: seq<State>, ops: seq<Op>)
    requires limit >= 1 && inFlight >= 1
    ensures Bounded(states, ops, u, limit, inFlight)
    ensures |ActiveJobs(states[|ops|].jobs, u)| == limit + inFlight - 1
  {
    states, ops := [Init()], [];
    var m, c := 0, 0;
    while m < limit - 1
      invariant m <= limit - 1
      invariant Bounded(states, ops, u, limit, inFlight) && Crowd(states[|ops|], u, m, 0)
    {
      states, ops := OneMoreCount(states, ops, u, limit, inFlight, m, 0);
      states, ops := OneMoreCommit(states, ops, u, limit, inFlight, m, 1);
      m := m + 1;
    }
    while c < inFlight
      invariant c <= inFlight
      invariant Bounded(states, ops, u, limit, inFlight) && Crowd(states[|ops|], u, m, c)
    {
      states, ops := OneMoreCount(states, ops, u, limit, inFlight, m, c);
      c := c + 1;
    }
    while c > 0
      invariant m + c == limit - 1 + inFlight && c <= inFlight
      invariant Bounded(states, ops, u, limit, inFlight) && Crowd(states[|ops|], u, m, c)
    {
      states, ops := OneMoreCommit(states, ops, u, limit, inFlight, m, c);
      m, c := m + 1, c - 1;
    }
  }
}
