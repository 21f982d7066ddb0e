/** The singleton lease of the worker agents (worker/lock.py, worker/agent.py:165-199), one Redis
    command per step. A token belongs to one lock object and is set at most once. */
module WorkerLease {
  import opened Common

  type Token = nat

  datatype Stage =
    | Working       // acquired, between refreshes; a whole job may run here
    | Refreshing    // GET answered the own token, EXPIRE not yet sent
    | Leaving       // refresh failed or the agent shuts down
    | Deleting      // GET answered the own token, DELETE not yet sent
    | Stopped

  datatype State = State(key: Option<Token>, stages: map<Token, Stage>)

  datatype Op =
    | Acquire(token: Token)         // SET NX EX
    | RefreshGet(token: Token)
    | RefreshExpire(token: Token)
    | ShutDown(token: Token)
    | ReleaseGet(token: Token)
    | ReleaseDelete(token: Token)
    | KeyExpires
    | Die(token: Token)

  function Init(): State { State(None, map[]) }

  predicate At(s: State, t: Token, g: Stage) { t in s.stages && s.stages[t] == g }

  predicate Enabled(s: State, op: Op) {
    match op
    case Acquire(t) => t !in s.stages
    case RefreshGet(t) => At(s, t, Working)
    case RefreshExpire(t) => At(s, t, Refreshing)
    case ShutDown(t) => At(s, t, Working)
    case ReleaseGet(t) => At(s, t, Leaving)
    case ReleaseDelete(t) => At(s, t, Deleting)
    case KeyExpires => s.key.Some?
    case Die(t) => t in s.stages
  }

  function Move(s: State, t: Token, g: Stage): State { s.(stages := s.stages[t := g]) }

  function Apply(s: State, op: Op): State
    requires Enabled(s, op)
  {
    match op
    case Acquire(t) => if s.key.None? then Move(s, t, Working).(key := Some(t)) else Move(s, t, Stopped)
    case RefreshGet(t) => Move(s, t, if s.key == Some(t) then Refreshing else Leaving)
    case RefreshExpire(t) => Move(s, t, Working)
    case ShutDown(t) => Move(s, t, Leaving)
    case ReleaseGet(t) => Move(s, t, if s.key == Some(t) then Deleting else Stopped)
    case ReleaseDelete(t) => Move(s, t, Stopped).(key := None)
    case KeyExpires => s.(key := None)
    case Die(t) => Move(s, t, Stopped)
  }

  ghost predicate Run(states: seq<State>, ops: seq<Op>) {
    && |states| == |ops| + 1
    && states[0] == Init()
    && forall i | 0 <= i < |ops| :: Enabled(states[i], ops[i]) && states[i + 1] == Apply(states[i], ops[i])
  }

  lemma StepKeepsTokensKnown(s: State, op: Op, t: Token)
    requires Enabled(s, op)
    ensures t in s.stages ==> t in Apply(s, op).stages
    ensures t in s.stages && s.key != Some(t) ==> Apply(s, op).key != Some(t)
    ensures Apply(s, op).key == Some(t) ==> s.key == Some(t) || t in Apply(s, op).stages
  {
  }

  lemma {:induction false} OwnerIsKnown(states: seq<State>, ops: seq<Op>, n: nat)
    requires Run(states, ops) && n < |states|
    ensures states[n].key.Some? ==> states[n].key.value in states[n].stages
  {
    hide Apply, Enabled;
    if n > 0 {
      OwnerIsKnown(states, ops, n - 1);
      if states[n].key.Some? {
        StepKeepsTokensKnown(states[n - 1], ops[n - 1], states[n].key.value);
      }
    }
  }

  lemma {:induction false} KnownTokenNeverComesBack(states: seq<State>, ops: seq<Op>, i: nat, j: nat, t: Token)
    requires Run(states, ops) && i <= j < |states|
    requires t in states[i].stages && states[i].key != Some(t)
    ensures t in states[j].stages && states[j].key != Some(t)
  {
    hide Apply, Enabled;
    if i < j {
      KnownTokenNeverComesBack(states, ops, i, j - 1, t);
      StepKeepsTokensKnown(states[j - 1], ops[j - 1], t);
    }
  }

  lemma {:induction false} KnownStaysKnown(states: seq<State>, ops: seq<Op>, i: nat, j: nat, t: Token)
    requires Run(states, ops) && i <= j < |states| && t in states[i].stages
    ensures t in states[j].stages
  {
    hide Apply, Enabled;
    if i < j {
      KnownStaysKnown(states, ops, i, j - 1, t);
      StepKeepsTokensKnown(states[j - 1], ops[j - 1], t);
    }
  }

  /** Once a token has left the key it never owns it again. */
  lemma TokenNeverReturns(states: seq<State>, ops: seq<Op>, i: nat, j: nat, k: nat, t: Token)
    requires Run(states, ops) && i <= j <= k < |states|
    requires states[i].key == Some(t) && states[j].key != Some(t)
    ensures states[k].key != Some(t)
  {
    hide Apply, Enabled;
    OwnerIsKnown(states, ops, i);
    KnownStaysKnown(states, ops, i, j, t);
    KnownTokenNeverComesBack(states, ops, j, k, t);
  }

  predicate RefreshSucceeds(s: State, op: Op, t: Token) { op == RefreshGet(t) && s.key == Some(t) }

  /** Ownership is one interval: two successful refreshes of an agent bracket a time in which
      nobody else owned the key, so no other agent can have refreshed successfully in between. */
  lemma RefreshesBracketOwnership(states: seq<State>, ops: seq<Op>, i: nat, j: nat, k: nat, t: Token, other: Token)
    requires Run(states, ops) && i <= k <= j < |ops|
    requires RefreshSucceeds(states[i], ops[i], t) && RefreshSucceeds(states[j], ops[j], t)
    ensures states[k].key == Some(t)
    ensures RefreshSucceeds(states[k], ops[k], other) ==> other == t
  {
    hide Apply, Enabled;
    if states[k].key != Some(t) {
      TokenNeverReturns(states, ops, i, k, j, t);
      assert false;
    }
  }

  /** An agent that lost the key stops at its next refresh, and at every later one. */
  lemma LoserStopsAtNextRefresh(states: seq<State>, ops: seq<Op>, i: nat, j: nat, t: Token)
    requires Run(states, ops) && i <= j < |ops|
    requires t in states[i].stages && states[i].key != Some(t) && ops[j] == RefreshGet(t)
    ensures At(states[j + 1], t, Leaving)
  {
    KnownTokenNeverComesBack(states, ops, i, j, t);
  }

  /** An agent that still owns the key goes on working after its refresh; one that does not,
      leaves. Neither command of the refresh changes the key. */
  lemma RefreshGoesOnIff(s: State, t: Token)
    requires Enabled(s, RefreshGet(t))
    ensures var u := Apply(s, RefreshGet(t));
      && u.key == s.key
      && (s.key == Some(t) <==> Enabled(u, RefreshExpire(t)))
      && (s.key == Some(t) ==> At(Apply(u, RefreshExpire(t)), t, Working) && Apply(u, RefreshExpire(t)).key == s.key)
      && (s.key != Some(t) ==> At(u, t, Leaving))
  {
  }

  /** A release deletes only after it has read its own token; otherwise it leaves the key alone. */
  lemma ReleaseDeletesIff(s: State, t: Token)
    requires Enabled(s, ReleaseGet(t))
    ensures var u := Apply(s, ReleaseGet(t));
      && u.key == s.key
      && (s.key == Some(t) <==> Enabled(u, ReleaseDelete(t)))
      && (s.key == Some(t) ==> Apply(u, ReleaseDelete(t)).key == None)
      && (s.key != Some(t) ==> At(u, t, Stopped))
  {
  }

  // ------------------------------------------------------------------ one agent at work

  predicate AtWork(s: State, t: Token) { At(s, t, Working) || At(s, t, Refreshing) }

  ghost predicate Exclusive(s: State) {
    forall t, u | AtWork(s, t) && AtWork(s, u) :: t == u
  }

  /** An acquisition that finds the key free while u is still at work. */
  predicate Intrudes(s: State, op: Op, u: Token) {
    op.Acquire? && s.key.None? && u != op.token && AtWork(s, u)
  }

  ghost predicate Unintruded(s: State, op: Op) {
    forall u :: !Intrudes(s, op, u)
  }

  lemma StepIsExclusiveIff(s: State, op: Op)
    requires Enabled(s, op) && Exclusive(s)
    ensures Exclusive(Apply(s, op)) <==> Unintruded(s, op)
  {
    var t := Apply(s, op);
    forall u | Intrudes(s, op, u) ensures !Exclusive(t) {
      assert AtWork(t, u) && AtWork(t, op.token);
    }
    forall u | AtWork(t, u) ensures AtWork(s, u) || (op == Acquire(u) && s.key.None?) {
    }
    if Unintruded(s, op) && op.Acquire? && s.key.None? {
      assert forall u | AtWork(s, u) :: Intrudes(s, op, u) || u == op.token;
    }
  }

  /** At most one agent works throughout a run exactly when no acquisition finds the key free
      while another agent is still at work. */
  lemma {:induction false} OneAgentWorksIff(states: seq<State>, ops: seq<Op>, n: nat)
    requires Run(states, ops) && n < |states|
    ensures (forall m | 0 <= m <= n :: Exclusive(states[m]))
       <==> (forall m | 0 <= m < n :: Unintruded(states[m], ops[m]))
  {
    hide Apply, Enabled, Unintruded, Exclusive;
    if n == 0 {
      NobodyWorks();
    } else {
      OneAgentWorksIff(states, ops, n - 1);
      var s, op := states[n - 1], ops[n - 1];
      assert states[n] == Apply(s, op);
      if Exclusive(s) {
        StepIsExclusiveIff(s, op);
      }
    }
  }

  lemma NobodyWorks()
    ensures Exclusive(Init())
  {
  }

  /** The agent relies on the key: it works, or is about to delete the key as its own. */
  predicate Relies(s: State, t: Token) { AtWork(s, t) || At(s, t, Deleting) }

  /** The key does not expire under an agent that relies on it. */
  predicate OnTime(s: State, op: Op) {
    op.KeyExpires? && s.key.Some? ==> !Relies(s, s.key.value)
  }

  lemma StepKeepsOwnership(s: State, op: Op, t: Token)
    requires Enabled(s, op) && OnTime(s, op)
    requires forall u: Token | Relies(s, u) :: s.key == Some(u)
    ensures Relies(Apply(s, op), t) ==> Apply(s, op).key == Some(t)
  {
    if Relies(Apply(s, op), t) && t in s.stages {
      assert op.ReleaseDelete? ==> Relies(s, op.token);
    }
  }

  /** When the key outlives every stretch in which its owner relies on it, each agent at work
      owns the key, so there is at most one. */
  lemma {:induction false} TimelyLeaseIsExclusive(states: seq<State>, ops: seq<Op>, n: nat)
    requires Run(states, ops) && n < |states|
    requires forall m | 0 <= m < n :: OnTime(states[m], ops[m])
    ensures forall t: Token | Relies(states[n], t) :: states[n].key == Some(t)
    ensures Exclusive(states[n])
  {
    if n > 0 {
      TimelyLeaseIsExclusive(states, ops, n - 1);
      forall t: Token ensures Relies(states[n], t) ==> states[n].key == Some(t) {
        StepKeepsOwnership(states[n - 1], ops[n - 1], t);
      }
    }
    assert forall t: Token | AtWork(states[n], t) :: Relies(states[n], t);
  }

  /** The commands that take a token off the key. */
  predicate Drops(op: Op) { op.KeyExpires? || op.ReleaseDelete? }

  lemma {:induction false} KeyStaysUntilDropped(states: seq<State>, ops: seq<Op>, i: nat, j: nat, t: Token)
    requires Run(states, ops) && i <= j < |states| && states[i].key == Some(t)
    requires forall k | i <= k < j :: !Drops(ops[k])
    ensures states[j].key == Some(t)
  {
    if i < j {
      KeyStaysUntilDropped(states, ops, i, j - 1, t);
    }
  }

  /** A release whose GET saw the own token still deletes the own lease exactly when the key has
      not expired and nobody else has deleted it in between; otherwise it deletes whatever is
      there, another agent's lease included. */
  lemma ReleaseIsCleanIff(states: seq<State>, ops: seq<Op>, i: nat, j: nat, t: Token)
    requires Run(states, ops) && i < j < |ops|
    requires ops[i] == ReleaseGet(t) && states[i].key == Some(t) && ops[j] == ReleaseDelete(t)
    ensures states[j].key == Some(t) <==> forall k | i <= k < j :: !Drops(ops[k])
    ensures states[j + 1].key == None
  {
    if forall k | i <= k < j :: !Drops(ops[k]) {
      KeyStaysUntilDropped(states, ops, i, j, t);
    } else {
      var k :| i <= k < j && Drops(ops[k]);
      assert states[k + 1] == Apply(states[k], ops[k]);
      TokenNeverReturns(states, ops, i, k + 1, j, t);
    }
  }

  // ------------------------------------------------------------------ what does not hold

  /** Two agents can be working at once: the lease is not refreshed while a job runs. */
  lemma TwoAgentsCanWork() returns (states: seq<State>, ops: seq<Op>)
    ensures Run(states, ops)
    ensures At(states[|ops|], 0, Working) && At(states[|ops|], 1, Working)
  {
    ops := [Acquire(0), KeyExpires, Acquire(1)];
    var s1 := Apply(Init(), ops[0]);
    var s2 := Apply(s1, ops[1]);
    states := [Init(), s1, s2, Apply(s2, ops[2])];
  }

  /** A release can delete the lease of a working agent. */
  lemma ReleaseCanRemoveAnothersLease() returns (states: seq<State>, ops: seq<Op>)
    ensures Run(states, ops) && |ops| == 6
    ensures ops[5] == ReleaseDelete(0) && states[5].key == Some(1) && At(states[5], 1, Working) && states[6].key == None
  {
    ops := [Acquire(0), ShutDown(0), ReleaseGet(0), KeyExpires, Acquire(1), ReleaseDelete(0)];
    var s1 := Apply(Init(), ops[0]);
    var s2 := Apply(s1, ops[1]);
    var s3 := Apply(s2, ops[2]);
    var s4 := Apply(s3, ops[3]);
    var s5 := Apply(s4, ops[4]);
    states := [Init(), s1, s2, s3, s4, s5, Apply(s5, ops[5])];
  }

  // ------------------------------------------------------------------ the lock

  /** The shared key and every lock object's place in its own code; the two commands of `refresh`
      and of `release` are separate methods because anything may happen between them. */
  class WorkerLock {
    var key: Option<Token>
    var stages: map<Token, Stage>

    ghost function View(): State
      reads this
    {
      State(key, stages)
    }

    constructor ()
      ensures View() == Init()
    {
      key, stages := None, map[];
    }

    method TryAcquire(t: Token) returns (ok: bool)
      requires t !in stages
      modifies this
      ensures View() == Apply(old(View()), Acquire(t)) && (ok <==> old(key) == None)
    {
      if key != None {
        stages := stages[t := Stopped];
        return false;
      }
      key := Some(t);
      stages := stages[t := Working];
      ok := true;
    }

    method RefreshRead(t: Token) returns (own: bool)
      requires At(View(), t, Working)
      modifies this
      ensures View() == Apply(old(View()), RefreshGet(t)) && (own <==> RefreshSucceeds(old(View()), RefreshGet(t), t))
    {
      var current := key;
      if current != Some(t) {
        stages := stages[t := Leaving];
        return false;
      }
      stages := stages[t := Refreshing];
      own := true;
    }

    method ReleaseRead(t: Token) returns (own: bool)
      requires At(View(), t, Leaving)
      modifies this
      ensures View() == Apply(old(View()), ReleaseGet(t)) && (own <==> old(key) == Some(t))
    {
      var current := key;
      own := current == Some(t);
      stages := stages[t := if own then Deleting else Stopped];
    }

    method ReleaseRemove(t: Token)
      requires At(View(), t, Deleting)
      modifies this
      ensures View() == Apply(old(View()), ReleaseDelete(t))
    {
      key := None;
      stages := stages[t := Stopped];
    }
  }
}
