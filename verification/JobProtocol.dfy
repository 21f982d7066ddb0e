/** The job protocol shared by the API, the Redis list, the worker agents and the restart
    reaper, as interleaved atomic steps (api/routers/jobs.py, api/queue.py, worker/agent.py,
    worker/repository.py, worker/cancel_listener.py). Every database session is one step;
    nothing else is atomic. The steps keep the guards the code has and no others. */
module JobProtocol {
  import opened Common

  datatype Status = Queued | Running | Cancelling | Succeeded | Failed | Cancelled {
    predicate Terminal() { Succeeded? || Failed? || Cancelled? }
  }

  type JobId = nat
  type UserId = nat
  type AgentId = nat
  type Host = nat

  datatype Job = Job(user: UserId, status: Status, worker: Option<Host>)

  /** What running a container came to. */
  datatype ContainerResult = ContainerResult(exitCode: Option<int>, errorMessage: Option<string>, timedOut: bool, cancelled: bool)

  /** The status an agent writes for a result. */
  function FinalStatus(r: ContainerResult): Status {
    if r.cancelled then Cancelled
    else if r.timedOut || r.errorMessage == Some("timeout") then Failed
    else if r.errorMessage.Some? then Failed
    else if r.exitCode == Some(0) then Succeeded
    else Failed
  }

  datatype Phase =
    | Gone                                                     // no such agent
    | Starting                                                 // lock held, zombies not yet reaped
    | Idle                                                     // waiting in BRPOP
    | Popped(id: JobId)                                        // id off the list, row not read
    | Loaded(id: JobId)                                        // row was read as QUEUED
    | Executing(id: JobId, listening: bool, cancelSet: bool)   // container started
    | Exited(id: JobId, result: ContainerResult)               // result not yet written

  datatype Agent = Agent(host: Host, phase: Phase)

  datatype State = State(
    jobs: map<JobId, Job>,
    counted: map<UserId, nat>,      // submits past the count of active jobs, not yet committed
    awaiting: set<JobId>,           // committed, LPUSH not yet answered
    queue: seq<JobId>,              // the Redis list, head first
    publishing: set<JobId>,         // CANCELLING committed, control message not yet sent
    agents: map<AgentId, Agent>,
    pushed: seq<JobId>,             // history of LPUSH
    popped: seq<JobId>,             // history of BRPOP
    started: seq<JobId>,            // history of container starts
    lost: set<JobId>)               // ids that died with a process before they could start

  datatype Op =
    | CountJobs(user: UserId, limit: int)         // the concurrency check passed
    | GiveUp(user: UserId)                        // refused by the daily quota, or died
    | CommitJob(user: UserId, id: JobId)
    | EnqueueOk(id: JobId)
    | EnqueueFail(id: JobId)                      // LPUSH raised: nothing was pushed
    | ApiDies(id: JobId)                          // between the commit and the push
    | ForeignPush(id: JobId)                      // somebody else pushes an id, perhaps again
    | Cancel(id: JobId)
    | PublishCancel(id: JobId)
    | StartAgent(agent: AgentId, host: Host)
    | Reap(agent: AgentId)
    | Pop(agent: AgentId)
    | Load(agent: AgentId)
    | RejectSpec(agent: AgentId)
    | MarkRunning(agent: AgentId)
    | Subscribe(agent: AgentId)                   // the cancel listener is on the channel
    | ContainerExit(agent: AgentId, result: ContainerResult)
    | Finalize(agent: AgentId)
    | KillAgent(agent: AgentId)

  function Init(): State {
    State(map[], map[], {}, [], {}, map[], [], [], [], {})
  }

  function Counted(s: State, u: UserId): nat {
    if u in s.counted then s.counted[u] else 0
  }

  function ActiveJobs(jobs: map<JobId, Job>, u: UserId): set<JobId> {
    set id | id in jobs && jobs[id].user == u && !jobs[id].status.Terminal()
  }

  function PhaseOf(s: State, a: AgentId): Phase {
    if a in s.agents then s.agents[a].phase else Gone
  }

  predicate Enabled(s: State, op: Op) {
    match op
    case CountJobs(u, limit) => |ActiveJobs(s.jobs, u)| + 1 <= limit
    case GiveUp(u) => Counted(s, u) > 0
    case CommitJob(u, id) => Counted(s, u) > 0 && id !in s.jobs && id !in s.pushed
    case EnqueueOk(id) => id in s.awaiting
    case EnqueueFail(id) => id in s.awaiting
    case ApiDies(id) => id in s.awaiting
    case ForeignPush(id) => true
    case Cancel(id) => id in s.jobs
    case PublishCancel(id) => id in s.publishing
    case StartAgent(a, host) => PhaseOf(s, a).Gone?
    case Reap(a) => PhaseOf(s, a).Starting?
    case Pop(a) => PhaseOf(s, a).Idle? && s.queue != []
    case Load(a) => PhaseOf(s, a).Popped?
    case RejectSpec(a) => PhaseOf(s, a).Loaded?
    case MarkRunning(a) => PhaseOf(s, a).Loaded?
    case Subscribe(a) => PhaseOf(s, a).Executing?
    case ContainerExit(a, r) => PhaseOf(s, a).Executing? && (r.cancelled ==> PhaseOf(s, a).cancelSet)
    case Finalize(a) => PhaseOf(s, a).Exited?
    case KillAgent(a) => !PhaseOf(s, a).Gone?
  }

  function WithStatus(jobs: map<JobId, Job>, id: JobId, st: Status): map<JobId, Job> {
    if id in jobs then jobs[id := jobs[id].(status := st)] else jobs
  }

  function WithPhase(s: State, a: AgentId, p: Phase): map<AgentId, Agent>
    requires a in s.agents
  {
    s.agents[a := s.agents[a].(phase := p)]
  }

  function IsQueued(s: State, id: JobId): bool {
    id in s.jobs && s.jobs[id].status.Queued?
  }

  /** One row under the reaper of a host. */
  function ReapedRow(j: Job, host: Host): Job {
    if j.worker != Some(host) then j
    else if j.status.Cancelling? then j.(status := Cancelled)
    else if j.status.Running? then j.(status := Failed)
    else j
  }

  function Notified(agent: Agent, id: JobId): Agent {
    match agent.phase
    case Executing(running, true, _) => if running == id then agent.(phase := Executing(id, true, true)) else agent
    case _ => agent
  }

  function Apply(s: State, op: Op): State
    requires Enabled(s, op)
  {
    match op
    case CountJobs(u, _) => s.(counted := s.counted[u := Counted(s, u) + 1])
    case GiveUp(u) => s.(counted := s.counted[u := Counted(s, u) - 1])
    case CommitJob(u, id) =>
      s.(counted := s.counted[u := Counted(s, u) - 1], jobs := s.jobs[id := Job(u, Queued, None)], awaiting := s.awaiting + {id})
    case EnqueueOk(id) => s.(queue := [id] + s.queue, pushed := s.pushed + [id], awaiting := s.awaiting - {id})
    case EnqueueFail(id) => s.(jobs := WithStatus(s.jobs, id, Failed), awaiting := s.awaiting - {id})
    case ApiDies(id) => s.(awaiting := s.awaiting - {id}, lost := s.lost + {id})
    case ForeignPush(id) => s.(queue := [id] + s.queue, pushed := s.pushed + [id])
    case Cancel(id) =>
      var st := s.jobs[id].status;
      if st.Terminal() || st.Cancelling? then s
      else if st.Queued? then s.(jobs := WithStatus(s.jobs, id, Cancelled))
      else s.(jobs := WithStatus(s.jobs, id, Cancelling), publishing := s.publishing + {id})
    case PublishCancel(id) =>
      s.(publishing := s.publishing - {id}, agents := map a | a in s.agents :: Notified(s.agents[a], id))
    case StartAgent(a, host) => s.(agents := s.agents[a := Agent(host, Starting)])
    case Reap(a) =>
      s.(jobs := map id | id in s.jobs :: ReapedRow(s.jobs[id], s.agents[a].host), agents := WithPhase(s, a, Idle))
    case Pop(a) =>
      var id := s.queue[|s.queue| - 1];
      s.(queue := s.queue[..|s.queue| - 1], popped := s.popped + [id], agents := WithPhase(s, a, Popped(id)))
    case Load(a) =>
      var id := s.agents[a].phase.id;
      s.(agents := WithPhase(s, a, if IsQueued(s, id) then Loaded(id) else Idle))
    case RejectSpec(a) =>
      s.(jobs := WithStatus(s.jobs, s.agents[a].phase.id, Failed), agents := WithPhase(s, a, Idle))
    case MarkRunning(a) =>
      var id := s.agents[a].phase.id;
      if IsQueued(s, id) then
        s.(jobs := s.jobs[id := s.jobs[id].(status := Running, worker := Some(s.agents[a].host))],
           agents := WithPhase(s, a, Executing(id, false, false)),
           started := s.started + [id])
      else s.(agents := WithPhase(s, a, Idle))
    case Subscribe(a) =>
      var p := s.agents[a].phase;
      s.(agents := WithPhase(s, a, p.(listening := true)))
    case ContainerExit(a, r) => s.(agents := WithPhase(s, a, Exited(s.agents[a].phase.id, r)))
    case Finalize(a) =>
      var p := s.agents[a].phase;
      s.(jobs := WithStatus(s.jobs, p.id, FinalStatus(p.result)), agents := WithPhase(s, a, Idle))
    case KillAgent(a) =>
      var p := s.agents[a].phase;
      s.(agents := s.agents - {a}, lost := if p.Popped? || p.Loaded? then s.lost + {p.id} else s.lost)
  }

  /** A run: states[i + 1] follows from states[i] by ops[i]. */
  ghost predicate Run(states: seq<State>, ops: seq<Op>) {
    && |states| == |ops| + 1
    && states[0] == Init()
    && forall i | 0 <= i < |ops| :: Enabled(states[i], ops[i]) && states[i + 1] == Apply(states[i], ops[i])
  }

  // ------------------------------------------------------------------ one run per job

  /** How far a job has come; 0 when there is no such job. */
  function Rank(s: State, id: JobId): (r: nat)
    ensures r <= 4
  {
    if id !in s.jobs then 0
    else match s.jobs[id].status
      case Queued => 1
      case Running => 2
      case Cancelling => 3
      case _ => 4
  }

  /** Step i of a run starts the container of a job. */
  predicate StartsContainer(s: State, op: Op, id: JobId) {
    op.MarkRunning? && PhaseOf(s, op.agent) == Loaded(id) && IsQueued(s, id)
  }

  lemma StepNeverGoesBack(s: State, op: Op, id: JobId)
    requires Enabled(s, op)
    ensures var t := Apply(s, op);
      && Rank(s, id) <= Rank(t, id)
      && (Rank(t, id) == 2 && Rank(s, id) != 2 <==> StartsContainer(s, op, id))
      && (Rank(t, id) == 1 && Rank(s, id) != 1 ==> op.CommitJob? && op.id == id && Rank(s, id) == 0)
      && (StartsContainer(s, op, id) ==> Rank(s, id) == 1)
  {
  }

  lemma {:induction false} RunNeverGoesBack(states: seq<State>, ops: seq<Op>, i: nat, j: nat, id: JobId)
    requires Run(states, ops) && i <= j < |states|
    ensures Rank(states[i], id) <= Rank(states[j], id)
  {
    hide Apply, Enabled, Rank;
    if i < j {
      RunNeverGoesBack(states, ops, i, j - 1, id);
      StepNeverGoesBack(states[j - 1], ops[j - 1], id);
    }
  }

  /** Over any interleaving of submits, cancels, crashes, reaps, repeated queue ids and any
      number of agents: a job's container is started at most once, RUNNING is entered by that
      step alone, and once terminal a job is never active again. */
  lemma AtMostOneContainerRun(states: seq<State>, ops: seq<Op>, i: nat, j: nat, id: JobId)
    requires Run(states, ops) && i <= j < |ops|
    ensures StartsContainer(states[i], ops[i], id) && StartsContainer(states[j], ops[j], id) ==> i == j
    ensures Rank(states[i], id) != 2 && Rank(states[i + 1], id) == 2 ==> StartsContainer(states[i], ops[i], id)
    ensures Rank(states[i], id) == 4 ==> Rank(states[j + 1], id) == 4
  {
    hide Apply, Enabled, Rank, StartsContainer;
    StepNeverGoesBack(states[i], ops[i], id);
    StepNeverGoesBack(states[j], ops[j], id);
    RunNeverGoesBack(states, ops, i, j + 1, id);
    if i < j {
      RunNeverGoesBack(states, ops, i + 1, j, id);
    }
  }

  // ------------------------------------------------------------------ conservation

  datatype Place = Awaiting | Listed | InHand(agent: AgentId) | Lost

  /** An agent has the id between BRPOP and mark-running. */
  predicate Holds(s: State, a: AgentId, id: JobId) {
    PhaseOf(s, a) == Popped(id) || PhaseOf(s, a) == Loaded(id)
  }

  predicate IsAt(s: State, id: JobId, p: Place) {
    match p
    case Awaiting => id in s.awaiting
    case Listed => id in s.queue
    case InHand(a) => Holds(s, a, id)
    case Lost => id in s.lost
  }

  ghost predicate AtMostOnePlace(s: State, id: JobId) {
    forall p, q | IsAt(s, id, p) && IsAt(s, id, q) :: p == q
  }

  ghost predicate Conserved(s: State) {
    && NoDuplicates(s.queue)
    && (forall id, p | IsAt(s, id, p) :: id in s.jobs)
    && (forall id :: AtMostOnePlace(s, id))
    && (forall id | IsQueued(s, id) :: exists p :: IsAt(s, id, p))
  }

  /** The place an id must have had for a step to put it where it is now. */
  function CameFrom(s: State, op: Op, id: JobId, p: Place): Place {
    if op == EnqueueOk(id) && p == Listed then Awaiting
    else if op == ApiDies(id) && p == Lost then Awaiting
    else if op.Pop? && p == InHand(op.agent) then Listed
    else if op.KillAgent? && p == Lost && id !in s.lost then InHand(op.agent)
    else p
  }

  lemma PlaceBeforeStep(s: State, op: Op, id: JobId, p: Place)
    requires Enabled(s, op) && !op.ForeignPush? && Conserved(s)
    requires IsAt(Apply(s, op), id, p)
    ensures IsAt(s, id, CameFrom(s, op, id, p)) || (op.CommitJob? && op.id == id && p == Awaiting)
    ensures op.CommitJob? && op.id == id ==> !IsAt(s, id, p)
  {
    if op.CommitJob? && op.id == id {
      assert !IsAt(s, id, p);
    }
  }

  lemma PlacesStayApart(s: State, op: Op, id: JobId, p: Place, q: Place)
    requires Enabled(s, op) && !op.ForeignPush? && Conserved(s)
    requires IsAt(Apply(s, op), id, p) && IsAt(Apply(s, op), id, q)
    ensures p == q
  {
    PlaceBeforeStep(s, op, id, p);
    PlaceBeforeStep(s, op, id, q);
    if !(op.CommitJob? && op.id == id) {
      assert AtMostOnePlace(s, id);
      assert CameFrom(s, op, id, p) == CameFrom(s, op, id, q);
    }
  }

  /** A queued job that stays queued moves to the next place or stays where it is. */
  lemma QueuedJobIsSomewhere(s: State, op: Op, id: JobId)
    requires Enabled(s, op) && !op.ForeignPush? && Conserved(s) && IsQueued(Apply(s, op), id)
    ensures exists p :: IsAt(Apply(s, op), id, p)
  {
    var t := Apply(s, op);
    if IsQueued(s, id) {
      var p :| IsAt(s, id, p);
      if !IsAt(t, id, p) {
        assert IsAt(t, id, Listed) || IsAt(t, id, Lost) || (op.Pop? && IsAt(t, id, InHand(op.agent)));
      }
    } else {
      assert IsAt(t, id, Awaiting);
    }
  }

  /** A push from outside takes in a job that is nowhere; every other step does what it does. */
  ghost predicate TakesIn(s: State, op: Op) {
    op.ForeignPush? ==> op.id in s.jobs && forall p :: !IsAt(s, op.id, p)
  }

  lemma ForeignPushConservesIff(s: State, id: JobId)
    requires Conserved(s)
    ensures Conserved(Apply(s, ForeignPush(id))) <==> TakesIn(s, ForeignPush(id))
  {
    var t := Apply(s, ForeignPush(id));
    assert t.queue == [id] + s.queue && IsAt(t, id, Listed);
    forall other, p ensures IsAt(t, other, p) <==> IsAt(s, other, p) || (other == id && p == Listed) {
    }
    if TakesIn(s, ForeignPush(id)) {
      assert !IsAt(s, id, Listed);
      assert NoDuplicates(t.queue);
      forall other ensures AtMostOnePlace(t, other) {
        assert AtMostOnePlace(s, other);
      }
      forall other | IsQueued(t, other) ensures exists p :: IsAt(t, other, p) {
        assert IsQueued(s, other);
        var p :| IsAt(s, other, p);
        assert IsAt(t, other, p);
      }
    } else if id in s.jobs {
      var p :| IsAt(s, id, p);
      if p == Listed {
        var k :| 0 <= k < |s.queue| && s.queue[k] == id;
        assert t.queue[0] == t.queue[k + 1];
      } else {
        assert !AtMostOnePlace(t, id);
      }
    }
  }

  lemma StepConserves(s: State, op: Op)
    requires Enabled(s, op) && Conserved(s)
    ensures Conserved(Apply(s, op)) <==> TakesIn(s, op)
    ensures forall id | id in Apply(s, op).lost && id !in s.lost :: op == ApiDies(id) || (op.KillAgent? && Holds(s, op.agent, id))
  {
    if op.ForeignPush? {
      ForeignPushConservesIff(s, op.id);
    } else {
      OwnStepConserves(s, op);
    }
  }

  lemma OwnStepConserves(s: State, op: Op)
    requires Enabled(s, op) && !op.ForeignPush? && Conserved(s)
    ensures Conserved(Apply(s, op))
    ensures forall id | id in Apply(s, op).lost && id !in s.lost :: op == ApiDies(id) || (op.KillAgent? && Holds(s, op.agent, id))
  {
    var t := Apply(s, op);
    assert NoDuplicates(t.queue) by {
      assert op.EnqueueOk? ==> IsAt(s, op.id, Awaiting) && AtMostOnePlace(s, op.id) && !IsAt(s, op.id, Listed);
    }
    hide Apply, Enabled;
    forall id ensures AtMostOnePlace(t, id) {
      forall p, q | IsAt(t, id, p) && IsAt(t, id, q) ensures p == q {
        PlacesStayApart(s, op, id, p, q);
      }
    }
    forall id, p | IsAt(t, id, p) ensures id in t.jobs {
      PlaceBeforeStep(s, op, id, p);
      StepNeverGoesBack(s, op, id);
    }
    forall id | IsQueued(t, id) ensures exists p :: IsAt(t, id, p) {
      QueuedJobIsSomewhere(s, op, id);
    }
  }

  lemma InitIsConserved()
    ensures Conserved(Init())
  {
  }

  /** Over a whole run, pushes from outside included, jobs are conserved exactly when every such
      push takes in a known job that is nowhere. */
  lemma {:induction false} ConservedIff(states: seq<State>, ops: seq<Op>, n: nat)
    requires Run(states, ops) && n < |states|
    ensures (forall m | 0 <= m <= n :: Conserved(states[m])) <==> (forall m | 0 <= m < n :: TakesIn(states[m], ops[m]))
  {
    hide Apply, Enabled, IsAt, Conserved, TakesIn;
    if n == 0 {
      InitIsConserved();
    } else {
      ConservedIff(states, ops, n - 1);
      var s, op := states[n - 1], ops[n - 1];
      assert states[n] == Apply(s, op);
      if Conserved(s) {
        StepConserves(s, op);
      }
    }
  }

  /** Every QUEUED job is in exactly one place: waiting for its push, in the list, in one
      agent's hand, or lost; and it becomes lost only when the API dies before the push or an
      agent dies between the pop and mark-running. */
  lemma {:induction false} QueuedJobsAreConserved(states: seq<State>, ops: seq<Op>, n: nat)
    requires Run(states, ops) && n < |states|
    requires forall m | 0 <= m < n :: TakesIn(states[m], ops[m])
    ensures Conserved(states[n])
    ensures forall id | IsQueued(states[n], id) ::
        exists p :: IsAt(states[n], id, p) && forall q | IsAt(states[n], id, q) :: q == p
    ensures n > 0 ==> forall id | id in states[n].lost && id !in states[n - 1].lost ::
        ops[n - 1] == ApiDies(id) || (ops[n - 1].KillAgent? && Holds(states[n - 1], ops[n - 1].agent, id))
  {
    hide Apply, Enabled, IsAt, TakesIn;
    if n > 0 {
      QueuedJobsAreConserved(states, ops, n - 1);
      StepConserves(states[n - 1], ops[n - 1]);
    } else {
      InitIsConserved();
    }
    forall id | IsQueued(states[n], id)
      ensures exists p :: IsAt(states[n], id, p) && forall q | IsAt(states[n], id, q) :: q == p
    {
      var p :| IsAt(states[n], id, p);
      assert AtMostOnePlace(states[n], id);
    }
  }

  /** A lost job never starts: no later step starts its container. */
  lemma {:induction false} LostJobsNeverStart(states: seq<State>, ops: seq<Op>, i: nat, j: nat, id: JobId)
    requires Run(states, ops) && i <= j < |ops| && id in states[i].lost
    requires forall m | 0 <= m < j :: TakesIn(states[m], ops[m])
    ensures id in states[j].lost && !StartsContainer(states[j], ops[j], id)
  {
    hide Apply, Enabled, Conserved, TakesIn, StartsContainer;
    if i < j {
      LostJobsNeverStart(states, ops, i, j - 1, id);
      LostStaysLost(states[j - 1], ops[j - 1], id);
    }
    QueuedJobsAreConserved(states, ops, j);
    LostIsNotInHand(states[j], ops[j], id);
  }

  lemma LostStaysLost(s: State, op: Op, id: JobId)
    requires Enabled(s, op) && id in s.lost
    ensures id in Apply(s, op).lost
  {
  }

  lemma LostIsNotInHand(s: State, op: Op, id: JobId)
    requires Conserved(s) && id in s.lost
    ensures !StartsContainer(s, op, id)
  {
    assert AtMostOnePlace(s, id) && IsAt(s, id, Lost);
    if StartsContainer(s, op, id) {
      assert IsAt(s, id, InHand(op.agent));
      assert false;
    }
  }

  // ------------------------------------------------------------------ order

  /** The list is first in, first out: what was popped followed by what remains, tail first, is
      what was pushed, whoever pushed and popped it. */
  lemma {:induction false} ListIsFifo(states: seq<State>, ops: seq<Op>, n: nat)
    requires Run(states, ops) && n < |states|
    ensures states[n].popped + Reversed(states[n].queue) == states[n].pushed
  {
    if n > 0 {
      ListIsFifo(states, ops, n - 1);
      StepKeepsFifo(states[n - 1], ops[n - 1]);
    }
  }

  lemma StepKeepsFifo(s: State, op: Op)
    requires Enabled(s, op) && s.popped + Reversed(s.queue) == s.pushed
    ensures Apply(s, op).popped + Reversed(Apply(s, op).queue) == Apply(s, op).pushed
  {
    var t := Apply(s, op);
    if op.Pop? {
      ReversedDropsLast(s.queue);
    } else if op.EnqueueOk? || op.ForeignPush? {
      assert t.queue[1..] == s.queue;
      assert s.popped + (Reversed(s.queue) + [op.id]) == s.pushed + [op.id];
    }
  }

  ghost predicate OneAgent(s: State) {
    forall a, b | a in s.agents && b in s.agents :: a == b
  }

  /** The starts are a subsequence of the pops, leaving out an id still in the agent's hand. */
  ghost predicate StartsFollowPops(s: State) {
    && IsSubsequence(s.started, s.popped)
    && forall a, id | Holds(s, a, id) ::
         s.popped != [] && s.popped[|s.popped| - 1] == id && IsSubsequence(s.started, s.popped[..|s.popped| - 1])
  }

  lemma StepKeepsStartOrder(s: State, op: Op)
    requires Enabled(s, op) && OneAgent(s) && StartsFollowPops(s)
    ensures StartsFollowPops(Apply(s, op))
  {
    hide IsSubsequence;
    var t := Apply(s, op);
    if op.Pop? {
      var id := s.queue[|s.queue| - 1];
      assert t.popped[..|t.popped| - 1] == s.popped;
      SubsequenceGrows(s.started, s.popped, id);
    } else if op.MarkRunning? {
      var id := PhaseOf(s, op.agent).id;
      assert Holds(s, op.agent, id);
      SubsequenceGrows(s.started, s.popped[..|s.popped| - 1], id);
      assert s.popped[..|s.popped| - 1] + [id] == s.popped;
    } else {
      HandsOnlyEmpty(s, op);
    }
  }

  lemma HandsOnlyEmpty(s: State, op: Op)
    requires Enabled(s, op) && !op.Pop? && !op.MarkRunning?
    ensures Apply(s, op).started == s.started && Apply(s, op).popped == s.popped
    ensures forall a, id | Holds(Apply(s, op), a, id) :: Holds(s, a, id)
  {
  }

  /** With one agent at a time, through any crashes and restarts, containers start in the order
      the ids were pushed. */
  lemma {:induction false} OneAgentStartsInPushOrder(states: seq<State>, ops: seq<Op>, n: nat)
    requires Run(states, ops) && n < |states|
    requires forall s | s in states :: OneAgent(s)
    ensures StartsFollowPops(states[n])
    ensures IsSubsequence(states[n].started, states[n].pushed)
  {
    hide Apply, Enabled, OneAgent;
    if n > 0 {
      OneAgentStartsInPushOrder(states, ops, n - 1);
      StepKeepsStartOrder(states[n - 1], ops[n - 1]);
    }
    ListIsFifo(states, ops, n);
    SubsequenceOfPrefix(states[n].started, states[n].popped, Reversed(states[n].queue));
  }

  /** What has started has left the queue for good, and what is in a hand was popped. */
  ghost predicate StartsAreAccounted(s: State) {
    && (forall id | id in s.started :: Rank(s, id) >= 2)
    && (forall a, id | Holds(s, a, id) :: id in s.popped)
  }

  /** The step starts a container. */
  predicate Starts(s: State, op: Op) {
    op.MarkRunning? && PhaseOf(s, op.agent).Loaded? && IsQueued(s, PhaseOf(s, op.agent).id)
  }

  lemma StepMovesHistory(s: State, op: Op)
    requires Enabled(s, op)
    ensures s.pushed <= Apply(s, op).pushed
    ensures Starts(s, op) ==> var id := PhaseOf(s, op.agent).id;
      && StartsContainer(s, op, id) && Holds(s, op.agent, id)
      && Apply(s, op).started == s.started + [id] && Apply(s, op).pushed == s.pushed
    ensures !Starts(s, op) ==> Apply(s, op).started == s.started && forall id :: !StartsContainer(s, op, id)
  {
  }

  lemma StepAccountsForStarts(s: State, op: Op)
    requires Enabled(s, op) && StartsAreAccounted(s)
    ensures StartsAreAccounted(Apply(s, op))
  {
    StepMovesHistory(s, op);
    HandsWerePopped(s, op);
    hide Apply, Enabled, Rank, Holds, StartsContainer;
    forall id | id in Apply(s, op).started ensures Rank(Apply(s, op), id) >= 2 {
      StepNeverGoesBack(s, op, id);
    }
  }

  lemma HandsWerePopped(s: State, op: Op)
    requires Enabled(s, op) && forall a, id | Holds(s, a, id) :: id in s.popped
    ensures forall a, id | Holds(Apply(s, op), a, id) :: id in Apply(s, op).popped
  {
    var t := Apply(s, op);
    assert forall id | id in s.popped :: id in t.popped;
    forall a, id | Holds(t, a, id) ensures id in t.popped {
      if op.Pop? && op.agent == a {
        assert t.popped[|s.popped|] == id;
      } else {
        assert Holds(s, a, id);
      }
    }
  }

  lemma {:induction false} StartsStayAccounted(states: seq<State>, ops: seq<Op>, n: nat)
    requires Run(states, ops) && n < |states|
    ensures StartsAreAccounted(states[n])
  {
    hide Apply, Enabled, Rank, Holds;
    if n > 0 {
      StartsStayAccounted(states, ops, n - 1);
      StepAccountsForStarts(states[n - 1], ops[n - 1]);
    } else {
      NothingStartedYet();
    }
  }

  lemma {:induction false} NothingStartsTwice(states: seq<State>, ops: seq<Op>, n: nat)
    requires Run(states, ops) && n < |states|
    ensures NoDuplicates(states[n].started)
  {
    hide Apply, Enabled, NoDuplicates;
    if n == 0 {
      NothingTwice<JobId>();
    } else {
      var s, op := states[n - 1], ops[n - 1];
      NothingStartsTwice(states, ops, n - 1);
      StartsStayAccounted(states, ops, n - 1);
      StepMovesHistory(s, op);
      if Starts(s, op) {
        FreshAtTheEnd(s.started, PhaseOf(s, op.agent).id);
      }
    }
  }

  ghost predicate InOrder(s: State) { IsSubsequence(s.started, s.pushed) }

  /** If the step starts a container, nothing pushed after that job has started. */
  ghost predicate StartsInTurn(s: State, op: Op) {
    forall k: nat | k < |s.pushed| && StartsContainer(s, op, s.pushed[k]) ::
      forall x | x in s.started :: x !in s.pushed[k..]
  }

  lemma StepKeepsOrderIff(s: State, op: Op)
    requires Enabled(s, op) && NoDuplicates(s.pushed) && StartsAreAccounted(s) && InOrder(s)
    requires forall id | id in s.popped :: id in s.pushed
    ensures InOrder(Apply(s, op)) <==> StartsInTurn(s, op)
  {
    hide Apply, Enabled, IsSubsequence;
    var t := Apply(s, op);
    StepMovesHistory(s, op);
    if Starts(s, op) {
      var id := PhaseOf(s, op.agent).id;
      assert id in s.pushed;
      var k: nat :| k < |s.pushed| && s.pushed[k] == id;
      assert id !in s.started;
      MayFollowIff(s.started, s.pushed, k);
      assert forall j: nat | j < |s.pushed| && s.pushed[j] == id :: j == k;
    } else {
      SubsequenceOfPrefix(s.started, s.pushed, t.pushed[|s.pushed|..]);
      assert t.pushed == s.pushed + t.pushed[|s.pushed|..];
    }
  }

  lemma PoppedWasPushed(states: seq<State>, ops: seq<Op>, n: nat)
    requires Run(states, ops) && n < |states|
    ensures forall id | id in states[n].popped :: id in states[n].pushed
  {
    ListIsFifo(states, ops, n);
  }

  /** However many agents there are: while no id has been pushed twice, containers start in push
      order throughout a run exactly when each starts before everything pushed after it. */
  lemma {:induction false} OrderIsKeptIff(states: seq<State>, ops: seq<Op>, n: nat)
    requires Run(states, ops) && n < |states| && NoDuplicates(states[n].pushed)
    ensures (forall m | 0 <= m <= n :: InOrder(states[m])) <==> (forall m | 0 <= m < n :: StartsInTurn(states[m], ops[m]))
  {
    hide Apply, Enabled, InOrder, StartsInTurn, StartsAreAccounted;
    if n == 0 {
      NothingStartedYet();
    } else {
      var s, op := states[n - 1], ops[n - 1];
      assert states[n] == Apply(s, op);
      StepMovesHistory(s, op);
      OrderIsKeptIff(states, ops, n - 1);
      if InOrder(s) {
        StartsStayAccounted(states, ops, n - 1);
        PoppedWasPushed(states, ops, n - 1);
        StepKeepsOrderIff(s, op);
      }
    }
  }

  lemma NothingStartedYet()
    ensures InOrder(Init()) && StartsAreAccounted(Init())
  {
  }

  // ------------------------------------------------------------------ finality

  /** The unguarded writes, each with the status it leaves behind. */
  predicate Overwrites(s: State, op: Op, id: JobId, st: Status) {
    match op
    case EnqueueFail(failed) => failed == id && st == Failed
    case RejectSpec(a) => PhaseOf(s, a) == Loaded(id) && st == Failed
    case Finalize(a) => PhaseOf(s, a).Exited? && PhaseOf(s, a).id == id && st == FinalStatus(PhaseOf(s, a).result)
    case _ => false
  }

  /** A step replaces a terminal status by another exactly when it is one of the three
      unguarded writes and the status it writes differs. */
  lemma TerminalStatusChangesIff(s: State, op: Op, id: JobId)
    requires Enabled(s, op) && id in s.jobs && s.jobs[id].status.Terminal()
    ensures id in Apply(s, op).jobs
    ensures Apply(s, op).jobs[id].status != s.jobs[id].status
       <==> exists st :: Overwrites(s, op, id, st) && st != s.jobs[id].status
    ensures Apply(s, op).jobs[id].status.Terminal()
  {
    if op.EnqueueFail? && op.id == id {
      assert Overwrites(s, op, id, Failed);
    } else if op.RejectSpec? && PhaseOf(s, op.agent) == Loaded(id) {
      assert Overwrites(s, op, id, Failed);
    } else if op.Finalize? && PhaseOf(s, op.agent).id == id {
      assert Overwrites(s, op, id, FinalStatus(PhaseOf(s, op.agent).result));
    }
  }

  ghost predicate OneAgentPerHost(s: State) {
    forall a, b | a in s.agents && b in s.agents && s.agents[a].host == s.agents[b].host :: a == b
  }

  /** The run of an agent is on a row the agent still owns, and a cancel it has seen has been
      committed. */
  predicate OwnsRow(s: State, a: AgentId, id: JobId, cancelled: bool) {
    && a in s.agents && id in s.jobs
    && (Rank(s, id) == 2 || Rank(s, id) == 3)
    && s.jobs[id].worker == Some(s.agents[a].host)
    && (cancelled ==> Rank(s, id) == 3)
  }

  predicate RunIsSound(s: State, a: AgentId) {
    match PhaseOf(s, a)
    case Executing(id, _, cancelSet) => OwnsRow(s, a, id, cancelSet)
    case Exited(id, r) => OwnsRow(s, a, id, r.cancelled)
    case _ => true
  }

  ghost predicate RunsAreSound(s: State) {
    && OneAgentPerHost(s)
    && (forall a: AgentId :: RunIsSound(s, a))
    && (forall id | id in s.publishing :: Rank(s, id) >= 3)
  }

  /** Steps outside the two unguarded writes that can hit a job nobody runs. */
  predicate Clean(op: Op) { !op.EnqueueFail? && !op.RejectSpec? }

  /** The agent that takes the step, if one does. */
  function Actor(op: Op): Option<AgentId> {
    match op
    case StartAgent(a, _) => Some(a)
    case Reap(a) => Some(a)
    case Pop(a) => Some(a)
    case Load(a) => Some(a)
    case RejectSpec(a) => Some(a)
    case MarkRunning(a) => Some(a)
    case Subscribe(a) => Some(a)
    case ContainerExit(a, _) => Some(a)
    case Finalize(a) => Some(a)
    case KillAgent(a) => Some(a)
    case _ => None
  }

  lemma ApiStepKeepsRunSound(s: State, op: Op, a: AgentId)
    requires Enabled(s, op) && Clean(op) && RunsAreSound(s) && Actor(op) == None
    ensures RunIsSound(Apply(s, op), a)
  {
    assert RunIsSound(s, a);
  }

  lemma OwnStepKeepsRunSound(s: State, op: Op, a: AgentId)
    requires Enabled(s, op) && Clean(op) && RunIsSound(s, a) && Actor(op) == Some(a)
    ensures RunIsSound(Apply(s, op), a)
  {
  }

  /** Another agent is on another host, so it writes other rows. */
  lemma OtherStepKeepsRunSound(s: State, op: Op, a: AgentId, b: AgentId)
    requires Enabled(s, op) && Clean(op) && RunIsSound(s, a) && RunIsSound(s, b) && Actor(op) == Some(b) && a != b
    requires a in s.agents && b in s.agents ==> s.agents[a].host != s.agents[b].host
    ensures RunIsSound(Apply(s, op), a)
  {
    assert PhaseOf(Apply(s, op), a) == PhaseOf(s, a);
  }

  lemma StepKeepsRunSound(s: State, op: Op, a: AgentId)
    requires Enabled(s, op) && Clean(op) && RunsAreSound(s)
    ensures RunIsSound(Apply(s, op), a)
  {
    hide Apply, Enabled, RunIsSound, Clean;
    match Actor(op)
    case None => ApiStepKeepsRunSound(s, op, a);
    case Some(b) =>
      if a == b {
        OwnStepKeepsRunSound(s, op, a);
      } else {
        OtherStepKeepsRunSound(s, op, a, b);
      }
  }

  lemma StepKeepsTerminal(s: State, op: Op, id: JobId)
    requires Enabled(s, op) && Clean(op) && RunsAreSound(s)
    requires id in s.jobs && s.jobs[id].status.Terminal()
    ensures id in Apply(s, op).jobs && Apply(s, op).jobs[id].status == s.jobs[id].status
  {
    TerminalStatusChangesIff(s, op, id);
    if op.Finalize? {
      assert RunIsSound(s, op.agent);
    }
  }

  lemma PublishedWasCommitted(s: State, op: Op, id: JobId)
    requires Enabled(s, op) && RunsAreSound(s) && id in Apply(s, op).publishing
    ensures Rank(Apply(s, op), id) >= 3
  {
    StepNeverGoesBack(s, op, id);
  }

  lemma StepKeepsRunsSound(s: State, op: Op)
    requires Enabled(s, op) && Clean(op) && RunsAreSound(s) && OneAgentPerHost(Apply(s, op))
    ensures RunsAreSound(Apply(s, op))
  {
    hide Apply, Enabled, RunIsSound, Rank, OneAgentPerHost;
    var t := Apply(s, op);
    forall a: AgentId ensures RunIsSound(t, a) {
      StepKeepsRunSound(s, op, a);
    }
    forall id | id in t.publishing ensures Rank(t, id) >= 3 {
      PublishedWasCommitted(s, op, id);
    }
  }

  ghost predicate CleanRun(states: seq<State>, ops: seq<Op>) {
    && Run(states, ops)
    && (forall op | op in ops :: Clean(op))
    && (forall s | s in states :: OneAgentPerHost(s))
  }

  lemma {:induction false} CleanRunsStaySound(states: seq<State>, ops: seq<Op>, n: nat)
    requires CleanRun(states, ops) && n < |states|
    ensures RunsAreSound(states[n])
  {
    hide Apply, Enabled;
    if n > 0 {
      CleanRunsStaySound(states, ops, n - 1);
      assert states[n] in states && ops[n - 1] in ops;
      StepKeepsRunsSound(states[n - 1], ops[n - 1]);
    }
  }

  /** With at most one agent per host, clean pushes and specs that still validate, a terminal
      status is never replaced by a different one. */
  lemma {:induction false} TerminalStatusIsFinal(states: seq<State>, ops: seq<Op>, i: nat, j: nat, id: JobId)
    requires CleanRun(states, ops) && i <= j < |states|
    requires id in states[i].jobs && states[i].jobs[id].status.Terminal()
    ensures id in states[j].jobs && states[j].jobs[id].status == states[i].jobs[id].status
  {
    hide Apply, Enabled;
    if i < j {
      TerminalStatusIsFinal(states, ops, i, j - 1, id);
      CleanRunsStaySound(states, ops, j - 1);
      assert ops[j - 1] in ops;
      StepKeepsTerminal(states[j - 1], ops[j - 1], id);
    }
  }

  /** An accepted cancel of a running job. */
  predicate AcceptsCancel(s: State, op: Op, id: JobId) {
    op == Cancel(id) && Rank(s, id) == 2
  }

  lemma {:induction false} CancellingWasAccepted(states: seq<State>, ops: seq<Op>, n: nat, id: JobId)
    requires Run(states, ops) && n < |states| && Rank(states[n], id) == 3
    ensures exists k: nat | k < n :: AcceptsCancel(states[k], ops[k], id)
  {
    if n > 0 {
      if Rank(states[n - 1], id) == 3 {
        CancellingWasAccepted(states, ops, n - 1, id);
      } else {
        CancellingNeedsCancel(states[n - 1], ops[n - 1], id);
      }
    }
  }

  lemma CancellingNeedsCancel(s: State, op: Op, id: JobId)
    requires Enabled(s, op) && Rank(s, id) != 3 && Rank(Apply(s, op), id) == 3
    ensures AcceptsCancel(s, op, id)
  {
  }

  /** An agent writes CANCELLED only over CANCELLING, which an earlier accepted cancel wrote. */
  lemma AgentCancelsOnlyOnRequest(states: seq<State>, ops: seq<Op>, n: nat, id: JobId)
    requires CleanRun(states, ops) && n < |ops|
    requires ops[n].Finalize? && Overwrites(states[n], ops[n], id, Cancelled)
    ensures Rank(states[n], id) == 3
    ensures exists k: nat | k < n :: AcceptsCancel(states[k], ops[k], id)
  {
    CleanRunsStaySound(states, ops, n);
    assert RunIsSound(states[n], ops[n].agent);
    CancellingWasAccepted(states, ops, n, id);
  }
}
