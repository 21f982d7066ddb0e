/** What the steps of the job protocol lead to: where a submit, a cancel, a result and a restart
    end up. */
module JobOutcomes {
  import opened Common
  import opened JobProtocol

  // ------------------------------------------------------------------ the way through

  /** The state these steps lead to, if each is possible when its turn comes. */
  function Outcome(s: State, ops: seq<Op>): Option<State> {
    if ops == [] then Some(s)
    else match Outcome(s, ops[..|ops| - 1])
      case Some(mid) => if Enabled(mid, ops[|ops| - 1]) then Some(Apply(mid, ops[|ops| - 1])) else None
      case None => None
  }

  lemma Then(s: State, ops: seq<Op>, mid: State, op: Op)
    requires Outcome(s, ops) == Some(mid) && Enabled(mid, op)
    ensures Outcome(s, ops + [op]) == Some(Apply(mid, op))
  {
    hide Apply, Enabled;
    assert (ops + [op])[..|ops|] == ops;
  }

  /** A submit within the limit ends as a QUEUED row of its user at the head of the list. */
  lemma SubmitIsQueued(s: State, u: UserId, limit: int, id: JobId)
    requires |ActiveJobs(s.jobs, u)| < limit && id !in s.jobs && id !in s.pushed
    ensures var t := Outcome(s, [CountJobs(u, limit), CommitJob(u, id), EnqueueOk(id)]);
      && t.Some? && id in t.value.jobs && t.value.jobs[id] == Job(u, Queued, None)
      && t.value.queue == [id] + s.queue
      && forall other | other in s.jobs :: other in t.value.jobs && t.value.jobs[other] == s.jobs[other]
  {
    var s1 := Apply(s, CountJobs(u, limit));
    Then(s, [], s, CountJobs(u, limit));
    Then(s, [CountJobs(u, limit)], s1, CommitJob(u, id));
    var s2 := Apply(s1, CommitJob(u, id));
    Then(s, [CountJobs(u, limit), CommitJob(u, id)], s2, EnqueueOk(id));
    assert [] + [CountJobs(u, limit)] == [CountJobs(u, limit)];
    assert [CountJobs(u, limit), CommitJob(u, id)] + [EnqueueOk(id)] == [CountJobs(u, limit), CommitJob(u, id), EnqueueOk(id)];
    assert [CountJobs(u, limit)] + [CommitJob(u, id)] == [CountJobs(u, limit), CommitJob(u, id)];
  }

  /** The status each kind of result ends in. */
  lemma FinalStatusIff(r: ContainerResult)
    ensures FinalStatus(r) == Cancelled <==> r.cancelled
    ensures FinalStatus(r) == Succeeded <==> !r.cancelled && !r.timedOut && r.errorMessage == None && r.exitCode == Some(0)
    ensures FinalStatus(r) == Failed <==> !r.cancelled && (r.timedOut || r.errorMessage.Some? || r.exitCode != Some(0))
  {
  }

  /** The oldest id in the list, QUEUED, gets through an idle agent: the container starts on the
      agent's host and the row ends with the status of the result. */
  lemma OldestJobRunsThrough(s: State, a: AgentId, id: JobId, r: ContainerResult) returns (running: State, done: State)
    requires PhaseOf(s, a).Idle? && s.queue != [] && s.queue[|s.queue| - 1] == id && IsQueued(s, id) && !r.cancelled
    ensures Outcome(s, [Pop(a), Load(a), MarkRunning(a)]) == Some(running)
    ensures id in running.jobs && running.jobs[id] == Job(s.jobs[id].user, Running, Some(s.agents[a].host))
    ensures running.started == s.started + [id] && PhaseOf(running, a) == Executing(id, false, false)
    ensures Outcome(running, [ContainerExit(a, r), Finalize(a)]) == Some(done)
    ensures done.jobs == running.jobs[id := running.jobs[id].(status := FinalStatus(r))] && PhaseOf(done, a).Idle?
  {
    var s1 := Apply(s, Pop(a));
    var s2 := Apply(s1, Load(a));
    running := Apply(s2, MarkRunning(a));
    StartSteps(s, a, s1, s2, running);
    var exited := Apply(running, ContainerExit(a, r));
    done := Apply(exited, Finalize(a));
    EndSteps(running, a, r, exited, done);
  }

  lemma StartSteps(s: State, a: AgentId, s1: State, s2: State, s3: State)
    requires Enabled(s, Pop(a)) && s1 == Apply(s, Pop(a))
    requires Enabled(s1, Load(a)) && s2 == Apply(s1, Load(a))
    requires Enabled(s2, MarkRunning(a)) && s3 == Apply(s2, MarkRunning(a))
    ensures Outcome(s, [Pop(a), Load(a), MarkRunning(a)]) == Some(s3)
  {
    hide Apply, Enabled;
    Then(s, [], s, Pop(a));
    assert [] + [Pop(a)] == [Pop(a)];
    Then(s, [Pop(a)], s1, Load(a));
    assert [Pop(a)] + [Load(a)] == [Pop(a), Load(a)];
    Then(s, [Pop(a), Load(a)], s2, MarkRunning(a));
    assert [Pop(a), Load(a)] + [MarkRunning(a)] == [Pop(a), Load(a), MarkRunning(a)];
  }

  lemma EndSteps(s: State, a: AgentId, r: ContainerResult, s1: State, s2: State)
    requires Enabled(s, ContainerExit(a, r)) && s1 == Apply(s, ContainerExit(a, r))
    requires Enabled(s1, Finalize(a)) && s2 == Apply(s1, Finalize(a))
    ensures Outcome(s, [ContainerExit(a, r), Finalize(a)]) == Some(s2)
  {
    hide Apply, Enabled;
    Then(s, [], s, ContainerExit(a, r));
    assert [] + [ContainerExit(a, r)] == [ContainerExit(a, r)];
    Then(s, [ContainerExit(a, r)], s1, Finalize(a));
    assert [ContainerExit(a, r)] + [Finalize(a)] == [ContainerExit(a, r), Finalize(a)];
  }

  /** A spec is looked at only after its row was read as QUEUED. */
  lemma {:induction false} LoadedWasQueued(states: seq<State>, ops: seq<Op>, n: nat, a: AgentId, id: JobId)
    requires Run(states, ops) && n < |states| && PhaseOf(states[n], a) == Loaded(id)
    ensures exists k: nat | k < n :: ops[k] == Load(a) && IsQueued(states[k], id)
  {
    hide Apply, Enabled;
    if n == 0 {
      NobodyHasLoaded(a);
    } else if PhaseOf(states[n - 1], a) == Loaded(id) {
      LoadedWasQueued(states, ops, n - 1, a, id);
    } else {
      LoadingReadsQueued(states[n - 1], ops[n - 1], a, id);
    }
  }

  lemma NobodyHasLoaded(a: AgentId)
    ensures PhaseOf(Init(), a) == Gone
  {
  }

  lemma LoadingReadsQueued(s: State, op: Op, a: AgentId, id: JobId)
    requires Enabled(s, op) && PhaseOf(s, a) != Loaded(id) && PhaseOf(Apply(s, op), a) == Loaded(id)
    ensures op == Load(a) && IsQueued(s, id)
  {
  }

  // ------------------------------------------------------------------ cancel

  /** What the cancel handler does to the row and whether it owes a control message. */
  lemma CancelOutcome(s: State, id: JobId)
    requires Enabled(s, Cancel(id))
    ensures var t, was := Apply(s, Cancel(id)), s.jobs[id].status;
      && id in t.jobs
      && (was == Queued ==> t.jobs[id].status == Cancelled && t.publishing == s.publishing)
      && (was == Running ==> t.jobs[id].status == Cancelling && t.publishing == s.publishing + {id})
      && (was != Queued && was != Running ==> t == s)
      && (forall other | other in s.jobs && other != id :: other in t.jobs && t.jobs[other] == s.jobs[other])
  {
  }

  /** A job cancelled while QUEUED is CANCELLED at once and its container never starts. */
  lemma CancelledInTheQueueNeverStarts(states: seq<State>, ops: seq<Op>, k: nat, n: nat, id: JobId)
    requires Run(states, ops) && k < n < |ops| && ops[k] == Cancel(id) && IsQueued(states[k], id)
    ensures id in states[k + 1].jobs && states[k + 1].jobs[id].status == Cancelled
    ensures !StartsContainer(states[n], ops[n], id)
  {
    CancelOutcome(states[k], id);
    assert Rank(states[k + 1], id) == 4;
    hide Apply, Enabled, Rank;
    RunNeverGoesBack(states, ops, k + 1, n, id);
    StepNeverGoesBack(states[n], ops[n], id);
  }

  lemma PublishingWaits(s: State, op: Op, id: JobId)
    requires Enabled(s, op)
    ensures id in s.publishing && op != PublishCancel(id) ==> id in Apply(s, op).publishing
    ensures AcceptsCancel(s, op, id) ==> id in Apply(s, op).publishing
  {
  }

  /** An accepted cancel of a running job owes its control message until it is sent. */
  lemma {:induction false} AcceptedCancelIsPublished(states: seq<State>, ops: seq<Op>, k: nat, n: nat, id: JobId)
    requires Run(states, ops) && k < n < |states| && AcceptsCancel(states[k], ops[k], id)
    ensures id in states[n].publishing || exists m | k < m < n :: ops[m] == PublishCancel(id)
  {
    hide Apply, Enabled, AcceptsCancel;
    PublishingWaits(states[n - 1], ops[n - 1], id);
    if k < n - 1 {
      AcceptedCancelIsPublished(states, ops, k, n - 1, id);
    }
  }

  /** The cancel event of the agent's container is set. */
  predicate HasEvent(s: State, a: AgentId) {
    PhaseOf(s, a).Executing? && PhaseOf(s, a).cancelSet
  }

  /** The control message sets the event of exactly the agents that execute the job and were
      listening, and changes nothing else about any agent or job. */
  lemma PublishNotifiesExactly(s: State, id: JobId, a: AgentId)
    requires Enabled(s, PublishCancel(id))
    ensures var t, p := Apply(s, PublishCancel(id)), PhaseOf(s, a);
      && (HasEvent(t, a) <==> HasEvent(s, a) || (p.Executing? && p.id == id && p.listening))
      && (!HasEvent(t, a) || HasEvent(s, a) ==> PhaseOf(t, a) == p)
      && (HasEvent(t, a) && !HasEvent(s, a) ==> PhaseOf(t, a) == p.(cancelSet := true))
      && t.agents.Keys == s.agents.Keys && t.jobs == s.jobs && t.publishing == s.publishing - {id}
  {
  }

  /** Subscribing makes the agent listen and sets nothing. */
  lemma SubscribedListens(s: State, a: AgentId)
    requires Enabled(s, Subscribe(a))
    ensures var t, p := Apply(s, Subscribe(a)), PhaseOf(s, a);
      PhaseOf(t, a) == Executing(p.id, true, p.cancelSet) && t.jobs == s.jobs
  {
  }

  /** A cancel of a job whose agent listens gets through: accepted, published, the container
      stopped as cancelled, and the row CANCELLED. */
  lemma CancelReachesListener(s: State, a: AgentId, id: JobId, r: ContainerResult)
    requires PhaseOf(s, a).Executing? && PhaseOf(s, a).id == id && PhaseOf(s, a).listening
    requires Rank(s, id) == 2 && r.cancelled
    ensures var t := Outcome(s, [Cancel(id), PublishCancel(id), ContainerExit(a, r), Finalize(a)]);
      t.Some? && id in t.value.jobs && t.value.jobs[id].status == Cancelled && PhaseOf(t.value, a).Idle?
  {
    var s1 := Apply(s, Cancel(id));
    var s2 := Apply(s1, PublishCancel(id));
    PublishNotifiesExactly(s1, id, a);
    var s3 := Apply(s2, ContainerExit(a, r));
    var s4 := Apply(s3, Finalize(a));
    CancelSteps(s, a, id, r, s1, s2, s3, s4);
  }

  lemma CancelSteps(s: State, a: AgentId, id: JobId, r: ContainerResult, s1: State, s2: State, s3: State, s4: State)
    requires Enabled(s, Cancel(id)) && s1 == Apply(s, Cancel(id))
    requires Enabled(s1, PublishCancel(id)) && s2 == Apply(s1, PublishCancel(id))
    requires Enabled(s2, ContainerExit(a, r)) && s3 == Apply(s2, ContainerExit(a, r))
    requires Enabled(s3, Finalize(a)) && s4 == Apply(s3, Finalize(a))
    ensures Outcome(s, [Cancel(id), PublishCancel(id), ContainerExit(a, r), Finalize(a)]) == Some(s4)
  {
    hide Apply, Enabled;
    Then(s, [], s, Cancel(id));
    assert [] + [Cancel(id)] == [Cancel(id)];
    Then(s, [Cancel(id)], s1, PublishCancel(id));
    assert [Cancel(id)] + [PublishCancel(id)] == [Cancel(id), PublishCancel(id)];
    Then(s, [Cancel(id), PublishCancel(id)], s2, ContainerExit(a, r));
    assert [Cancel(id), PublishCancel(id)] + [ContainerExit(a, r)] == [Cancel(id), PublishCancel(id), ContainerExit(a, r)];
    Then(s, [Cancel(id), PublishCancel(id), ContainerExit(a, r)], s3, Finalize(a));
    assert [Cancel(id), PublishCancel(id), ContainerExit(a, r)] + [Finalize(a)]
        == [Cancel(id), PublishCancel(id), ContainerExit(a, r), Finalize(a)];
  }

  // ------------------------------------------------------------------ restart

  /** After a restart the host owns no running job: CANCELLING rows became CANCELLED, RUNNING rows
      FAILED, and every other row, its own or another host's, is as it was. */
  lemma ReapSettlesTheHost(s: State, a: AgentId, id: JobId)
    requires Enabled(s, Reap(a)) && id in s.jobs
    ensures var t, was, host := Apply(s, Reap(a)), s.jobs[id], s.agents[a].host;
      && id in t.jobs && t.jobs[id].user == was.user && t.jobs[id].worker == was.worker
      && (was.worker == Some(host) && was.status == Cancelling ==> t.jobs[id].status == Cancelled)
      && (was.worker == Some(host) && was.status == Running ==> t.jobs[id].status == Failed)
      && (was.worker != Some(host) || (was.status != Cancelling && was.status != Running) ==> t.jobs[id] == was)
      && PhaseOf(t, a).Idle?
  {
  }
}
