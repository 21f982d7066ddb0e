/** Runs that show why each hypothesis of the finality and order results is there. */
module JobLimits {
  import opened Common
  import opened JobProtocol

  /** A run of these steps ends in s. */
  ghost predicate Reaches(ops: seq<Op>, s: State) {
    exists states: seq<State> :: Run(states, ops) && states[|ops|] == s
  }

  lemma Start()
    ensures Reaches([], Init())
  {
    assert Run([Init()], []);
  }

  lemma Do(ops: seq<Op>, s: State, op: Op) returns (ops': seq<Op>, t: State)
    requires Reaches(ops, s) && Enabled(s, op)
    ensures ops' == ops + [op] && t == Apply(s, op) && Reaches(ops', t)
  {
    hide Apply, Enabled;
    ops', t := ops + [op], Apply(s, op);
    var states: seq<State> :| Run(states, ops) && states[|ops|] == s;
    var longer := states + [t];
    assert Run(longer, ops') && longer[|ops'|] == t;
  }

  /** A job of user 0 committed. */
  lemma Commit(ops: seq<Op>, s: State, id: JobId) returns (ops': seq<Op>, t: State)
    requires Reaches(ops, s) && id !in s.jobs && id !in s.pushed
    requires |ActiveJobs(s.jobs, 0)| <= 1 && Counted(s, 0) == 0
    ensures Reaches(ops', t)
    ensures t == s.(jobs := s.jobs[id := Job(0, Queued, None)], counted := s.counted[0 := 0], awaiting := s.awaiting + {id})
  {
    ops', t := Do(ops, s, CountJobs(0, 2));
    ops', t := Do(ops', t, CommitJob(0, id));
  }

  /** And pushed. */
  lemma Submit(ops: seq<Op>, s: State, id: JobId) returns (ops': seq<Op>, t: State)
    requires Reaches(ops, s) && id !in s.jobs && id !in s.pushed && id !in s.awaiting
    requires |ActiveJobs(s.jobs, 0)| <= 1 && Counted(s, 0) == 0
    ensures Reaches(ops', t)
    ensures t == s.(jobs := s.jobs[id := Job(0, Queued, None)], counted := s.counted[0 := 0],
                    queue := [id] + s.queue, pushed := s.pushed + [id])
  {
    ops', t := Commit(ops, s, id);
    ops', t := Push(ops', t, id);
    assert s.awaiting + {id} - {id} == s.awaiting;
  }

  lemma Push(ops: seq<Op>, s: State, id: JobId) returns (ops': seq<Op>, t: State)
    requires Reaches(ops, s) && id in s.awaiting
    ensures Reaches(ops', t)
    ensures t == s.(queue := [id] + s.queue, pushed := s.pushed + [id], awaiting := s.awaiting - {id})
  {
    ops', t := Do(ops, s, EnqueueOk(id));
  }

  lemma CancelWaiting(ops: seq<Op>, s: State, id: JobId) returns (ops': seq<Op>, t: State)
    requires Reaches(ops, s) && IsQueued(s, id)
    ensures Reaches(ops', t) && t == s.(jobs := s.jobs[id := s.jobs[id].(status := Cancelled)])
  {
    ops', t := Do(ops, s, Cancel(id));
  }

  /** An agent comes up on a host none of whose jobs are running, and takes the next id. */
  lemma TakeJob(ops: seq<Op>, s: State, a: AgentId, host: Host) returns (ops': seq<Op>, t: State)
    requires Reaches(ops, s) && PhaseOf(s, a).Gone? && s.queue != []
    requires IsQueued(s, s.queue[|s.queue| - 1])
    requires forall id | id in s.jobs :: s.jobs[id].worker != Some(host)
    ensures Reaches(ops', t)
    ensures var id := s.queue[|s.queue| - 1];
      t == s.(queue := s.queue[..|s.queue| - 1], popped := s.popped + [id], agents := s.agents[a := Agent(host, Loaded(id))])
  {
    ops', t := BringUp(ops, s, a, host);
    ops', t := Do(ops', t, Pop(a));
    ops', t := Do(ops', t, Load(a));
  }

  lemma BringUp(ops: seq<Op>, s: State, a: AgentId, host: Host) returns (ops': seq<Op>, t: State)
    requires Reaches(ops, s) && PhaseOf(s, a).Gone?
    requires forall id | id in s.jobs :: s.jobs[id].worker != Some(host)
    ensures Reaches(ops', t) && t == s.(agents := s.agents[a := Agent(host, Idle)])
  {
    ops', t := Do(ops, s, StartAgent(a, host));
    ops', t := Do(ops', t, Reap(a));
    assert t.jobs == s.jobs;
  }

  /** A failing push overwrites the CANCELLED a user got in between. */
  lemma FailedPushReplacesCancelled() returns (ops: seq<Op>, s: State)
    ensures Reaches(ops, s)
    ensures 0 in s.jobs && s.jobs[0].status == Cancelled
    ensures Enabled(s, EnqueueFail(0)) && Apply(s, EnqueueFail(0)).jobs[0].status == Failed
  {
    Start();
    NobodyActive();
    ops, s := Commit([], Init(), 0);
    ops, s := CancelWaiting(ops, s, 0);
  }

  /** So does a spec that no longer validates, after a cancel between load and validation. */
  lemma RejectedSpecReplacesCancelled() returns (ops: seq<Op>, s: State)
    ensures Reaches(ops, s)
    ensures 0 in s.jobs && s.jobs[0].status == Cancelled
    ensures Enabled(s, RejectSpec(0)) && Apply(s, RejectSpec(0)).jobs[0].status == Failed
  {
    Start();
    NobodyActive();
    ops, s := Submit([], Init(), 0);
    ops, s := TakeJob(ops, s, 0, 0);
    ops, s := CancelWaiting(ops, s, 0);
  }

  lemma MarkJob(ops: seq<Op>, s: State, a: AgentId) returns (ops': seq<Op>, t: State)
    requires Reaches(ops, s) && PhaseOf(s, a).Loaded? && IsQueued(s, PhaseOf(s, a).id)
    ensures Reaches(ops', t)
    ensures var id := PhaseOf(s, a).id;
      t == s.(jobs := s.jobs[id := s.jobs[id].(status := Running, worker := Some(s.agents[a].host))],
              agents := s.agents[a := s.agents[a].(phase := Executing(id, false, false))], started := s.started + [id])
  {
    ops', t := Do(ops, s, MarkRunning(a));
  }

  lemma FinishedButUnwritten(done: ContainerResult) returns (ops: seq<Op>, s: State)
    requires !done.cancelled
    ensures Reaches(ops, s)
    ensures s.jobs == map[0 := Job(0, Running, Some(0))] && s.agents == map[0 := Agent(0, Exited(0, done))]
  {
    hide Apply, Enabled;
    Start();
    NobodyActive();
    ops, s := Submit([], Init(), 0);
    ops, s := TakeJob(ops, s, 0, 0);
    ops, s := MarkJob(ops, s, 0);
    ops, s := FinishContainer(ops, s, 0, done);
  }

  lemma FinishContainer(ops: seq<Op>, s: State, a: AgentId, done: ContainerResult) returns (ops': seq<Op>, t: State)
    requires Reaches(ops, s) && PhaseOf(s, a).Executing? && !done.cancelled
    ensures Reaches(ops', t)
    ensures t == s.(agents := s.agents[a := s.agents[a].(phase := Exited(PhaseOf(s, a).id, done))])
  {
    ops', t := Do(ops, s, ContainerExit(a, done));
  }

  /** Two live agents on one host: the second reaps the first one's job as FAILED, and the first
      then writes SUCCEEDED over it. */
  lemma SecondAgentBreaksFinality() returns (ops: seq<Op>, s: State)
    ensures Reaches(ops, s)
    ensures 0 in s.jobs && s.jobs[0].status == Failed
    ensures Enabled(s, Finalize(0)) && Apply(s, Finalize(0)).jobs[0].status == Succeeded
  {
    ops, s := FinishedButUnwritten(ContainerResult(Some(0), None, false, false));
    ops, s := Do(ops, s, StartAgent(1, 0));
    ops, s := Do(ops, s, Reap(1));
  }

  lemma TwoHands() returns (ops: seq<Op>, s: State)
    ensures Reaches(ops, s) && s.pushed == [0, 1] && s.started == []
    ensures s.jobs == map[0 := Job(0, Queued, None), 1 := Job(0, Queued, None)]
    ensures s.agents == map[0 := Agent(0, Loaded(0)), 1 := Agent(1, Loaded(1))]
  {
    hide Apply, Enabled;
    Start();
    NobodyActive();
    ops, s := Submit([], Init(), 0);
    assert ActiveJobs(s.jobs, 0) == {0};
    ops, s := Submit(ops, s, 1);
    ops, s := TakeJob(ops, s, 0, 0);
    ops, s := TakeJob(ops, s, 1, 1);
  }

  lemma NobodyActive()
    ensures ActiveJobs(Init().jobs, 0) == {}
  {
  }

  /** Two live agents can start containers in the opposite of push order. */
  lemma SecondAgentBreaksOrder() returns (ops: seq<Op>, s: State)
    ensures Reaches(ops, s)
    ensures s.pushed == [0, 1] && s.started == [1, 0]
    ensures !IsSubsequence(s.started, s.pushed)
  {
    hide Apply, Enabled;
    ops, s := TwoHands();
    ops, s := MarkJob(ops, s, 1);
    ops, s := MarkJob(ops, s, 0);
    NotInOrder();
  }

  lemma NotInOrder()
    ensures !IsSubsequence([1, 0], [0, 1])
  {
    assert [0, 1][..1] == [0] && [1, 0][..1] == [1] && [0][..0] == [];
    assert !IsSubsequence([1, 0], [0]);
  }

  /** A repeated id can put one queued job in two places: conservation needs distinct pushes. */
  lemma RepeatedPushBreaksConservation() returns (ops: seq<Op>, s: State)
    ensures Reaches(ops, s) && IsQueued(s, 0)
    ensures IsAt(s, 0, Listed) && IsAt(s, 0, InHand(0))
  {
    Start();
    NobodyActive();
    ops, s := Submit([], Init(), 0);
    ops, s := TakeJob(ops, s, 0, 0);
    ops, s := Do(ops, s, ForeignPush(0));
  }
}
