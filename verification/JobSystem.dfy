/** The handlers and the worker loop as they change the shared tables: one method per database
    session or Redis command, each tied to its step of the protocol. */
module JobSystem {
  import opened Common
  import opened JobProtocol

  class Tables {
    var jobs: map<JobId, Job>
    var counted: map<UserId, nat>
    var awaiting: set<JobId>
    var queue: seq<JobId>
    var publishing: set<JobId>
    var agents: map<AgentId, Agent>
    ghost var pushed: seq<JobId>
    ghost var popped: seq<JobId>
    ghost var started: seq<JobId>
    ghost var lost: set<JobId>
    ghost var states: seq<State>   // every state so far
    ghost var ops: seq<Op>         // the steps between them

    ghost function View(): State
      reads this
    {
      State(jobs, counted, awaiting, queue, publishing, agents, pushed, popped, started, lost)
    }

    /** What has happened to the tables is a run of the protocol that ends in what they hold. */
    ghost predicate Valid()
      reads this
    {
      Run(states, ops) && states[|ops|] == View()
    }

    constructor ()
      ensures Valid() && ops == [] && View() == Init()
    {
      jobs, counted, awaiting, queue, publishing, agents := map[], map[], {}, [], {}, map[];
      pushed, popped, started, lost := [], [], [], {};
      states, ops := [Init()], [];
    }

    ghost method Record(op: Op)
      requires Run(states, ops) && Enabled(states[|ops|], op) && View() == Apply(states[|ops|], op)
      modifies this`states, this`ops
      ensures Valid() && ops == old(ops) + [op]
    {
      hide Apply, Enabled;
      states, ops := states + [View()], ops + [op];
    }

    /** The theorems about runs hold of the tables, whatever methods were called on them. */
    lemma TablesFollowTheProtocol()
      requires Valid()
      ensures NoDuplicates(started)
      ensures popped + Reversed(queue) == pushed
      ensures (forall m | 0 <= m < |ops| :: TakesIn(states[m], ops[m])) ==> Conserved(View())
      ensures CleanRun(states, ops) ==> RunsAreSound(View())
    {
      hide Apply, Enabled, Conserved, TakesIn, RunsAreSound;
      NothingStartsTwice(states, ops, |ops|);
      ListIsFifo(states, ops, |ops|);
      if forall m | 0 <= m < |ops| :: TakesIn(states[m], ops[m]) {
        QueuedJobsAreConserved(states, ops, |ops|);
      }
      if CleanRun(states, ops) {
        CleanRunsStaySound(states, ops, |ops|);
      }
    }

    // ---------------------------------------------------------------- api/routers/jobs.py

    /** `enforce` for concurrent jobs: count, compare, and change nothing else. */
    method EnforceConcurrent(u: UserId, limit: int) returns (ok: bool)
      requires Valid()
      modifies this
      ensures Valid() && ops == old(ops) + if ok then [CountJobs(u, limit)] else []
      ensures ok <==> Enabled(old(View()), CountJobs(u, limit))
      ensures View() == if ok then Apply(old(View()), CountJobs(u, limit)) else old(View())
    {
      hide Run, ActiveJobs;
      var current := |ActiveJobs(jobs, u)|;
      if current + 1 > limit {
        return false;
      }
      counted := counted[u := (if u in counted then counted[u] else 0) + 1];
      ok := true;
      Record(CountJobs(u, limit));
    }

    method InsertJob(u: UserId, id: JobId)
      requires Valid() && Enabled(View(), CommitJob(u, id))
      modifies this
      ensures Valid() && ops == old(ops) + [CommitJob(u, id)]
      ensures View() == Apply(old(View()), CommitJob(u, id))
    {
      hide Run, ActiveJobs;
      jobs := jobs[id := Job(u, Queued, None)];
      awaiting := awaiting + {id};
      counted := counted[u := counted[u] - 1];
      Record(CommitJob(u, id));
    }

    /** The push after the commit, and the handler around it. */
    method EnqueueJob(id: JobId, raises: bool)
      requires Valid() && id in awaiting
      modifies this
      ensures Valid() && ops == old(ops) + [if raises then EnqueueFail(id) else EnqueueOk(id)]
      ensures View() == Apply(old(View()), if raises then EnqueueFail(id) else EnqueueOk(id))
    {
      hide Run, ActiveJobs;
      if raises {
        if id in jobs {
          jobs := jobs[id := jobs[id].(status := Failed)];
        }
      } else {
        queue := [id] + queue;
        pushed := pushed + [id];
      }
      awaiting := awaiting - {id};
      Record(if raises then EnqueueFail(id) else EnqueueOk(id));
    }

    /** The cancel handler; the status is the HTTP status. */
    method CancelJob(id: JobId) returns (status: int)
      requires Valid()
      modifies this
      ensures Valid() && ops == old(ops) + if status == 404 then [] else [Cancel(id)]
      ensures View() == if Enabled(old(View()), Cancel(id)) then Apply(old(View()), Cancel(id)) else old(View())
      ensures status == match Rank(old(View()), id)
                        case 0 => 404
                        case 1 => 200
                        case 2 => 200
                        case _ => 409
    {
      hide Run, ActiveJobs;
      if id !in jobs {
        return 404;
      }
      var job := jobs[id];
      if job.status.Terminal() || job.status.Cancelling? {
        Record(Cancel(id));
        return 409;
      }
      if job.status.Queued? {
        jobs := jobs[id := job.(status := Cancelled)];
        Record(Cancel(id));
        return 200;
      }
      jobs := jobs[id := job.(status := Cancelling)];
      publishing := publishing + {id};
      Record(Cancel(id));
      status := 200;
    }

    /** The control message; pub/sub reaches only agents already listening for this job. */
    method PublishControl(id: JobId)
      requires Valid() && id in publishing
      modifies this
      ensures Valid() && ops == old(ops) + [PublishCancel(id)]
      ensures View() == Apply(old(View()), PublishCancel(id))
    {
      hide Run, ActiveJobs;
      publishing := publishing - {id};
      agents := map a | a in agents :: Notified(agents[a], id);
      Record(PublishCancel(id));
    }

    // ---------------------------------------------------------------- worker/repository.py

    /** One UPDATE over the rows of a host in a given status. */
    method UpdateWhere(host: Host, from: Status, to: Status)
      modifies this`jobs
      ensures jobs.Keys == old(jobs).Keys
      ensures forall id | id in jobs ::
        var was := old(jobs)[id];
        jobs[id] == if was.worker == Some(host) && was.status == from then was.(status := to) else was
    {
      jobs := map id | id in jobs ::
        if jobs[id].worker == Some(host) && jobs[id].status == from then jobs[id].(status := to) else jobs[id];
    }

    method ReapZombieJobs(a: AgentId)
      requires Valid() && Enabled(View(), Reap(a))
      modifies this
      ensures Valid() && ops == old(ops) + [Reap(a)]
      ensures View() == Apply(old(View()), Reap(a))
    {
      hide Run, ActiveJobs;
      var host := agents[a].host;
      UpdateWhere(host, Cancelling, Cancelled);
      UpdateWhere(host, Running, Failed);
      agents := agents[a := agents[a].(phase := Idle)];
      Record(Reap(a));
    }

    method MarkJobRunning(a: AgentId) returns (running: bool)
      requires Valid() && Enabled(View(), MarkRunning(a))
      modifies this
      ensures Valid() && ops == old(ops) + [MarkRunning(a)]
      ensures View() == Apply(old(View()), MarkRunning(a))
      ensures running <==> StartsContainer(old(View()), MarkRunning(a), old(agents[a].phase.id))
    {
      hide Run, ActiveJobs;
      var id := agents[a].phase.id;
      if id !in jobs || jobs[id].status != Queued {
        agents := agents[a := agents[a].(phase := Idle)];
        Record(MarkRunning(a));
        return false;
      }
      jobs := jobs[id := jobs[id].(status := Running, worker := Some(agents[a].host))];
      agents := agents[a := agents[a].(phase := Executing(id, false, false))];
      started := started + [id];
      Record(MarkRunning(a));
      running := true;
    }

    /** `finalize_job`: no guard on the status it replaces. */
    method FinalizeJob(id: JobId, st: Status)
      modifies this`jobs
      ensures jobs == WithStatus(old(jobs), id, st)
    {
      if id !in jobs {
        return;
      }
      jobs := jobs[id := jobs[id].(status := st)];
    }

    // ---------------------------------------------------------------- worker/agent.py

    /** One BRPOP; false when the list stayed empty until the timeout. */
    method BrPop(a: AgentId) returns (got: bool)
      requires Valid() && PhaseOf(View(), a).Idle?
      modifies this
      ensures Valid() && ops == old(ops) + if got then [Pop(a)] else []
      ensures got <==> Enabled(old(View()), Pop(a))
      ensures View() == if got then Apply(old(View()), Pop(a)) else old(View())
    {
      hide Run, ActiveJobs;
      if queue == [] {
        return false;
      }
      var id := queue[|queue| - 1];
      queue := queue[..|queue| - 1];
      popped := popped + [id];
      agents := agents[a := agents[a].(phase := Popped(id))];
      Record(Pop(a));
      got := true;
    }

    method LoadJob(a: AgentId)
      requires Valid() && Enabled(View(), Load(a))
      modifies this
      ensures Valid() && ops == old(ops) + [Load(a)]
      ensures View() == Apply(old(View()), Load(a))
    {
      hide Run, ActiveJobs;
      var id := agents[a].phase.id;
      if id !in jobs || jobs[id].status != Queued {
        agents := agents[a := agents[a].(phase := Idle)];
        Record(Load(a));
        return;
      }
      agents := agents[a := agents[a].(phase := Loaded(id))];
      Record(Load(a));
    }

    method RejectInvalidSpec(a: AgentId)
      requires Valid() && Enabled(View(), RejectSpec(a))
      modifies this
      ensures Valid() && ops == old(ops) + [RejectSpec(a)]
      ensures View() == Apply(old(View()), RejectSpec(a))
    {
      hide Run, ActiveJobs;
      FinalizeJob(agents[a].phase.id, Failed);
      agents := agents[a := agents[a].(phase := Idle)];
      Record(RejectSpec(a));
    }

    /** `_apply_container_result`, down to the status it writes. */
    method ApplyContainerResult(a: AgentId)
      requires Valid() && Enabled(View(), Finalize(a))
      modifies this
      ensures Valid() && ops == old(ops) + [Finalize(a)]
      ensures View() == Apply(old(View()), Finalize(a))
    {
      hide Run, ActiveJobs;
      var id, result := agents[a].phase.id, agents[a].phase.result;
      var status;
      if result.cancelled {
        status := Cancelled;
      } else if result.timedOut || result.errorMessage == Some("timeout") {
        status := Failed;
      } else if result.errorMessage != None {
        status := Failed;
      } else if result.exitCode == Some(0) {
        status := Succeeded;
      } else {
        status := Failed;
      }
      FinalizeJob(id, status);
      agents := agents[a := agents[a].(phase := Idle)];
      Record(Finalize(a));
    }

    // ---------------------------------------------------------------- everything around them

    /** The steps no code takes: a submit is given up, processes come and go, a listener gets on
        its channel, a container ends, somebody else pushes. */
    method Outside(op: Op)
      requires Valid() && Enabled(View(), op)
      requires op.GiveUp? || op.ApiDies? || op.ForeignPush? || op.StartAgent? || op.Subscribe? || op.ContainerExit? || op.KillAgent?
      modifies this
      ensures Valid() && ops == old(ops) + [op]
      ensures View() == Apply(old(View()), op)
    {
      hide Run, ActiveJobs;
      match op {
        case GiveUp(u) => counted := counted[u := counted[u] - 1];
        case ApiDies(id) => awaiting, lost := awaiting - {id}, lost + {id};
        case ForeignPush(id) => queue, pushed := [id] + queue, pushed + [id];
        case StartAgent(a, host) => agents := agents[a := Agent(host, Starting)];
        case Subscribe(a) => agents := agents[a := agents[a].(phase := agents[a].phase.(listening := true))];
        case ContainerExit(a, r) => agents := agents[a := agents[a].(phase := Exited(agents[a].phase.id, r))];
        case KillAgent(a) =>
          var p := agents[a].phase;
          if p.Popped? || p.Loaded? {
            lost := lost + {p.id};
          }
          agents := agents - {a};
      }
      Record(op);
    }
  }
}
