/** The wait loop around a job container and the cancel listener beside it
    (worker/container.py:226-272, worker/cancel_listener.py:9-25). */
module ContainerWait {
  import opened Common
  import opened JobProtocol

  /** What one turn of the wait loop finds: the cancel event, the monotonic clock in
      milliseconds, and whether Docker still reports the container as running. */
  datatype Turn = Turn(cancelSet: bool, now: int, running: bool, exitCode: int)

  /** The turn settles the outcome; cancel is looked at first, then the deadline. */
  predicate Decides(t: Turn, deadline: int) {
    t.cancelSet || t.now >= deadline || !t.running
  }

  function Outcome(t: Turn, deadline: int): ContainerResult {
    if t.cancelSet then ContainerResult(None, None, false, true)
    else if t.now >= deadline then ContainerResult(None, Some("timeout"), true, false)
    else ContainerResult(Some(t.exitCode), None, false, false)
  }

  /** The loop of `_wait_for_container` over the turns it gets to make. */
  method WaitForContainer(turns: seq<Turn>, deadline: int) returns (r: Option<ContainerResult>, n: nat)
    ensures n <= |turns| && forall i | 0 <= i < n :: !Decides(turns[i], deadline)
    ensures r == if n < |turns| && Decides(turns[n], deadline) then Some(Outcome(turns[n], deadline)) else None
    ensures r == None <==> n == |turns|
    ensures r.Some? ==> (FinalStatus(r.value) == Cancelled <==> turns[n].cancelSet)
    ensures r.Some? ==> (FinalStatus(r.value) == Succeeded <==>
                         !turns[n].cancelSet && turns[n].now < deadline && !turns[n].running && turns[n].exitCode == 0)
    ensures r.Some? ==> FinalStatus(r.value).Terminal()
  {
    n := 0;
    while n < |turns|
      invariant n <= |turns| && forall i | 0 <= i < n :: !Decides(turns[i], deadline)
    {
      var t := turns[n];
      if t.cancelSet {
        return Some(ContainerResult(None, None, false, true)), n;
      }
      var remaining := deadline - t.now;
      if remaining <= 0 {
        return Some(ContainerResult(None, Some("timeout"), true, false)), n;
      }
      if !t.running {
        return Some(ContainerResult(Some(t.exitCode), None, false, false)), n;
      }
      n := n + 1;
    }
    r := None;
  }

  /** Between turns the loop sleeps for a second or for what is left, whichever is less. */
  ghost predicate Sleeps(turns: seq<Turn>, deadline: int) {
    forall i | 0 <= i < |turns| - 1 && turns[i].now < deadline ::
      turns[i + 1].now >= turns[i].now + (if deadline - turns[i].now < 1000 then deadline - turns[i].now else 1000)
  }

  lemma {:induction false} ClockAdvances(turns: seq<Turn>, deadline: int, n: nat)
    requires Sleeps(turns, deadline) && n < |turns|
    requires forall i | 0 <= i < n :: !Decides(turns[i], deadline)
    ensures turns[n].now >= deadline || turns[n].now >= turns[0].now + 1000 * n
  {
    if n > 0 {
      ClockAdvances(turns, deadline, n - 1);
      assert !Decides(turns[n - 1], deadline);
    }
  }

  /** However long the container runs, a timeout of s seconds ends the loop by its turn s. */
  lemma DeadlineEndsTheLoop(turns: seq<Turn>, seconds: nat)
    requires |turns| > seconds && Sleeps(turns, turns[0].now + 1000 * seconds)
    ensures exists i | 0 <= i <= seconds :: Decides(turns[i], turns[0].now + 1000 * seconds)
  {
    var deadline := turns[0].now + 1000 * seconds;
    if forall i | 0 <= i < seconds :: !Decides(turns[i], deadline) {
      ClockAdvances(turns, deadline, seconds);
      assert Decides(turns[seconds], deadline);
    }
  }

  datatype Inbound = Nothing | Control(text: string) | Other

  /** The listener sets the event exactly when a cancel command is among what it receives before
      somebody else set the event. */
  method WatchForCancel(inbound: seq<Inbound>, setElsewhere: nat, isCancel: string -> bool) returns (cancelled: bool)
    ensures cancelled <==> exists i | 0 <= i < |inbound| && i < setElsewhere :: inbound[i].Control? && isCancel(inbound[i].text)
  {
    for i := 0 to |inbound|
      invariant i <= setElsewhere || i == 0
      invariant forall j | 0 <= j < i :: !(inbound[j].Control? && isCancel(inbound[j].text))
    {
      if i >= setElsewhere {
        return false;
      }
      var message := inbound[i];
      if message.Control? && isCancel(message.text) {
        return true;
      }
    }
    cancelled := false;
  }
}
