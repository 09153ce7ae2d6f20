/** Failure counting and retries of the health service
    (backend/agent/health.py).

    The service is one object whose cycle and retry tasks interleave at every
    await. Each method below is the code between two awaits of one task, so
    what every method keeps holds under every interleaving. */
module AgentHealth {

  import opened Wrappers

  datatype Status = Active | Inactive

  /** A stored agent as a task read it: its status and whether it is gated. */
  datatype Agent = Agent(id: string, status: Status, gated: bool)

  /** Where a retry task is: at the head of its loop, asleep after reading the
      count, or probing the agent it re-read. */
  datatype Retry = Head | Asleep(count: nat, delay: real) | Probing(count: nat, agent: Agent)

  datatype Write = Deactivate(id: string, failures: nat) | Reactivate(id: string)

  // ----- counting

  /** Failures since the last healthy probe. */
  function FailedTail(probes: seq<bool>): nat {
    if probes == [] || probes[|probes| - 1] then 0 else FailedTail(probes[..|probes| - 1]) + 1
  }

  /** The tail counts exactly the failures after the last success. */
  lemma {:induction false} FailedTailMeans(probes: seq<bool>)
    ensures FailedTail(probes) <= |probes|
    ensures forall k :: |probes| - FailedTail(probes) <= k < |probes| ==> !probes[k]
    ensures FailedTail(probes) < |probes| ==> probes[|probes| - FailedTail(probes) - 1]
  {
    if probes != [] && !probes[|probes| - 1] {
      var n := |probes| - 1;
      FailedTailMeans(probes[..n]);
      forall k | |probes| - FailedTail(probes) <= k < |probes|
        ensures !probes[k]
      {
        if k < n {
          assert probes[..n][k] == probes[k];
        }
      }
    }
  }

  function Power(base: real, n: nat): real { if n == 0 then 1.0 else base * Power(base, n - 1) }

  function CountIn(counts: map<string, nat>, id: string): nat { if id in counts then counts[id] else 0 }

  function ProbesIn(probes: map<string, seq<bool>>, id: string): seq<bool> { if id in probes then probes[id] else [] }

  ghost predicate Counted(counts: map<string, nat>, probes: map<string, seq<bool>>) {
    forall id :: CountIn(counts, id) == FailedTail(ProbesIn(probes, id))
  }

  ghost predicate OnlyAt(
    id: string, counts: map<string, nat>, counts': map<string, nat>,
    probes: map<string, seq<bool>>, probes': map<string, seq<bool>>)
  {
    forall other :: other != id ==>
      CountIn(counts', other) == CountIn(counts, other) && ProbesIn(probes', other) == ProbesIn(probes, other)
  }

  // ----- the service

  class AgentHealthService {
    const maxFailures: nat
    const initialDelay: real
    const multiplier: real
    const maxDelay: real

    var running: bool
    var failureCounts: map<string, nat>
    var retryTasks: map<string, Retry>
    /** The agent the cycle is probing. */
    var cursor: Option<Agent>

    /** Per agent the outcomes of its cycle and retry probes, and every status
        write attempted. */
    ghost var probes: map<string, seq<bool>>
    ghost var writes: seq<Write>

    constructor (maxFailures: nat, initialDelay: real, multiplier: real, maxDelay: real)
      ensures Valid() && probes == map[] && writes == [] && !running && cursor == None
      ensures this.maxFailures == maxFailures && this.initialDelay == initialDelay
      ensures this.multiplier == multiplier && this.maxDelay == maxDelay
    {
      this.maxFailures, this.initialDelay := maxFailures, initialDelay;
      this.multiplier, this.maxDelay := multiplier, maxDelay;
      running, failureCounts, retryTasks, cursor := false, map[], map[], None;
      probes, writes := map[], [];
    }

    function Count(id: string): nat
      reads this`failureCounts
    {
      CountIn(failureCounts, id)
    }

    ghost function Probes(id: string): seq<bool>
      reads this`probes
    {
      ProbesIn(probes, id)
    }

    /** The count is the number of failed probes since the last success. A retry
        that read the count still sees it; the cycle never probes an agent that
        has a retry task; nothing was deactivated before its limit. */
    ghost predicate Valid()
      reads this
    {
      && Counted(failureCounts, probes)
      && RetriesFit(retryTasks, failureCounts)
      && (cursor.Some? ==> cursor.value.id !in retryTasks)
      && LateEnough(writes)
    }

    ghost predicate RetriesFit(tasks: map<string, Retry>, counts: map<string, nat>) {
      forall id :: id in tasks ==> RetryFits(tasks[id], id, CountIn(counts, id))
    }

    ghost predicate RetryFits(r: Retry, id: string, count: nat) {
      && (!r.Head? ==> r.count == count && 0 < count < maxFailures)
      && (r.Asleep? && count > 0 ==> r.delay == Delay(count))
      && (r.Probing? ==> r.agent.id == id)
    }

    ghost predicate LateEnough(ws: seq<Write>) {
      forall k :: 0 <= k < |ws| && ws[k].Deactivate? ==> ws[k].failures >= maxFailures
    }

    function Delay(count: nat): real
      requires count > 0
    {
      var delay := initialDelay * Power(multiplier, count - 1);
      if delay <= maxDelay then delay else maxDelay
    }

    /** The status write after a probe that left this count: an ungated inactive
        agent comes back on success, an active one goes down at the limit. */
    function StatusWrites(a: Agent, count: nat): seq<Write> {
      if count == 0 then if a.status.Inactive? && !a.gated then [Reactivate(a.id)] else []
      else if count >= maxFailures && a.status.Active? then [Deactivate(a.id, count)] else []
    }

    /** What a probe may write: a reactivation exactly when it finds an ungated
        inactive agent healthy, a deactivation exactly when it is the failure
        that reaches the limit of an active one, and nothing else. */
    ghost predicate Announces(a: Agent, healthy: bool, failures: nat, news: seq<Write>) {
      && |news| <= 1 && (forall w :: w in news ==> w == Reactivate(a.id) || w == Deactivate(a.id, failures))
      && (Reactivate(a.id) in news <==> healthy && a.status == Inactive && !a.gated)
      && (Deactivate(a.id, failures) in news <==> !healthy && failures >= maxFailures && a.status == Active)
    }

    lemma StatusWritesMean(a: Agent, healthy: bool, failures: nat)
      requires healthy <==> failures == 0
      ensures Announces(a, healthy, failures, StatusWrites(a, failures))
    {
      assert StatusWrites(a, failures) == [] || StatusWrites(a, failures)[0] in StatusWrites(a, failures);
    }

    predicate ShouldStopRetry(count: nat) { count == 0 || count >= maxFailures }

    /** Every method leaves the counts of other agents alone. */
    twostate predicate OthersKept(id: string)
      reads this`failureCounts, this`probes
    {
      OnlyAt(id, old(failureCounts), failureCounts, old(probes), probes)
    }

    // ----- the cycle

    /** `_check_stored_agent` is awaited next, unless a retry is in progress. */
    method CycleVisit(agent: Agent) returns (probing: bool)
      requires Valid() && cursor.None?
      modifies this`cursor
      ensures Valid() && probing == (agent.id !in retryTasks)
      ensures cursor == if probing then Some(agent) else None
    {
      probing := agent.id !in retryTasks;
      cursor := if probing then Some(agent) else None;
    }

    method CycleProbed(healthy: bool)
      requires Valid() && cursor.Some?
      modifies this
      ensures Valid() && cursor == None && running == old(running)
      ensures var a := old(cursor).value;
        && OthersKept(a.id) && Probes(a.id) == old(Probes(a.id)) + [healthy]
        && Count(a.id) == (if healthy then 0 else old(Count(a.id)) + 1)
        && retryTasks == (if !healthy && Count(a.id) < maxFailures then old(retryTasks)[a.id := Head]
                          else old(retryTasks))
        && writes == old(writes) + StatusWrites(a, Count(a.id))
    {
      var a := cursor.value;
      cursor := None;
      hide Counted, LateEnough, RetriesFit, OnlyAt;
      Record(a.id, healthy, if healthy then 0 else Count(a.id) + 1);
      RetriesKept(a.id, retryTasks, old(failureCounts), failureCounts, old(probes), probes);
      if healthy {
        Recovered(a);
      } else {
        var failures := Count(a.id);
        if failures >= maxFailures {
          GoneDown(a, failures);
        } else {
          ScheduleRetry(a.id);
        }
      }
    }

    lemma RetriesKept(
      id: string, tasks: map<string, Retry>, counts: map<string, nat>, counts': map<string, nat>,
      was: map<string, seq<bool>>, now: map<string, seq<bool>>)
      requires RetriesFit(tasks, counts) && id !in tasks && OnlyAt(id, counts, counts', was, now)
      ensures RetriesFit(tasks, counts')
    {}

    lemma HeadFits(id: string, tasks: map<string, Retry>, counts: map<string, nat>)
      requires RetriesFit(tasks, counts)
      ensures RetriesFit(tasks[id := Head], counts)
    {}

    /** Stores the count a probe led to, next to the probe. */
    method Record(id: string, healthy: bool, count: nat)
      requires Counted(failureCounts, probes) && count == if healthy then 0 else Count(id) + 1
      modifies this`failureCounts, this`probes
      ensures Count(id) == count && Probes(id) == old(Probes(id)) + [healthy] && OthersKept(id)
      ensures Counted(failureCounts, probes)
    {
      ghost var was := Probes(id);
      failureCounts := failureCounts[id := count];
      probes := probes[id := was + [healthy]];
      assert (was + [healthy])[..|was|] == was;
      forall x ensures CountIn(failureCounts, x) == FailedTail(ProbesIn(probes, x)) {
        if x != id {
          assert CountIn(old(failureCounts), x) == FailedTail(ProbesIn(old(probes), x));
        }
      }
    }

    /** `_schedule_retry`: one task per agent. */
    method ScheduleRetry(id: string)
      requires RetriesFit(retryTasks, failureCounts)
      modifies this`retryTasks
      ensures retryTasks == if id in old(retryTasks) then old(retryTasks) else old(retryTasks)[id := Head]
      ensures RetriesFit(retryTasks, failureCounts)
    {
      if id !in retryTasks {
        retryTasks := retryTasks[id := Head];
      }
    }

    method Recovered(a: Agent)
      requires LateEnough(writes)
      modifies this`writes
      ensures writes == old(writes) + StatusWrites(a, 0)
      ensures LateEnough(writes)
    {
      if a.status.Inactive? && !a.gated {
        writes := writes + [Reactivate(a.id)];
      }
    }

    method GoneDown(a: Agent, failures: nat)
      requires LateEnough(writes) && failures >= maxFailures && failures > 0
      modifies this`writes
      ensures writes == old(writes) + StatusWrites(a, failures)
      ensures LateEnough(writes)
    {
      if a.status.Active? {
        writes := writes + [Deactivate(a.id, failures)];
      }
    }

    // `CycleAbandoned`, `RetryAbandoned`, `Start` and `Stop` complete the set of
    // steps that an interleaving is made of; no loop modelled here takes them.

    /** A cycle that raises or is cancelled counts nothing. */
    method CycleAbandoned()
      requires Valid()
      modifies this`cursor
      ensures Valid() && cursor == None
    {
      cursor := None;
    }

    // ----- a retry task

    /** The head of the retry loop: stop, or sleep for the backoff delay. */
    method RetryWait(id: string) returns (delay: Option<real>)
      requires Valid() && id in retryTasks && retryTasks[id].Head?
      modifies this`retryTasks
      ensures Valid()
      ensures delay.Some? <==> running && 0 < Count(id) < maxFailures
      ensures delay.Some? ==>
        delay.value == Delay(Count(id)) && retryTasks == old(retryTasks)[id := Asleep(Count(id), delay.value)]
      ensures delay.None? ==> retryTasks == old(retryTasks) - {id}
    {
      var count := Count(id);
      if !running || ShouldStopRetry(count) {
        retryTasks := retryTasks - {id};
        return None;
      }
      delay := Some(Delay(count));
      retryTasks := retryTasks[id := Asleep(count, delay.value)];
    }

    /** After the sleep: the agent is read again; a deleted one ends the retry. */
    method RetryLoad(id: string, agent: Option<Agent>)
      requires Valid() && id in retryTasks && retryTasks[id].Asleep?
      requires agent.Some? ==> agent.value.id == id
      modifies this`retryTasks
      ensures Valid()
      ensures retryTasks == if agent.None? then old(retryTasks) - {id}
                            else old(retryTasks)[id := Probing(Count(id), agent.value)]
    {
      retryTasks := if agent.None? then retryTasks - {id}
                    else retryTasks[id := Probing(retryTasks[id].count, agent.value)];
    }

    /** The probe of a retry came back. */
    method RetryProbed(id: string, healthy: bool) returns (stopped: bool)
      requires Valid() && id in retryTasks && retryTasks[id].Probing?
      modifies this
      ensures Valid() && cursor == old(cursor) && running == old(running)
      ensures OthersKept(id) && Probes(id) == old(Probes(id)) + [healthy]
      ensures Count(id) == if healthy then 0 else old(Count(id)) + 1
      ensures stopped <==> healthy || Count(id) == maxFailures
      ensures retryTasks == if stopped then old(retryTasks) - {id} else old(retryTasks)[id := Head]
      ensures writes == old(writes) + StatusWrites(old(retryTasks[id]).agent, Count(id))
    {
      var a, count := retryTasks[id].agent, retryTasks[id].count;
      assert count == Count(id) < maxFailures && a.id == id;
      assert RetriesFit(retryTasks - {id}, failureCounts);
      hide Counted, LateEnough, RetriesFit, OnlyAt;
      // one more than the count read before the sleep, not than the stored one
      Record(id, healthy, if healthy then 0 else count + 1);
      RetriesKept(id, retryTasks - {id}, old(failureCounts), failureCounts, old(probes), probes);
      if healthy {
        Recovered(a);
        stopped := true;
      } else {
        stopped := Count(id) >= maxFailures;
        if stopped {
          GoneDown(a, Count(id));
        }
      }
      Continue(id, stopped);
    }

    /** Back to the head of the loop, or out of it. */
    method Continue(id: string, stopped: bool)
      requires RetriesFit(retryTasks - {id}, failureCounts)
      modifies this`retryTasks
      ensures retryTasks == if stopped then old(retryTasks) - {id} else old(retryTasks)[id := Head]
      ensures RetriesFit(retryTasks, failureCounts)
    {
      HeadFits(id, retryTasks - {id}, failureCounts);
      assert (retryTasks - {id})[id := Head] == retryTasks[id := Head];
      retryTasks := if stopped then retryTasks - {id} else retryTasks[id := Head];
    }

    /** A retry task that raises or is cancelled only drops itself. */
    method RetryAbandoned(id: string)
      requires Valid()
      modifies this`retryTasks
      ensures Valid() && retryTasks == old(retryTasks) - {id}
    {
      retryTasks := retryTasks - {id};
    }

    method Start()
      requires Valid()
      modifies this`running
      ensures Valid() && running
    {
      running := true;
    }

    method Stop()
      requires Valid()
      modifies this`running, this`retryTasks, this`cursor
      ensures Valid() && (old(running) ==> !running && retryTasks == map[] && cursor == None)
      ensures !old(running) ==> !running && retryTasks == old(retryTasks) && cursor == old(cursor)
    {
      if running {
        running, retryTasks, cursor := false, map[], None;
      }
    }

    // ----- whole tasks, when nothing else runs

    /** One round of the retry loop. */
    method RetryOnce(agent: Agent, healthy: bool) returns (stopped: bool, delay: real)
      requires Valid() && running && agent.id in retryTasks && retryTasks[agent.id].Head?
      requires 0 < Count(agent.id) < maxFailures
      modifies this
      ensures Valid() && running && OthersKept(agent.id)
      ensures delay == Delay(old(Count(agent.id)))
      ensures Count(agent.id) == if healthy then 0 else old(Count(agent.id)) + 1
      ensures stopped <==> healthy || Count(agent.id) == maxFailures
      ensures if stopped then agent.id !in retryTasks else agent.id in retryTasks && retryTasks[agent.id].Head?
      ensures writes == old(writes) + StatusWrites(agent, Count(agent.id))
    {
      hide Counted, LateEnough, RetryFits, Delay;
      var wait := RetryWait(agent.id);
      delay := wait.value;
      RetryLoad(agent.id, Some(agent));
      stopped := RetryProbed(agent.id, healthy);
    }

    /** `_retry_agent_check` on the outcomes its probes would have, up to the
        limit: it ends with the first success or with the last probe, each probe
        after its backoff delay. A recovered agent has count zero and comes back
        if it was inactive and ungated; one that stayed down is at the limit and
        goes down if it was active. */
    method RetryTask(agent: Agent, outcomes: seq<bool>) returns (delays: seq<real>)
      requires Valid() && running && agent.id in retryTasks && retryTasks[agent.id].Head?
      requires 0 < Count(agent.id) < maxFailures && |outcomes| == maxFailures - Count(agent.id)
      modifies this
      ensures Valid() && agent.id !in retryTasks
      ensures 0 < |delays| <= |outcomes| && forall k :: 0 <= k < |delays| - 1 ==> !outcomes[k]
      ensures outcomes[|delays| - 1] || |delays| == |outcomes|
      ensures forall k :: 0 <= k < |delays| ==> delays[k] == Delay(old(Count(agent.id)) + k)
      ensures Count(agent.id) == if outcomes[|delays| - 1] then 0 else maxFailures
      ensures writes == old(writes) +
        if outcomes[|delays| - 1] then if agent.status == Inactive && !agent.gated then [Reactivate(agent.id)] else []
        else if agent.status == Active then [Deactivate(agent.id, maxFailures)] else []
    {
      hide Counted, LateEnough, RetryFits, Delay, OnlyAt;
      delays := [];
      var stopped := false;
      ghost var start := Count(agent.id);
      while !stopped
        invariant Valid() && running && |delays| <= |outcomes|
        invariant !stopped ==> |delays| < |outcomes| && forall k :: 0 <= k < |delays| ==> !outcomes[k]
        invariant !stopped ==> agent.id in retryTasks && retryTasks[agent.id].Head? && writes == old(writes)
        invariant !stopped ==> Count(agent.id) == start + |delays|
        invariant stopped ==>
          && agent.id !in retryTasks && 0 < |delays| && (forall k :: 0 <= k < |delays| - 1 ==> !outcomes[k])
          && (outcomes[|delays| - 1] || |delays| == |outcomes|)
          && Count(agent.id) == (if outcomes[|delays| - 1] then 0 else maxFailures)
          && writes == old(writes) + StatusWrites(agent, Count(agent.id))
        invariant forall k :: 0 <= k < |delays| ==> delays[k] == Delay(start + k)
        decreases |outcomes| - |delays|, !stopped
      {
        var delay;
        stopped, delay := RetryOnce(agent, outcomes[|delays|]);
        delays := delays + [delay];
      }
    }

    /** On an agent that stays down: exactly the probes left before the limit, at
        most the limit minus one, with the agent at the limit and deactivated. */
    method RetryWhileDown(agent: Agent) returns (delays: seq<real>)
      requires Valid() && running && agent.id in retryTasks && retryTasks[agent.id].Head?
      requires 0 < Count(agent.id) < maxFailures
      modifies this
      ensures Valid() && agent.id !in retryTasks
      ensures |delays| == maxFailures - old(Count(agent.id)) <= maxFailures - 1
      ensures forall k :: 0 <= k < |delays| ==> delays[k] == Delay(old(Count(agent.id)) + k)
      ensures Count(agent.id) == maxFailures
      ensures writes == old(writes) + if agent.status.Active? then [Deactivate(agent.id, maxFailures)] else []
    {
      delays := RetryTask(agent, seq(maxFailures - Count(agent.id), k => false));
    }

    /** `run_health_check_cycle` over agents with distinct ids: each agent
        without a retry task is probed once, the others are left alone. */
    method RunHealthCheckCycle(agents: seq<Agent>, healthy: seq<bool>)
      requires Valid() && cursor.None? && |healthy| == |agents|
      requires forall i, j :: 0 <= i < j < |agents| ==> agents[i].id != agents[j].id
      modifies this
      ensures Valid() && cursor.None?
      ensures forall k :: 0 <= k < |agents| ==>
        Probes(agents[k].id) == old(Probes(agents[k].id)) + if agents[k].id in old(retryTasks) then [] else [healthy[k]]
    {
      hide Counted, LateEnough, RetryFits, CountIn, ProbesIn;
      var n := 0;
      while n < |agents|
        invariant n <= |agents| && Valid() && cursor.None?
        invariant forall k :: n <= k < |agents| ==>
          Probes(agents[k].id) == old(Probes(agents[k].id))
        invariant forall k :: n <= k < |agents| ==> (agents[k].id in retryTasks <==> agents[k].id in old(retryTasks))
        invariant forall k :: 0 <= k < n ==>
          Probes(agents[k].id)
            == old(Probes(agents[k].id)) + if agents[k].id in old(retryTasks) then [] else [healthy[k]]
      {
        var probing := CycleVisit(agents[n]);
        if probing {
          CycleProbed(healthy[n]);
        }
        n := n + 1;
      }
    }
  }

  // ----- delays

  /** With a multiplier of at least one, delays never shrink and never pass the cap. */
  lemma DelaysGrow(s: AgentHealthService, k: nat, m: nat)
    requires 0 < k <= m && s.multiplier >= 1.0 && s.initialDelay >= 0.0
    ensures s.Delay(k) <= s.Delay(m) <= s.maxDelay
  {
    PowerGrows(s.multiplier, k - 1, m - 1);
    assert s.initialDelay * Power(s.multiplier, k - 1) <= s.initialDelay * Power(s.multiplier, m - 1);
  }

  /** The first delay is the initial one and each next delay the one before times
      the multiplier, up to the cap. */
  lemma DelayRecurrence(s: AgentHealthService, k: nat)
    requires k > 0 && s.multiplier >= 1.0 && s.initialDelay >= 0.0 && s.maxDelay >= 0.0
    ensures s.Delay(1) == if s.initialDelay <= s.maxDelay then s.initialDelay else s.maxDelay
    ensures var next := s.multiplier * s.Delay(k);
      s.Delay(k + 1) == if next <= s.maxDelay then next else s.maxDelay
  {
    var uncapped := s.initialDelay * Power(s.multiplier, k - 1);
    assert Power(s.multiplier, 0) == 1.0;
    assert s.initialDelay * Power(s.multiplier, k) == s.multiplier * uncapped by {
      assert Power(s.multiplier, k) == s.multiplier * Power(s.multiplier, k - 1);
    }
    if uncapped > s.maxDelay {
      assert s.multiplier * uncapped >= uncapped by {
        assert (s.multiplier - 1.0) * uncapped >= 0.0;
      }
      assert s.multiplier * s.maxDelay >= s.maxDelay by {
        assert (s.multiplier - 1.0) * s.maxDelay >= 0.0;
      }
    }
  }

  lemma {:induction false} PowerGrows(base: real, k: nat, m: nat)
    requires base >= 1.0 && k <= m
    ensures 0.0 < Power(base, k) <= Power(base, m)
    decreases m
  {
    if k < m {
      PowerGrows(base, k, m - 1);
      assert Power(base, m) - Power(base, m - 1) == (base - 1.0) * Power(base, m - 1);
      assert (base - 1.0) * Power(base, m - 1) >= 0.0;
    } else if k > 0 {
      PowerGrows(base, k - 1, k - 1);
    }
  }
}
