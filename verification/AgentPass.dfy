/** What a gating pass does to the status of the records it has read, over every
    run, whatever discovery inserts overwrite. */
module AgentPass {
  import opened AgentRecord
  import opened AgentTheorems
  import opened Wrappers

  /** The availability has what the requirement asks for. */
  predicate Meets(needs: Requirement, available: Availability) {
    needs.NoneNeeded? || (available.configured && (needs.Image? ==> available.imageModel))
  }

  /** The requirement of an entry whose name is in the manifest. */
  predicate Known(manifest: map<string, Entry>, f: Found) {
    f.record.bundledName.Some? && f.record.bundledName.value in manifest
  }

  /** What the visit of an entry leaves: a record whose requirement is met again
      is active, one that was not gated keeps its status, one whose requirement
      is not met is inactive unless it was read as gated for that very reason,
      and nothing else is touched. */
  ghost predicate VisitLeaves(manifest: map<string, Entry>, available: Availability, f: Found, db: Db, db': Db) {
    && (forall id :: id in db <==> id in db')
    && (forall id :: id in db && id != f.id ==> db'[id] == db[id])
    && (!Known(manifest, f) ==> db' == db)
    && (Known(manifest, f) ==>
          var needs := manifest[f.record.bundledName.value].needs;
          && (Meets(needs, available) && f.record.reason.None? ==> db' == db)
          && (Meets(needs, available) && f.record.reason.Some? && f.id in db ==>
                db'[f.id] == db[f.id].(status := Active, reason := None))
          && (!Meets(needs, available) && f.id in db ==>
                || (db' == db && f.record.status.Inactive? && Lacks(needs, available, f.record.reason))
                || (db'[f.id] == db[f.id].(status := Inactive, reason := db'[f.id].reason)
                    && Lacks(needs, available, db'[f.id].reason))))
  }

  lemma Visit(s: State, i: nat)
    requires TaskOf(s, i).Gating? && TaskOf(s, i).next < |TaskOf(s, i).visited|
    ensures var t := TaskOf(s, i);
      VisitLeaves(s.manifest, t.available, t.visited[t.next], s.db, GateStepOf(s, i).db)
  {
  }

  // ----- the pass over a run

  lemma GatingBefore(s: State, a: Act, i: nat)
    requires Enabled(s, a) && TaskOf(Apply(s, a), i).Gating?
    ensures Apply(s, a).manifest == s.manifest
    ensures var t := TaskOf(Apply(s, a), i);
      || (a.GateRead? && a.i == i && t.next == 0)
      || (a == GateStep(i) && t.next > 0 && TaskOf(s, i) == t.(next := t.next - 1))
      || (a != GateStep(i) && TaskOf(s, i) == t)
  {
    StepMoves(s, a);
    if Actorless(a) || a.i != i {
      hide Apply, Enabled;
      TasksOfOthers(s, a, i);
    } else {
      hide UrlTaken, Finds, ReadsBundled, GateWrite;
    }
  }

  /** At every point between, the pass has the same list and is past the entry. */
  ghost predicate StillPassing(states: seq<State>, m: nat, k: nat, i: nat, t: Task) {
    k < |states| && t.Gating? && forall n :: m < n <= k ==>
      && TaskOf(states[n], i).Gating? && TaskOf(states[n], i).visited == t.visited
      && TaskOf(states[n], i).next > t.next
  }

  /** An entry the pass is past was visited at some step. */
  lemma {:induction false} VisitedAt(states: seq<State>, acts: seq<Act>, k: nat, i: nat, j: nat) returns (m: nat)
    requires Run(states, acts) && k <= |acts| && TaskOf(states[k], i).Gating? && j < TaskOf(states[k], i).next
    ensures m < k && acts[m] == GateStep(i) && states[m].manifest == states[k].manifest
    ensures TaskOf(states[m], i) == TaskOf(states[k], i).(next := j)
    ensures StillPassing(states, m, k, i, TaskOf(states[m], i))
  {
    hide Apply, Enabled;
    assert k > 0;
    GatingBefore(states[k - 1], acts[k - 1], i);
    var t := TaskOf(states[k], i);
    if acts[k - 1] == GateStep(i) && t.next == j + 1 {
      m := k - 1;
    } else {
      m := VisitedAt(states, acts, k - 1, i, j);
    }
  }

  /** The entries of a pass are different records. */
  lemma {:induction false} EntriesDiffer(states: seq<State>, acts: seq<Act>, k: nat, i: nat)
    requires Run(states, acts) && k <= |acts| && TaskOf(states[k], i).Gating?
    ensures Distinct(TaskOf(states[k], i).visited)
  {
    hide Apply, Enabled, Distinct;
    if k > 0 {
      GatingBefore(states[k - 1], acts[k - 1], i);
      if acts[k - 1].GateRead? && acts[k - 1].i == i && TaskOf(states[k], i).next == 0 {
        ReadsDiffer(states[k - 1], acts[k - 1], i);
      } else {
        EntriesDiffer(states, acts, k - 1, i);
      }
    }
  }

  lemma ReadsDiffer(s: State, a: Act, i: nat)
    requires Enabled(s, a) && a.GateRead? && a.i == i
    ensures TaskOf(Apply(s, a), i).Gating? && Distinct(TaskOf(Apply(s, a), i).visited)
  {
  }

  predicate KeepsStatus(s: State, s': State, id: Id) {
    id in s.db ==> id in s'.db && s'.db[id].status == s.db[id].status
  }

  /** No step but those of this pass writes the record's status. */
  ghost predicate StatusLeftTo(states: seq<State>, acts: seq<Act>, m: nat, k: nat, i: nat, id: Id) {
    && k < |states| == |acts| + 1
    && forall n :: m < n < k && acts[n] != GateStep(i) ==> KeepsStatus(states[n], states[n + 1], id)
  }

  lemma {:induction false} StatusStays(states: seq<State>, acts: seq<Act>, m: nat, k: nat, i: nat, t: Task)
    requires Run(states, acts) && m < k <= |acts| && t.Gating? && t.next < |t.visited| && Distinct(t.visited)
    requires StillPassing(states, m, k, i, t) && StatusLeftTo(states, acts, m, k, i, t.visited[t.next].id)
    requires t.visited[t.next].id in states[m + 1].db
    ensures var id := t.visited[t.next].id;
      id in states[k].db && states[k].db[id].status == states[m + 1].db[id].status
    decreases k
  {
    var id := t.visited[t.next].id;
    hide Apply, Enabled;
    if m + 1 < k {
      StatusStays(states, acts, m, k - 1, i, t);
      if acts[k - 1] == GateStep(i) {
        OwnStep(states[k - 1], i, id, t);
      } else {
        assert KeepsStatus(states[k - 1], states[k - 1 + 1], id);
      }
    }
  }

  lemma OwnStep(s: State, i: nat, id: Id, t: Task)
    requires Enabled(s, GateStep(i)) && t.Gating? && TaskOf(s, i).visited == t.visited && Distinct(t.visited)
    requires t.next < TaskOf(s, i).next && t.visited[t.next].id == id
    ensures KeepsStatus(s, Apply(s, GateStep(i)), id)
  {
    Visit(s, i);
  }

  /** A record that a pass read as gated and whose requirement is met by the
      availability the pass read under the lock is active when the pass returns,
      unless some other step wrote its status after the pass came to it; right
      after that visit it is active in any case, if it is still there. */
  lemma ClearedIsActive(states: seq<State>, acts: seq<Act>, k: nat, j: nat) returns (l: nat, m: nat)
    requires Run(states, acts) && k < |acts| && acts[k].GateReturn?
    requires j < |TaskOf(states[k], acts[k].i).visited|
    requires TaskOf(states[k], acts[k].i).visited[j].record.reason.Some?
    ensures l < m < k && acts[l] == GateLock(acts[k].i) && acts[m] == GateStep(acts[k].i)
    ensures TaskOf(states[m], acts[k].i).Gating? && TaskOf(states[m], acts[k].i).next == j
    ensures var f := TaskOf(states[k], acts[k].i).visited[j];
      Known(states[k].manifest, f) && f.id in states[m].db
      && Meets(states[k].manifest[f.record.bundledName.value].needs, states[l].available) ==>
        && f.id in states[m + 1].db && states[m + 1].db[f.id].status.Active? && states[m + 1].db[f.id].reason.None?
        && (StatusLeftTo(states, acts, m, k, acts[k].i, f.id) ==>
              f.id in states[k + 1].db && states[k + 1].db[f.id].status.Active?)
  {
    var i := acts[k].i;
    var f := TaskOf(states[k], i).visited[j];
    m := VisitedAt(states, acts, k, i, j);
    l := AvailabilityWasRead(states, acts, m, i);
    EntriesDiffer(states, acts, k, i);
    Visit(states[m], i);
    if f.id in states[m].db && StatusLeftTo(states, acts, m, k, i, f.id) {
      StatusStays(states, acts, m, k, i, TaskOf(states[m], i));
    }
  }
}
