/** The exact condition on discovery inserts for gating. A state is safe when no
    continuation without a further overwrite makes a record with a reason
    active; an insert leads to a safe state exactly when it spares the records
    that are gated or that a running pass is about to gate. */
module AgentGating {
  import opened AgentRecord
  import opened AgentTheorems
  import opened Wrappers

  /** No record with a reason is active. */
  ghost predicate ReasonsInactive(db: Db) {
    forall id :: id in db && db[id].reason.Some? ==> db[id].status.Inactive?
  }

  /** Consecutive steps in which no discovery insert overwrites any record. */
  ghost predicate Undisturbed(states: seq<State>, acts: seq<Act>) {
    && |states| == |acts| + 1
    && Path(states, acts)
    && forall k :: 0 <= k < |acts| ==> Overwritten(states[k], acts[k]).None?
  }

  /** Without a further overwrite no record with a reason ever becomes active. */
  ghost predicate StaysGated(s: State) {
    forall states: seq<State>, acts: seq<Act> ::
      Undisturbed(states, acts) && states[0] == s ==> ReasonsInactive(states[|acts|].db)
  }

  lemma {:induction false} PathKeeps(states: seq<State>, acts: seq<Act>, k: nat)
    requires Path(states, acts) && GatingSpared(states, acts) && Inv(states[0]) && k <= |acts|
    ensures Inv(states[k])
  {
    hide Apply, Enabled, SparesGating, Inv;
    if k > 0 {
      PathKeeps(states, acts, k - 1);
      StepKeeps(states[k - 1], acts[k - 1]);
    }
  }

  lemma InvStaysGated(s: State)
    requires Inv(s)
    ensures StaysGated(s)
  {
    hide Apply, Enabled, Overwritten, Path, OneLockHolder, PassInv;
    forall states: seq<State>, acts: seq<Act> | Undisturbed(states, acts) && states[0] == s
      ensures ReasonsInactive(states[|acts|].db)
    {
      PathKeeps(states, acts, |acts|);
    }
  }

  lemma BreaksNow(s: State)
    requires !ReasonsInactive(s.db)
    ensures !StaysGated(s)
  {
    hide Apply, Enabled, Overwritten, ReasonsInactive;
    var none: seq<Act> := [];
    assert Undisturbed([s], none) && [s][|none|] == s;
  }

  lemma Prepend(s: State, a: Act)
    requires Enabled(s, a) && Overwritten(s, a).None? && !StaysGated(Apply(s, a))
    ensures !StaysGated(s)
  {
    hide Apply, Enabled, Overwritten, ReasonsInactive;
    var states: seq<State>, acts: seq<Act> :|
      Undisturbed(states, acts) && states[0] == Apply(s, a) && !ReasonsInactive(states[|acts|].db);
    var states', acts' := [s] + states, [a] + acts;
    forall k | 0 <= k < |acts'|
      ensures Enabled(states'[k], acts'[k]) && Overwritten(states'[k], acts'[k]).None?
      ensures states'[k + 1] == Apply(states'[k], acts'[k])
    {
      if k > 0 {
        assert states'[k] == states[k - 1] && states'[k + 1] == states[k] && acts'[k] == acts[k - 1];
      }
    }
    assert Undisturbed(states', acts') && states'[|acts'|] == states[|acts|];
  }

  /** A discovery that finds a local record with a reason makes it active. */
  lemma DiscoveryActivates(s: State, i: nat, id: Id)
    requires id in s.db && s.db[id].source.Local? && s.db[id].reason.Some?
    ensures !StaysGated(s)
  {
    hide StaysGated;
    var s1 := Apply(s, Abort(i));
    var read := DiscoverRead(i, s.db[id].url, Some(id));
    var s2 := Apply(s1, read);
    assert TaskOf(s2, i) == Discovering(s.db[id].url, Some(Found(id, s.db[id])));
    var s3 := Apply(s2, DiscoverWrite(i));
    assert s3.db[id].reason.Some? && s3.db[id].status.Active?;
    BreaksNow(s3);
    Prepend(s2, DiscoverWrite(i));
    Prepend(s1, read);
    Prepend(s, Abort(i));
  }

  /** A running pass writes the reason of an entry by id, whatever has become
      of the record since it was read. */
  lemma {:induction false} PassGatesIt(s: State, p: nat, j: nat, i: nat)
    requires TaskOf(s, p).Gating? && TaskOf(s, p).next <= j < |TaskOf(s, p).visited|
    requires WillGate(s, TaskOf(s, p), TaskOf(s, p).visited[j]) && TaskOf(s, p).visited[j].record.reason.None?
    requires TaskOf(s, p).visited[j].id in s.db && s.db[TaskOf(s, p).visited[j].id].source.Local?
    ensures !StaysGated(s)
    decreases j - TaskOf(s, p).next
  {
    hide StaysGated;
    var t := TaskOf(s, p);
    var s' := Apply(s, GateStep(p));
    if t.next < j {
      PassGatesIt(s', p, j, i);
    } else {
      DiscoveryActivates(s', i, t.visited[j].id);
    }
    Prepend(s, GateStep(p));
  }

  /** An insert over a record that is gated or about to be breaks gating. */
  lemma InsertBreaks(s: State, i: nat)
    requires Inv(s) && TaskOf(s, i).Discovering? && !SparesGating(s, DiscoverWrite(i))
    ensures !StaysGated(DiscoverWriteStep(s, i))
  {
    hide StaysGated, OneLockHolder, UrlTaken, Distinct;
    var s' := DiscoverWriteStep(s, i);
    var id := Overwritten(s, DiscoverWrite(i)).value;
    assert s'.db[id].source.Local? && s'.db[id].status.Active? && s'.db[id].reason == s.db[id].reason;
    if s.db[id].reason.Some? {
      BreaksNow(s');
    } else {
      var p: nat :| AwaitsReason(s, p, id);
      var t := TaskOf(s, p);
      var j :| t.next <= j < |t.visited| && t.visited[j].id == id && WillGate(s, t, t.visited[j]);
      assert EntryInv(s, t, j) by { assert PassInv(s, t); }
      assert TaskOf(s', p) == t;
      PassGatesIt(s', p, j, i);
    }
  }

  /** The exact condition on a discovery write: gating can be broken after it,
      without any further overwrite, if and only if it inserts over a record
      that is gated or that a running pass has read and will gate. */
  lemma InsertExact(s: State, i: nat)
    requires Inv(s) && TaskOf(s, i).Discovering?
    ensures SparesGating(s, DiscoverWrite(i)) <==> StaysGated(DiscoverWriteStep(s, i))
    ensures SparesGating(s, DiscoverWrite(i)) <==> Inv(DiscoverWriteStep(s, i))
  {
    hide StaysGated, SparesGating, Inv, DiscoverWriteStep;
    var s' := DiscoverWriteStep(s, i);
    if SparesGating(s, DiscoverWrite(i)) {
      StepKeeps(s, DiscoverWrite(i));
    } else {
      InsertBreaks(s, i);
    }
    if Inv(s') {
      InvStaysGated(s');
    }
  }

  lemma StepExact(s: State, a: Act)
    requires Inv(s) && Enabled(s, a)
    ensures SparesGating(s, a) <==> StaysGated(Apply(s, a))
  {
    hide StaysGated, Inv, DiscoverWriteStep;
    if a.DiscoverWrite? {
      InsertExact(s, a.i);
    } else {
      StepKeeps(s, a);
      InvStaysGated(Apply(s, a));
    }
  }

  /** Over every run: gating is safe in all its states if and only if no
      discovery insert in it lands on a record that is gated or about to be. */
  lemma GatingKeptExactly(states: seq<State>, acts: seq<Act>)
    requires Run(states, acts)
    ensures GatingSpared(states, acts) <==> forall k :: 0 <= k <= |acts| ==> StaysGated(states[k])
  {
    hide Apply, Enabled, StaysGated, SparesGating, Inv;
    if GatingSpared(states, acts) {
      forall k | 0 <= k <= |acts| ensures StaysGated(states[k]) {
        RunKeeps(states, acts, k);
        InvStaysGated(states[k]);
      }
    } else if forall k :: 0 <= k <= |acts| ==> StaysGated(states[k]) {
      InvWhileSafe(states, acts, |acts|);
    }
  }

  lemma {:induction false} InvWhileSafe(states: seq<State>, acts: seq<Act>, k: nat)
    requires Run(states, acts) && k <= |acts| && forall j :: 0 <= j <= k ==> StaysGated(states[j])
    ensures Inv(states[k]) && forall j :: 0 <= j < k ==> SparesGating(states[j], acts[j])
  {
    if k > 0 {
      hide Apply, Enabled, StaysGated, SparesGating, Inv;
      InvWhileSafe(states, acts, k - 1);
      assert states[k - 1 + 1] == Apply(states[k - 1], acts[k - 1]);
      StepExact(states[k - 1], acts[k - 1]);
      StepKeeps(states[k - 1], acts[k - 1]);
    }
  }
}
