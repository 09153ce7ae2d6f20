/** Properties of every run of the agent-record machine. What its discovery
    inserts overwrite decides two of them: gating holds exactly while they spare
    records that are gated or about to be, ownership while they spare owned ones. */
module AgentTheorems {
  import opened AgentRecord
  import opened Wrappers

  // ----- the invariant

  /** A gated record is a bundled one and is inactive. */
  ghost predicate GatedInactive(db: Db) {
    forall id :: id in db && db[id].reason.Some? ==> db[id].source.Bundled? && db[id].status.Inactive?
  }

  predicate HoldsLock(t: Task) {
    t.GateReading? || t.Gating? || t.FindingName? || t.FindingUrl? || t.FindingComposeUrl? || t.FindingHolder?
    || t.Reconciling?
  }

  ghost predicate OneLockHolder(s: State) {
    forall i: nat :: HoldsLock(TaskOf(s, i)) ==> s.lock == Some(i)
  }

  function Target(s: State, t: Task, name: string): Option<Reason>
    requires t.Gating? && name in s.manifest
  {
    InactiveReason(s.manifest[name].needs, t.available)
  }

  predicate IsBundled(db: Db, id: Id) { id in db && db[id].source.Bundled? }

  /** One entry of a gating pass. A visited record that is still bundled stores
      the computed reason; one to come stores the reason that was read or, when
      it is no longer bundled, is not going to get one. */
  ghost predicate EntryInv(s: State, t: Task, j: nat)
    requires t.Gating? && j < |t.visited|
  {
    var f := t.visited[j];
    if IsBundled(s.db, f.id) then
      && s.db[f.id].bundledName == f.record.bundledName
      && (j < t.next && f.record.bundledName.Some? && f.record.bundledName.value in s.manifest ==>
            s.db[f.id].reason == Target(s, t, f.record.bundledName.value))
      && (j >= t.next ==> s.db[f.id].reason == f.record.reason)
    else
      j >= t.next ==> !WillGate(s, t, f)
  }

  /** A gating pass: its list covers the bundled records, each once. */
  ghost predicate PassInv(s: State, t: Task)
    requires t.Gating?
  {
    && t.next <= |t.visited|
    && (forall j :: 0 <= j < |t.visited| ==> EntryInv(s, t, j))
    && (forall id :: IsBundled(s.db, id) ==> exists j :: 0 <= j < |t.visited| && t.visited[j].id == id)
    && Distinct(t.visited)
  }

  ghost predicate Distinct(visited: seq<Found>) {
    forall j, k :: 0 <= j < k < |visited| ==> visited[j].id != visited[k].id
  }

  ghost predicate Inv(s: State) {
    && GatedInactive(s.db)
    && OneLockHolder(s)
    && forall i: nat :: TaskOf(s, i).Gating? ==> PassInv(s, TaskOf(s, i))
  }

  /** The bundled records are the same, but perhaps for one that is no longer
      bundled, and keep their names and reasons. */
  ghost predicate BundledUntouched(db: Db, db': Db, gone: Option<Id>) {
    && (forall id :: IsBundled(db, id) ==> IsBundled(db', id) || gone == Some(id))
    && (forall id :: IsBundled(db', id) ==>
          IsBundled(db, id) && db'[id].reason == db[id].reason && db'[id].bundledName == db[id].bundledName)
  }

  predicate NeedsLock(a: Act) { a.GateStep? || a.ReconcileWrite? }

  ghost predicate Quiet(db: Db, db': Db, gone: Option<Id>) { BundledUntouched(db, db', gone) && GatedInactive(db') }

  lemma CloudIsQuiet(db: Db, id: Id, r: Record)
    requires GatedInactive(db) && r.source.Cloud? && r.reason.None? && (id in db ==> !db[id].source.Bundled?)
    ensures Quiet(db, db[id := r], None)
  {}

  lemma InsertIsQuiet(db: Db, id: Id, url: string)
    requires GatedInactive(db) && (id in db ==> db[id].reason.None?)
    ensures Quiet(db, InsertLocal(db, id, url), if id in db then Some(id) else None)
  {}

  lemma StatusIsQuiet(db: Db, id: Id, status: Status)
    requires GatedInactive(db) && (status.Active? && id in db ==> db[id].reason.None?)
    ensures Quiet(db, SetStatus(db, id, status), None)
  {}

  lemma MarkIsQuiet(db: Db, ids: set<Id>)
    requires GatedInactive(db)
    ensures Quiet(db, MarkInactiveIn(db, ids), None)
  {}

  lemma PruneIsQuiet(db: Db, ids: set<Id>)
    requires GatedInactive(db) && forall id :: id in ids && id in db ==> Takeable(db[id])
    ensures Quiet(db, db - ids, None)
  {}

  lemma RegisterIsQuiet(s: State, i: nat, minted: Id)
    requires GatedInactive(s.db) && Enabled(s, RegisterWrite(i, minted))
    ensures Quiet(s.db, RegisterWriteStep(s, i, minted).db, None)
  {
    hide UrlTaken, Quiet;
    var t := TaskOf(s, i);
    Unchanged(s.db);
    if t.seen.None? {
      CloudIsQuiet(s.db, minted, Record(Cloud, Some(t.provider), Active, None, None, t.url));
    } else if t.seen.value.id in s.db && Takeable(s.db[t.seen.value.id]) {
      var id := t.seen.value.id;
      CloudIsQuiet(s.db, id, TakeOver(s.db, id, t.provider, t.url)[id]);
    }
  }

  lemma DiscoverIsQuiet(s: State, i: nat)
    requires GatedInactive(s.db) && TaskOf(s, i).Discovering? && SparesGating(s, DiscoverWrite(i))
    ensures Quiet(s.db, DiscoverWriteStep(s, i).db, Overwritten(s, DiscoverWrite(i)))
  {
    hide UrlTaken, Quiet;
    var t := TaskOf(s, i);
    Unchanged(s.db);
    if t.seen.Some? {
      if t.seen.value.id in s.db && s.db[t.seen.value.id].source.Local? {
        StatusIsQuiet(s.db, t.seen.value.id, Active);
      }
    } else if !UrlTaken(s.db, UrlHash(t.url), t.url) {
      InsertIsQuiet(s.db, UrlHash(t.url), t.url);
    }
  }

  lemma ProbeIsQuiet(s: State, i: nat, healthy: bool)
    requires GatedInactive(s.db) && TaskOf(s, i).Probing?
    ensures Quiet(s.db, ProbeWriteStep(s, i, healthy).db, None)
  {
    hide Quiet;
    Unchanged(s.db);
    var f := TaskOf(s, i).probed;
    if !healthy {
      StatusIsQuiet(s.db, f.id, Inactive);
    } else if f.id in s.db && s.db[f.id].reason.None? {
      StatusIsQuiet(s.db, f.id, Active);
    }
  }

  /** Registration, discovery, health and liveness steps never write a reason,
      and never leave a gated record active. */
  lemma OutsideTheLock(s: State, a: Act)
    requires GatedInactive(s.db) && Enabled(s, a) && SparesGating(s, a) && !NeedsLock(a)
    ensures Quiet(s.db, Apply(s, a).db, Overwritten(s, a))
  {
    hide Quiet, GatedInactive, RegisterWriteStep, DiscoverWriteStep, ProbeWriteStep, SparesGating, ReadsBundled, Finds;
    match a
    case RegisterWrite(i, minted) => RegisterIsQuiet(s, i, minted);
    case DiscoverWrite(i) => DiscoverIsQuiet(s, i);
    case MarkInactive(ids) => MarkIsQuiet(s.db, ids);
    case Prune(ids) => PruneIsQuiet(s.db, ids);
    case ProbeWrite(i, healthy) => ProbeIsQuiet(s, i, healthy);
    case _ =>
      ReadsOnly(s, a);
      Unchanged(s.db);
  }

  lemma Unchanged(db: Db)
    requires GatedInactive(db)
    ensures Quiet(db, db, None)
  {}

  lemma PassKept(s: State, s': State, t: Task, gone: Option<Id>)
    requires t.Gating? && PassInv(s, t) && BundledUntouched(s.db, s'.db, gone) && s'.manifest == s.manifest
    requires forall j :: t.next <= j < |t.visited| && gone == Some(t.visited[j].id) ==> !WillGate(s, t, t.visited[j])
    ensures PassInv(s', t)
  {
    hide Distinct;
    forall j | 0 <= j < |t.visited| ensures EntryInv(s', t, j) {
      assert EntryInv(s, t, j);
    }
  }

  // ----- one task moves, and the lock follows it

  predicate Actorless(a: Act) { a.SetAvailability? || a.MarkInactive? || a.Prune? }

  predicate InLock(a: Act) {
    || a.GateLock? || a.GateRead? || a.GateStep? || a.GateReturn?
    || a.ReconcileLock? || a.ReconcileFindName? || a.ReconcileFindUrl? || a.ReconcileFindComposeUrl?
    || a.ReconcileHolder? || a.ReconcileWrite?
  }

  /** What a step does to the tasks and the lock. */
  ghost predicate Moves(s: State, a: Act, s': State) {
    && s'.manifest == s.manifest
    && if Actorless(a) then s'.tasks == s.tasks && s'.lock == s.lock
       else
         && (forall k: nat :: k != a.i ==> TaskOf(s', k) == TaskOf(s, k))
         && (s'.lock == s.lock || s'.lock == Some(a.i) || s'.lock.None?)
         && (HoldsLock(TaskOf(s', a.i)) ==> s'.lock == Some(a.i) || (HoldsLock(TaskOf(s, a.i)) && s'.lock == s.lock))
         && (s'.lock != s.lock ==> s.lock.None? || s.lock == Some(a.i) || HoldsLock(TaskOf(s, a.i)))
  }

  predicate Registers(a: Act) { a.RegisterRead? || a.RegisterWrite? || a.RegisterReread? }

  lemma RegisterMoves(s: State, a: Act)
    requires Enabled(s, a) && Registers(a)
    ensures Moves(s, a, Apply(s, a))
  {
    hide UrlTaken, Finds, TakeOver, RegistrationConflict;
  }

  lemma OutsideMoves(s: State, a: Act)
    requires Enabled(s, a) && !InLock(a) && !Registers(a)
    ensures Moves(s, a, Apply(s, a))
  {
    hide UrlTaken, Finds, SetStatus, Reactivate, InsertLocal, MarkInactiveIn;
  }

  lemma GateMoves(s: State, a: Act)
    requires Enabled(s, a) && (a.GateLock? || a.GateRead? || a.GateStep? || a.GateReturn?)
    ensures Moves(s, a, Apply(s, a))
  {
    hide ReadsBundled, Gate, GatingUpdates, InactiveReason;
  }

  lemma FindMoves(s: State, a: Act)
    requires Enabled(s, a)
    requires a.ReconcileLock? || a.ReconcileFindName? || a.ReconcileFindUrl? || a.ReconcileFindComposeUrl?
    ensures Moves(s, a, Apply(s, a))
  {
    hide Finds, Seen, IsNamed;
  }

  lemma ReconcileMoves(s: State, a: Act)
    requires Enabled(s, a) && (a.ReconcileHolder? || a.ReconcileWrite?)
    ensures Moves(s, a, Apply(s, a))
  {
    hide Finds, UrlTaken, BundledRecord, InactiveReason;
  }

  lemma StepMoves(s: State, a: Act)
    requires Enabled(s, a)
    ensures Moves(s, a, Apply(s, a))
  {
    hide Enabled, Apply, Moves;
    if Registers(a) {
      RegisterMoves(s, a);
    } else if !InLock(a) {
      OutsideMoves(s, a);
    } else if a.GateLock? || a.GateRead? || a.GateStep? || a.GateReturn? {
      GateMoves(s, a);
    } else if a.ReconcileHolder? || a.ReconcileWrite? {
      ReconcileMoves(s, a);
    } else {
      FindMoves(s, a);
    }
  }

  lemma TasksOfOthers(s: State, a: Act, i: nat)
    requires Enabled(s, a) && (Actorless(a) || a.i != i)
    ensures TaskOf(Apply(s, a), i) == TaskOf(s, i) && Apply(s, a).manifest == s.manifest
  {
    hide Enabled, Apply;
    StepMoves(s, a);
  }

  lemma LockKept(s: State, a: Act)
    requires OneLockHolder(s) && Enabled(s, a)
    ensures OneLockHolder(Apply(s, a))
  {
    hide Apply, Enabled, HoldsLock;
    StepMoves(s, a);
    var s' := Apply(s, a);
    forall k: nat | HoldsLock(TaskOf(s', k)) ensures s'.lock == Some(k) {
      if !Actorless(a) {
        assert HoldsLock(TaskOf(s, a.i)) ==> s.lock == Some(a.i);
      }
      assert HoldsLock(TaskOf(s, k)) ==> s.lock == Some(k);
      if Actorless(a) {
        TasksOfOthers(s, a, k);
      }
    }
  }

  /** The pass writes the computed reason, or leaves a record that stores it. */
  lemma GateStepWrites(s: State, t: Task)
    requires t.Gating? && PassInv(s, t) && t.next < |t.visited| && GatedInactive(s.db)
    ensures var f := t.visited[t.next];
            var db' := GateWrite(s, t);
            && GatedInactive(db') && (forall id :: id in db' <==> id in s.db)
            && (forall id :: id in s.db && id != f.id ==> db'[id] == s.db[id])
            && (forall id :: IsBundled(db', id) <==> IsBundled(s.db, id))
            && (IsBundled(s.db, f.id) ==>
                  && db'[f.id].bundledName == s.db[f.id].bundledName
                  && (f.record.bundledName.Some? && f.record.bundledName.value in s.manifest ==>
                        db'[f.id].reason == Target(s, t, f.record.bundledName.value)))
  {
    hide Distinct;
    assert EntryInv(s, t, t.next);
  }

  lemma GateStepPass(s: State, i: nat)
    requires Inv(s) && TaskOf(s, i).Gating? && TaskOf(s, i).next < |TaskOf(s, i).visited|
    ensures GatedInactive(GateStepOf(s, i).db)
    ensures PassInv(GateStepOf(s, i), TaskOf(s, i).(next := TaskOf(s, i).next + 1))
  {
    var t := TaskOf(s, i);
    var s', t' := GateStepOf(s, i), t.(next := t.next + 1);
    assert PassInv(s, t);
    GateStepWrites(s, t);
    hide OneLockHolder, GateWrite, GatedInactive, Inv;
    forall j | 0 <= j < |t.visited| ensures EntryInv(s', t', j) {
      assert EntryInv(s, t, j);
      assert j != t.next ==> t.visited[j].id != t.visited[t.next].id;
    }
  }

  lemma GateStepKeeps(s: State, i: nat)
    requires Inv(s) && TaskOf(s, i).Gating? && TaskOf(s, i).next < |TaskOf(s, i).visited|
    ensures Inv(GateStepOf(s, i))
  {
    var s' := GateStepOf(s, i);
    GateStepPass(s, i);
    LockKept(s, GateStep(i));
    assert s' == Apply(s, GateStep(i));
    hide PassInv, GatedInactive;
    forall k: nat | TaskOf(s', k).Gating? ensures PassInv(s', TaskOf(s', k)) {
      assert HoldsLock(TaskOf(s', k)) && HoldsLock(TaskOf(s', i));
    }
  }

  lemma ReconcileWriteKeeps(s: State, a: Act)
    requires Inv(s) && Enabled(s, a) && a.ReconcileWrite?
    ensures Inv(Apply(s, a))
  {
    var s' := Apply(s, a);
    assert s.lock == Some(a.i) by { assert HoldsLock(TaskOf(s, a.i)); }
    forall k: nat
      ensures !HoldsLock(TaskOf(s', k)) && !TaskOf(s', k).Gating?
    {
      assert k != a.i ==> TaskOf(s', k) == TaskOf(s, k);
      assert HoldsLock(TaskOf(s, k)) ==> k == a.i;
    }
  }

  lemma StepKeeps(s: State, a: Act)
    requires Inv(s) && Enabled(s, a) && SparesGating(s, a)
    ensures Inv(Apply(s, a))
  {
    if a.GateStep? {
      GateStepKeeps(s, a.i);
    } else if a.ReconcileWrite? {
      ReconcileWriteKeeps(s, a);
    } else {
      var s' := Apply(s, a);
      OutsideTheLock(s, a);
      LockKept(s, a);
      forall k: nat | TaskOf(s', k).Gating? ensures PassInv(s', TaskOf(s', k)) {
        PassesKept(s, a, k);
      }
    }
  }

  lemma PassesKept(s: State, a: Act, k: nat)
    requires Inv(s) && Enabled(s, a) && SparesGating(s, a) && !NeedsLock(a) && TaskOf(Apply(s, a), k).Gating?
    ensures PassInv(Apply(s, a), TaskOf(Apply(s, a), k))
  {
    if Actorless(a) || a.i != k {
      TasksOfOthers(s, a, k);
      OutsideTheLock(s, a);
      var t := TaskOf(s, k);
      hide Apply, Enabled, PassInv;
      assert PassInv(s, t);
      forall j | t.next <= j < |t.visited| && Overwritten(s, a) == Some(t.visited[j].id)
        ensures !WillGate(s, t, t.visited[j])
      {
        assert !AwaitsReason(s, k, t.visited[j].id);
      }
      PassKept(s, Apply(s, a), t, Overwritten(s, a));
    } else {
      GatingOpens(s, a);
    }
  }

  lemma GatingOpens(s: State, a: Act)
    requires Enabled(s, a) && !NeedsLock(a) && !Actorless(a) && TaskOf(Apply(s, a), a.i).Gating?
    ensures PassInv(Apply(s, a), TaskOf(Apply(s, a), a.i))
  {
    assert a.GateRead?;
  }

  lemma {:induction false} RunKeeps(states: seq<State>, acts: seq<Act>, k: nat)
    requires Run(states, acts) && GatingSpared(states, acts) && k <= |acts|
    ensures Inv(states[k])
  {
    hide Apply, Enabled, SparesGating;
    if k > 0 {
      RunKeeps(states, acts, k - 1);
      StepKeeps(states[k - 1], acts[k - 1]);
    }
  }

  // ----- gating

  /** In every reachable state a gated record is bundled and inactive: no
      interleaving of probes, discovery or registration makes it active. */
  lemma GatedStaysInactive(states: seq<State>, acts: seq<Act>, k: nat, id: Id)
    requires Run(states, acts) && GatingSpared(states, acts)
    requires k <= |acts| && id in states[k].db && states[k].db[id].reason.Some?
    ensures states[k].db[id].status.Inactive? && states[k].db[id].source.Bundled?
  {
    RunKeeps(states, acts, k);
  }

  function PassAvailability(t: Task): Option<Availability> {
    if t.GateReading? || t.Gating? || t.Gated? then Some(t.available) else None
  }

  lemma PassStep(s: State, a: Act, i: nat)
    requires Enabled(s, a) && PassAvailability(TaskOf(Apply(s, a), i)).Some?
    ensures PassAvailability(TaskOf(Apply(s, a), i))
         == if a == GateLock(i) then Some(s.available) else PassAvailability(TaskOf(s, i))
  {
    if Actorless(a) || a.i != i {
      hide Apply, Enabled;
      TasksOfOthers(s, a, i);
    } else {
      hide UrlTaken, Finds, ReadsBundled;
    }
  }

  lemma {:induction false} AvailabilityWasRead(states: seq<State>, acts: seq<Act>, k: nat, i: nat)
    returns (j: nat)
    requires Run(states, acts) && k <= |acts| && PassAvailability(TaskOf(states[k], i)).Some?
    ensures j < k && acts[j] == GateLock(i) && PassAvailability(TaskOf(states[k], i)) == Some(states[j].available)
    ensures forall m :: j < m < k ==> acts[m] != GateLock(i)
  {
    hide Apply, Enabled;
    assert k > 0;
    PassStep(states[k - 1], acts[k - 1], i);
    if acts[k - 1] == GateLock(i) {
      j := k - 1;
    } else {
      j := AvailabilityWasRead(states, acts, k - 1, i);
    }
  }

  /** What the availability lacks for the requirement; the provider is named
      before the image model. */
  predicate Lacks(needs: Requirement, available: Availability, reason: Option<Reason>) {
    && (reason == Some(ProviderNotConfigured) <==> (needs.Text? || needs.Image?) && !available.configured)
    && (reason == Some(ImageModelNotConfigured) <==> needs.Image? && available.configured && !available.imageModel)
  }

  predicate GatedFor(r: Record, manifest: map<string, Entry>, available: Availability) {
    r.source.Bundled? && r.bundledName.Some? && r.bundledName.value in manifest ==>
      Lacks(manifest[r.bundledName.value].needs, available, r.reason) && (r.reason.Some? ==> r.status.Inactive?)
  }

  ghost predicate AllGatedFor(db: Db, manifest: map<string, Entry>, available: Availability) {
    forall id :: id in db ==> GatedFor(db[id], manifest, available)
  }

  lemma ReturnIsExact(s: State, i: nat)
    requires Inv(s) && TaskOf(s, i).Gating? && TaskOf(s, i).next >= |TaskOf(s, i).visited|
    ensures AllGatedFor(s.db, s.manifest, TaskOf(s, i).available)
  {
    var t := TaskOf(s, i);
    assert PassInv(s, t);
    hide OneLockHolder, Distinct, PassInv;
    forall id | IsBundled(s.db, id) ensures GatedFor(s.db[id], s.manifest, t.available) {
      var j :| 0 <= j < |t.visited| && t.visited[j].id == id;
      assert EntryInv(s, t, j);
    }
  }

  /** When a gating pass returns, every bundled record of the manifest stores
      exactly what the availability that pass read under the lock lacks for it,
      whatever ran in between. */
  lemma GatingIsExact(states: seq<State>, acts: seq<Act>, k: nat) returns (j: nat)
    requires Run(states, acts) && GatingSpared(states, acts) && k < |acts| && acts[k].GateReturn?
    ensures j < k && acts[j] == GateLock(acts[k].i) && forall m :: j < m < k ==> acts[m] != acts[j]
    ensures AllGatedFor(states[k + 1].db, states[k].manifest, states[j].available)
  {
    RunKeeps(states, acts, k);
    ReturnIsExact(states[k], acts[k].i);
    j := AvailabilityWasRead(states, acts, k, acts[k].i);
  }

  /** The exact condition on one discovery write: it keeps every gated record
      inactive if and only if it does not insert over a gated one. */
  lemma InsertKeepsGating(s: State, i: nat)
    requires GatedInactive(s.db) && TaskOf(s, i).Discovering?
    ensures GatedInactive(DiscoverWriteStep(s, i).db) <==>
      var t := TaskOf(s, i);
      var id := UrlHash(t.url);
      t.seen.Some? || UrlTaken(s.db, id, t.url) || id !in s.db || s.db[id].reason.None?
  {
    hide UrlTaken;
    var t := TaskOf(s, i);
    var id := UrlHash(t.url);
    var db' := DiscoverWriteStep(s, i).db;
    if t.seen.None? && !UrlTaken(s.db, id, t.url) {
      assert id in db' && db'[id].status.Active?;
      assert db'[id].reason == if id in s.db then s.db[id].reason else None;
    }
  }

  // ----- ownership

  /** A registration's conditional write matched: it took this record over. */
  ghost predicate TakesOver(s: State, a: Act, id: Id) {
    && a.RegisterWrite? && TaskOf(s, a.i).Registering?
    && TaskOf(s, a.i).seen.Some? && TaskOf(s, a.i).seen.value.id == id
    && id in s.db && Takeable(s.db[id]) && !UrlTaken(s.db, id, TaskOf(s, a.i).url)
  }

  /** Boot reconciliation rewrites this record as a bundled one. */
  predicate Adopts(s: State, a: Act, id: Id) {
    && a.ReconcileWrite? && TaskOf(s, a.i).Reconciling?
    && TaskOf(s, a.i).record.Some? && TaskOf(s, a.i).record.value.id == id
  }

  /** Exactly the discovery records have no owner. */
  ghost predicate LocalOwnerless(db: Db) {
    forall id :: id in db ==> (db[id].source.Local? <==> db[id].owner.None?)
  }

  predicate LeftDiscovery(db: Db, id: Id) { id in db && !db[id].source.Local? }

  /** The steps that write the collection. */
  predicate Writes(a: Act) {
    a.RegisterWrite? || a.DiscoverWrite? || a.MarkInactive? || a.Prune? || a.ProbeWrite? || NeedsLock(a)
  }

  lemma ReadsOnly(s: State, a: Act)
    requires Enabled(s, a) && !Writes(a)
    ensures Apply(s, a).db == s.db
  {
    hide UrlTaken, Finds, ReadsBundled;
  }

  lemma OwnerlessKept(s: State, a: Act)
    requires LocalOwnerless(s.db) && Enabled(s, a)
    ensures LocalOwnerless(Apply(s, a).db)
  {
    hide UrlTaken, Finds, ReadsBundled;
    if !Writes(a) {
      hide Apply, Enabled, LocalOwnerless;
      ReadsOnly(s, a);
    } else {
      match a
      case RegisterWrite(i, minted) =>
      case DiscoverWrite(i) =>
      case MarkInactive(ids) =>
      case Prune(ids) =>
      case ProbeWrite(i, healthy) =>
      case GateStep(i) =>
      case ReconcileWrite(i, minted) =>
    }
  }

  lemma {:induction false} RunOwnerless(states: seq<State>, acts: seq<Act>, k: nat)
    requires Run(states, acts) && k <= |acts|
    ensures LocalOwnerless(states[k].db)
  {
    hide Apply, Enabled;
    if k > 0 {
      RunOwnerless(states, acts, k - 1);
      OwnerlessKept(states[k - 1], acts[k - 1]);
    }
  }

  /** The step keeps the owner of every owned record, unless boot
      reconciliation adopts it. */
  ghost predicate OwnersKept(s: State, a: Act, db': Db) {
    forall id :: id in s.db && s.db[id].owner.Some? && !Adopts(s, a, id) ==>
      id in db' && db'[id].owner == s.db[id].owner
  }

  lemma OwnerStep(s: State, a: Act)
    requires LocalOwnerless(s.db) && Enabled(s, a) && SparesOwned(s, a)
    ensures OwnersKept(s, a, Apply(s, a).db)
  {
    hide Apply, Enabled, Overwritten, Adopts, LocalOwnerless;
    forall id | id in s.db && s.db[id].owner.Some? && !Adopts(s, a, id)
      ensures id in Apply(s, a).db && Apply(s, a).db[id].owner == s.db[id].owner
    {
      OwnerOf(s, a, id);
    }
  }

  lemma OwnerOf(s: State, a: Act, id: Id)
    requires LocalOwnerless(s.db) && Enabled(s, a) && SparesOwner(s, a, id)
    requires id in s.db && s.db[id].owner.Some? && !Adopts(s, a, id)
    ensures id in Apply(s, a).db && Apply(s, a).db[id].owner == s.db[id].owner
  {
    hide UrlTaken, Finds, ReadsBundled;
    if !Writes(a) {
      hide Apply, Enabled;
      ReadsOnly(s, a);
    }
  }

  /** The exact condition on one discovery write: it keeps every owner if and
      only if it does not insert over an owned record. */
  lemma InsertKeepsOwners(s: State, i: nat)
    requires TaskOf(s, i).Discovering?
    ensures SparesOwned(s, DiscoverWrite(i)) <==> OwnersKept(s, DiscoverWrite(i), DiscoverWriteStep(s, i).db)
    ensures SparesOwned(s, DiscoverWrite(i)) <==>
      var t := TaskOf(s, i);
      var id := UrlHash(t.url);
      t.seen.Some? || UrlTaken(s.db, id, t.url) || id !in s.db || s.db[id].owner.None?
  {
    hide UrlTaken;
    var t := TaskOf(s, i);
    var id := UrlHash(t.url);
    if t.seen.None? && !UrlTaken(s.db, id, t.url) {
      assert DiscoverWriteStep(s, i).db[id].owner.None?;
    }
  }

  /** In a reachable state such a write leaves every record outside discovery
      as it was, and only such a write does. */
  lemma InsertKeepsOthers(s: State, i: nat)
    requires LocalOwnerless(s.db) && TaskOf(s, i).Discovering?
    ensures SparesOwned(s, DiscoverWrite(i)) <==>
      forall id :: LeftDiscovery(s.db, id) ==>
        id in DiscoverWriteStep(s, i).db && DiscoverWriteStep(s, i).db[id] == s.db[id]
  {
    hide UrlTaken;
    var t := TaskOf(s, i);
    if t.seen.None? && !UrlTaken(s.db, UrlHash(t.url), t.url) {
      assert DiscoverWriteStep(s, i).db[UrlHash(t.url)].source.Local?;
    }
  }

  /** Over every run: owners are kept by all its steps but boot reconciliation's
      adoptions if and only if no discovery insert in it lands on an owned
      record. Registration never takes an owner away. */
  lemma OwnersKeptExactly(states: seq<State>, acts: seq<Act>)
    requires Run(states, acts)
    ensures OwnedSpared(states, acts) <==>
      forall k :: 0 <= k < |acts| ==> OwnersKept(states[k], acts[k], Apply(states[k], acts[k]).db)
  {
    hide Apply, Enabled, SparesOwned, OwnersKept, LocalOwnerless;
    forall k | 0 <= k < |acts|
      ensures SparesOwned(states[k], acts[k]) <==> OwnersKept(states[k], acts[k], Apply(states[k], acts[k]).db)
    {
      RunOwnerless(states, acts, k);
      OwnerStepExact(states[k], acts[k]);
    }
  }

  lemma OwnerStepExact(s: State, a: Act)
    requires LocalOwnerless(s.db) && Enabled(s, a)
    ensures SparesOwned(s, a) <==> OwnersKept(s, a, Apply(s, a).db)
  {
    if SparesOwned(s, a) {
      OwnerStep(s, a);
    } else {
      InsertKeepsOwners(s, a.i);
    }
  }

  /** A record that left discovery stays out of it. */
  lemma LeftStep(s: State, a: Act, id: Id)
    requires LocalOwnerless(s.db) && Enabled(s, a) && SparesOwner(s, a, id) && LeftDiscovery(s.db, id)
    ensures LeftDiscovery(Apply(s, a).db, id)
  {
    if !Adopts(s, a, id) {
      hide Apply, Enabled, SparesOwner, Adopts;
      OwnerOf(s, a, id);
      OwnerlessKept(s, a);
    }
  }

  lemma {:induction false} StaysOut(states: seq<State>, acts: seq<Act>, i: nat, j: nat, id: Id)
    requires Run(states, acts) && OwnerSpared(states, acts, id) && i <= j <= |acts| && LeftDiscovery(states[i].db, id)
    ensures LeftDiscovery(states[j].db, id)
    decreases j
  {
    hide Apply, Enabled, SparesOwner, LocalOwnerless;
    if i < j {
      StaysOut(states, acts, i, j - 1, id);
      RunOwnerless(states, acts, j - 1);
      LeftStep(states[j - 1], acts[j - 1], id);
    }
  }

  /** Over a whole run an owner is kept until boot reconciliation, if ever,
      adopts the record: no registration and no discovery step takes it away. */
  lemma {:induction false} OwnerKept(states: seq<State>, acts: seq<Act>, i: nat, j: nat, id: Id)
    requires Run(states, acts) && OwnerSpared(states, acts, id)
    requires i <= j <= |acts| && id in states[i].db && states[i].db[id].owner.Some?
    requires forall m :: i <= m < j ==> !Adopts(states[m], acts[m], id)
    ensures id in states[j].db && states[j].db[id].owner == states[i].db[id].owner
    decreases j
  {
    hide Apply, Enabled, SparesOwner, Adopts, LocalOwnerless;
    if i < j {
      OwnerKept(states, acts, i, j - 1, id);
      RunOwnerless(states, acts, j - 1);
      OwnerOf(states[j - 1], acts[j - 1], id);
    }
  }

  /** Of any number of registrations racing for one discovery record, at most
      one takes it over. */
  lemma TakenOverOnce(states: seq<State>, acts: seq<Act>, i: nat, j: nat, id: Id)
    requires Run(states, acts) && OwnerSpared(states, acts, id) && i < j < |acts| && TakesOver(states[i], acts[i], id)
    ensures !TakesOver(states[j], acts[j], id)
  {
    assert LeftDiscovery(states[i + 1].db, id);
    StaysOut(states, acts, i + 1, j, id);
  }

  /** A discovery that read the record before it was taken over writes nothing
      afterwards and reports the agent as not managed by it. */
  lemma StaleDiscoveryIsHarmless(states: seq<State>, acts: seq<Act>, i: nat, j: nat, id: Id)
    requires Run(states, acts) && OwnerSpared(states, acts, id) && i < j < |acts| && TakesOver(states[i], acts[i], id)
    requires acts[j].DiscoverWrite? && TaskOf(states[j], acts[j].i).seen.Some?
    requires TaskOf(states[j], acts[j].i).seen.value.id == id
    ensures states[j + 1].db == states[j].db
    ensures TaskOf(states[j + 1], acts[j].i) == Discovered(id, false)
  {
    assert LeftDiscovery(states[i + 1].db, id);
    StaysOut(states, acts, i + 1, j, id);
  }
}
