/** Reachable states in which a discovery insert lands on a record it should
    have spared: one that is gated and owned, and one a gating pass has read. */
module AgentWitness {
  import opened AgentRecord
  import opened AgentTheorems
  import opened AgentGating
  import opened Wrappers

  /** By a run in which no discovery insert overwrites any record. */
  ghost predicate Reachable(s: State) {
    exists states: seq<State>, acts: seq<Act> :: PlainRun(states, acts) && states[|acts|] == s
  }

  ghost predicate PlainRun(states: seq<State>, acts: seq<Act>) {
    Undisturbed(states, acts) && Init(states[0])
  }

  lemma ReachStep(s: State, a: Act)
    requires Reachable(s) && Enabled(s, a) && Overwritten(s, a).None?
    ensures Reachable(Apply(s, a))
  {
    hide Apply, Enabled, Overwritten;
    var states: seq<State>, acts: seq<Act> :| PlainRun(states, acts) && states[|acts|] == s;
    var states', acts' := states + [Apply(s, a)], acts + [a];
    forall k | 0 <= k < |acts'|
      ensures Enabled(states'[k], acts'[k]) && Overwritten(states'[k], acts'[k]).None?
      ensures states'[k + 1] == Apply(states'[k], acts'[k])
    {
      if k < |acts| {
        assert states'[k] == states[k] && states'[k + 1] == states[k + 1] && acts'[k] == acts[k];
      }
    }
    assert PlainRun(states', acts') && states'[|acts'|] == Apply(s, a);
  }

  lemma StartReachable(s: State)
    requires Init(s)
    ensures Reachable(s)
  {
    hide Apply, Enabled, Overwritten;
    var none: seq<Act> := [];
    assert PlainRun([s], none) && [s][|none|] == s;
  }

  lemma ReachableInv(s: State)
    requires Reachable(s)
    ensures Inv(s)
  {
    hide Apply, Enabled, Overwritten, Inv;
    var states: seq<State>, acts: seq<Act> :| PlainRun(states, acts) && states[|acts|] == s;
    RunKeeps(states, acts, |acts|);
  }

  const COMPOSE: string := "http://agent:9000"
  const LOOPBACK: string := "http://localhost:9000"
  const HASHED: Id := UrlHash(COMPOSE)
  const MANIFEST: map<string, Entry> := map["image" := Entry(Image, LOOPBACK, COMPOSE)]

  const ON := Availability(true, true)
  const OFF := Availability(false, false)

  function Scene(available: Availability, db: Db, lock: Option<nat>, tasks: map<nat, Task>): State {
    State(db, lock, tasks, available, MANIFEST, "system")
  }

  function Only(r: Record): Db { map[HASHED := r] }

  const DISCOVERED := Record(Local, None, Active, None, None, COMPOSE)
  const MISSED := Record(Local, None, Inactive, None, None, COMPOSE)
  const TAKEN := Record(Cloud, Some("p"), Active, None, None, COMPOSE)
  const GATED := Record(Bundled, Some("system"), Inactive, Some(ProviderNotConfigured), Some("image"), LOOPBACK)
  const OPEN := Record(Bundled, Some("system"), Active, None, Some("image"), LOOPBACK)
  const CLOBBERED := Record(Local, None, Active, Some(ProviderNotConfigured), Some("image"), COMPOSE)

  lemma Discover(v: Availability)
    ensures Reachable(Scene(v, Only(DISCOVERED), None, map[0 := Discovered(HASHED, true)]))
  {
    hide Reachable;
    var s0 := Scene(v, map[], None, map[]);
    StartReachable(s0);
    ReachStep(s0, DiscoverRead(0, COMPOSE, None));
    var s1 := Scene(v, map[], None, map[0 := Discovering(COMPOSE, None)]);
    assert Apply(s0, DiscoverRead(0, COMPOSE, None)) == s1;
    ReachStep(s1, DiscoverWrite(0));
    assert !UrlTaken(s1.db, HASHED, COMPOSE);
    assert InsertLocal(s1.db, HASHED, COMPOSE) == Only(DISCOVERED);
    assert Apply(s1, DiscoverWrite(0)).tasks == map[0 := Discovered(HASHED, true)];
  }

  lemma Missed(v: Availability)
    ensures Reachable(Scene(v, Only(MISSED), None, map[0 := Discovered(HASHED, true)]))
  {
    hide Reachable;
    Discover(v);
    var s2 := Scene(v, Only(DISCOVERED), None, map[0 := Discovered(HASHED, true)]);
    ReachStep(s2, MarkInactive({HASHED}));
    assert MarkInactiveIn(s2.db, {HASHED}) == Only(MISSED);
  }

  /** What the registration read, and its write. */
  lemma TakenOver(v: Availability, tasks: map<nat, Task>)
    requires Reachable(Scene(v, Only(MISSED), None, tasks)) && 1 !in tasks
    ensures Reachable(Scene(v, Only(TAKEN), None, tasks[1 := Registered(HASHED, "p")]))
  {
    hide Reachable;
    var s3 := Scene(v, Only(MISSED), None, tasks);
    var read := RegisterRead(1, "p", COMPOSE, Some(HASHED));
    ReachStep(s3, read);
    var s4 := Apply(s3, read);
    assert TaskOf(s4, 1) == Registering("p", COMPOSE, Some(Found(HASHED, MISSED)));
    ReachStep(s4, RegisterWrite(1, Minted(0)));
    assert !UrlTaken(s4.db, HASHED, COMPOSE);
    assert s4.tasks[1 := Registered(HASHED, "p")] == tasks[1 := Registered(HASHED, "p")];
    assert TakeOver(s4.db, HASHED, "p", COMPOSE) == Only(TAKEN);
  }

  lemma LookedForByUrl(v: Availability, tasks: map<nat, Task>)
    requires Reachable(Scene(v, Only(TAKEN), None, tasks)) && 2 !in tasks
    ensures Reachable(Scene(v, Only(TAKEN), Some(2), tasks[2 := FindingUrl("image")]))
  {
    hide Reachable;
    var s5 := Scene(v, Only(TAKEN), None, tasks);
    ReachStep(s5, ReconcileLock(2, "image"));
    var s6 := Apply(s5, ReconcileLock(2, "image"));
    assert TaskOf(s6, 2) == FindingName("image");
    ReachStep(s6, ReconcileFindName(2, None));
    assert s6.tasks[2 := FindingUrl("image")] == tasks[2 := FindingUrl("image")];
  }

  lemma FoundByComposeUrl(v: Availability, tasks: map<nat, Task>)
    requires Reachable(Scene(v, Only(TAKEN), Some(2), tasks[2 := FindingUrl("image")]))
    ensures Reachable(Scene(v, Only(TAKEN), Some(2), tasks[2 := FindingHolder("image", Some(Found(HASHED, TAKEN)))]))
  {
    hide Reachable;
    var s7 := Scene(v, Only(TAKEN), Some(2), tasks[2 := FindingUrl("image")]);
    ReachStep(s7, ReconcileFindUrl(2, None));
    var s8 := Apply(s7, ReconcileFindUrl(2, None));
    assert TaskOf(s8, 2) == FindingComposeUrl("image");
    ReachStep(s8, ReconcileFindComposeUrl(2, Some(HASHED)));
    var t := FindingHolder("image", Some(Found(HASHED, TAKEN)));
    assert s8.tasks[2 := t] == tasks[2 := t];
  }

  lemma HolderRead(v: Availability, tasks: map<nat, Task>)
    requires Reachable(Scene(v, Only(TAKEN), Some(2), tasks[2 := FindingHolder("image", Some(Found(HASHED, TAKEN)))]))
    ensures Reachable(Scene(v, Only(TAKEN), Some(2),
                            tasks[2 := Reconciling("image", Some(Found(HASHED, TAKEN)), InactiveReason(Image, v))]))
  {
    var seen := Some(Found(HASHED, TAKEN));
    var s9 := Scene(v, Only(TAKEN), Some(2), tasks[2 := FindingHolder("image", seen)]);
    assert Finds(s9.db, LOOPBACK, None);
    assert Enabled(s9, ReconcileHolder(2, None));
    hide Reachable, Enabled;
    ReachStep(s9, ReconcileHolder(2, None));
    var t := Reconciling("image", seen, InactiveReason(Image, v));
    assert tasks[2 := FindingHolder("image", seen)][2 := t] == tasks[2 := t];
  }

  /** Adopted at its loopback address, under the id of its Compose URL. */
  lemma Adopted(v: Availability, tasks: map<nat, Task>)
    requires Reachable(Scene(v, Only(TAKEN), Some(2),
                             tasks[2 := Reconciling("image", Some(Found(HASHED, TAKEN)), InactiveReason(Image, v))]))
    ensures Reachable(Scene(v, Only(BundledRecord("system", "image", LOOPBACK, InactiveReason(Image, v))), None,
                            tasks[2 := Idle]))
  {
    var t := Reconciling("image", Some(Found(HASHED, TAKEN)), InactiveReason(Image, v));
    var s10 := Scene(v, Only(TAKEN), Some(2), tasks[2 := t]);
    assert Enabled(s10, ReconcileWrite(2, Minted(0)));
    assert !UrlTaken(s10.db, HASHED, LOOPBACK);
    hide Reachable, Enabled, BundledRecord, InactiveReason;
    ReachStep(s10, ReconcileWrite(2, Minted(0)));
    assert tasks[2 := t][2 := Idle] == tasks[2 := Idle];
    var r := BundledRecord("system", "image", LOOPBACK, t.reason);
    assert s10.db[HASHED := r] == Only(r);
  }

  function Cast(): map<nat, Task> {
    map[0 := Discovered(HASHED, true), 1 := Registered(HASHED, "p"), 2 := Idle]
  }

  /** A discovered Compose agent is taken over and then adopted at its loopback
      address; it keeps the id of its old URL. */
  lemma Adoption(v: Availability)
    ensures Reachable(Scene(v, Only(BundledRecord("system", "image", LOOPBACK, InactiveReason(Image, v))), None,
                            Cast()))
  {
    hide Reachable;
    var tasks := map[0 := Discovered(HASHED, true)];
    Missed(v);
    TakenOver(v, tasks);
    tasks := tasks[1 := Registered(HASHED, "p")];
    LookedForByUrl(v, tasks);
    FoundByComposeUrl(v, tasks);
    HolderRead(v, tasks);
    Adopted(v, tasks);
    assert tasks[2 := Idle] == Cast();
  }

  // ----- an insert over a gated, owned record

  ghost predicate Clobbers(s: State) {
    && TaskOf(s, 3) == Discovering(COMPOSE, None)
    && !SparesGating(s, DiscoverWrite(3)) && !SparesOwned(s, DiscoverWrite(3))
    && DiscoverWriteStep(s, 3).db == Only(CLOBBERED)
  }

  /** The next discovery at the old URL inserts over the gated record, and the
      record is active, gated and ownerless at once. */
  lemma InsertOverGatedRecord()
    ensures exists s: State :: Reachable(s) && Clobbers(s)
  {
    hide Reachable;
    Adoption(OFF);
    var s := Scene(OFF, Only(GATED), None, Cast());
    ReachStep(s, DiscoverRead(3, COMPOSE, None));
    var s' := Apply(s, DiscoverRead(3, COMPOSE, None));
    assert TaskOf(s', 3) == Discovering(COMPOSE, None);
    assert !UrlTaken(s'.db, HASHED, COMPOSE);
    assert InsertLocal(s'.db, HASHED, COMPOSE) == Only(CLOBBERED);
    assert Clobbers(s');
  }

  // ----- an insert over an open record that a gating pass has read

  /** The record has no reason yet, the write itself leaves no gated record
      active, and still gating breaks without any further overwrite. */
  ghost predicate BreaksLater(s: State) {
    && TaskOf(s, 5) == Discovering(COMPOSE, None)
    && s.db == Only(OPEN) && Overwritten(s, DiscoverWrite(5)) == Some(HASHED)
    && GatedInactive(DiscoverWriteStep(s, 5).db)
    && !SparesGating(s, DiscoverWrite(5))
    && !StaysGated(DiscoverWriteStep(s, 5))
  }

  lemma PassOpens(tasks: map<nat, Task>)
    requires Reachable(Scene(ON, Only(OPEN), None, tasks)) && 4 !in tasks
    ensures Reachable(Scene(OFF, Only(OPEN), Some(4), tasks[4 := GateReading(OFF)]))
  {
    hide Reachable;
    ReachStep(Scene(ON, Only(OPEN), None, tasks), SetAvailability(OFF));
    ReachStep(Scene(OFF, Only(OPEN), None, tasks), GateLock(4));
  }

  lemma PassReads(tasks: map<nat, Task>)
    requires Reachable(Scene(OFF, Only(OPEN), Some(4), tasks[4 := GateReading(OFF)]))
    ensures Reachable(Scene(OFF, Only(OPEN), Some(4), tasks[4 := Gating(OFF, [Found(HASHED, OPEN)], 0)]))
  {
    hide Reachable;
    var s := Scene(OFF, Only(OPEN), Some(4), tasks[4 := GateReading(OFF)]);
    var visited := [Found(HASHED, OPEN)];
    assert visited[0].id == HASHED;
    assert ReadsBundled(s.db, visited);
    ReachStep(s, GateRead(4, visited));
    var t := Gating(OFF, visited, 0);
    assert tasks[4 := GateReading(OFF)][4 := t] == tasks[4 := t];
  }

  /** A gating pass reads the adopted record while it is open; discovery inserts
      over it; the pass then gates the discovered record by id. */
  lemma InsertOverPendingRecord()
    ensures exists s: State :: Reachable(s) && BreaksLater(s)
  {
    hide Reachable;
    Adoption(ON);
    PassOpens(Cast());
    PassReads(Cast());
    var t := Gating(OFF, [Found(HASHED, OPEN)], 0);
    var s := Scene(OFF, Only(OPEN), Some(4), Cast()[4 := t]);
    ReachStep(s, DiscoverRead(5, COMPOSE, None));
    PendingBreaks(Apply(s, DiscoverRead(5, COMPOSE, None)));
  }

  lemma PendingBreaks(s: State)
    requires Reachable(s) && s.db == Only(OPEN) && s.manifest == MANIFEST
    requires TaskOf(s, 5) == Discovering(COMPOSE, None)
    requires TaskOf(s, 4) == Gating(OFF, [Found(HASHED, OPEN)], 0)
    ensures BreaksLater(s)
  {
    hide Reachable, StaysGated, Inv;
    ReachableInv(s);
    var t := TaskOf(s, 4);
    assert !UrlTaken(s.db, HASHED, COMPOSE);
    assert WillGate(s, t, t.visited[0]);
    assert AwaitsReason(s, 4, HASHED);
    InsertExact(s, 5);
  }
}
