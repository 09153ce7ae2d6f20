/** Recovery retry and quarantine of one Run
    (backend/orchestrator_composition.py, backend/execution/repository/orchestrator/run_store.py).

    The lease row is shared by recovery workers and by in-process drivers. Each
    database access is one step; every claim carries a token of its own. */
module RunRecovery {

  import opened Wrappers

  const MAX_INVARIANT_FAILURES: nat := 3
  const BASE_BACKOFF: nat := 5
  const MAX_BACKOFF: nat := 300
  const LEASE: nat := 60

  // ----- the failure decision

  datatype Decision = Decision(count: nat, next: Option<nat>, quarantined: bool)

  function Pow2(n: nat): nat { if n == 0 then 1 else 2 * Pow2(n - 1) }

  function Min(a: nat, b: nat): nat { if a <= b then a else b }

  /** `_generic_recovery_failure_decision`. */
  function Decide(count: nat, conflict: bool, now: nat): Decision {
    var failures := if conflict then count + 1 else 0;
    if conflict && failures >= MAX_INVARIANT_FAILURES then Decision(failures, None, true)
    else
      var steps := (if failures <= 1 then 1 else failures) - 1;
      Decision(failures, Some(now + Min(BASE_BACKOFF * Pow2(steps), MAX_BACKOFF)), false)
  }

  /** From any count below three: the third conflict in a row quarantines and
      schedules nothing; every other failure is retried 10 seconds later after
      a second conflict and 5 seconds later otherwise. */
  lemma DecisionBounds(count: nat, conflict: bool, now: nat)
    requires count < MAX_INVARIANT_FAILURES
    ensures var d := Decide(count, conflict, now);
            && d.count == (if conflict then count + 1 else 0) <= MAX_INVARIANT_FAILURES
            && (d.quarantined <==> conflict && count == 2) && (d.quarantined <==> d.next.None?)
            && (d.quarantined <==> d.count == MAX_INVARIANT_FAILURES)
            && (!d.quarantined ==> d.next == Some(now + if conflict && count == 1 then 10 else 5))
  {
    assert Pow2(0) == 1 && Pow2(1) == 2;
  }

  // ----- the lease row and its users

  datatype Row = Row(owner: Option<nat>, expires: Option<nat>, due: Option<nat>, count: nat, quarantined: bool)

  /** How a claimed pass ended. A driver only ever settles. */
  datatype Outcome = Conflict | Failure | Settled(due: nat)

  /** Where a claimer is between two database accesses. */
  datatype Claimer =
    | Listed(driver: bool, ver: nat)
    | Begun(driver: bool, ver: nat, at: nat)
    | RunLoaded(driver: bool, ver: nat, at: nat)
    | Loaded(driver: bool, ver: nat, at: nat, snap: Row)
    | RowRead(driver: bool, ver: nat, at: nat, snap: Row, existing: Row)
    | Acquired(driver: bool, ver: nat, snap: Row)
    | Restoring(snap: Row)
    | Attempting(driver: bool)
    | Renewing(driver: bool, snap: Row)
    | Releasing(outcome: Outcome, decision: Decision, ver: nat)
    | Writing(outcome: Outcome, decision: Decision)
    | Done

  /** `log` holds the outcomes written so far, `last` when the last one was. */
  datatype State = State(
    row: Row, ver: nat, terminal: bool, now: nat,
    last: Option<nat>, log: seq<Outcome>, claimers: map<nat, Claimer>)

  /** Conflicts since the last outcome that was not one. */
  function Trail(log: seq<Outcome>): nat {
    if log == [] || !log[|log| - 1].Conflict? then 0 else Trail(log[..|log| - 1]) + 1
  }

  datatype Act =
    | Tick(now: nat)
    | Mutate
    | Terminalize
    | Schedule(due: nat)
    | List(i: nat, driver: bool)
    | Begin(i: nat)
    | LoadRun(i: nat)
    | LoadClaim(i: nat)
    | ReadRow(i: nat)
    | Acquire(i: nat)
    | CasRun(i: nat)
    | Restore(i: nat)
    | RenewRead(i: nat)
    | RenewWrite(i: nat)
    | Finish(i: nat, outcome: Outcome)
    | ReleaseLoad(i: nat)
    | ReleaseWrite(i: nat)
    | Crash(i: nat)

  /** `_recovery_claim_is_due`. */
  predicate Due(r: Row, at: nat) {
    !r.quarantined && (r.due.None? || r.due.value <= at) && (r.expires.None? || r.expires.value <= at)
  }

  /** The query of the conditional lease write. */
  predicate Matches(r: Row, at: nat) {
    && !r.quarantined && (r.due.None? || r.due.value <= at)
    && (r.owner.None? || r.expires.None? || r.expires.value <= at)
  }

  function Of(s: State, i: nat): Claimer { if i in s.claimers then s.claimers[i] else Done }

  function At(s: State, i: nat, c: Claimer): State { s.(claimers := s.claimers[i := c]) }

  predicate Enabled(s: State, a: Act) {
    match a
    case Tick(now) => s.now <= now
    case Mutate => true
    case Terminalize => true
    case Schedule(due) => true
    case List(i, driver) => i !in s.claimers && !s.terminal && (driver || Due(s.row, s.now))
    case Begin(i) => Of(s, i).Listed?
    case LoadRun(i) => Of(s, i).Begun?
    case LoadClaim(i) => Of(s, i).RunLoaded?
    case ReadRow(i) => Of(s, i).Loaded?
    case Acquire(i) => Of(s, i).RowRead?
    case CasRun(i) => Of(s, i).Acquired?
    case Restore(i) => Of(s, i).Restoring?
    case RenewRead(i) => Of(s, i).Attempting?
    case RenewWrite(i) => Of(s, i).Renewing?
    case Finish(i, outcome) => Of(s, i).Attempting? && (Of(s, i).driver ==> outcome.Settled?)
    case ReleaseLoad(i) => Of(s, i).Releasing?
    case ReleaseWrite(i) => Of(s, i).Writing?
    case Crash(i) => i in s.claimers
  }

  /** What `release_recovery` is asked to write. */
  function DecisionFor(s: State, outcome: Outcome): Decision {
    match outcome
    case Conflict => Decide(s.row.count, true, s.now)
    case Failure => Decide(s.row.count, false, s.now)
    case Settled(due) => Decision(0, if s.terminal then None else Some(due), false)
  }

  function Released(d: Decision): Row { Row(None, None, d.next, d.count, d.quarantined) }

  function Apply(s: State, a: Act): State
    requires Enabled(s, a)
  {
    match a
    case Tick(now) => s.(now := now)
    case Mutate => s.(ver := s.ver + 1)
    case Terminalize => s.(terminal := true, ver := s.ver + 1)
    case Schedule(due) =>
      // only an unowned schedule, and only to an earlier time
      if s.row.owner.None? && !s.row.quarantined && s.row.due.Some? && due < s.row.due.value then
        s.(row := s.row.(due := Some(due)))
      else s
    case List(i, driver) => At(s, i, Listed(driver, s.ver))
    case Begin(i) => var c := Of(s, i); At(s, i, Begun(c.driver, c.ver, s.now))
    case LoadRun(i) =>
      var c := Of(s, i);
      At(s, i, if s.ver == c.ver then RunLoaded(c.driver, c.ver, c.at) else Done)
    case LoadClaim(i) =>
      var c := Of(s, i);
      var due := Due(s.row, c.at);
      At(s, i, if (s.row.owner.Some? && !due) || (!c.driver && !due) then Done
               else Loaded(c.driver, c.ver, c.at, s.row))
    case ReadRow(i) =>
      var c := Of(s, i);
      At(s, i, if Due(s.row, c.at) then RowRead(c.driver, c.ver, c.at, c.snap, s.row) else Done)
    case Acquire(i) =>
      var c := Of(s, i);
      if Matches(s.row, c.at) then
        At(s, i, Acquired(c.driver, c.ver, c.snap))
        .(row := c.existing.(owner := Some(i), expires := Some(c.at + LEASE), due := None))
      else At(s, i, Done)
    case CasRun(i) =>
      var c := Of(s, i);
      if s.ver == c.ver then At(s, i, Attempting(c.driver)).(ver := s.ver + 1) else At(s, i, Restoring(c.snap))
    case Restore(i) =>
      var c := Of(s, i);
      if s.row.owner == Some(i) then At(s, i, Done).(row := c.snap.(owner := None, expires := None)) else At(s, i, Done)
    case RenewRead(i) =>
      var c := Of(s, i);
      At(s, i, if s.row.owner == Some(i) then Renewing(c.driver, s.row) else c)
    case RenewWrite(i) =>
      var c := Of(s, i);
      if s.row.owner == Some(i) then
        At(s, i, Attempting(c.driver)).(row := c.snap.(expires := Some(s.now + LEASE)))
      else At(s, i, Attempting(c.driver))
    case Finish(i, outcome) =>
      At(s, i, if s.row.owner == Some(i) then Releasing(outcome, DecisionFor(s, outcome), s.ver) else Done)
    case ReleaseLoad(i) =>
      var c := Of(s, i);
      At(s, i, if s.ver == c.ver && s.row.owner == Some(i) then Writing(c.outcome, c.decision) else Done)
    case ReleaseWrite(i) =>
      var c := Of(s, i);
      if s.row.owner == Some(i) then
        At(s, i, Done).(row := Released(c.decision), last := Some(s.now), log := s.log + [c.outcome])
      else At(s, i, Done)
    case Crash(i) => At(s, i, Done)
  }

  /** How late the steps of a run may be: a lease write `stall` seconds after
      the moment it claims for, an outcome `lag` seconds into the retry time it
      carries, a wake `early` seconds before it would come after the last
      outcome. */
  datatype Bounds = Bounds(stall: nat, lag: nat, early: nat)

  predicate Punctual(b: Bounds, s: State, a: Act) {
    match a
    case ReleaseWrite(i) =>
      Of(s, i).Writing? && s.row.owner == Some(i) && Of(s, i).decision.next.Some? ==>
        Of(s, i).decision.next.value + b.lag > s.now
    case Schedule(due) => s.last.Some? ==> due + b.early > s.last.value
    case Acquire(i) => Of(s, i).RowRead? && Matches(s.row, Of(s, i).at) ==> s.now <= Of(s, i).at + b.stall
    case _ => true
  }

  /** The bounds under which the count turns out to be exact. */
  const EXACT := Bounds(LEASE, 0, 0)

  ghost predicate Init(s: State) {
    && s.row == Row(None, None, s.row.due, 0, false) && s.log == [] && s.last.None? && !s.terminal
    && s.claimers == map[]
  }

  ghost predicate Run(states: seq<State>, acts: seq<Act>) {
    && |states| == |acts| + 1 && Init(states[0])
    && forall k :: 0 <= k < |acts| ==> Enabled(states[k], acts[k]) && states[k + 1] == Apply(states[k], acts[k])
  }

  ghost predicate PunctualRun(b: Bounds, states: seq<State>, acts: seq<Act>) {
    Run(states, acts) && forall k :: 0 <= k < |acts| ==> Punctual(b, states[k], acts[k])
  }

  // ----- the invariant

  predicate After(at: nat, last: Option<nat>) { last.None? || at > last.value }

  /** A lease is over once more than LEASE passed since the last outcome. */
  predicate Old(s: State) { s.last.Some? && s.now > s.last.value + LEASE }

  predicate DueLater(s: State, r: Row) { s.last.None? || (r.due.Some? && r.due.value > s.last.value) || Old(s) }

  /** A claim for a moment up to the last outcome cannot match the row while a
      lease has not passed since. */
  predicate Guarded(s: State, r: Row) {
    || r.quarantined || DueLater(s, r)
    || (r.owner.Some? && r.expires.Some? && s.last.Some? && r.expires.value > s.last.value + LEASE)
  }

  predicate Current(s: State, r: Row) {
    r.count == Trail(s.log) && r.quarantined == (Trail(s.log) >= MAX_INVARIANT_FAILURES)
  }

  predicate OwnsPhase(c: Claimer) {
    c.Acquired? || c.Restoring? || c.Attempting? || c.Renewing? || c.Releasing? || c.Writing? || c.Done?
  }

  predicate DecisionFrom(s: State, outcome: Outcome, d: Decision) {
    && d.quarantined == (d.count >= MAX_INVARIANT_FAILURES)
    && d.count == (if outcome.Conflict? then Trail(s.log) + 1 else 0)
    && (d.next.None? ==> d.quarantined || s.terminal)
  }

  predicate ClaimerInv(s: State, i: nat, c: Claimer) {
    && (c.Begun? || c.RunLoaded? || c.Loaded? || c.RowRead? ==> c.at <= s.now)
    && (c.Loaded? && After(c.at, s.last) ==> Current(s, c.snap) && (c.snap.quarantined || DueLater(s, c.snap)))
    && (c.RowRead? && After(c.at, s.last) ==>
          Current(s, c.snap) && Current(s, c.existing) && (c.snap.quarantined || DueLater(s, c.snap)))
    && (s.row.owner == Some(i) ==>
          && OwnsPhase(c)
          && (c.Acquired? || c.Restoring? ==> Current(s, c.snap) && (c.snap.quarantined || DueLater(s, c.snap)))
          && (c.Renewing? ==> c.snap.(expires := None) == s.row.(expires := None))
          && (c.Releasing? || c.Writing? ==> DecisionFrom(s, c.outcome, c.decision)))
  }

  ghost predicate Inv(s: State) {
    !s.terminal ==>
      && Current(s, s.row) && Trail(s.log) <= MAX_INVARIANT_FAILURES
      && (s.row.quarantined ==> s.row.owner.None?)
      && Guarded(s, s.row)
      && (s.last.Some? ==> s.last.value <= s.now)
      && (s.row.owner.Some? ==> s.row.owner.value in s.claimers && s.row.due.None? && After(s.now, s.last))
      && (forall i :: i in s.claimers ==> ClaimerInv(s, i, s.claimers[i]))
  }

  /** Claimers other than the one that moved. */
  lemma OthersKeep(s: State, s': State, i: nat)
    requires Inv(s) && !s'.terminal && !s.terminal
    requires s'.now >= s.now && s'.last == s.last && s'.log == s.log
    requires s'.row.owner.Some? && s'.row.owner != Some(i) ==> s'.row == s.row
    requires forall k :: k in s'.claimers && k != i ==> k in s.claimers && s'.claimers[k] == s.claimers[k]
    ensures forall k :: k in s'.claimers && k != i ==> ClaimerInv(s', k, s'.claimers[k])
  {
    forall k | k in s'.claimers && k != i
      ensures ClaimerInv(s', k, s'.claimers[k])
    {
      assert ClaimerInv(s, k, s.claimers[k]);
    }
  }

  lemma ClaimKeeps(s: State, a: Act)
    requires Inv(s) && !s.terminal && Enabled(s, a) && Punctual(EXACT, s, a)
    requires a.LoadClaim? || a.ReadRow? || a.CasRun?
    ensures Inv(Apply(s, a))
  {
    var s' := Apply(s, a);
    OthersKeep(s, s', a.i);
    assert ClaimerInv(s, a.i, s.claimers[a.i]);
    assert ClaimerInv(s', a.i, s'.claimers[a.i]);
  }

  lemma OpeningKeeps(s: State, a: Act)
    requires Inv(s) && !s.terminal && Enabled(s, a)
    requires a.List? || a.Begin? || a.LoadRun? || a.Crash?
    ensures Inv(Apply(s, a))
  {
    var s' := Apply(s, a);
    OthersKeep(s, s', a.i);
    if a.i in s.claimers {
      assert ClaimerInv(s, a.i, s.claimers[a.i]);
    }
    assert ClaimerInv(s', a.i, s'.claimers[a.i]);
  }

  lemma AcquireKeeps(s: State, i: nat)
    requires Inv(s) && !s.terminal && Enabled(s, Acquire(i)) && Punctual(EXACT, s, Acquire(i))
    ensures Inv(Apply(s, Acquire(i)))
  {
    var s' := Apply(s, Acquire(i));
    var c := Of(s, i);
    assert ClaimerInv(s, i, c);
    if Matches(s.row, c.at) {
      assert After(c.at, s.last);
    }
    OthersKeep(s, s', i);
    assert ClaimerInv(s', i, s'.claimers[i]);
  }

  lemma OwnerKeeps(s: State, a: Act)
    requires Inv(s) && !s.terminal && Enabled(s, a) && Punctual(EXACT, s, a)
    requires a.Restore? || a.RenewRead? || a.RenewWrite? || a.Finish? || a.ReleaseLoad?
    ensures Inv(Apply(s, a))
  {
    var s' := Apply(s, a);
    assert ClaimerInv(s, a.i, s.claimers[a.i]);
    if a.Finish? && s.row.owner == Some(a.i) {
      DecisionIsFromTrail(s, a.outcome);
    }
    OthersKeep(s, s', a.i);
    assert ClaimerInv(s', a.i, s'.claimers[a.i]);
  }

  lemma DecisionIsFromTrail(s: State, outcome: Outcome)
    requires Current(s, s.row) && Trail(s.log) < MAX_INVARIANT_FAILURES
    ensures DecisionFrom(s, outcome, DecisionFor(s, outcome))
  {
    DecisionBounds(s.row.count, outcome.Conflict?, s.now);
  }

  lemma ReleaseKeeps(s: State, i: nat)
    requires Inv(s) && !s.terminal && Enabled(s, ReleaseWrite(i)) && Punctual(EXACT, s, ReleaseWrite(i))
    ensures Inv(Apply(s, ReleaseWrite(i)))
  {
    var s' := Apply(s, ReleaseWrite(i));
    assert ClaimerInv(s, i, s.claimers[i]);
    assert (s.log + [Of(s, i).outcome])[..|s.log|] == s.log;
    forall k | k in s'.claimers
      ensures ClaimerInv(s', k, s'.claimers[k])
    {
      assert ClaimerInv(s, k, s.claimers[k]);
    }
  }

  lemma EnvironmentKeeps(s: State, a: Act)
    requires Inv(s) && !s.terminal && Enabled(s, a) && Punctual(EXACT, s, a)
    requires a.Tick? || a.Mutate? || a.Terminalize? || a.Schedule?
    ensures Inv(Apply(s, a))
  {
    var s' := Apply(s, a);
    if !s'.terminal {
      forall k | k in s'.claimers
        ensures ClaimerInv(s', k, s'.claimers[k])
      {
        assert ClaimerInv(s, k, s.claimers[k]);
      }
    }
  }

  lemma StepKeeps(s: State, a: Act)
    requires Inv(s) && Enabled(s, a) && Punctual(EXACT, s, a)
    ensures Inv(Apply(s, a))
  {
    hide Inv, Punctual;
    if s.terminal {
      assert Inv(Apply(s, a)) by { TerminalStays(s, a); }
    } else if a.Tick? || a.Mutate? || a.Terminalize? || a.Schedule? {
      EnvironmentKeeps(s, a);
    } else if a.Acquire? {
      AcquireKeeps(s, a.i);
    } else if a.ReleaseWrite? {
      ReleaseKeeps(s, a.i);
    } else if a.Restore? || a.RenewRead? || a.RenewWrite? || a.Finish? || a.ReleaseLoad? {
      OwnerKeeps(s, a);
    } else if a.LoadClaim? || a.ReadRow? || a.CasRun? {
      ClaimKeeps(s, a);
    } else {
      OpeningKeeps(s, a);
    }
  }

  lemma TerminalStays(s: State, a: Act)
    requires s.terminal && Enabled(s, a)
    ensures Inv(Apply(s, a))
  {}

  lemma {:induction false} RunKeeps(states: seq<State>, acts: seq<Act>, k: nat)
    requires PunctualRun(EXACT, states, acts) && k <= |acts|
    ensures Inv(states[k])
  {
    hide Apply, Enabled, Punctual;
    if k > 0 {
      RunKeeps(states, acts, k - 1);
      StepKeeps(states[k - 1], acts[k - 1]);
    }
  }

  // ----- main results

  /** The stored count is the trailing run of conflicts, at most three, and the
      Run is quarantined exactly when it is three. */
  ghost predicate Exact(s: State) {
    !s.terminal ==>
      && s.row.count == Trail(s.log) <= MAX_INVARIANT_FAILURES
      && (s.row.quarantined <==> Trail(s.log) == MAX_INVARIANT_FAILURES)
  }

  /** A change of the count or the quarantine is an outcome that the owner of
      the lease writes, and it quarantines exactly on the third conflict in a
      row. */
  ghost predicate OwnersOutcome(s: State, a: Act, s': State) {
    !s.terminal && !s'.terminal ==>
      && ((s'.row.count, s'.row.quarantined) != (s.row.count, s.row.quarantined) ==>
            && a.ReleaseWrite? && s.row.owner == Some(a.i) && Of(s, a.i).Writing?
            && s'.log == s.log + [Of(s, a.i).outcome])
      && (s'.row.quarantined && !s.row.quarantined <==>
            a.ReleaseWrite? && s.row.owner == Some(a.i) && Of(s, a.i).Writing? && Of(s, a.i).outcome.Conflict?
            && Trail(s.log) == 2)
  }

  /** In every state of a punctual run the count is exact, whatever crashed,
      renewed, lost its race or put back an earlier row. */
  lemma CountIsTrail(states: seq<State>, acts: seq<Act>, k: nat)
    requires PunctualRun(EXACT, states, acts) && k <= |acts|
    ensures Exact(states[k])
  {
    RunKeeps(states, acts, k);
  }

  lemma OnlyOwnerWrites(states: seq<State>, acts: seq<Act>, k: nat)
    requires PunctualRun(EXACT, states, acts) && k < |acts|
    ensures OwnersOutcome(states[k], acts[k], states[k + 1])
  {
    RunKeeps(states, acts, k);
    RunKeeps(states, acts, k + 1);
    var s, a := states[k], acts[k];
    hide Run, Punctual, Guarded;
    if a.ReleaseWrite? {
      assert (s.log + [Of(s, a.i).outcome])[..|s.log|] == s.log;
    }
  }

  /** A failed attempt of the owner is scheduled 5 or 10 seconds after the
      failure, 10 exactly for a second conflict, or quarantined. */
  lemma RetryDelay(states: seq<State>, acts: seq<Act>, k: nat)
    requires PunctualRun(EXACT, states, acts) && k < |acts| && !states[k].terminal
    requires acts[k].Finish? && !acts[k].outcome.Settled? && states[k].row.owner == Some(acts[k].i)
    ensures var s, conflict := states[k], acts[k].outcome.Conflict?;
      Of(states[k + 1], acts[k].i).Releasing? && Of(states[k + 1], acts[k].i).decision.next
        == if conflict && Trail(s.log) == 2 then None
           else Some(s.now + if conflict && Trail(s.log) == 1 then 10 else 5)
  {
    RunKeeps(states, acts, k);
    hide Punctual, Guarded;
    var s := states[k];
    DecisionBounds(s.row.count, acts[k].outcome.Conflict?, s.now);
  }

  // ----- what needs no timing

  /** An owned row is written only by its owner, or by a claimer for a moment at
      which the owner's lease was over. */
  lemma OwnedRowFenced(s: State, a: Act)
    requires Enabled(s, a) && s.row.owner.Some? && Apply(s, a).row != s.row
    ensures || ((a.Restore? || a.RenewWrite? || a.ReleaseWrite?) && s.row.owner == Some(a.i))
            || (a.Acquire? && (s.row.expires.None? || s.row.expires.value <= Of(s, a.i).at))
  {
  }

  /** A quarantined row has no owner, and no claimer carries one to write. */
  ghost predicate Unowned(s: State) {
    && (s.row.quarantined ==> s.row.owner.None?)
    && forall i :: i in s.claimers ==>
         && (s.claimers[i].RowRead? ==> !s.claimers[i].existing.quarantined)
         && (s.claimers[i].Renewing? ==> !s.claimers[i].snap.quarantined)
  }

  lemma UnownedKept(s: State, a: Act)
    requires Unowned(s) && Enabled(s, a)
    ensures Unowned(Apply(s, a))
  {
    if !a.Tick? && !a.Mutate? && !a.Terminalize? && !a.Schedule? {
      assert forall k :: k in Apply(s, a).claimers && k != a.i ==>
        k in s.claimers && Apply(s, a).claimers[k] == s.claimers[k];
    }
  }

  lemma {:induction false} RunUnowned(states: seq<State>, acts: seq<Act>, k: nat)
    requires Run(states, acts) && k <= |acts|
    ensures Unowned(states[k])
  {
    hide Apply, Enabled;
    if k > 0 {
      RunUnowned(states, acts, k - 1);
      UnownedKept(states[k - 1], acts[k - 1]);
    }
  }

  lemma QuarantinedRowStays(s: State, a: Act)
    requires Unowned(s) && s.row.quarantined && Enabled(s, a)
    ensures Apply(s, a).row == s.row
  {
  }

  /** Quarantine is final in every run, punctual or not. */
  lemma {:induction false} QuarantineIsFinal(states: seq<State>, acts: seq<Act>, i: nat, j: nat)
    requires Run(states, acts) && i <= j <= |acts| && states[i].row.quarantined
    ensures states[j].row == states[i].row
    decreases j
  {
    hide Enabled, Apply, Unowned;
    if i < j {
      QuarantineIsFinal(states, acts, i, j - 1);
      RunUnowned(states, acts, j - 1);
      QuarantinedRowStays(states[j - 1], acts[j - 1]);
    }
  }

  // ----- the bounds are exact

  /** By a run punctual at `b`. */
  ghost predicate Reachable(b: Bounds, s: State) {
    exists states: seq<State>, acts: seq<Act> :: PunctualRun(b, states, acts) && states[|acts|] == s
  }

  lemma Extend(b: Bounds, states: seq<State>, acts: seq<Act>, a: Act)
    requires PunctualRun(b, states, acts) && Enabled(states[|acts|], a) && Punctual(b, states[|acts|], a)
    ensures PunctualRun(b, states + [Apply(states[|acts|], a)], acts + [a])
  {
    hide Enabled, Apply, Punctual;
    var states', acts' := states + [Apply(states[|acts|], a)], acts + [a];
    forall k | 0 <= k < |acts'|
      ensures Enabled(states'[k], acts'[k]) && Punctual(b, states'[k], acts'[k])
      ensures states'[k + 1] == Apply(states'[k], acts'[k])
    {
      if k < |acts| {
        assert states'[k] == states[k] && states'[k + 1] == states[k + 1] && acts'[k] == acts[k];
      }
    }
  }

  lemma ReachStep(b: Bounds, s: State, a: Act)
    requires Reachable(b, s) && Enabled(s, a) && Punctual(b, s, a)
    ensures Reachable(b, Apply(s, a))
  {
    hide Enabled, Apply, Punctual;
    var states: seq<State>, acts: seq<Act> :| PunctualRun(b, states, acts) && states[|acts|] == s;
    Extend(b, states, acts, a);
    assert (states + [Apply(s, a)])[|acts + [a]|] == Apply(s, a);
  }

  lemma ReachStart(b: Bounds, s: State)
    requires Init(s)
    ensures Reachable(b, s)
  {
    hide Apply, Enabled, Punctual;
    var none: seq<Act> := [];
    assert PunctualRun(b, [s], none) && [s][|none|] == s;
  }

  /** A new worker gets as far as having read the row. */
  lemma Reads(b: Bounds, s: State, i: nat)
    requires Reachable(b, s) && !s.terminal && i !in s.claimers && Due(s.row, s.now)
    ensures Reachable(b, At(s, i, RowRead(false, s.ver, s.now, s.row, s.row)))
  {
    hide Reachable;
    var s1 := At(s, i, Listed(false, s.ver));
    ReachStep(b, s, List(i, false));
    var s2 := At(s1, i, Begun(false, s.ver, s.now));
    ReachStep(b, s1, Begin(i));
    var s3 := At(s2, i, RunLoaded(false, s.ver, s.now));
    ReachStep(b, s2, LoadRun(i));
    var s4 := At(s3, i, Loaded(false, s.ver, s.now, s.row));
    ReachStep(b, s3, LoadClaim(i));
    ReachStep(b, s4, ReadRow(i));
    var t := RowRead(false, s.ver, s.now, s.row, s.row);
    assert s4.claimers[i := t] == s.claimers[i := t];
  }

  function Leased(r: Row, i: nat, now: nat): Row { r.(owner := Some(i), expires := Some(now + LEASE), due := None) }

  /** It takes the lease and starts its attempt. */
  lemma Starts(b: Bounds, s: State, i: nat)
    requires Reachable(b, s) && !s.terminal && i !in s.claimers && Due(s.row, s.now)
    ensures Reachable(b, At(s, i, Attempting(false)).(row := Leased(s.row, i, s.now), ver := s.ver + 1))
  {
    hide Reachable;
    Reads(b, s, i);
    var s1 := At(s, i, RowRead(false, s.ver, s.now, s.row, s.row));
    ReachStep(b, s1, Acquire(i));
    var s2 := Apply(s1, Acquire(i));
    assert Of(s2, i) == Acquired(false, s.ver, s.row);
    ReachStep(b, s2, CasRun(i));
    assert s2.claimers[i := Attempting(false)] == s.claimers[i := Attempting(false)];
  }

  /** Its attempt ends in a first conflict, about to be written. */
  lemma Conflicts(b: Bounds, s: State, i: nat)
    requires Reachable(b, s) && Of(s, i).Attempting? && !Of(s, i).driver && s.row.owner == Some(i) && s.row.count == 0
    ensures Reachable(b, At(s, i, Writing(Conflict, Decision(1, Some(s.now + 5), false))))
  {
    hide Reachable;
    var d := Decide(0, true, s.now);
    DecisionBounds(0, true, s.now);
    assert d == Decision(1, Some(s.now + 5), false);
    var s1 := At(s, i, Releasing(Conflict, d, s.ver));
    ReachStep(b, s, Finish(i, Conflict));
    ReachStep(b, s1, ReleaseLoad(i));
    assert s1.claimers[i := Writing(Conflict, d)] == s.claimers[i := Writing(Conflict, d)];
  }

  /** It takes the lease, loses the race for the Run and puts its row back. */
  lemma PutsBack(b: Bounds, s: State, i: nat)
    requires Reachable(b, s) && !s.terminal && i !in s.claimers && Due(s.row, s.now)
    ensures Reachable(b, At(s, i, Done).(row := s.row.(owner := None, expires := None), ver := s.ver + 1))
  {
    hide Reachable;
    Reads(b, s, i);
    var s1 := At(s, i, RowRead(false, s.ver, s.now, s.row, s.row));
    ReachStep(b, s1, Acquire(i));
    var s2 := Apply(s1, Acquire(i));
    ReachStep(b, s2, Mutate);
    var s3 := Apply(s2, Mutate);
    assert Of(s3, i) == Acquired(false, s.ver, s.row);
    ReachStep(b, s3, CasRun(i));
    var s4 := Apply(s3, CasRun(i));
    assert Of(s4, i) == Restoring(s.row);
    ReachStep(b, s4, Restore(i));
    assert s4.claimers[i := Done] == s.claimers[i := Done];
  }

  const FRESH := Row(None, None, None, 0, false)

  /** Claimer `i` is about to store a count of zero over a recorded conflict,
      within the bounds. */
  ghost predicate LosesCount(b: Bounds, s: State, i: nat) {
    && Reachable(b, s) && !s.terminal && Enabled(s, Acquire(i)) && Punctual(b, s, Acquire(i))
    && s.row.count == 1 == Trail(s.log)
    && Apply(s, Acquire(i)).log == s.log && Apply(s, Acquire(i)).row.count == 0
  }

  lemma OneConflict()
    ensures Trail([Conflict]) == 1
  {
    assert [Conflict][..0] == [];
  }

  /** At the start of time worker 0 reads the row and stalls; worker 1 records a
      conflict in the same second. */
  lemma AfterConflict(b: Bounds) returns (s: State)
    ensures Reachable(b, s) && !s.terminal && s.claimers.Keys == {0, 1} && s.now == 0
    ensures Of(s, 0) == RowRead(false, 0, 0, FRESH, FRESH)
    ensures s.row == Row(None, None, Some(5), 1, false) && s.log == [Conflict] && s.last == Some(0)
  {
    hide Reachable;
    var s0 := State(FRESH, 0, false, 0, None, [], map[]);
    ReachStart(b, s0);
    Reads(b, s0, 0);
    var s1 := At(s0, 0, RowRead(false, 0, 0, FRESH, FRESH));
    Starts(b, s1, 1);
    var s2 := At(s1, 1, Attempting(false)).(row := Leased(FRESH, 1, 0), ver := 1);
    Conflicts(b, s2, 1);
    var s3 := At(s2, 1, Writing(Conflict, Decision(1, Some(5), false)));
    ReachStep(b, s3, ReleaseWrite(1));
    s := Apply(s3, ReleaseWrite(1));
    assert s.log == [] + [Conflict] == [Conflict];
  }

  /** A wake set to the second of the last outcome lets worker 0 in at once. */
  lemma EarlyWakeLosesTheCount(b: Bounds)
    requires b.early >= 1
    ensures exists s :: LosesCount(b, s, 0)
  {
    OneConflict();
    var s := AfterConflict(b);
    ReachStep(b, s, Schedule(0));
    var t := Apply(s, Schedule(0));
    assert t.row == Row(None, None, Some(0), 1, false);
    assert LosesCount(b, t, 0);
  }

  /** A lease write 61 seconds late: the wake comes one second after the
      conflict, the worker it wakes dies, and when its lease is over a third one
      puts the row back without a due time. */
  lemma LateLeaseWriteLosesTheCount(b: Bounds)
    requires b.stall >= LEASE + 1
    ensures exists s :: LosesCount(b, s, 0)
  {
    hide Reachable;
    OneConflict();
    var s := AfterConflict(b);
    ReachStep(b, s, Schedule(1));
    var s1 := Apply(s, Schedule(1));
    ReachStep(b, s1, Tick(1));
    var s2 := s1.(now := 1);
    Starts(b, s2, 2);
    var s3 := At(s2, 2, Attempting(false)).(row := Leased(s2.row, 2, 1), ver := s2.ver + 1);
    ReachStep(b, s3, Tick(61));
    var s4 := s3.(now := 61);
    PutsBack(b, s4, 3);
    var s5 := At(s4, 3, Done).(row := s4.row.(owner := None, expires := None), ver := s4.ver + 1);
    assert s5.row == Row(None, None, None, 1, false);
    assert LosesCount(b, s5, 0);
  }

  /** An outcome written in the very second of its retry time, when the lease is
      over too: worker 2 read the row just before and takes it just after. */
  lemma LateOutcomeLosesTheCount(b: Bounds)
    requires b.lag >= 1
    ensures exists s :: LosesCount(b, s, 2)
  {
    hide Reachable;
    OneConflict();
    var s0 := State(FRESH, 0, false, 0, None, [], map[]);
    ReachStart(b, s0);
    Starts(b, s0, 1);
    var s1 := At(s0, 1, Attempting(false)).(row := Leased(FRESH, 1, 0), ver := 1);
    ReachStep(b, s1, Tick(55));
    var s2 := s1.(now := 55);
    Conflicts(b, s2, 1);
    var s3 := At(s2, 1, Writing(Conflict, Decision(1, Some(60), false)));
    ReachStep(b, s3, Tick(60));
    var s4 := s3.(now := 60);
    Reads(b, s4, 2);
    var s5 := At(s4, 2, RowRead(false, 1, 60, s4.row, s4.row));
    ReachStep(b, s5, ReleaseWrite(1));
    var s6 := Apply(s5, ReleaseWrite(1));
    assert s6.log == [] + [Conflict] == [Conflict];
    assert Of(s6, 2) == RowRead(false, 1, 60, s4.row, s4.row);
    assert LosesCount(b, s6, 2);
  }

  ghost predicate AlwaysExact(b: Bounds) {
    forall states, acts, k :: PunctualRun(b, states, acts) && 0 <= k <= |acts| ==> Exact(states[k])
  }

  ghost predicate OwnersAlone(b: Bounds) {
    forall states, acts, k :: PunctualRun(b, states, acts) && 0 <= k < |acts| ==>
      OwnersOutcome(states[k], acts[k], Apply(states[k], acts[k]))
  }

  lemma LossRefutes(b: Bounds, s: State, i: nat)
    requires LosesCount(b, s, i)
    ensures !AlwaysExact(b) && !OwnersAlone(b)
  {
    var states: seq<State>, acts: seq<Act> :| PunctualRun(b, states, acts) && states[|acts|] == s;
    Extend(b, states, acts, Acquire(i));
    var states', acts' := states + [Apply(s, Acquire(i))], acts + [Acquire(i)];
    hide Enabled, Apply, Punctual, PunctualRun;
    assert states'[|acts|] == s && states'[|acts'|] == Apply(s, Acquire(i));
    assert !Exact(states'[|acts'|]);
    assert !OwnersOutcome(states'[|acts|], acts'[|acts|], Apply(s, Acquire(i)));
  }

  lemma Weaken(b: Bounds, states: seq<State>, acts: seq<Act>)
    requires b.stall <= LEASE && b.lag == 0 && b.early == 0 && PunctualRun(b, states, acts)
    ensures PunctualRun(EXACT, states, acts)
  {
    hide Apply, Enabled;
    forall k | 0 <= k < |acts| ensures Punctual(EXACT, states[k], acts[k]) {
      assert Punctual(b, states[k], acts[k]);
    }
  }

  /** The count is exact in all runs within the bounds, and only its owner's
      outcomes change it, if and only if a lease is written within 60 seconds of
      the moment it is claimed for, an outcome before its retry time and a wake
      only after the last outcome. No bound can be moved by a second. */
  lemma ExactBounds(b: Bounds)
    ensures b.stall <= LEASE && b.lag == 0 && b.early == 0 <==> AlwaysExact(b)
    ensures b.stall <= LEASE && b.lag == 0 && b.early == 0 <==> OwnersAlone(b)
  {
    if b.stall <= LEASE && b.lag == 0 && b.early == 0 {
      forall states, acts, k | PunctualRun(b, states, acts) && 0 <= k <= |acts|
        ensures Exact(states[k])
      {
        Weaken(b, states, acts);
        CountIsTrail(states, acts, k);
      }
      forall states, acts, k | PunctualRun(b, states, acts) && 0 <= k < |acts|
        ensures OwnersOutcome(states[k], acts[k], Apply(states[k], acts[k]))
      {
        Weaken(b, states, acts);
        OnlyOwnerWrites(states, acts, k);
      }
    } else if b.early >= 1 {
      EarlyWakeLosesTheCount(b);
      var s :| LosesCount(b, s, 0);
      LossRefutes(b, s, 0);
    } else if b.lag >= 1 {
      LateOutcomeLosesTheCount(b);
      var s :| LosesCount(b, s, 2);
      LossRefutes(b, s, 2);
    } else {
      LateLeaseWriteLosesTheCount(b);
      var s :| LosesCount(b, s, 0);
      LossRefutes(b, s, 0);
    }
  }
}
