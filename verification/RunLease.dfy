/** How long a recovery lease protects its owner, and what its outcome leaves in
    the row, over every run of `RunRecovery`, punctual or not. */
module RunLease {
  import opened RunRecovery
  import opened Wrappers

  /** The step gives or renews the lease of claimer `i`. */
  predicate Leases(s: State, a: Act, s': State, i: nat) {
    s'.row.owner == Some(i) && (a == Acquire(i) || (a == RenewWrite(i) && s.row.owner == Some(i)))
  }

  /** The moment it does so for: when a claimer looked at the clock, or now. */
  function Moment(s: State, a: Act): nat {
    if a.Acquire? && Of(s, a.i).RowRead? then Of(s, a.i).at else s.now
  }

  // ----- an owner

  /** Nobody claims for the future, and whoever renews has read its own lease. */
  predicate OwnedBy(s: State, i: nat, c: Claimer) {
    && (c.Begun? || c.RunLoaded? || c.Loaded? || c.RowRead? ==> c.at <= s.now)
    && (c.RowRead? ==> !c.existing.quarantined)
    && (c.Renewing? ==> c.snap.owner == Some(i) && c.snap.due.None? && !c.snap.quarantined)
    && (s.row.owner == Some(i) ==> OwnsPhase(c))
  }

  ghost predicate Owned(s: State) {
    && (s.row.owner.Some? ==> s.row.owner.value in s.claimers && s.row.due.None? && !s.row.quarantined)
    && forall i :: i in s.claimers ==> OwnedBy(s, i, s.claimers[i])
  }

  predicate Moves(a: Act) { !a.Tick? && !a.Mutate? && !a.Terminalize? && !a.Schedule? }

  lemma MoverKept(s: State, a: Act)
    requires Owned(s) && Enabled(s, a) && Moves(a)
    ensures a.i in Apply(s, a).claimers && OwnedBy(Apply(s, a), a.i, Apply(s, a).claimers[a.i])
    ensures var row := Apply(s, a).row;
      (row.owner.Some? ==> row.due.None? && !row.quarantined)
      && (row.owner == s.row.owner || row.owner.None? || row.owner == Some(a.i))
  {
    if a.i in s.claimers {
      assert OwnedBy(s, a.i, s.claimers[a.i]);
    }
  }

  lemma OthersSame(s: State, a: Act)
    requires Enabled(s, a)
    ensures var s' := Apply(s, a);
      && s.now <= s'.now
      && (!Moves(a) ==>
            && s'.claimers == s.claimers && s'.row == s.row.(due := s'.row.due)
            && (s.row.owner.Some? ==> s'.row == s.row))
      && (forall k :: k in s.claimers ==> k in s'.claimers)
      && (Moves(a) ==> forall k :: k in s'.claimers && k != a.i ==>
            k in s.claimers && s'.claimers[k] == s.claimers[k])
  {
  }

  lemma OwnedKept(s: State, a: Act)
    requires Owned(s) && Enabled(s, a)
    ensures Owned(Apply(s, a))
  {
    OthersSame(s, a);
    if Moves(a) {
      MoverKept(s, a);
    }
    hide Enabled, Apply;
    forall k | k in Apply(s, a).claimers && (Moves(a) ==> k != a.i)
      ensures OwnedBy(Apply(s, a), k, Apply(s, a).claimers[k])
    {
      assert OwnedBy(s, k, s.claimers[k]);
    }
  }

  lemma {:induction false} RunOwned(states: seq<State>, acts: seq<Act>, k: nat)
    requires Run(states, acts) && k <= |acts|
    ensures Owned(states[k])
  {
    hide Apply, Enabled;
    if k > 0 {
      RunOwned(states, acts, k - 1);
      OwnedKept(states[k - 1], acts[k - 1]);
    }
  }

  /** Past its claim: it never claims again. */
  predicate Past(s: State, i: nat) { i in s.claimers && OwnsPhase(s.claimers[i]) }

  lemma PastKept(s: State, a: Act, i: nat)
    requires Past(s, i) && Enabled(s, a)
    ensures Past(Apply(s, a), i)
  {
  }

  lemma LeasesPast(s: State, a: Act, i: nat)
    requires Enabled(s, a) && Leases(s, a, Apply(s, a), i)
    ensures Past(Apply(s, a), i)
  {
  }

  lemma {:induction false} StaysPast(states: seq<State>, acts: seq<Act>, k: nat, j: nat, i: nat)
    requires Run(states, acts) && k <= j <= |acts| && Past(states[k], i)
    ensures Past(states[j], i)
    decreases j
  {
    hide Apply, Enabled, Past;
    if k < j {
      StaysPast(states, acts, k, j - 1, i);
      PastKept(states[j - 1], acts[j - 1], i);
    }
  }

  /** An owner that is past its claim has been the owner before. */
  lemma OwnerBefore(s: State, a: Act, i: nat)
    requires Owned(s) && Past(s, i) && Enabled(s, a) && Apply(s, a).row.owner == Some(i)
    ensures s.row.owner == Some(i)
    ensures Apply(s, a).row != s.row ==> a == RenewWrite(i)
  {
  }

  // ----- the lease

  predicate LeaseFrom(s: State, t: nat) {
    s.row.expires.Some? && s.row.expires.value >= t + LEASE
  }

  lemma GivenLease(s: State, a: Act, i: nat)
    requires Owned(s) && Enabled(s, a) && Leases(s, a, Apply(s, a), i)
    ensures Apply(s, a).row.expires == Some(Moment(s, a) + LEASE) && Moment(s, a) <= Apply(s, a).now
    ensures a.RenewWrite? ==> Moment(s, a) == s.now
  {
    assert OwnedBy(s, a.i, s.claimers[a.i]);
  }

  ghost predicate LastLease(states: seq<State>, acts: seq<Act>, k: nat, j: nat, i: nat) {
    && |states| == |acts| + 1 && j <= |acts|
    && forall m :: k < m < j ==> !Leases(states[m], acts[m], states[m + 1], i)
  }

  /** While its owner holds the row the lease lasts 60 seconds from any moment it
      was written for, and exactly 60 from the last one. */
  lemma {:induction false} LeaseLasts(states: seq<State>, acts: seq<Act>, k: nat, j: nat, i: nat)
    requires Run(states, acts) && k < j <= |acts| && Leases(states[k], acts[k], states[k + 1], i)
    requires states[j].row.owner == Some(i)
    ensures LeaseFrom(states[j], Moment(states[k], acts[k])) && Moment(states[k], acts[k]) <= states[j].now
    ensures LastLease(states, acts, k, j, i) ==> states[j].row.expires == Some(Moment(states[k], acts[k]) + LEASE)
    decreases j
  {
    hide Apply, Enabled, Owned, Leases, Past, Moment;
    RunOwned(states, acts, j - 1);
    var s, a := states[j - 1], acts[j - 1];
    assert states[j] == Apply(s, a);
    if k + 1 == j {
      GivenLease(s, a, i);
    } else {
      LeasesPast(states[k], acts[k], i);
      StaysPast(states, acts, k + 1, j - 1, i);
      OwnerBefore(s, a, i);
      LeaseLasts(states, acts, k, j - 1, i);
      OthersSame(s, a);
      if a == RenewWrite(i) {
        assert Leases(s, a, states[j], i) by { Renews(s, i); }
        GivenLease(s, a, i);
      }
    }
  }

  lemma Renews(s: State, i: nat)
    requires Enabled(s, RenewWrite(i)) && s.row.owner == Some(i) && Apply(s, RenewWrite(i)).row.owner == Some(i)
    ensures Leases(s, RenewWrite(i), Apply(s, RenewWrite(i)), i)
  {
  }

  /** While an owner still holds the row, another claimer gets it only for a
      moment at least 60 seconds after every moment for which that owner's lease
      was taken or renewed. */
  lemma LeaseProtects(states: seq<State>, acts: seq<Act>, k: nat, j: nat, i: nat)
    requires Run(states, acts) && k < j < |acts| && Leases(states[k], acts[k], states[k + 1], i)
    requires states[j].row.owner == Some(i) && acts[j].Acquire? && states[j + 1].row != states[j].row
    ensures Of(states[j], acts[j].i).at >= Moment(states[k], acts[k]) + 60
  {
    LeaseLasts(states, acts, k, j, i);
  }

  /** And exactly then: when that moment was the last one, a claimer that read
      the row gets it if and only if it claims for 60 seconds later or more. */
  lemma LeaseIsExact(states: seq<State>, acts: seq<Act>, k: nat, j: nat, i: nat)
    requires Run(states, acts) && k < j < |acts| && Leases(states[k], acts[k], states[k + 1], i)
    requires LastLease(states, acts, k, j, i)
    requires states[j].row.owner == Some(i) && acts[j].Acquire?
    ensures states[j + 1].row.owner == Some(acts[j].i) <==>
      Of(states[j], acts[j].i).at >= Moment(states[k], acts[k]) + 60
  {
    LeaseLasts(states, acts, k, j, i);
    RunOwned(states, acts, j);
    LeasesPast(states[k], acts[k], i);
    StaysPast(states, acts, k + 1, j, i);
    hide LastLease, Leases;
  }

  // ----- the outcome

  /** What the claimer has decided and still has to write. */
  predicate Carries(c: Claimer, outcome: Outcome, d: Decision) {
    c.Done? || ((c.Releasing? || c.Writing?) && c.outcome == outcome && c.decision == d)
  }

  lemma CarriesKept(s: State, a: Act, i: nat, outcome: Outcome, d: Decision)
    requires Enabled(s, a) && i in s.claimers && Carries(s.claimers[i], outcome, d)
    ensures i in Apply(s, a).claimers && Carries(Apply(s, a).claimers[i], outcome, d)
  {
    if a.ReleaseLoad? && a.i == i {
    } else {
      OthersSame(s, a);
    }
  }

  lemma {:induction false} StaysCarried(states: seq<State>, acts: seq<Act>, k: nat, j: nat, i: nat, outcome: Outcome,
                                        d: Decision)
    requires Run(states, acts) && k <= j <= |acts|
    requires i in states[k].claimers && Carries(states[k].claimers[i], outcome, d)
    ensures i in states[j].claimers && Carries(states[j].claimers[i], outcome, d)
    decreases j
  {
    hide Apply, Enabled, Carries;
    if k < j {
      StaysCarried(states, acts, k, j - 1, i, outcome, d);
      CarriesKept(states[j - 1], acts[j - 1], i, outcome, d);
    }
  }

  /** What an attempt that ended at second `now`, after `conflicts` conflicts in a
      row, leaves in the row; a Run that is terminal by then is not due again. */
  predicate LeftBy(r: Row, outcome: Outcome, now: nat, conflicts: nat, terminal: bool) {
    && r.owner.None? && r.expires.None?
    && match outcome
       case Settled(due) => r.due == (if terminal then None else Some(due)) && r.count == 0 && !r.quarantined
       case Failure => r.due == Some(now + 5) && r.count == 0 && !r.quarantined
       case Conflict =>
         && r.count == conflicts + 1 && (r.quarantined <==> conflicts == 2)
         && r.due == (if conflicts == 2 then None else if conflicts == 1 then Some(now + 10) else Some(now + 5))
  }

  /** The owner's outcome, from the end of its attempt to the row: nothing that
      happens in between changes what it writes. */
  lemma OutcomeInRow(states: seq<State>, acts: seq<Act>, k: nat, j: nat)
    requires PunctualRun(EXACT, states, acts) && k < j < |acts|
    requires acts[k].Finish? && states[k].row.owner == Some(acts[k].i)
    requires !acts[k].outcome.Settled? ==> !states[k].terminal
    requires acts[j] == ReleaseWrite(acts[k].i) && states[j].row.owner == Some(acts[k].i)
    ensures LeftBy(states[j + 1].row, acts[k].outcome, states[k].now, Trail(states[k].log), states[k].terminal)
  {
    var s, i, outcome := states[k], acts[k].i, acts[k].outcome;
    CountIsTrail(states, acts, k);
    RunOwned(states, acts, k);
    if !outcome.Settled? {
      DecisionBounds(s.row.count, outcome.Conflict?, s.now);
    }
    StaysCarried(states, acts, k + 1, j, i, outcome, DecisionFor(s, outcome));
  }

  // ----- recovery goes on

  function Later(a: nat, o: Option<nat>): nat { if o.Some? && o.value > a then o.value else a }

  /** From every reachable state of an unfinished Run that is not quarantined,
      once its retry time and its lease have passed, a new worker can take the
      lease and start an attempt, with all outcomes kept. */
  lemma AlwaysTakenUp(b: Bounds, s: State, i: nat)
    requires Reachable(b, s) && !s.terminal && !s.row.quarantined && i !in s.claimers
    ensures var at := Later(Later(s.now, s.row.due), s.row.expires);
      exists s' :: Reachable(b, s') && s'.now == at && s'.log == s.log && s'.row.count == s.row.count
                   && s'.row.owner == Some(i) && s'.row.expires == Some(at + 60) && Of(s', i).Attempting?
  {
    var at := Later(Later(s.now, s.row.due), s.row.expires);
    hide Reachable;
    ReachStep(b, s, Tick(at));
    var t := s.(now := at);
    Starts(b, t, i);
    var u := At(t, i, Attempting(false)).(row := Leased(t.row, i, at), ver := t.ver + 1);
    assert Of(u, i).Attempting?;
  }

  /** An owner at work can renew: two steps later its lease runs for 60 seconds
      from now, the rest of the row and its attempt as they were. */
  lemma OwnerRenews(s: State, i: nat)
    requires Of(s, i).Attempting? && s.row.owner == Some(i)
    ensures var s1 := Apply(s, RenewRead(i));
      && Enabled(s1, RenewWrite(i))
      && var s2 := Apply(s1, RenewWrite(i));
         s2.row == s.row.(expires := Some(s.now + 60)) && Of(s2, i) == Of(s, i)
  {
  }

  /** A driver need not wait for the Run to be due before it reads it: when a
      wake comes in between it goes on to its attempt. */
  lemma DriverGoesAhead(b: Bounds, s: State, i: nat)
    requires Reachable(b, s) && !s.terminal && i !in s.claimers
    requires s.row.owner.None? && s.row.expires.None? && !s.row.quarantined
    requires s.row.due.Some? && s.row.due.value > s.now && (s.last.Some? ==> s.now + b.early > s.last.value)
    ensures exists s' :: Reachable(b, s') && Of(s', i) == Attempting(true) && s'.row == Leased(s.row, i, s.now)
  {
    hide Reachable;
    var s1 := At(s, i, Listed(true, s.ver));
    ReachStep(b, s, List(i, true));
    var s2 := At(s1, i, Begun(true, s.ver, s.now));
    ReachStep(b, s1, Begin(i));
    var s3 := At(s2, i, RunLoaded(true, s.ver, s.now));
    ReachStep(b, s2, LoadRun(i));
    var s4 := At(s3, i, Loaded(true, s.ver, s.now, s.row));
    ReachStep(b, s3, LoadClaim(i));
    var woken := s.row.(due := Some(s.now));
    var s5 := s4.(row := woken);
    ReachStep(b, s4, Schedule(s.now));
    TakesIt(b, s5, i, s.row);
  }

  lemma TakesIt(b: Bounds, s: State, i: nat, snap: Row)
    requires Reachable(b, s) && i in s.claimers && s.claimers[i] == Loaded(true, s.ver, s.now, snap)
    requires s.row.owner.None? && Due(s.row, s.now)
    ensures exists s' :: Reachable(b, s') && Of(s', i) == Attempting(true) && s'.row == Leased(s.row, i, s.now)
  {
    hide Reachable;
    var s1 := At(s, i, RowRead(true, s.ver, s.now, snap, s.row));
    ReachStep(b, s, ReadRow(i));
    ReachStep(b, s1, Acquire(i));
    var s2 := Apply(s1, Acquire(i));
    assert Of(s2, i) == Acquired(true, s.ver, snap);
    ReachStep(b, s2, CasRun(i));
    assert Of(Apply(s2, CasRun(i)), i) == Attempting(true);
  }

  /** A claimer whose Run changed under it stops: before it has written, without a
      trace; with the lease in hand, by putting its row back; with an outcome in
      hand, without writing it. */
  lemma ChangedRunStops(s: State, i: nat)
    requires i in s.claimers
    ensures var c := Of(s, i);
      && (c.Begun? && s.ver != c.ver ==> Apply(s, LoadRun(i)) == At(s, i, Done))
      && (c.Acquired? && s.ver != c.ver ==> Apply(s, CasRun(i)) == At(s, i, Restoring(c.snap)))
      && (c.Restoring? && s.row.owner == Some(i) ==>
            Apply(s, Restore(i)) == At(s, i, Done).(row := c.snap.(owner := None, expires := None)))
      && (c.Releasing? && s.ver != c.ver ==> Apply(s, ReleaseLoad(i)) == At(s, i, Done))
  {
  }
}
