/** What a cancelled effect and an abandoned one leave behind: a refused worker
    never returns a result, and a caller cancelled while it waits leaves a
    heartbeat that holds the command for as long as its process lives. */
module FencedOrphan {
  import opened HitlStore
  import I = HitlInvariant
  import opened FencedEffect
  import B = FencedBound
  import opened Wrappers

  // ----- a refused worker returns nothing

  /** Its result will reach nobody. */
  predicate Gone(k: Worker) { k.Cancelled? || k.Loose? }

  ghost predicate Doomed(s: State, cc: Claim) {
    && Drawn(cc, s.issued)
    && forall w :: w in s.workers && HasClaim(s.workers[w]) && s.workers[w].cc == cc ==> Gone(s.workers[w])
  }

  lemma DoomedStep(rev: nat, s: State, e: Event, cc: Claim)
    requires Doomed(s, cc)
    ensures Doomed(Next(rev, s, e), cc)
  {
    hide ClaimApplication, ClaimCommand, Renew, MarkCommand, MarkOutcome, ReclaimCommand, Terminalize;
    match e {
      case ClaimApp(w) =>
      case ClaimCmd(w) =>
      case Call(w) =>
      case Store(w) =>
      case Reply(w) =>
      case Orphan(w) =>
      case Complete(w) =>
      case Settle(w) =>
      case Mark(w, outcome) =>
      case Crash(w) =>
      case _ =>
    }
  }

  lemma {:induction false} DoomedRun(rev: nat, s: State, es: seq<Event>, cc: Claim)
    requires Doomed(s, cc)
    ensures Doomed(Run(rev, s, es), cc)
    decreases |es|
  {
    hide Doomed, Next;
    if es != [] {
      DoomedStep(rev, s, es[0], cc);
      DoomedRun(rev, Next(rev, s, es[0]), es[1..], cc);
    }
  }

  predicate Changes(s: State, s': State, w: nat, k: Worker) {
    SameClaims(WorkerOf(s, w), k) || (s'.issued > s.issued && Draws(s, w, k))
  }

  /** One worker changes, keeping its claims, dropping them or drawing the next. */
  lemma FreshSet(s: State, s': State, w: nat, k: Worker)
    requires FreshClaims(s) && s'.workers == s.workers[w := k] && s'.issued >= s.issued
    requires Changes(s, s', w, k)
    ensures FreshClaims(s')
  {
  }

  lemma FreshStep(rev: nat, s: State, e: Event)
    requires FreshClaims(s)
    ensures FreshClaims(Next(rev, s, e))
  {
    hide FreshClaims;
    if Silent(e) {
      FreshSilent(rev, s, e);
    } else {
      hide ClaimApplication, ClaimCommand, Renew, MarkCommand, MarkOutcome, ReclaimCommand, Terminalize,
           ResumeUncertain;
      var s' := Next(rev, s, e);
      if s'.workers == s.workers && s'.issued == s.issued {
        FreshAnyDb(s, s');
      } else {
        FreshSet(s, s', e.w, WorkerOf(s', e.w));
      }
    }
  }

  lemma FreshSilent(rev: nat, s: State, e: Event)
    requires FreshClaims(s) && Silent(e)
    ensures FreshClaims(Next(rev, s, e))
  {
    hide FreshClaims;
    var s' := Next(rev, s, e);
    if s' != s {
      FreshSet(s, s', e.w, WorkerOf(s', e.w));
    }
  }

  lemma FreshAnyDb(s: State, s': State)
    requires FreshClaims(s) && s'.workers == s.workers && s'.issued == s.issued
    ensures FreshClaims(s')
  {
  }

  lemma {:induction false} FreshRun(rev: nat, s: State, es: seq<Event>)
    requires FreshClaims(s)
    ensures FreshClaims(Run(rev, s, es))
    decreases |es|
  {
    hide FreshClaims, Next;
    if es != [] {
      FreshStep(rev, s, es[0]);
      FreshRun(rev, Next(rev, s, es[0]), es[1..]);
    }
  }

  /** A worker whose heartbeat was refused is cancelled when the refusal reaches
      it, or is loose if its caller is gone; from then on neither it nor anybody
      else returns a result under that claim. This needs no timing assumption. */
  lemma RefusedNeverReturns(rev: nat, s: State, es: seq<Event>, w: nat, later: seq<Event>)
    requires Init(rev, s)
    requires WorkerOf(Run(rev, s, es), w).Beating? && WorkerOf(Run(rev, s, es), w).renewal == Refused
    ensures var t := Run(rev, s, es);
            var u := Run(rev, Next(rev, t, Reply(w)), later);
            forall v :: HasClaim(WorkerOf(u, v)) && WorkerOf(u, v).cc == WorkerOf(t, w).cc ==> Gone(WorkerOf(u, v))
  {
    var t := Run(rev, s, es);
    FreshRun(rev, s, es);
    DoomedRun(rev, Next(rev, t, Reply(w)), later, WorkerOf(t, w).cc);
  }

  // ----- an orphaned heartbeat never lets go

  predicate IsOrphan(k: Worker) { Beats(k) && !k.crew.Awaited? }

  ghost predicate Hangs(s: State, w: nat, app: Claim, cc: Claim) {
    && IsOrphan(WorkerOf(s, w)) && WorkerOf(s, w).app == app && WorkerOf(s, w).cc == cc
    && HoldsApplication(s.db, app)
  }

  /** The process lives and nothing outside ends the interaction. */
  predicate Undisturbed(es: seq<Event>, w: nat) {
    forall k :: 0 <= k < |es| ==> !es[k].EndApplication? && es[k] != Crash(w)
  }

  lemma HangsOn(rev: nat, s: State, e: Event, w: nat, app: Claim, cc: Claim, latency: nat)
    requires 2 * latency + HEARTBEAT_SECONDS < LEASE_SECONDS
    requires Inv(rev, s, latency) && Timely(s, latency) && Hangs(s, w, app, cc)
    requires !e.EndApplication? && e != Crash(w)
    ensures Hangs(Next(rev, s, e), w, app, cc)
  {
    HangsLive(rev, s, w, app, cc, latency);
    hide Inv, Timely, Next, Hangs;
    if Silent(e) {
      SilentHangs(rev, s, e, w, app, cc);
    } else if e.Store? {
      StoreHangs(rev, s, e.w, w, app, cc, latency);
    } else if e.Mark? {
      MarkHangs(rev, s, e.w, e.outcome, w, app, cc, latency);
    } else {
      OtherHangs(rev, s, e, w, app, cc);
    }
  }

  lemma SilentHangs(rev: nat, s: State, e: Event, w: nat, app: Claim, cc: Claim)
    requires Hangs(s, w, app, cc) && Silent(e) && e != Crash(w)
    requires s.workers[w].Beating? ==> s.workers[w].renewal != Refused
    ensures Hangs(Next(rev, s, e), w, app, cc)
  {
  }

  lemma OtherHangs(rev: nat, s: State, e: Event, w: nat, app: Claim, cc: Claim)
    requires Hangs(s, w, app, cc) && !Silent(e) && !e.Store? && !e.Mark? && !e.EndApplication?
    requires s.db.inter.lease.Some? && s.db.inter.lease.value > s.db.now
    ensures Hangs(Next(rev, s, e), w, app, cc)
  {
  }

  /** Its application lease is running and its renewals are granted. */
  lemma HangsLive(rev: nat, s: State, w: nat, app: Claim, cc: Claim, latency: nat)
    requires 2 * latency + HEARTBEAT_SECONDS < LEASE_SECONDS
    requires Inv(rev, s, latency) && Timely(s, latency) && Hangs(s, w, app, cc)
    ensures s.db.inter.lease.Some? && s.db.inter.lease.value > s.db.now
    ensures s.workers[w].Beating? ==> s.workers[w].renewal != Refused
  {
    hide CommandCovered, FreshClaims, LeaseBound;
    assert OnTime(s.workers[w], s.db.now, latency) && Covered(s.db, rev, s.workers[w], latency);
  }

  lemma StoreHangs(rev: nat, s: State, v: nat, w: nat, app: Claim, cc: Claim, latency: nat)
    requires 2 * latency + HEARTBEAT_SECONDS < LEASE_SECONDS
    requires Inv(rev, s, latency) && Timely(s, latency) && Hangs(s, w, app, cc)
    ensures Hangs(Next(rev, s, Store(v)), w, app, cc)
  {
    BeatsHolds(s, rev, w, latency);
    HangsLive(rev, s, w, app, cc, latency);
    hide Inv, Timely;
  }

  lemma MarkHangs(rev: nat, s: State, v: nat, outcome: Status, w: nat, app: Claim, cc: Claim, latency: nat)
    requires Inv(rev, s, latency) && Hangs(s, w, app, cc)
    ensures Hangs(Next(rev, s, Mark(v, outcome)), w, app, cc)
  {
    hide Covered;
  }

  lemma {:induction false} HangsRun(rev: nat, s: State, es: seq<Event>, w: nat, app: Claim, cc: Claim, latency: nat)
    requires 2 * latency + HEARTBEAT_SECONDS < LEASE_SECONDS
    requires Inv(rev, s, latency) && TimelyRun(rev, s, es, latency) && Hangs(s, w, app, cc) && Undisturbed(es, w)
    ensures Hangs(Run(rev, s, es), w, app, cc)
    decreases |es|
  {
    if es != [] {
      assert forall k :: 0 <= k < |es| - 1 ==> es[1..][k] == es[k + 1];
      hide Inv, Timely, Next, Hangs;
      HangsOn(rev, s, es[0], w, app, cc, latency);
      NextCovered(rev, s, es[0], latency);
      HangsRun(rev, Next(rev, s, es[0]), es[1..], w, app, cc, latency);
    }
  }

  /** Once the caller of an effect is cancelled, the command stays DELIVERING
      and the interaction APPLYING under the orphan's claims, whether or not its
      effect ever ends, for as long as the process lives and nothing outside
      ends the interaction: it is never acknowledged, no other worker gets to
      the effect and no reconciler takes it back. */
  lemma OrphanNeverLetsGo(rev: nat, s: State, es: seq<Event>, w: nat, later: seq<Event>, latency: nat)
    requires 2 * latency + HEARTBEAT_SECONDS < LEASE_SECONDS
    requires Init(rev, s) && TimelyRun(rev, s, es, latency)
    requires IsOrphan(WorkerOf(Run(rev, s, es), w)) && !Over(Run(rev, s, es).db)
    requires TimelyRun(rev, Run(rev, s, es), later, latency) && Undisturbed(later, w)
    ensures var k := WorkerOf(Run(rev, s, es), w);
            var u := Run(rev, Run(rev, s, es), later);
            && IsOrphan(WorkerOf(u, w)) && HoldsApplication(u.db, k.app) && Claims(u.db, rev, k.cc)
            && forall v :: Runs(WorkerOf(u, v)) ==> v == w
  {
    var t := Run(rev, s, es);
    var k := WorkerOf(t, w);
    RunCovered(rev, s, es, latency);
    assert Hangs(t, w, k.app, k.cc) by {
      assert Covered(t.db, rev, t.workers[w], latency);
    }
    HangsRun(rev, t, later, w, k.app, k.cc, latency);
    var u := Run(rev, t, later);
    RunCovered(rev, t, later, latency);
    BeatsHolds(u, rev, w, latency);
    hide Inv, Timely, LooseAlone, Hangs, Next;
    forall v | v != w && Runs(WorkerOf(u, v)) ensures false {
      HolderAlone(u, rev, w, v, latency);
    }
  }

  lemma Abandons(s: State, app: Claim, cc: Claim, latency: nat)
    requires Timely(s, latency) && s.workers == map[0 := Fencing(app, cc, s.db.now, CommandRenewed)]
    requires B.Leased(s.db, app, cc, s.db.now + LEASE_SECONDS)
    ensures var s1 := Next(1, s, Reply(0));
            var s2 := Next(1, s1, Orphan(0));
            var s3 := Next(1, s2, Complete(0));
            && Timely(s1, latency) && Timely(s2, latency) && Timely(s3, latency) && s3.db == s.db && !Over(s3.db)
            && WorkerOf(s3, 0) == Asleep(app, cc, s.db.now, HeartbeatOnly)
  {
    var s1 := Next(1, s, Reply(0));
    assert s1.workers == map[0 := Asleep(app, cc, s.db.now, Awaited)];
  }

  /** Such a state is reached, with the effect completed and nothing acknowledged. */
  lemma OrphanReachable(latency: nat) returns (es: seq<Event>)
    ensures Init(1, B.Abandoned()) && TimelyRun(1, B.Abandoned(), es, latency)
    ensures var t := Run(1, B.Abandoned(), es);
            IsOrphan(WorkerOf(t, 0)) && !Runs(WorkerOf(t, 0)) && !Over(t.db)
  {
    B.AbandonedIsSound();
    B.AbandonedIsIdle(latency);
    hide Init, B.Abandoned;
    var s := B.Abandoned();
    var es1 := B.EnterFence(s, 0, latency);
    var t := Run(1, s, es1);
    B.TimelyEnd(1, s, es1, latency);
    Abandons(t, Uuid(0), Uuid(1), latency);
    hide Next, Timely, B.Leased, B.Claimable, Over;
    var t1 := Next(1, t, Reply(0));
    var t2 := Next(1, t1, Orphan(0));
    var e3 := [Complete(0)] + [];
    var e2 := [Orphan(0)] + e3;
    B.RunStep(1, t2, Complete(0), [], latency);
    B.RunStep(1, t1, Orphan(0), e3, latency);
    B.RunStep(1, t, Reply(0), e2, latency);
    B.RunAppend(1, s, es1, [Reply(0)] + e2, latency);
    es := es1 + ([Reply(0)] + e2);
  }

  // ----- an effect that is still awaited

  /** Below the bound an awaited effect that completes is acknowledged by its
      worker's next step. */
  lemma CompletionAcknowledges(rev: nat, s: State, es: seq<Event>, w: nat, latency: nat)
    requires 2 * latency + HEARTBEAT_SECONDS < LEASE_SECONDS
    requires Init(rev, s) && TimelyRun(rev, s, es, latency)
    requires var k := WorkerOf(Run(rev, s, es), w); Beats(k) && k.crew.Awaited?
    ensures var u := Next(rev, Next(rev, Run(rev, s, es), Complete(w)), Settle(w));
      rev in u.db.cmds && u.db.cmds[rev].status == Acknowledged && WorkerOf(u, w).Settled?
  {
    RunCovered(rev, s, es, latency);
    BeatsHolds(Run(rev, s, es), rev, w, latency);
    hide Run, Inv, Timely, TimelyRun;
  }

  /** An awaited effect whose heartbeat was refused is cancelled when the refusal
      reaches it, and a command it still holds can be claimed again at once. */
  lemma RefusalFrees(rev: nat, s: State, w: nat)
    requires var k := WorkerOf(s, w);
      && (k.Fencing? || (k.Beating? && k.crew.Awaited?)) && k.renewal == Refused && Claims(s.db, rev, k.cc)
    ensures var u := Next(rev, Next(rev, s, Reply(w)), Settle(w));
      && rev in u.db.cmds && u.db.cmds[rev].status == RetryableError && Lapsed(u.db.cmds[rev].nextAttempt, u.db.now)
      && WorkerOf(u, w).Settled?
  {
  }

  /** A worker that is done with an application it holds hands it over: marked
      for a retry, or uncertain and then resumed, it can be claimed by the next
      worker in the same second. */
  lemma MarkHandsOver(rev: nat, s: State, w: nat, v: nat, outcome: Status, claim: Claim)
    requires v != w && WorkerOf(s, v).Off? && (WorkerOf(s, w).Entered? || WorkerOf(s, w).Settled?)
    requires HoldsApplication(s.db, WorkerOf(s, w).app) && (outcome == Applying || outcome == DeliveryUncertain)
    ensures var s1 := Next(rev, s, Mark(w, outcome));
            var s2 := if outcome == DeliveryUncertain then Next(rev, s1, Resume(claim)) else s1;
            var s3 := Next(rev, s2, ClaimApp(v));
            && WorkerOf(s3, v) == Entered(Uuid(s.issued)) && HoldsApplication(s3.db, Uuid(s.issued))
            && s3.db.inter.lease == Some(s.db.now + 300)
  {
  }

  lemma Loosens(s: State, app: Claim, cc: Claim, latency: nat)
    requires Timely(s, latency) && s.workers == map[0 := Fencing(app, cc, s.db.now, CommandRenewed)]
    requires B.Leased(s.db, app, cc, s.db.now + LEASE_SECONDS)
    ensures var s1 := Next(1, s, Reply(0));
            var s2 := Next(1, s1, Orphan(0));
            var s3 := Next(1, s2, EndApplication);
            var s4 := Next(1, s3, Call(0));
            && Timely(s1, latency) && Timely(s2, latency) && Timely(s3, latency) && Timely(s4, latency) && Over(s4.db)
            && s4.workers == map[0 := Beating(app, cc, s4.db.now, Started, Orphaned)]
  {
    var s1 := Next(1, s, Reply(0));
    assert s1.workers == map[0 := Asleep(app, cc, s.db.now, Awaited)];
    var s2 := Next(1, s1, Orphan(0));
    assert s2.workers == map[0 := Asleep(app, cc, s.db.now, Orphaned)];
  }

  lemma ThenLoose(s: State, app: Claim, cc: Claim, latency: nat)
    requires Timely(s, latency) && Over(s.db)
    requires s.workers == map[0 := Beating(app, cc, s.db.now, Started, Orphaned)]
    ensures var s5 := Next(1, s, Store(0));
            var s6 := Next(1, s5, Reply(0));
            Timely(s5, latency) && Timely(s6, latency) && WorkerOf(s6, 0).Loose? && Over(s6.db)
  {
    var s5 := Next(1, s, Store(0));
    assert s5.workers == map[0 := Beating(app, cc, s.db.now, Refused, Orphaned)];
  }

  /** An effect can come loose: orphaned, its interaction ended from outside, its
      heartbeat refused, and still running. */
  lemma LooseReachable(latency: nat) returns (es: seq<Event>)
    ensures Init(1, B.Abandoned()) && TimelyRun(1, B.Abandoned(), es, latency)
    ensures var t := Run(1, B.Abandoned(), es); WorkerOf(t, 0).Loose? && Runs(WorkerOf(t, 0)) && Over(t.db)
  {
    B.AbandonedIsSound();
    B.AbandonedIsIdle(latency);
    hide Init, B.Abandoned;
    var s := B.Abandoned();
    var es1 := B.EnterFence(s, 0, latency);
    var t := Run(1, s, es1);
    B.TimelyEnd(1, s, es1, latency);
    Loosens(t, Uuid(0), Uuid(1), latency);
    hide Next, Timely, B.Leased, B.Claimable, Over;
    var t1 := Next(1, t, Reply(0));
    var t2 := Next(1, t1, Orphan(0));
    var t3 := Next(1, t2, EndApplication);
    var t4 := Next(1, t3, Call(0));
    ThenLoose(t4, Uuid(0), Uuid(1), latency);
    var t5 := Next(1, t4, Store(0));
    var e6 := [Reply(0)] + [];
    var e5 := [Store(0)] + e6;
    var e4 := [Call(0)] + e5;
    var e3 := [EndApplication] + e4;
    var e2 := [Orphan(0)] + e3;
    B.RunStep(1, t5, Reply(0), [], latency);
    B.RunStep(1, t4, Store(0), e6, latency);
    B.RunStep(1, t3, Call(0), e5, latency);
    B.RunStep(1, t2, EndApplication, e4, latency);
    B.RunStep(1, t1, Orphan(0), e3, latency);
    B.RunStep(1, t, Reply(0), e2, latency);
    B.RunAppend(1, s, es1, [Reply(0)] + e2, latency);
    es := es1 + ([Reply(0)] + e2);
  }
}
