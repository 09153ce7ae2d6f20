/** The exclusion bound of `FencedEffect` is exact: from the bound on, a run
    from a sound store in which two workers run the effect of one command. */
module FencedBound {
  import opened HitlStore
  import I = HitlInvariant
  import opened FencedEffect
  import opened Wrappers

  lemma {:induction false} RunAppend(rev: nat, s: State, xs: seq<Event>, ys: seq<Event>, latency: nat)
    ensures Run(rev, s, xs + ys) == Run(rev, Run(rev, s, xs), ys)
    ensures TimelyRun(rev, s, xs, latency) && TimelyRun(rev, Run(rev, s, xs), ys, latency) ==>
            TimelyRun(rev, s, xs + ys, latency)
    decreases |xs|
  {
    hide Timely, Next;
    if xs == [] {
      assert xs + ys == ys;
    } else {
      assert (xs + ys)[1..] == xs[1..] + ys;
      RunAppend(rev, Next(rev, s, xs[0]), xs[1..], ys, latency);
    }
  }

  lemma RunStep(rev: nat, s: State, e: Event, es: seq<Event>, latency: nat)
    requires Timely(s, latency) && TimelyRun(rev, Next(rev, s, e), es, latency)
    ensures Run(rev, s, [e] + es) == Run(rev, Next(rev, s, e), es) && TimelyRun(rev, s, [e] + es, latency)
  {
    hide Timely, Next;
    assert ([e] + es)[1..] == es;
  }

  const QUESTION: RequestId := "q"
  const ANSWER: Digest := OfText("yes")

  /** One answered and responded question whose application was claimed and then
      abandoned, with its command still pending. */
  function Abandoned(): State {
    var r := Row(Responded, Some("yes"), Some(ANSWER), true, None);
    var i := Interaction(Applying, 1, None, [QUESTION], [(QUESTION, ANSWER)], 1, Some(OrphanRecovery), Some(0),
                         ProjectionPending, None, None, false);
    var c := Command([QUESTION], OfAnswers([(QUESTION, ANSWER)]), CommandPending, 1, None, None, None);
    State(Db([QUESTION], map[QUESTION := r], i, map[1 := c], 0), map[], 0)
  }

  lemma AbandonedIsSound()
    ensures Init(1, Abandoned())
  {
    var d := Abandoned().db;
    assert forall id :: id in d.ids <==> id == QUESTION;
    assert I.Lines(d.ids, d.rows) == [(QUESTION, ANSWER)];
    assert I.CommandOk(d, d.cmds[1]);
  }

  lemma AbandonedIsIdle(latency: nat)
    ensures Timely(Abandoned(), latency) && Claimable(Abandoned().db)
    ensures Abandoned().workers == map[] && Abandoned().issued == 0 && Abandoned().db.now == 0
  {
  }

  predicate Leased(d: Db, app: Claim, cc: Claim, until: nat) {
    && HoldsApplication(d, app) && d.inter.lease == Some(until)
    && 1 in d.cmds && d.cmds[1].status == Delivering && d.cmds[1].claim == Some(cc) && d.cmds[1].lease == Some(until)
  }

  predicate Claimable(d: Db) {
    && d.inter.status == Applying && Lapsed(d.inter.lease, d.now)
    && 1 in d.cmds && (d.cmds[1].status == CommandPending || d.cmds[1].status == RetryableError)
    && Lapsed(d.cmds[1].nextAttempt, d.now)
  }

  lemma Claims(s: State, w: nat, latency: nat)
    requires Timely(s, latency) && WorkerOf(s, w).Off? && Claimable(s.db)
    ensures var app, cc := Uuid(s.issued), Uuid(s.issued + 1);
            var s1 := Next(1, s, ClaimApp(w));
            var s2 := Next(1, s1, ClaimCmd(w));
            && Timely(s1, latency) && Timely(s2, latency) && s2.db.now == s.db.now
            && s2.workers == s.workers[w := Claimed(app, cc)]
            && Leased(s2.db, app, cc, s.db.now + LEASE_SECONDS)
  {
    var s1 := Next(1, s, ClaimApp(w));
    assert s1.workers == s.workers[w := Entered(Uuid(s.issued))];
  }

  lemma Stores(s: State, w: nat, app: Claim, cc: Claim, latency: nat)
    requires Timely(s, latency) && w in s.workers && s.workers[w] == Claimed(app, cc)
    requires Leased(s.db, app, cc, s.db.now + LEASE_SECONDS)
    ensures var s3 := Next(1, s, Call(w));
            var s4 := Next(1, s3, Store(w));
            var s5 := Next(1, s4, Store(w));
            && Timely(s3, latency) && Timely(s4, latency) && Timely(s5, latency) && s5.db.now == s.db.now
            && s5.workers == s.workers[w := Fencing(app, cc, s.db.now, CommandRenewed)]
            && Leased(s5.db, app, cc, s.db.now + LEASE_SECONDS)
  {
    var s3 := Next(1, s, Call(w));
    assert s3.workers == s.workers[w := Fencing(app, cc, s.db.now, Started)];
    var s4 := Next(1, s3, Store(w));
    assert s4.workers == s.workers[w := Fencing(app, cc, s.db.now, ApplicationRenewed)];
  }

  /** A worker gets through its fence; the reply to its renewal is due. */
  lemma EnterFence(s: State, w: nat, latency: nat) returns (es: seq<Event>)
    requires Timely(s, latency) && WorkerOf(s, w).Off? && Claimable(s.db)
    ensures var t := Run(1, s, es);
            var app, cc := Uuid(s.issued), Uuid(s.issued + 1);
            && TimelyRun(1, s, es, latency) && t.db.now == s.db.now
            && t.workers == s.workers[w := Fencing(app, cc, s.db.now, CommandRenewed)]
            && Leased(t.db, app, cc, s.db.now + LEASE_SECONDS)
  {
    var s1 := Next(1, s, ClaimApp(w));
    var s2 := Next(1, s1, ClaimCmd(w));
    Claims(s, w, latency);
    Stores(s2, w, Uuid(s.issued), Uuid(s.issued + 1), latency);
    hide Next, Timely, Leased, Claimable;
    var s3 := Next(1, s2, Call(w));
    var s4 := Next(1, s3, Store(w));
    var e5 := [Store(w)] + [];
    var e4 := [Store(w)] + e5;
    var e3 := [Call(w)] + e4;
    var e2 := [ClaimCmd(w)] + e3;
    RunStep(1, s4, Store(w), [], latency);
    RunStep(1, s3, Store(w), e5, latency);
    RunStep(1, s2, Call(w), e4, latency);
    RunStep(1, s1, ClaimCmd(w), e3, latency);
    RunStep(1, s, ClaimApp(w), e2, latency);
    es := [ClaimApp(w)] + e2;
  }

  lemma LateReply(s: State, app: Claim, cc: Claim, a: nat, latency: nat)
    requires a <= 285 && a <= latency
    requires s.db.now == 0 && s.workers == map[0 := Fencing(app, cc, 0, CommandRenewed)]
    ensures var s1 := Next(1, s, Tick(a));
            var s2 := Next(1, s1, Reply(0));
            var s3 := Next(1, s2, Tick(HEARTBEAT_SECONDS));
            && Timely(s, latency) && Timely(s1, latency) && Timely(s2, latency) && Timely(s3, latency)
            && s3 == State(s.db.(now := a + HEARTBEAT_SECONDS), map[0 := Asleep(app, cc, a, Awaited)], s.issued)
  {
    var s2 := Next(1, Next(1, s, Tick(a)), Reply(0));
    assert s2.workers == map[0 := Asleep(app, cc, a, Awaited)];
  }

  lemma LostLease(s: State, app: Claim, cc: Claim, a: nat, latency: nat)
    requires a <= 285 && 285 - a <= latency
    requires s.db.now == a + HEARTBEAT_SECONDS && s.workers == map[0 := Asleep(app, cc, a, Awaited)]
    requires Leased(s.db, app, cc, LEASE_SECONDS)
    ensures var s4 := Next(1, s, Call(0));
            var s5 := Next(1, s4, Tick(285 - a));
            var s6 := Next(1, s5, Reclaim(s.db.cmds[1], LEASE_SECONDS));
            && Timely(s4, latency) && Timely(s5, latency) && Timely(s6, latency)
            && s6.workers == map[0 := Beating(app, cc, a + HEARTBEAT_SECONDS, Started, Awaited)] && Claimable(s6.db)
  {
    var s4 := Next(1, s, Call(0));
    assert s4.workers == map[0 := Beating(app, cc, a + HEARTBEAT_SECONDS, Started, Awaited)];
  }

  /** The first reply is `a` seconds late; the next renewal is still on its way
      when the lease runs out. */
  lemma OverstayLease(s: State, app: Claim, cc: Claim, a: nat, latency: nat) returns (es: seq<Event>)
    requires a <= 285 && a <= latency && 285 - a <= latency
    requires s.db.now == 0 && s.workers == map[0 := Fencing(app, cc, 0, CommandRenewed)]
    requires Leased(s.db, app, cc, LEASE_SECONDS)
    ensures var t := Run(1, s, es);
            && TimelyRun(1, s, es, latency) && Runs(WorkerOf(t, 0)) && WorkerOf(t, 1).Off?
            && Timely(t, latency) && Claimable(t.db)
  {
    var seen := s.db.cmds[1];
    var s1 := Next(1, s, Tick(a));
    var s2 := Next(1, s1, Reply(0));
    var s3 := Next(1, s2, Tick(HEARTBEAT_SECONDS));
    LateReply(s, app, cc, a, latency);
    LostLease(s3, app, cc, a, latency);
    hide Next, Timely, Leased, Claimable;
    var s4 := Next(1, s3, Call(0));
    var s5 := Next(1, s4, Tick(285 - a));
    var e6 := [Reclaim(seen, LEASE_SECONDS)] + [];
    var e5 := [Tick(285 - a)] + e6;
    var e4 := [Call(0)] + e5;
    var e3 := [Tick(HEARTBEAT_SECONDS)] + e4;
    var e2 := [Reply(0)] + e3;
    RunStep(1, s5, Reclaim(seen, LEASE_SECONDS), [], latency);
    RunStep(1, s4, Tick(285 - a), e6, latency);
    RunStep(1, s3, Call(0), e5, latency);
    RunStep(1, s2, Tick(HEARTBEAT_SECONDS), e4, latency);
    RunStep(1, s1, Reply(0), e3, latency);
    RunStep(1, s, Tick(a), e2, latency);
    es := [Tick(a)] + e2;
  }

  /** As soon as the bound fails, two workers can run the effect together even
      though every renewal call is answered within `latency` and every
      heartbeat wakes on time. */
  lemma OverlapPossible(latency: nat) returns (es: seq<Event>)
    requires 2 * latency + HEARTBEAT_SECONDS >= LEASE_SECONDS
    ensures Init(1, Abandoned()) && TimelyRun(1, Abandoned(), es, latency)
    ensures !AtMostOneRuns(Run(1, Abandoned(), es))
  {
    AbandonedIsSound();
    AbandonedIsIdle(latency);
    hide Init, Abandoned;
    var s := Abandoned();
    var es1 := EnterFence(s, 0, latency);
    var s1 := Run(1, s, es1);
    var a := if latency <= 285 then latency else 285;
    var es2 := OverstayLease(s1, Uuid(0), Uuid(1), a, latency);
    var s2 := Run(1, s1, es2);
    var es3 := EnterFence(s2, 1, latency);
    var s3 := Run(1, s2, es3);
    TimelyEnd(1, s2, es3, latency);
    var s4 := Next(1, s3, Reply(1));
    ReplyRuns(s3, latency);
    hide Next, Timely, Leased, Claimable;
    RunStep(1, s3, Reply(1), [], latency);
    RunAppend(1, s2, es3, [Reply(1)] + [], latency);
    RunAppend(1, s1, es2, es3 + ([Reply(1)] + []), latency);
    RunAppend(1, s, es1, es2 + (es3 + ([Reply(1)] + [])), latency);
    es := es1 + (es2 + (es3 + ([Reply(1)] + [])));
  }

  lemma {:induction false} TimelyEnd(rev: nat, s: State, es: seq<Event>, latency: nat)
    requires TimelyRun(rev, s, es, latency)
    ensures Timely(Run(rev, s, es), latency)
    decreases |es|
  {
    if es != [] {
      TimelyEnd(rev, Next(rev, s, es[0]), es[1..], latency);
    }
  }

  lemma ReplyRuns(s: State, latency: nat)
    requires Timely(s, latency) && Runs(WorkerOf(s, 0))
    requires 1 in s.workers && s.workers[1].Fencing? && s.workers[1].renewal == CommandRenewed
    ensures Timely(Next(1, s, Reply(1)), latency) && !AtMostOneRuns(Next(1, s, Reply(1)))
  {
    var t := Next(1, s, Reply(1));
    assert t.workers == s.workers[1 := Asleep(s.workers[1].app, s.workers[1].cc, s.db.now, Awaited)];
    assert Runs(WorkerOf(t, 0)) && Runs(WorkerOf(t, 1));
  }

  /** Mutual exclusion of the effect holds for a renewal latency exactly when
      twice the latency plus one heartbeat is below the lease. A latency just
      under LEASE_SECONDS - HEARTBEAT_SECONDS is not enough. */
  lemma ExclusionBound(latency: nat)
    ensures 2 * latency + HEARTBEAT_SECONDS < LEASE_SECONDS <==>
            forall rev, s, es :: Init(rev, s) && TimelyRun(rev, s, es, latency) ==> AtMostOneRuns(Run(rev, s, es))
  {
    if 2 * latency + HEARTBEAT_SECONDS < LEASE_SECONDS {
      forall rev, s, es | Init(rev, s) && TimelyRun(rev, s, es, latency) ensures AtMostOneRuns(Run(rev, s, es)) {
        EffectExclusive(rev, s, es, latency);
      }
    } else {
      var es := OverlapPossible(latency);
    }
  }
}
