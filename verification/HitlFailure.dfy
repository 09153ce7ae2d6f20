/** What a failed application leaves behind: only a permanent failure ends the
    interaction; after any other one it can be claimed again at once. */
module HitlFailure {
  import opened HitlStore
  import opened HitlInvariant
  import opened HitlProtocol
  import opened HitlSafety
  import T = HitlTheorems
  import opened Wrappers

  // ----- FAILED needs a permanent failure

  /** A permanent failure, raised by a step or reported from outside. */
  predicate Permanent(e: Event) {
    || (e.Work? && e.action == Raise(ToFailed))
    || (e.LostReply? && (e.kind == ToFailed || e.action == Raise(ToFailed)))
    || e.FailUnclaimed? || e.FailClaimed?
  }

  /** The worker is not about to report a permanent failure. */
  predicate Retrying(pc: Pc) {
    pc.Failing? || pc.Abort? ==> pc.kind != ToFailed
  }

  predicate Unfailed(r: (Db, Pc)) {
    r.0.inter.status != Failed && Retrying(r.1)
  }

  lemma RecordingUnfailed(d: Db, pc: Pc, a: Action)
    requires d.inter.status != Failed && Recording(pc)
    ensures Batching(pc) ==> Unfailed(BatchStep(d, pc, a))
    ensures !Batching(pc) ==> Unfailed(RepairStep(d, pc, a))
  {
    hide LookupRef, Complete, Live;
  }

  lemma FinalizingUnfailed(d: Db, pc: Pc, a: Action)
    requires d.inter.status != Failed && Finalizing(pc)
    ensures Unfailed(FinalizeStep(d, pc, a))
  {
    hide RowsAccepted, RowLines;
  }

  lemma SupervisingUnfailed(d: Db, pc: Pc, a: Action)
    requires d.inter.status != Failed && Supervising(pc) && Retrying(pc)
    ensures Unfailed(SuperviseStep(d, pc, a))
  {
    hide ClaimCommandDoc, RenewCommandDoc, MarkCommandDoc;
  }

  lemma ExecUnfailed(cfg: Config, d: Db, pc: Pc, a: Action)
    requires d.inter.status != Failed && Retrying(pc) && a != Raise(ToFailed)
    ensures Unfailed(Exec(cfg, d, pc, a))
  {
    hide BatchStep, RepairStep, FinalizeStep, SuperviseStep;
    if a.Raise? || pc.Idle? {
    } else if Recording(pc) {
      RecordingUnfailed(d, pc, a);
    } else if Finalizing(pc) {
      FinalizingUnfailed(d, pc, a);
    } else if Supervising(pc) {
      SupervisingUnfailed(d, pc, a);
    }
  }

  ghost predicate NoneFailed(s: State) {
    s.db.inter.status != Failed && forall w :: w in s.pcs ==> Retrying(s.pcs[w])
  }

  lemma NextUnfailed(cfg: Config, s: State, e: Event)
    requires NoneFailed(s) && !Permanent(e)
    ensures NoneFailed(Next(cfg, s, e))
  {
    hide Exec, Unwind;
    if e.Work? || e.LostReply? {
      ExecUnfailed(cfg, s.db, PcOf(s, e.worker), e.action);
      if e.LostReply? {
        UnwindRetries(PcOf(s, e.worker), e.kind);
      }
    }
  }

  lemma UnwindRetries(pc: Pc, kind: Outcome)
    ensures kind != ToFailed ==> Retrying(Unwind(pc, kind))
  {
  }

  lemma {:induction false} RunUnfailed(cfg: Config, s: State, es: seq<Event>)
    requires Init(s) && forall k :: 0 <= k < |es| ==> !Permanent(es[k])
    ensures NoneFailed(Run(cfg, s, es))
    decreases |es|
  {
    if es != [] {
      hide Next, NoneFailed, Permanent;
      RunUnfailed(cfg, s, es[..|es| - 1]);
      NextUnfailed(cfg, Run(cfg, s, es[..|es| - 1]), es[|es| - 1]);
    }
  }

  /** A FAILED interaction has seen a permanent failure: refused fences, held
      commands, lost acknowledgements, incomplete projections and every other
      exception never end it. */
  lemma FailedNeedsPermanent(cfg: Config, s: State, es: seq<Event>)
    requires Init(s) && Run(cfg, s, es).db.inter.status == Failed
    ensures exists k :: 0 <= k < |es| && Permanent(es[k])
  {
    if forall k :: 0 <= k < |es| ==> !Permanent(es[k]) {
      RunUnfailed(cfg, s, es);
    }
  }

  // ----- a retryable failure

  /** The region in which the handlers of `apply_interaction` catch exceptions:
      from the second read of the rows to the end of the response projection. */
  predicate Handled(pc: Pc) {
    || (pc.ReadRows? && pc.stage != Check && pc.stage != Finalize(true))
    || ((pc.FinalizeRow? || pc.ProjectRow?) && !pc.replay)
    || pc.EmitResumed? || pc.MakeCommand? || pc.Inspect? || pc.Promote? || pc.Requeue? || pc.ClaimCmd?
    || pc.Fence? || pc.FenceCmd? || pc.Fenced? || pc.Running? || pc.Beating? || pc.EffectDone?
    || pc.RunAnswers? || pc.RunLost? || pc.Projecting?
  }

  /** Where the effect of a claimed command is guarded. */
  predicate Guarded(pc: Pc) {
    pc.Fence? || pc.FenceCmd? || pc.Fenced? || pc.Running? || pc.Beating?
  }

  function Steps(cfg: Config, t: State, w: nat, n: nat): State {
    if n == 0 then t else Next(cfg, Steps(cfg, t, w, n - 1), Work(w, Go))
  }

  /** What was answered is as it was. */
  predicate AnswersKept(d: Db, d': Db) {
    && d'.ids == d.ids && d'.rows == d.rows
    && d'.inter.refs == d.inter.refs && d'.inter.answerIds == d.inter.answerIds
    && d'.inter.revision == d.inter.revision && d'.inter.runProjection == d.inter.runProjection
  }

  /** A new claim succeeds at this moment, for an uncertain delivery once it has
      been resumed. */
  ghost predicate ClaimableAtOnce(d: Db) {
    forall claim, resumer :: ClaimableBy(d, resumer, claim)
  }

  predicate ClaimableBy(d: Db, resumer: Claim, claim: Claim) {
    ClaimApplication(ResumeUncertain(d, resumer).0, claim).1
  }

  /** The command a guarded worker had claimed can be claimed again at once. */
  ghost predicate CommandFreed(d: Db, pc: Pc, d': Db) {
    Guarded(pc) && pc.snap.revision in d.cmds && d.cmds[pc.snap.revision].status == Delivering
    && d.cmds[pc.snap.revision].claim == Some(pc.cc) ==>
      forall claim :: ClaimCommand(d', pc.snap.revision, claim).1
  }

  lemma FailingLeaves(cfg: Config, d: Db, pc: Pc, a: Action)
    requires pc.Failing? && pc.kind != ToFailed && !a.Raise? && HoldsApplication(d, pc.app)
    ensures var (d', pc') := Exec(cfg, d, pc, a);
      && pc'.Idle? && AnswersKept(d, d') && d'.cmds == d.cmds && d'.now == d.now && ClaimableAtOnce(d')
      && (d'.inter.status == DeliveryUncertain <==> pc.kind == ToUncertain)
  {
  }

  lemma AbortLeaves(cfg: Config, d: Db, pc: Pc, a: Action)
    requires pc.Abort? && !a.Raise?
    ensures var (d', pc') := Exec(cfg, d, pc, a);
      && pc' == Failing(pc.app, pc.kind) && AnswersKept(d, d') && d'.inter == d.inter && d'.now == d.now
      && (pc.snap.revision in d.cmds && d.cmds[pc.snap.revision].status == Delivering
          && d.cmds[pc.snap.revision].claim == Some(pc.cc) ==>
            forall claim :: ClaimCommand(d', pc.snap.revision, claim).1)
  {
  }

  /** An exception in the handled region whose kind is not a permanent failure,
      raised while the worker holds the application: at most two steps later the
      worker is done, the interaction can be claimed again at once, nothing of
      the answers is lost, and its command is free. */
  lemma FailureRetries(cfg: Config, t: State, w: nat, kind: Outcome) returns (n: nat)
    requires Handled(PcOf(t, w)) && kind != ToFailed && HoldsApplication(t.db, PcOf(t, w).app)
    ensures var pc := PcOf(t, w);
      var u := Steps(cfg, Next(cfg, t, Work(w, Raise(kind))), w, n);
      && n <= 2 && PcOf(u, w).Idle? && AnswersKept(t.db, u.db) && ClaimableAtOnce(u.db)
      && (u.db.inter.status == DeliveryUncertain <==> kind == ToUncertain)
      && CommandFreed(t.db, pc, u.db)
  {
    var pc := PcOf(t, w);
    var t1 := Next(cfg, t, Work(w, Raise(kind)));
    hide Next, Exec, Handled, ClaimableAtOnce, PcOf;
    Worked(cfg, t, w, Raise(kind));
    Raised(cfg, t.db, pc, kind);
    if Guarded(pc) {
      Worked(cfg, t1, w, Go);
      AbortLeaves(cfg, t1.db, PcOf(t1, w), Go);
      var t2 := Next(cfg, t1, Work(w, Go));
      assert t2 == Steps(cfg, t1, w, 1);
      Worked(cfg, t2, w, Go);
      FailingLeaves(cfg, t2.db, PcOf(t2, w), Go);
      FreedStays(t.db, pc, t2.db, Next(cfg, t2, Work(w, Go)).db);
      n := 2;
    } else {
      Worked(cfg, t1, w, Go);
      FailingLeaves(cfg, t1.db, PcOf(t1, w), Go);
      n := 1;
    }
  }

  lemma Worked(cfg: Config, t: State, w: nat, a: Action)
    ensures var t' := Next(cfg, t, Work(w, a)); (t'.db, PcOf(t', w)) == Exec(cfg, t.db, PcOf(t, w), a)
  {
    hide Exec;
  }

  lemma FreedStays(d: Db, pc: Pc, e: Db, e': Db)
    requires CommandFreed(d, pc, e) && e'.cmds == e.cmds && e'.now == e.now
    ensures CommandFreed(d, pc, e')
  {
    if Guarded(pc) {
      forall claim
        ensures ClaimCommand(e, pc.snap.revision, claim).1 == ClaimCommand(e', pc.snap.revision, claim).1
      {
      }
    }
  }

  lemma Raised(cfg: Config, d: Db, pc: Pc, kind: Outcome)
    requires Handled(pc)
    ensures Exec(cfg, d, pc, Raise(kind)).0 == d
    ensures Exec(cfg, d, pc, Raise(kind)).1
         == if Guarded(pc) then Abort(pc.app, pc.snap, pc.cc, kind) else Failing(pc.app, kind)
  {
  }

  // ----- a held application is never dropped

  /** Between the second read of the rows and the final mark. */
  predicate Applying0(pc: Pc) { Handled(pc) || pc.Abort? || pc.Failing? || pc.Finish? }

  /** The worker still has the same application in hand, or has just marked it:
      applied, free to be claimed again, uncertain or permanently failed. */
  ghost predicate NotDropped(d: Db, pc: Pc, r: (Db, Pc))
    requires Applying0(pc)
  {
    || (Applying0(r.1) && r.1.app == pc.app)
    || (r.1.Idle? && (HoldsApplication(d, pc.app) ==>
          || r.0.inter.status == Applied || ClaimableAtOnce(r.0)
          || (pc.Finish? && d.inter.runProjection != ProjectionApplied)
          || (pc.Failing? && pc.kind == ToFailed && r.0.inter.status == Failed)))
  }

  lemma ReadsNotDropped(d: Db, pc: Pc, a: Action)
    requires Finalizing(pc) && Applying0(pc)
    ensures NotDropped(d, pc, FinalizeStep(d, pc, a))
  {
    hide RowsAccepted, RowLines, RespondRow, SetProjected, ClaimableAtOnce, HoldsApplication;
  }

  lemma SupervisedNotDropped(d: Db, pc: Pc, a: Action)
    requires Supervising(pc) && Applying0(pc)
    ensures NotDropped(d, pc, SuperviseStep(d, pc, a))
  {
    hide CreateCommand, MarkCommand, ClaimCommand, RenewCommand, RenewApplication, ClaimableAtOnce, HoldsApplication;
  }

  lemma FinishedNotDropped(cfg: Config, d: Db, pc: Pc, a: Action)
    requires !Finalizing(pc) && !Supervising(pc) && Applying0(pc) && !a.Raise?
    ensures NotDropped(d, pc, FinishStep(cfg, d, pc, a))
  {
    hide ClaimProjection, MarkProjection;
  }

  /** In every step that is not an exception of the final mark, a worker that
      lets go of an application it holds has marked it first. */
  lemma HeldUntilMarked(cfg: Config, d: Db, pc: Pc, a: Action)
    requires Applying0(pc) && (a.Raise? ==> Handled(pc))
    ensures NotDropped(d, pc, Exec(cfg, d, pc, a))
  {
    if a.Raise? {
      Raised(cfg, d, pc, a.kind);
    } else {
      hide FinalizeStep, SuperviseStep, FinishStep, NotDropped, BatchStep, RepairStep;
      assert !Batching(pc) && !pc.Idle? && !pc.RepairRead? && !pc.RepairRow? && !pc.RepairLost?;
      hide Handled, Applying0;
      if Finalizing(pc) {
        ReadsNotDropped(d, pc, a);
      } else if Supervising(pc) {
        SupervisedNotDropped(d, pc, a);
      } else {
        FinishedNotDropped(cfg, d, pc, a);
      }
    }
  }
}
