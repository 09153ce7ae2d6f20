/** Recoverability: whatever crashed and wherever, an interaction whose answers
    are complete and which has not ended can still be driven to APPLIED.

    The lemmas follow one worker from its claim to the final mark, last step
    first; each says that the rest of the way is open from its control point. */
module HitlRecovery {
  import opened HitlStore
  import opened HitlInvariant
  import opened HitlProtocol
  import opened HitlSafety
  import opened HitlBatch
  import T = HitlTheorems
  import opened Wrappers

  /** The uuid drawn at every claim; which one it is makes no difference. */
  const TOKEN: Claim := Uuid(0)

  ghost predicate CanApply(cfg: Config, t: State) {
    exists es :: Run(cfg, t, es).db.inter.status == Applied
  }

  lemma {:induction false} RunCons(cfg: Config, t: State, e: Event, es: seq<Event>)
    ensures Run(cfg, t, [e] + es) == Run(cfg, Next(cfg, t, e), es)
    decreases |es|
  {
    hide Next;
    var all := [e] + es;
    if es == [] {
      assert all[..0] == [] && all == [e];
    } else {
      assert all[..|all| - 1] == [e] + es[..|es| - 1];
      RunCons(cfg, t, e, es[..|es| - 1]);
    }
  }

  /** One event towards the goal. */
  lemma Towards(cfg: Config, t: State, e: Event)
    requires CanApply(cfg, Next(cfg, t, e))
    ensures CanApply(cfg, t)
  {
    hide Next;
    var es :| Run(cfg, Next(cfg, t, e), es).db.inter.status == Applied;
    RunCons(cfg, t, e, es);
  }

  /** Worker 0 is at `pc` in a sound state and holds the application. */
  ghost predicate Driving(t: State, pc: Pc, app: Claim) {
    Inv(t) && PcOf(t, 0) == pc && HoldsApplication(t.db, app)
  }

  /** The run projection can be claimed, or the claimed document shows it done. */
  predicate RunOpen(d: Db, snap: Interaction) {
    if snap.runProjection == ProjectionApplied then d.inter.runProjection == ProjectionApplied
    else d.inter.runProjection == ProjectionPending || d.inter.runProjection == ProjectionFailed
         || (d.inter.runProjection == ProjectionApplying && d.inter.runLease.Some? && d.inter.runLease.value <= d.now)
  }

  predicate CommandOpen(c: Command, now: nat) {
    || Settled(c)
    || ((c.status == CommandPending || c.status == RetryableError) && Lapsed(c.nextAttempt, now))
  }

  predicate JournalOpen(d: Db) {
    d.inter.revision in d.cmds ==> CommandOpen(d.cmds[d.inter.revision], d.now)
  }

  function Drive(cfg: Config, t: State, a: Action): State {
    Next(cfg, t, Work(0, a))
  }

  lemma Driven(cfg: Config, t: State, a: Action)
    requires Inv(t)
    ensures Inv(Drive(cfg, t, a))
    ensures Drive(cfg, t, a).db == Exec(cfg, t.db, PcOf(t, 0), a).0
    ensures PcOf(Drive(cfg, t, a), 0) == Exec(cfg, t.db, PcOf(t, 0), a).1
  {
    hide Inv, Exec;
    NextSafe(cfg, t, Work(0, a));
  }

  // ----- the last steps

  lemma FromFinish(cfg: Config, t: State, app: Claim, snap: Interaction)
    requires Driving(t, Finish(app, snap), app) && t.db.inter.runProjection == ProjectionApplied
    ensures CanApply(cfg, t)
  {
    hide Inv, Next;
    var t' := Drive(cfg, t, Go);
    Driven(cfg, t, Go);
    assert Run(cfg, t', []).db.inter.status == Applied;
    Towards(cfg, t, Work(0, Go));
  }

  lemma FromProjecting(cfg: Config, t: State, app: Claim, snap: Interaction, rc: Claim)
    requires Driving(t, Projecting(app, snap, rc), app)
    requires t.db.inter.runProjection == ProjectionApplying && t.db.inter.runClaim == Some(rc)
    ensures CanApply(cfg, t)
  {
    hide Inv, Next;
    Driven(cfg, t, External(true));
    FromFinish(cfg, Drive(cfg, t, External(true)), app, snap);
    Towards(cfg, t, Work(0, External(true)));
  }

  lemma FromRunAnswers(cfg: Config, t: State, app: Claim, snap: Interaction)
    requires cfg.projectorBound && Driving(t, RunAnswers(app, snap), app)
    requires RunOpen(t.db, snap) && t.db.inter.revision == snap.revision
    ensures CanApply(cfg, t)
  {
    hide Inv, Next;
    var a := GoWith(TOKEN);
    Driven(cfg, t, a);
    if snap.runProjection == ProjectionApplied {
      FromFinish(cfg, Drive(cfg, t, a), app, snap);
    } else {
      FromProjecting(cfg, Drive(cfg, t, a), app, snap, TOKEN);
    }
    Towards(cfg, t, Work(0, a));
  }

  // ----- the command and its effect

  /** The command of the claimed revision has this status, under this claim. */
  predicate CommandAt(d: Db, snap: Interaction, status: CommandStatus, claim: Option<Claim>) {
    && d.inter.revision == snap.revision && snap.revision in d.cmds
    && d.cmds[snap.revision].status == status && (claim.Some? ==> d.cmds[snap.revision].claim == claim)
  }

  lemma FromPromote(cfg: Config, t: State, app: Claim, snap: Interaction)
    requires cfg.projectorBound && Driving(t, Promote(app, snap), app)
    requires RunOpen(t.db, snap) && CommandAt(t.db, snap, Acknowledged, None)
    ensures CanApply(cfg, t)
  {
    hide Inv, Next;
    Driven(cfg, t, Go);
    FromRunAnswers(cfg, Drive(cfg, t, Go), app, snap);
    Towards(cfg, t, Work(0, Go));
  }

  lemma FromEffectDone(cfg: Config, t: State, app: Claim, snap: Interaction, cc: Claim)
    requires cfg.projectorBound && Driving(t, EffectDone(app, snap, cc), app)
    requires RunOpen(t.db, snap) && CommandAt(t.db, snap, Delivering, Some(cc))
    ensures CanApply(cfg, t)
  {
    hide Inv, Next;
    Driven(cfg, t, Go);
    FromPromote(cfg, Drive(cfg, t, Go), app, snap);
    Towards(cfg, t, Work(0, Go));
  }

  lemma FromRunning(cfg: Config, t: State, app: Claim, snap: Interaction, cc: Claim)
    requires cfg.projectorBound && Driving(t, Running(app, snap, cc), app)
    requires RunOpen(t.db, snap) && CommandAt(t.db, snap, Delivering, Some(cc))
    ensures CanApply(cfg, t)
  {
    hide Inv, Next;
    Driven(cfg, t, External(true));
    FromEffectDone(cfg, Drive(cfg, t, External(true)), app, snap, cc);
    Towards(cfg, t, Work(0, External(true)));
  }

  lemma FromFenced(cfg: Config, t: State, app: Claim, snap: Interaction, cc: Claim)
    requires cfg.projectorBound && Driving(t, Fenced(app, snap, cc), app)
    requires RunOpen(t.db, snap) && CommandAt(t.db, snap, Delivering, Some(cc))
    ensures CanApply(cfg, t)
  {
    hide Inv, Next;
    Driven(cfg, t, Go);
    FromRunning(cfg, Drive(cfg, t, Go), app, snap, cc);
    Towards(cfg, t, Work(0, Go));
  }

  lemma FromFenceCmd(cfg: Config, t: State, app: Claim, snap: Interaction, cc: Claim)
    requires cfg.projectorBound && Driving(t, FenceCmd(app, snap, cc), app)
    requires RunOpen(t.db, snap) && CommandAt(t.db, snap, Delivering, Some(cc))
    ensures CanApply(cfg, t)
  {
    hide Inv, Next;
    Driven(cfg, t, Go);
    FromFenced(cfg, Drive(cfg, t, Go), app, snap, cc);
    Towards(cfg, t, Work(0, Go));
  }

  lemma FromFence(cfg: Config, t: State, app: Claim, snap: Interaction, cc: Claim)
    requires cfg.projectorBound && Driving(t, Fence(app, snap, cc), app)
    requires RunOpen(t.db, snap) && CommandAt(t.db, snap, Delivering, Some(cc))
    ensures CanApply(cfg, t)
  {
    hide Inv, Next;
    Driven(cfg, t, Go);
    FromFenceCmd(cfg, Drive(cfg, t, Go), app, snap, cc);
    Towards(cfg, t, Work(0, Go));
  }

  lemma FromClaimCmd(cfg: Config, t: State, app: Claim, snap: Interaction)
    requires cfg.projectorBound && Driving(t, ClaimCmd(app, snap), app)
    requires RunOpen(t.db, snap) && t.db.inter.revision == snap.revision && snap.revision in t.db.cmds
    requires CommandOpen(t.db.cmds[snap.revision], t.db.now) && !Settled(t.db.cmds[snap.revision])
    ensures CanApply(cfg, t)
  {
    hide Inv, Next;
    var a := GoWith(TOKEN);
    Driven(cfg, t, a);
    FromFence(cfg, Drive(cfg, t, a), app, snap, TOKEN);
    Towards(cfg, t, Work(0, a));
  }

  lemma FromInspect(cfg: Config, t: State, app: Claim, snap: Interaction, seen: CommandStatus)
    requires cfg.projectorBound && Driving(t, Inspect(app, snap, seen), app)
    requires RunOpen(t.db, snap) && CommandAt(t.db, snap, seen, None)
    requires CommandOpen(t.db.cmds[snap.revision], t.db.now)
    ensures CanApply(cfg, t)
  {
    hide Inv, Next;
    Driven(cfg, t, Go);
    var t' := Drive(cfg, t, Go);
    if seen == Acknowledged {
      FromPromote(cfg, t', app, snap);
    } else if seen == Projected {
      FromRunAnswers(cfg, t', app, snap);
    } else {
      FromClaimCmd(cfg, t', app, snap);
    }
    Towards(cfg, t, Work(0, Go));
  }

  lemma FromMakeCommand(cfg: Config, t: State, app: Claim, snap: Interaction, digest: Digest)
    requires cfg.projectorBound && Driving(t, MakeCommand(app, snap, digest), app)
    requires RunOpen(t.db, snap) && JournalOpen(t.db) && t.db.inter.revision == snap.revision
    ensures CanApply(cfg, t)
  {
    KnownDigest(t, digest);
    CreateCommandGood(t.db, digest);
    MakeCommandExec(cfg, t.db, app, snap, digest);
    hide Inv, LocalInv, DbInv, Evolves, Next, Exec;
    Driven(cfg, t, Go);
    var t' := Drive(cfg, t, Go);
    FromInspect(cfg, t', app, snap, t'.db.cmds[snap.revision].status);
    Towards(cfg, t, Work(0, Go));
  }

  lemma MakeCommandExec(cfg: Config, d: Db, app: Claim, snap: Interaction, digest: Digest)
    requires CreateCommand(d, snap.revision, d.ids, digest).1.Some?
    ensures var (d', c) := CreateCommand(d, snap.revision, d.ids, digest);
            Exec(cfg, d, MakeCommand(app, snap, digest), Go) == (d', Inspect(app, snap, c.value.status))
  {
  }

  lemma KnownDigest(t: State, digest: Digest)
    requires Inv(t) && PcOf(t, 0).MakeCommand? && PcOf(t, 0).digest == digest
    ensures DbInv(t.db) && Started(t.db.inter.status) && Answered(t.db)
    ensures digest == OfAnswers(Lines(t.db.ids, t.db.rows))
  {
    IdleKnown(t, 0);
  }

  // ----- reading the members

  ghost predicate Exact(d: Db, got: seq<Row>) {
    |got| <= |d.ids| && forall k :: 0 <= k < |got| ==> d.ids[k] in d.rows && got[k] == d.rows[d.ids[k]]
  }

  /** Without interference `_request_rows` accepts what it reads. */
  lemma ExactAccepted(d: Db, snap: Interaction, got: seq<Row>)
    requires DbInv(d) && Claimed(d, snap) && Exact(d, got) && |got| == |d.ids|
    ensures RowsAccepted(d.ids, snap.refs, got)
  {
    CompleteAnswered(d);
    forall k | 0 <= k < |d.ids|
      ensures got[k].userInput.Some? && got[k].answerDigest == Some(OfText(got[k].userInput.value))
      ensures LookupRef(snap.refs, d.ids[k]) == got[k].answerDigest
    {
      assert RowOk(d.rows[d.ids[k]]);
      assert d.ids[k] in d.inter.answerIds;
      var j :| 0 <= j < |d.inter.answerIds| && d.inter.answerIds[j] == d.ids[k];
      assert d.inter.refs[j].0 == d.ids[k];
      T.LookupMatches(snap.refs, d.rows, d.ids[k]);
    }
  }

  ghost predicate Reading(t: State, app: Claim, snap: Interaction, stage: Stage, got: seq<Row>) {
    && Driving(t, ReadRows(app, snap, stage, got), app) && Exact(t.db, got)
    && RunOpen(t.db, snap) && JournalOpen(t.db)
  }

  lemma ReadingFacts(t: State, app: Claim, snap: Interaction, stage: Stage, got: seq<Row>)
    requires Reading(t, app, snap, stage, got)
    ensures DbInv(t.db) && Claimed(t.db, snap) && t.db.inter.revision == snap.revision
    ensures |got| < |t.db.ids| ==> t.db.ids[|got|] in t.db.rows
    ensures |got| == |t.db.ids| ==> RowsAccepted(t.db.ids, snap.refs, got)
  {
    IdleKnown(t, 0);
    if |got| == |t.db.ids| {
      ExactAccepted(t.db, snap, got);
    } else {
      assert t.db.ids[|got|] in t.db.ids;
    }
  }

  /** One read, before the last. */
  lemma ReadOne(cfg: Config, t: State, app: Claim, snap: Interaction, stage: Stage, got: seq<Row>)
    requires Reading(t, app, snap, stage, got) && |got| < |t.db.ids|
    ensures t.db.ids[|got|] in t.db.rows
    ensures Reading(Drive(cfg, t, Go), app, snap, stage, got + [t.db.rows[t.db.ids[|got|]]])
    ensures Drive(cfg, t, Go).db == t.db
  {
    ReadingFacts(t, app, snap, stage, got);
    ExactNext(t.db, got);
    hide Inv, DbInv, Next, Exec, Exact, RunOpen, JournalOpen;
    Driven(cfg, t, Go);
    ReadExec(cfg, t.db, app, snap, stage, got);
  }

  lemma ExactNext(d: Db, got: seq<Row>)
    requires Exact(d, got) && |got| < |d.ids| && d.ids[|got|] in d.rows
    ensures Exact(d, got + [d.rows[d.ids[|got|]]])
  {
  }

  lemma ReadExec(cfg: Config, d: Db, app: Claim, snap: Interaction, stage: Stage, got: seq<Row>)
    requires |got| < |d.ids| && d.ids[|got|] in d.rows
    ensures Exec(cfg, d, ReadRows(app, snap, stage, got), Go)
         == (d, ReadRows(app, snap, stage, got + [d.rows[d.ids[|got|]]]))
  {
  }

  lemma FromSupervise(cfg: Config, t: State, app: Claim, snap: Interaction, got: seq<Row>)
    requires cfg.projectorBound && Reading(t, app, snap, Supervise, got)
    ensures CanApply(cfg, t)
    decreases |t.db.ids| - |got|
  {
    ReadingFacts(t, app, snap, Supervise, got);
    hide Inv, DbInv, Claimed, RowsAccepted, Next;
    if |got| < |t.db.ids| {
      ReadOne(cfg, t, app, snap, Supervise, got);
      FromSupervise(cfg, Drive(cfg, t, Go), app, snap, got + [t.db.rows[t.db.ids[|got|]]]);
      Towards(cfg, t, Work(0, Go));
    } else {
      SuperviseRead(cfg, t, app, snap, got);
    }
  }

  /** The last member read for the command digest. */
  lemma SuperviseRead(cfg: Config, t: State, app: Claim, snap: Interaction, got: seq<Row>)
    requires cfg.projectorBound && Reading(t, app, snap, Supervise, got) && |got| == |t.db.ids|
    ensures CanApply(cfg, t)
  {
    ReadingFacts(t, app, snap, Supervise, got);
    AcceptedLines(t.db.ids, snap.refs, got);
    SuperviseExec(cfg, t.db, app, snap, got);
    hide Inv, DbInv, Claimed, RowsAccepted, Next, Exec;
    Driven(cfg, t, Go);
    FromMakeCommand(cfg, Drive(cfg, t, Go), app, snap, OfAnswers(RowLines(t.db.ids, got)));
    Towards(cfg, t, Work(0, Go));
  }

  lemma SuperviseExec(cfg: Config, d: Db, app: Claim, snap: Interaction, got: seq<Row>)
    requires RowsAccepted(d.ids, snap.refs, got)
    ensures |got| == |d.ids| && forall k :: 0 <= k < |got| ==> got[k].answerDigest.Some?
    ensures Exec(cfg, d, ReadRows(app, snap, Supervise, got), Go)
         == (d, MakeCommand(app, snap, OfAnswers(RowLines(d.ids, got))))
  {
    AcceptedLines(d.ids, snap.refs, got);
    assert |got| == |d.ids|;
    hide RowsAccepted;
  }

  lemma AcceptedLines(ids: seq<RequestId>, refs: seq<(RequestId, Digest)>, rows: seq<Row>)
    requires RowsAccepted(ids, refs, rows)
    ensures |rows| == |ids| && forall k :: 0 <= k < |rows| ==> rows[k].answerDigest.Some?
  {
  }

  // ----- finalizing the members

  ghost predicate Unfinished(d: Db, rows: seq<Row>, k: nat) {
    && |rows| == |d.ids| && k <= |d.ids| && Distinct(d.ids)
    && forall j :: k <= j < |rows| ==>
         && d.ids[j] in d.rows && rows[j] == d.rows[d.ids[j]]
         && (rows[j].status == AnswerRecorded || rows[j].status == Responded)
  }

  lemma UnfinishedNext(d: Db, d': Db, rows: seq<Row>, k: nat)
    requires Unfinished(d, rows, k) && k < |d.ids| && d'.ids == d.ids
    requires forall x :: x in d.rows && x != d.ids[k] ==> x in d'.rows && d'.rows[x] == d.rows[x]
    ensures Unfinished(d', rows, k + 1)
  {
  }

  ghost predicate Finalizing0(t: State, app: Claim, snap: Interaction) {
    && Inv(t) && HoldsApplication(t.db, app) && RunOpen(t.db, snap) && JournalOpen(t.db)
  }

  lemma FromProjectRow(cfg: Config, t: State, app: Claim, snap: Interaction, rows: seq<Row>, k: nat)
    requires cfg.projectorBound && Finalizing0(t, app, snap)
    requires PcOf(t, 0) == ProjectRow(app, snap, rows, k, true, false)
    requires k < |t.db.ids| && Unfinished(t.db, rows, k + 1) && t.db.ids[k] in t.db.rows
    ensures CanApply(cfg, t)
    decreases |t.db.ids| - k, 0
  {
    var a := External(true);
    hide Inv, Next;
    Driven(cfg, t, a);
    var t' := Drive(cfg, t, a);
    assert Unfinished(t'.db, rows, k + 1);
    FromFinalizeRow(cfg, t', app, snap, rows, k + 1);
    Towards(cfg, t, Work(0, a));
  }

  lemma FromFinalizeRow(cfg: Config, t: State, app: Claim, snap: Interaction, rows: seq<Row>, k: nat)
    requires cfg.projectorBound && Finalizing0(t, app, snap)
    requires PcOf(t, 0) == FinalizeRow(app, snap, rows, k, true, false) && Unfinished(t.db, rows, k)
    ensures CanApply(cfg, t)
    decreases |t.db.ids| - k, 1
  {
    hide Inv, Next;
    Driven(cfg, t, Go);
    var t' := Drive(cfg, t, Go);
    if k == |t.db.ids| {
      FromEmitResumed(cfg, t', app, snap);
    } else {
      UnfinishedNext(t.db, t'.db, rows, k);
      if rows[k].status == Responded && rows[k].projected {
        FromFinalizeRow(cfg, t', app, snap, rows, k + 1);
      } else {
        FromProjectRow(cfg, t', app, snap, rows, k);
      }
    }
    Towards(cfg, t, Work(0, Go));
  }

  lemma FromEmitResumed(cfg: Config, t: State, app: Claim, snap: Interaction)
    requires cfg.projectorBound && Finalizing0(t, app, snap) && PcOf(t, 0) == EmitResumed(app, snap)
    ensures CanApply(cfg, t)
  {
    hide Inv, Next;
    Driven(cfg, t, Go);
    FromSupervise(cfg, Drive(cfg, t, Go), app, snap, []);
    Towards(cfg, t, Work(0, Go));
  }

  /** In an interaction that has not ended every answered row is one the
      finalization loop can finish. */
  lemma ReadUnfinished(d: Db, snap: Interaction, got: seq<Row>)
    requires DbInv(d) && d.inter.status == Applying && Claimed(d, snap) && Exact(d, got) && |got| == |d.ids|
    ensures Unfinished(d, got, 0)
  {
    CompleteAnswered(d);
    forall j | 0 <= j < |got| ensures got[j].status == AnswerRecorded || got[j].status == Responded {
      assert RowOk(d.rows[d.ids[j]]) && !RowTerminal(d.rows[d.ids[j]]);
    }
  }

  lemma FromFinalizeRead(cfg: Config, t: State, app: Claim, snap: Interaction, got: seq<Row>)
    requires cfg.projectorBound && Reading(t, app, snap, Finalize(false), got)
    ensures CanApply(cfg, t)
    decreases |t.db.ids| - |got|
  {
    ReadingFacts(t, app, snap, Finalize(false), got);
    hide Inv, DbInv, Claimed, RowsAccepted, Next;
    if |got| < |t.db.ids| {
      ReadOne(cfg, t, app, snap, Finalize(false), got);
      FromFinalizeRead(cfg, Drive(cfg, t, Go), app, snap, got + [t.db.rows[t.db.ids[|got|]]]);
      Towards(cfg, t, Work(0, Go));
    } else {
      FinalizeReadAll(cfg, t, app, snap, got);
    }
  }

  lemma FinalizeReadAll(cfg: Config, t: State, app: Claim, snap: Interaction, got: seq<Row>)
    requires cfg.projectorBound && Reading(t, app, snap, Finalize(false), got) && |got| == |t.db.ids|
    ensures CanApply(cfg, t)
  {
    ReadingFacts(t, app, snap, Finalize(false), got);
    hide Inv, DbInv, Claimed, RowsAccepted, Next;
    ReadUnfinished(t.db, snap, got);
    Driven(cfg, t, Go);
    FromFinalizeRow(cfg, Drive(cfg, t, Go), app, snap, got, 0);
    Towards(cfg, t, Work(0, Go));
  }

  lemma FromCheck(cfg: Config, t: State, app: Claim, snap: Interaction, got: seq<Row>)
    requires cfg.projectorBound && Reading(t, app, snap, Check, got)
    ensures CanApply(cfg, t)
    decreases |t.db.ids| - |got|
  {
    ReadingFacts(t, app, snap, Check, got);
    hide Inv, DbInv, Claimed, RowsAccepted, Next;
    if |got| < |t.db.ids| {
      ReadOne(cfg, t, app, snap, Check, got);
      FromCheck(cfg, Drive(cfg, t, Go), app, snap, got + [t.db.rows[t.db.ids[|got|]]]);
      Towards(cfg, t, Work(0, Go));
    } else {
      CheckReadAll(cfg, t, app, snap, got);
    }
  }

  lemma CheckReadAll(cfg: Config, t: State, app: Claim, snap: Interaction, got: seq<Row>)
    requires cfg.projectorBound && Reading(t, app, snap, Check, got) && |got| == |t.db.ids|
    ensures CanApply(cfg, t)
  {
    ReadingFacts(t, app, snap, Check, got);
    CheckExec(cfg, t.db, app, snap, got);
    hide Inv, DbInv, Claimed, RowsAccepted, Next, Exec;
    Driven(cfg, t, Go);
    FromFinalizeRead(cfg, Drive(cfg, t, Go), app, snap, []);
    Towards(cfg, t, Work(0, Go));
  }

  lemma CheckExec(cfg: Config, d: Db, app: Claim, snap: Interaction, got: seq<Row>)
    requires RowsAccepted(d.ids, snap.refs, got) && |got| == |d.ids|
    ensures Exec(cfg, d, ReadRows(app, snap, Check, got), Go) == (d, ReadRows(app, snap, Finalize(false), []))
  {
    NoAnswerMissing(d.ids, snap.refs, got);
    hide RowsAccepted;
  }

  // ----- from anywhere

  predicate RunLapsed(d: Db) {
    d.inter.runProjection == ProjectionApplying ==> d.inter.runLease.Some? && d.inter.runLease.value <= d.now
  }

  lemma FromClaimable(cfg: Config, t: State)
    requires cfg.projectorBound && Inv(t) && PcOf(t, 0).Idle?
    requires t.db.inter.status == AnswersRecorded
          || (t.db.inter.status == Applying && Lapsed(t.db.inter.lease, t.db.now))
    requires JournalOpen(t.db) && RunLapsed(t.db)
    requires t.db.inter.status == AnswersRecorded ==> t.db.cmds == map[]
    ensures CanApply(cfg, t)
  {
    hide Inv, Next;
    var a := StartApply(TOKEN);
    Driven(cfg, t, a);
    var t' := Drive(cfg, t, a);
    FromCheck(cfg, t', TOKEN, t'.db.inter, []);
    Towards(cfg, t, Work(0, a));
  }

  lemma EnvDriven(cfg: Config, t: State, e: Event)
    requires Inv(t) && !e.Work? && !e.LostReply? && !e.Crash?
    ensures Next(cfg, t, e) == t.(db := EnvStep(t.db, e)) && Inv(Next(cfg, t, e))
  {
    hide Inv, EnvStep;
    NextSafe(cfg, t, e);
  }

  /** All leases and retry delays have run out. */
  predicate Quiet(d: Db) {
    && Lapsed(d.inter.lease, d.now) && RunLapsed(d)
    && (d.inter.revision in d.cmds ==>
          && Lapsed(d.cmds[d.inter.revision].lease, d.now) && Lapsed(d.cmds[d.inter.revision].nextAttempt, d.now))
  }

  lemma FromQuiet(cfg: Config, t: State)
    requires cfg.projectorBound && Inv(t) && PcOf(t, 0).Idle?
    requires t.db.inter.status == AnswersRecorded || t.db.inter.status == Applying
    requires Quiet(t.db)
    ensures CanApply(cfg, t)
  {
    var rev := t.db.inter.revision;
    if t.db.inter.status == AnswersRecorded {
      NoCommandYet(t.db);
      FromClaimable(cfg, t);
    } else if rev !in t.db.cmds || CommandOpen(t.db.cmds[rev], t.db.now) {
      FromClaimable(cfg, t);
    } else {
      FromHeldCommand(cfg, t);
    }
  }

  /** The command is not open: its lapsed claim is taken back, or it is
      requeued, and then the interaction can be claimed. */
  lemma FromHeldCommand(cfg: Config, t: State)
    requires cfg.projectorBound && Inv(t) && PcOf(t, 0).Idle? && t.db.inter.status == Applying && Quiet(t.db)
    requires t.db.inter.revision in t.db.cmds && !CommandOpen(t.db.cmds[t.db.inter.revision], t.db.now)
    ensures CanApply(cfg, t)
  {
    var rev := t.db.inter.revision;
    var c := t.db.cmds[rev];
    var e := if c.status == Delivering then Reclaim(rev, c, t.db.now) else RequeueUncertain(rev);
    HeldCommandOpens(t.db);
    hide Inv, Next, EnvStep, Quiet;
    EnvDriven(cfg, t, e);
    FromClaimable(cfg, Next(cfg, t, e));
    Towards(cfg, t, e);
  }

  lemma HeldCommandOpens(d: Db)
    requires DbInv(d) && Quiet(d) && d.inter.revision in d.cmds && !CommandOpen(d.cmds[d.inter.revision], d.now)
    ensures var rev := d.inter.revision;
            var c := d.cmds[rev];
            var d' := EnvStep(d, if c.status == Delivering then Reclaim(rev, c, d.now) else RequeueUncertain(rev));
            d'.inter == d.inter && d'.now == d.now && JournalOpen(d') && RunLapsed(d)
  {
    assert CommandOk(d, d.cmds[d.inter.revision]);
  }

  function Deadline(o: Option<nat>): nat {
    if o.Some? then o.value else 0
  }

  /** Long enough for every lease and delay in the database to run out. */
  function Patience(d: Db): nat {
    Deadline(d.inter.lease) + Deadline(d.inter.runLease)
    + if d.inter.revision in d.cmds
      then Deadline(d.cmds[d.inter.revision].lease) + Deadline(d.cmds[d.inter.revision].nextAttempt) else 0
  }

  lemma FromIdle(cfg: Config, t: State)
    requires cfg.projectorBound && Inv(t) && PcOf(t, 0).Idle?
    requires t.db.inter.status == AnswersRecorded || t.db.inter.status == Applying
    ensures CanApply(cfg, t)
  {
    var e := Tick(Patience(t.db));
    assert StatusOk(t.db);
    hide Inv, Next;
    EnvDriven(cfg, t, e);
    FromQuiet(cfg, Next(cfg, t, e));
    Towards(cfg, t, e);
  }

  /** From every reachable state, whichever workers are where and whatever they
      hold, an interaction with complete answers that has not ended can still
      reach APPLIED, given a bound projector. */
  lemma AlwaysRecoverable(cfg: Config, s: State, es: seq<Event>)
    requires cfg.projectorBound && Init(s)
    requires Run(cfg, s, es).db.inter.status in {AnswersRecorded, Applying, DeliveryUncertain}
    ensures CanApply(cfg, Run(cfg, s, es))
  {
    RunInv(cfg, s, es);
    FromAnywhere(cfg, Run(cfg, s, es));
  }

  lemma FromAnywhere(cfg: Config, t: State)
    requires cfg.projectorBound && Inv(t) && t.db.inter.status in {AnswersRecorded, Applying, DeliveryUncertain}
    ensures CanApply(cfg, t)
  {
    hide Inv, Exec;
    NextSafe(cfg, t, Crash(0));
    var t1 := Next(cfg, t, Crash(0));
    if t.db.inter.status == DeliveryUncertain {
      FromUncertain(cfg, t1);
    } else {
      FromIdle(cfg, t1);
    }
    Towards(cfg, t, Crash(0));
  }

  lemma FromUncertain(cfg: Config, t: State)
    requires cfg.projectorBound && Inv(t) && PcOf(t, 0).Idle? && t.db.inter.status == DeliveryUncertain
    ensures CanApply(cfg, t)
  {
    hide Inv, Next;
    EnvDriven(cfg, t, Resume(OrphanRecovery));
    FromIdle(cfg, Next(cfg, t, Resume(OrphanRecovery)));
    Towards(cfg, t, Resume(OrphanRecovery));
  }

  // ----- resubmitting a recorded batch

  /** The interaction takes submissions: it has not ended and its deadline lies
      ahead. */
  predicate StillOpen(d: Db) { !Ended(d.inter.status) && Live(d.inter.expiresAt, d.now) }

  /** Left alone, a worker whose batch is recorded already gets through. */
  lemma GetsThrough(cfg: Config, t: State, w: nat) returns (es: seq<Event>)
    requires Inv(t) && BatchesInv(t) && Batching(PcOf(t, w))
    requires Recorded(t.db, PcOf(t, w).answers, |t.db.ids|) && StillOpen(t.db)
    ensures var u := Run(cfg, t, es);
            u.db == t.db && Through(u.db, PcOf(u, w)) && PcOf(u, w).answers == PcOf(t, w).answers
    decreases Left(|t.db.ids|, PcOf(t, w))
  {
    if Through(t.db, PcOf(t, w)) {
      es := [];
    } else {
      var t' := Next(cfg, t, Work(w, Go));
      RecordedStep(cfg, t, w);
      var rest := GetsThrough(cfg, t', w);
      RunCons(cfg, t, Work(w, Go), rest);
      es := [Work(w, Go)] + rest;
    }
  }

  lemma RecordedStep(cfg: Config, t: State, w: nat)
    requires Inv(t) && BatchesInv(t) && Batching(PcOf(t, w))
    requires Recorded(t.db, PcOf(t, w).answers, |t.db.ids|) && StillOpen(t.db) && !Through(t.db, PcOf(t, w))
    ensures var t' := Next(cfg, t, Work(w, Go));
            Inv(t') && BatchesInv(t') && t'.db == t.db && GoesOn(t.db, PcOf(t, w), PcOf(t', w))
  {
    IdleKnown(t, w);
    assert BatchInv(t.db, PcOf(t, w)) && RecordingInv(t.db, PcOf(t, w));
    hide Inv, BatchesInv, BatchInv, RecordingInv, LocalInv, Recorded, GoesOn, Exec, BatchStep, Batching;
    NextSafe(cfg, t, Work(w, Go));
    BatchesKept(cfg, t, Work(w, Go));
    ExecBatch(cfg, t.db, PcOf(t, w), Go);
    assert DbInv(t.db) by { InvDb(t); }
    if !PcOf(t, w).BatchRead? {
      RowLength(t.db, PcOf(t, w));
    }
    RecordedChangesNothing(t.db, PcOf(t, w), Go);
    RecordedGoesOn(t.db, PcOf(t, w), Go);
  }

  lemma InvDb(t: State)
    requires Inv(t)
    ensures DbInv(t.db)
  {
  }

  /** After a batch got through, an idle worker of any later state of the open
      interaction can submit the same answers and get through too, with the store
      as it was. */
  lemma ResubmissionSucceeds(cfg: Config, s: State, es: seq<Event>, i: nat, v: nat, w: nat) returns (more: seq<Event>)
    requires Init(s) && i <= |es| && Through(T.At(cfg, s, es, i).db, PcOf(T.At(cfg, s, es, i), v))
    requires PcOf(Run(cfg, s, es), w).Idle? && StillOpen(Run(cfg, s, es).db)
    ensures var t, answers := Run(cfg, s, es), PcOf(T.At(cfg, s, es, i), v).answers;
            var u := Run(cfg, t, more);
            u.db == t.db && Through(u.db, PcOf(u, w)) && PcOf(u, w).answers == answers
  {
    var t, answers := Run(cfg, s, es), PcOf(T.At(cfg, s, es, i), v).answers;
    var e := Work(w, StartBatch(answers));
    assert es[..|es|] == es;
    T.ThroughIsRecorded(cfg, s, es, i, v);
    T.StaysRecorded(cfg, s, es, i, v, |es|);
    T.SameMembers(cfg, s, es, i);
    T.SameMembers(cfg, s, es, |es|);
    RunInv(cfg, s, es);
    RunBatches(cfg, s, es);
    hide Inv, BatchesInv, Recorded, DbInv, Complete, Run, T.At;
    StartsBatch(cfg, t, w, answers);
    var t' := Next(cfg, t, e);
    var rest := GetsThrough(cfg, t', w);
    RunCons(cfg, t, e, rest);
    more := [e] + rest;
  }

  lemma StartsBatch(cfg: Config, t: State, w: nat, answers: map<RequestId, string>)
    requires Inv(t) && BatchesInv(t) && PcOf(t, w).Idle? && Whole(t.db.ids, answers) && !Ended(t.db.inter.status)
    ensures var t' := Next(cfg, t, Work(w, StartBatch(answers)));
            Inv(t') && BatchesInv(t') && t'.db == t.db && PcOf(t', w) == BatchRead(answers, [])
  {
    hide Inv, BatchesInv, ClaimApplication;
    NextSafe(cfg, t, Work(w, StartBatch(answers)));
    BatchesKept(cfg, t, Work(w, StartBatch(answers)));
  }
}
