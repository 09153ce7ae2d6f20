/** The answer-application protocol as a machine of interleaved atomic steps
    (backend/approval/application.py, reconciler.py).

    Any number of workers run `handle_batch_response`, `repair_persisted_answer_refs`,
    `apply_interaction` and its replay. One step of a worker performs at most
    one store operation, so every interleaving of store operations is a run.
    A worker can crash before any step. The reconciler, expiry, cancellation
    and the clock act as environment events. */
module HitlProtocol {
  import opened HitlStore
  import opened HitlInvariant
  import opened Wrappers

  /** Why `_request_rows` is reading the member rows. */
  datatype Stage = Check | Finalize(replay: bool) | Supervise

  /** A worker's control point with the locals that are live there. `app` is its
      application claim, `snap` the interaction document that claim returned,
      `cc` its command claim. */
  datatype Pc =
    | Idle
    // handle_batch_response
    | BatchRead(answers: map<RequestId, string>, got: seq<Row>)
    | BatchRow(answers: map<RequestId, string>, rows: seq<Row>, k: nat)
    | BatchReread(answers: map<RequestId, string>, rows: seq<Row>, k: nat)
    | BatchCompare(answers: map<RequestId, string>, rows: seq<Row>, k: nat, row: Row)
    | BatchRecord(answers: map<RequestId, string>, rows: seq<Row>, k: nat)
    | BatchLost(answers: map<RequestId, string>, rows: seq<Row>, k: nat)
    // repair_persisted_answer_refs
    | RepairRead(got: seq<Row>)
    | RepairRow(rows: seq<Row>, k: nat)
    | RepairLost(rows: seq<Row>, k: nat)
    // apply_interaction up to the response projection
    | ReadRows(app: Claim, snap: Interaction, stage: Stage, got: seq<Row>)
    | Rollback(app: Claim)
    | FinalizeRow(app: Claim, snap: Interaction, rows: seq<Row>, k: nat, ok: bool, replay: bool)
    | ProjectRow(app: Claim, snap: Interaction, rows: seq<Row>, k: nat, ok: bool, replay: bool)
    | Reconcile(snap: Interaction)
    | EmitResumed(app: Claim, snap: Interaction)
    // _apply_supervisor and _run_fenced_effect
    | MakeCommand(app: Claim, snap: Interaction, digest: Digest)
    | Inspect(app: Claim, snap: Interaction, seen: CommandStatus)
    | Promote(app: Claim, snap: Interaction)
    | Requeue(app: Claim, snap: Interaction)
    | ClaimCmd(app: Claim, snap: Interaction)
    | Fence(app: Claim, snap: Interaction, cc: Claim)
    | FenceCmd(app: Claim, snap: Interaction, cc: Claim)
    | Fenced(app: Claim, snap: Interaction, cc: Claim)
    | Running(app: Claim, snap: Interaction, cc: Claim)
    | Beating(app: Claim, snap: Interaction, cc: Claim)
    | EffectDone(app: Claim, snap: Interaction, cc: Claim)
    | Abort(app: Claim, snap: Interaction, cc: Claim, kind: Outcome)
    // _project_run_answers and the final mark
    | RunAnswers(app: Claim, snap: Interaction)
    | RunLost(app: Claim, snap: Interaction)
    | Projecting(app: Claim, snap: Interaction, rc: Claim)
    | Finish(app: Claim, snap: Interaction)
    | Failing(app: Claim, kind: Outcome)

  /** The status an exception handler of `apply_interaction` writes. */
  datatype Outcome = ToApplying | ToUncertain | ToFailed

  function OutcomeStatus(o: Outcome): Status {
    match o
    case ToApplying => Applying
    case ToUncertain => DeliveryUncertain
    case ToFailed => Failed
  }

  /** What the scheduler, the network and the uuid source choose for a step. */
  datatype Action =
    | StartBatch(answers: map<RequestId, string>)
    | StartRepair
    | StartApply(claim: Claim)
    | StartReplay
    | Go
    | GoWith(claim: Claim)
    | GiveUp
    | External(ok: bool)
    | Raise(kind: Outcome)

  /** Whether the run-answer projector was bound at start-up. */
  datatype Config = Config(projectorBound: bool)

  // ----- `_request_rows`

  function LookupRef(refs: seq<(RequestId, Digest)>, id: RequestId): Option<Digest> {
    if refs == [] then None
    else if refs[|refs| - 1].0 == id then Some(refs[|refs| - 1].1)
    else LookupRef(refs[..|refs| - 1], id)
  }

  /** The checks of `_request_rows` with `require_answers`. */
  predicate RowsAccepted(ids: seq<RequestId>, refs: seq<(RequestId, Digest)>, rows: seq<Row>) {
    && |rows| == |ids|
    && (forall k :: 0 <= k < |rows| ==>
          rows[k].userInput.Some? && rows[k].answerDigest == Some(OfText(rows[k].userInput.value)))
    && (forall k :: 0 <= k < |refs| ==> refs[k].0 in ids)
    && (forall k :: 0 <= k < |ids| ==> LookupRef(refs, ids[k]) == rows[k].answerDigest)
  }

  function RowLines(ids: seq<RequestId>, rows: seq<Row>): seq<(RequestId, Digest)>
    requires |rows| == |ids| && forall k :: 0 <= k < |rows| ==> rows[k].answerDigest.Some?
  {
    seq(|ids|, k requires 0 <= k < |ids| => (ids[k], rows[k].answerDigest.value))
  }

  // ----- one step of a worker

  predicate Batching(pc: Pc) {
    pc.BatchRead? || pc.BatchRow? || pc.BatchReread? || pc.BatchCompare? || pc.BatchRecord? || pc.BatchLost?
  }

  /** `handle_batch_response`. `GiveUp` is `record_interaction_answer` returning
      None after it lost its compare-and-set eight times. A batch of an ended
      interaction is not opened: it would read the rows and raise. */
  function BatchStep(d: Db, pc: Pc, a: Action): (Db, Pc)
    requires Batching(pc)
  {
    match pc
    case BatchRead(answers, got) =>
      if |got| < |d.ids| then
        (d, if d.ids[|got|] in d.rows then BatchRead(answers, got + [d.rows[d.ids[|got|]]]) else Idle)
      else if !Live(d.inter.expiresAt, d.now) then (ExpireInteraction(d), Idle)
      else (d, BatchRow(answers, got, 0))
    case BatchRow(answers, rows, k) =>
      if k >= |rows| || k >= |d.ids| then (d, Idle)
      else if d.ids[k] !in answers || answers[d.ids[k]] == "" then (d, Idle)
      else if rows[k].status == Pending then
        var id := d.ids[k];
        var (d', won) := ClaimRow(d, id, answers[id], OfText(answers[id]));
        (d', if won then BatchRecord(answers, rows, k) else BatchReread(answers, rows, k))
      else (d, BatchCompare(answers, rows, k, rows[k]))
    case BatchReread(answers, rows, k) =>
      (d, if k < |d.ids| && d.ids[k] in d.rows then BatchCompare(answers, rows, k, d.rows[d.ids[k]]) else Idle)
    case BatchCompare(answers, rows, k, row) =>
      if k < |d.ids| && d.ids[k] in answers && (row.status == AnswerRecorded || row.status == Responded)
         && row.userInput == Some(answers[d.ids[k]]) && row.answerDigest == Some(OfText(answers[d.ids[k]])) then
        (d, BatchRecord(answers, rows, k))
      else (d, Idle)
    case BatchRecord(answers, rows, k) =>
      if k >= |d.ids| || d.ids[k] !in answers then (d, Idle)
      else if a.GiveUp? then (d, BatchLost(answers, rows, k))
      else
        var (d', recorded) := RecordAnswer(d, d.ids[k], OfText(answers[d.ids[k]]));
        (d', if recorded then BatchRow(answers, rows, k + 1) else BatchLost(answers, rows, k))
    case BatchLost(answers, rows, k) =>
      if k < |d.ids| && d.ids[k] in d.inter.answerIds then (d, BatchRow(answers, rows, k + 1))
      else if !Live(d.inter.expiresAt, d.now) then (ExpireInteraction(d), Idle)
      else (d, Idle)
  }

  function RepairStep(d: Db, pc: Pc, a: Action): (Db, Pc)
    requires pc.RepairRead? || pc.RepairRow? || pc.RepairLost?
  {
    match pc
    case RepairRead(got) =>
      if |got| < |d.ids| then
        (d, if d.ids[|got|] in d.rows then RepairRead(got + [d.rows[d.ids[|got|]]]) else Idle)
      else (d, RepairRow(got, 0))
    case RepairRow(rows, k) =>
      if k >= |rows| || k >= |d.ids| then (d, Idle)
      else if rows[k].status != AnswerRecorded && rows[k].status != Responded then (d, RepairRow(rows, k + 1))
      else if rows[k].userInput.None? || rows[k].answerDigest != Some(OfText(rows[k].userInput.value)) then (d, Idle)
      else if a.GiveUp? then (d, RepairLost(rows, k))
      else
        var (d', recorded) := RecordAnswer(d, d.ids[k], rows[k].answerDigest.value);
        (d', if recorded then RepairRow(rows, k + 1) else RepairLost(rows, k))
    case RepairLost(rows, k) =>
      (d, if k < |d.ids| && k < |rows| && LookupRef(d.inter.refs, d.ids[k]) == rows[k].answerDigest
          then RepairRow(rows, k + 1) else Idle)
  }

  function FinalizeStep(d: Db, pc: Pc, a: Action): (Db, Pc)
    requires pc.ReadRows? || pc.Rollback? || pc.FinalizeRow? || pc.ProjectRow? || pc.Reconcile? || pc.EmitResumed?
  {
    match pc
    case ReadRows(app, snap, stage, got) =>
      if |got| < |d.ids| then
        (d, if d.ids[|got|] in d.rows then ReadRows(app, snap, stage, got + [d.rows[d.ids[|got|]]])
            else RowsRejected(app, stage))
      else if !RowsAccepted(d.ids, snap.refs, got) then (d, RowsRejected(app, stage))
      else (match stage
            case Check =>
              (d, if exists r :: r in got && r.userInput.None? then Rollback(app)
                  else ReadRows(app, snap, Finalize(false), []))
            case Finalize(replay) => (d, FinalizeRow(app, snap, got, 0, true, replay))
            case Supervise => (d, MakeCommand(app, snap, OfAnswers(RowLines(d.ids, got)))))
    case Rollback(app) => (MarkApplication(d, app, AnswersRecorded).0, Idle)
    case FinalizeRow(app, snap, rows, k, ok, replay) =>
      if k >= |rows| || k >= |d.ids| then
        (d, if !ok then (if replay then Idle else Failing(app, ToApplying))
            else if replay then Reconcile(snap) else EmitResumed(app, snap))
      else if rows[k].status == AnswerRecorded then
        var (d', won) := RespondRow(d, d.ids[k]);
        (d', if won then ProjectRow(app, snap, rows, k, ok, replay)
             else FinalizeRow(app, snap, rows, k + 1, false, replay))
      else if rows[k].status != Responded then (d, FinalizeRow(app, snap, rows, k + 1, false, replay))
      else if rows[k].projected then (d, FinalizeRow(app, snap, rows, k + 1, ok, replay))
      else (d, ProjectRow(app, snap, rows, k, ok, replay))
    case ProjectRow(app, snap, rows, k, ok, replay) =>
      if a == External(true) && k < |d.ids| then
        var (d', done) := SetProjected(d, d.ids[k]);
        (d', FinalizeRow(app, snap, rows, k + 1, ok && done, replay))
      else (d, FinalizeRow(app, snap, rows, k + 1, false, replay))
    case Reconcile(snap) => (if snap.terminalReconciled then d else MarkTerminalReconciled(d, snap.version).0, Idle)
    case EmitResumed(app, snap) =>
      (d, ReadRows(app, snap, Supervise, []))
  }

  /** A rejected read raises: before the handlers of `apply_interaction` the
      exception leaves the claim as it is, inside them it is recorded. */
  function RowsRejected(app: Claim, stage: Stage): Pc {
    if stage == Supervise || stage == Finalize(false) then Failing(app, ToApplying) else Idle
  }

  predicate Supervising(pc: Pc) {
    || pc.MakeCommand? || pc.Inspect? || pc.Promote? || pc.Requeue? || pc.ClaimCmd? || pc.Fence? || pc.FenceCmd?
    || pc.Fenced? || pc.Running? || pc.Beating? || pc.EffectDone? || pc.Abort?
  }

  function SuperviseStep(d: Db, pc: Pc, a: Action): (Db, Pc)
    requires Supervising(pc)
  {
    match pc
    case MakeCommand(app, snap, digest) =>
      var (d', c) := CreateCommand(d, snap.revision, d.ids, digest);
      (d', if c.Some? then Inspect(app, snap, c.value.status) else Failing(app, ToApplying))
    case Inspect(app, snap, seen) =>
      (d, if seen == Acknowledged then Promote(app, snap)
          else if seen == Projected then RunAnswers(app, snap)
          else if seen == CommandUncertain then Requeue(app, snap)
          else ClaimCmd(app, snap))
    case Promote(app, snap) =>
      var (d', won) := MarkCommand(d, snap.revision, None, Acknowledged, Projected);
      (d', if won then RunAnswers(app, snap) else Failing(app, ToApplying))
    case Requeue(app, snap) =>
      var (d', won) := MarkCommand(d, snap.revision, None, CommandUncertain, RetryableError);
      (d', if won then ClaimCmd(app, snap) else Failing(app, ToApplying))
    case ClaimCmd(app, snap) =>
      if !a.GoWith? then (d, pc)
      else
        var (d', won) := ClaimCommand(d, snap.revision, a.claim);
        (d', if won then Fence(app, snap, a.claim) else Failing(app, ToApplying))
    case Fence(app, snap, cc) =>
      var (d', held) := RenewApplication(d, app);
      (d', if held then FenceCmd(app, snap, cc) else Abort(app, snap, cc, ToApplying))
    case FenceCmd(app, snap, cc) =>
      var (d', held) := RenewCommand(d, snap.revision, cc);
      (d', if held then Fenced(app, snap, cc) else Abort(app, snap, cc, ToApplying))
    case Fenced(app, snap, cc) => (d, Running(app, snap, cc))
    case Running(app, snap, cc) =>
      // The effect ends, or a heartbeat starts by renewing the application.
      if a.External? then (d, EffectDone(app, snap, cc))
      else
        var (d', held) := RenewApplication(d, app);
        (d', if held then Beating(app, snap, cc) else Abort(app, snap, cc, ToApplying))
    case Beating(app, snap, cc) =>
      if a.External? then (d, EffectDone(app, snap, cc))
      else
        var (d', held) := RenewCommand(d, snap.revision, cc);
        (d', if held then Running(app, snap, cc) else Abort(app, snap, cc, ToApplying))
    case EffectDone(app, snap, cc) =>
      var (d', won) := MarkCommand(d, snap.revision, Some(cc), Delivering, Acknowledged);
      (d', if won then Promote(app, snap) else Failing(app, ToApplying))
    case Abort(app, snap, cc, kind) =>
      (MarkCommand(d, snap.revision, Some(cc), Delivering, RetryableError).0, Failing(app, kind))
  }

  function FinishStep(cfg: Config, d: Db, pc: Pc, a: Action): (Db, Pc)
    requires pc.RunAnswers? || pc.RunLost? || pc.Projecting? || pc.Finish? || pc.Failing?
  {
    match pc
    case RunAnswers(app, snap) =>
      if !cfg.projectorBound || snap.runProjection == ProjectionApplied then (d, Finish(app, snap))
      else if !a.GoWith? then (d, pc)
      else
        var (d', won) := ClaimProjection(d, snap.revision, a.claim);
        (d', if won then Projecting(app, snap, a.claim) else RunLost(app, snap))
    case RunLost(app, snap) =>
      (d, if d.inter.runProjection == ProjectionApplied then Finish(app, snap) else Failing(app, ToApplying))
    case Projecting(app, snap, rc) =>
      var (d', won) := MarkProjection(d, rc, a == External(true));
      (d', if won && a == External(true) then Finish(app, snap) else Failing(app, ToApplying))
    case Finish(app, snap) => (MarkApplication(d, app, Applied).0, Idle)
    case Failing(app, kind) => (MarkApplication(d, app, OutcomeStatus(kind)).0, Idle)
  }

  function IdleStep(d: Db, a: Action): (Db, Pc) {
    match a
    case StartBatch(answers) =>
      (d, if answers.Keys == (set id | id in d.ids) && !Ended(d.inter.status) then BatchRead(answers, []) else Idle)
    case StartRepair => (d, RepairRead([]))
    case StartApply(claim) =>
      var (d', won) := ClaimApplication(d, claim);
      (d', if won then ReadRows(claim, d'.inter, Check, []) else Idle)
    case StartReplay =>
      // A replay of an APPLIED interaction holds no claim and never uses one.
      (d, if d.inter.status == Applied then ReadRows(Confirmed, d.inter, Finalize(true), []) else Idle)
    case _ => (d, Idle)
  }

  /** Where an exception at `pc` leads. Only between the application claim and
      the final mark does a handler of `apply_interaction` run, and only around
      the fenced effect does `_apply_supervisor` requeue its command first. */
  function Unwind(pc: Pc, kind: Outcome): Pc {
    if pc.Fence? || pc.FenceCmd? || pc.Fenced? || pc.Running? || pc.Beating? then Abort(pc.app, pc.snap, pc.cc, kind)
    else if Supervising(pc) || pc.RunAnswers? || pc.RunLost? || pc.Projecting? || pc.EmitResumed? then
      Failing(pc.app, kind)
    else if pc.ReadRows? && (pc.stage == Supervise || pc.stage == Finalize(false)) then Failing(pc.app, kind)
    else if (pc.FinalizeRow? || pc.ProjectRow?) && !pc.replay then Failing(pc.app, kind)
    else Idle
  }

  /** The normal continuation at `pc`. */
  function Exec(cfg: Config, d: Db, pc: Pc, a: Action): (Db, Pc) {
    if a.Raise? then (d, Unwind(pc, a.kind))
    else if pc.Idle? then IdleStep(d, a)
    else if Batching(pc) then BatchStep(d, pc, a)
    else if pc.RepairRead? || pc.RepairRow? || pc.RepairLost? then RepairStep(d, pc, a)
    else if pc.ReadRows? || pc.Rollback? || pc.FinalizeRow? || pc.ProjectRow? || pc.Reconcile? || pc.EmitResumed? then
      FinalizeStep(d, pc, a)
    else if Supervising(pc) then SuperviseStep(d, pc, a)
    else FinishStep(cfg, d, pc, a)
  }

  // ----- the whole system

  datatype State = State(db: Db, pcs: map<nat, Pc>)

  datatype Event =
    | Work(worker: nat, action: Action)
    | LostReply(worker: nat, action: Action, kind: Outcome)
    | Crash(worker: nat)
    | Tick(seconds: nat)
    | Expire
    | Cancel
    | FailUnclaimed
    | FailClaimed(claim: Claim)
    | EndRow(id: RequestId, expected: RowStatus, member: RowStatus)
    | Reclaim(revision: nat, seen: Command, at: nat)
    | PromoteAck(revision: nat)
    | RequeueUncertain(revision: nat)
    | Resume(claim: Claim)
    | Reconciled(version: nat)

  function EnvStep(d: Db, e: Event): Db {
    match e
    case Tick(seconds) => d.(now := d.now + seconds)
    case Expire => ExpireInteraction(d)
    case Cancel => Terminalize(d, {Open, PartiallyAnswered, AnswersRecorded}, Canceled).0
    case FailUnclaimed => Terminalize(d, {AnswersRecorded, Applying, DeliveryUncertain}, Failed).0
    case FailClaimed(claim) => MarkApplication(d, claim, Failed).0
    case EndRow(id, expected, member) =>
      if Ended(d.inter.status) && (member == RowExpired || member == RowCanceled)
         && (expected == Pending || expected == AnswerRecorded || expected == member)
      then TerminateRow(d, id, expected, member).0 else d
    case Reclaim(revision, seen, at) => if at <= d.now then ReclaimCommand(d, revision, seen, at).0 else d
    case PromoteAck(revision) => MarkCommand(d, revision, None, Acknowledged, Projected).0
    case RequeueUncertain(revision) => MarkCommand(d, revision, None, CommandUncertain, RetryableError).0
    case Resume(claim) => ResumeUncertain(d, claim).0
    case Reconciled(version) => MarkTerminalReconciled(d, version).0
    case _ => d
  }

  function PcOf(s: State, w: nat): Pc {
    if w in s.pcs then s.pcs[w] else Idle
  }

  function Next(cfg: Config, s: State, e: Event): State {
    match e
    case Work(w, a) =>
      var (d', pc') := Exec(cfg, s.db, PcOf(s, w), a);
      State(d', s.pcs[w := pc'])
    case LostReply(w, a, kind) =>
      // The write went through but its caller only saw an error.
      State(Exec(cfg, s.db, PcOf(s, w), a).0, s.pcs[w := Unwind(PcOf(s, w), kind)])
    case Crash(w) => s.(pcs := s.pcs[w := Idle])
    case _ => s.(db := EnvStep(s.db, e))
  }

  function Run(cfg: Config, s: State, es: seq<Event>): State {
    if es == [] then s else Next(cfg, Run(cfg, s, es[..|es| - 1]), es[|es| - 1])
  }

  /** A freshly opened questionnaire: nothing answered, nothing claimed. */
  ghost predicate Init(s: State) {
    && s.pcs == map[]
    && s.db.ids != [] && Distinct(s.db.ids)
    && (forall id :: id in s.db.ids <==> id in s.db.rows)
    && (forall id :: id in s.db.rows ==>
          s.db.rows[id] == Row(Pending, None, None, false, s.db.rows[id].expiresAt))
    && s.db.inter == Interaction(Open, s.db.inter.version, s.db.inter.expiresAt, [], [], 0, None, None,
                                 ProjectionPending, None, None, false)
    && s.db.cmds == map[]
  }
}
