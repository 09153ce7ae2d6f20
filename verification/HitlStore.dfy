/** The durable state of one human-in-the-loop interaction and the atomic
    operations its Mongo stores offer on it
    (backend/approval/repository/hitl_lifecycle_store.py and hitl_store.py).

    Every operation is one conditional write: it either applies to a document
    that matches its query or leaves the database as it was. */
module HitlStore {

  import opened Wrappers

  type RequestId = string

  /** SHA-256, taken as collision free: of an answer text, or of the joined
      `id:digest` lines of a questionnaire. */
  datatype Digest = OfText(text: string) | OfAnswers(entries: seq<(RequestId, Digest)>)

  /** A fencing token: a fresh uuid, or one of the two fixed tokens with which
      the reconciler takes over an uncertain interaction. */
  datatype Claim = Uuid(n: nat) | OrphanRecovery | Confirmed

  datatype RowStatus = Pending | AnswerRecorded | Responded | RowExpired | RowCanceled

  datatype Row = Row(
    status: RowStatus,
    userInput: Option<string>,
    answerDigest: Option<Digest>,
    projected: bool,
    expiresAt: Option<nat>)

  datatype Status =
    | Open | PartiallyAnswered | AnswersRecorded
    | Applying | DeliveryUncertain
    | Applied | Canceled | Expired | Failed

  datatype RunProjection = ProjectionPending | ProjectionApplying | ProjectionApplied | ProjectionFailed

  datatype Interaction = Interaction(
    status: Status,
    version: nat,
    expiresAt: Option<nat>,
    answerIds: seq<RequestId>,
    refs: seq<(RequestId, Digest)>,
    revision: nat,
    claim: Option<Claim>,
    lease: Option<nat>,
    runProjection: RunProjection,
    runClaim: Option<Claim>,
    runLease: Option<nat>,
    terminalReconciled: bool)

  datatype CommandStatus =
    | CommandPending | Delivering | Acknowledged | Projected
    | RetryableError | CommandUncertain | PermanentFailure

  datatype Command = Command(
    requestIds: seq<RequestId>,
    answerDigest: Digest,
    status: CommandStatus,
    version: nat,
    claim: Option<Claim>,
    lease: Option<nat>,
    nextAttempt: Option<nat>)

  /** One interaction, its member rows, and its resume commands keyed by the
      application revision from which the command identity is derived. */
  datatype Db = Db(
    ids: seq<RequestId>,
    rows: map<RequestId, Row>,
    inter: Interaction,
    cmds: map<nat, Command>,
    now: nat)

  const LEASE_SECONDS: nat := 300

  predicate Live(deadline: Option<nat>, now: nat) {
    deadline.None? || deadline.value > now
  }

  predicate Lapsed(lease: Option<nat>, now: nat) {
    lease.None? || lease.value <= now
  }

  // ----- request rows

  /** `claim_hitl_request`: the only write of an answer, and only on a pending
      row whose deadline has not passed. */
  function ClaimRow(d: Db, id: RequestId, text: string, digest: Digest): (Db, bool) {
    if id in d.rows && d.rows[id].status == Pending && Live(d.rows[id].expiresAt, d.now) then
      var r := d.rows[id].(status := AnswerRecorded, userInput := Some(text), answerDigest := Some(digest));
      (d.(rows := d.rows[id := r]), true)
    else (d, false)
  }

  /** `cas_update_hitl_request_strict` from answer_recorded to responded. */
  function RespondRow(d: Db, id: RequestId): (Db, bool) {
    if id in d.rows && d.rows[id].status == AnswerRecorded then
      (d.(rows := d.rows[id := d.rows[id].(status := Responded, projected := false)]), true)
    else (d, false)
  }

  /** `update_hitl_request(application_projected=True)`: not conditional. */
  function SetProjected(d: Db, id: RequestId): (Db, bool) {
    if id in d.rows then (d.(rows := d.rows[id := d.rows[id].(projected := true)]), true)
    else (d, false)
  }

  /** The row CAS of `reconcile_terminal_interaction`. */
  function TerminateRow(d: Db, id: RequestId, expected: RowStatus, member: RowStatus): (Db, bool) {
    if id in d.rows && d.rows[id].status == expected then
      (d.(rows := d.rows[id := d.rows[id].(status := member)]), true)
    else (d, false)
  }

  // ----- the interaction aggregate

  predicate Complete(ids: seq<RequestId>, answered: seq<RequestId>) {
    forall id :: id in ids ==> id in answered
  }

  /** One successful round of `record_interaction_answer`. */
  function RecordAnswer(d: Db, id: RequestId, digest: Digest): (Db, bool) {
    var i := d.inter;
    if id !in d.ids then (d, false)
    else if id in i.answerIds then (d, true)
    else if i.status != Open && i.status != PartiallyAnswered then (d, false)
    else if !Live(i.expiresAt, d.now) then (d, false)
    else
      var answered := i.answerIds + [id];
      var i' := i.(answerIds := answered,
                   refs := i.refs + [(id, digest)],
                   status := if Complete(d.ids, answered) then AnswersRecorded else PartiallyAnswered,
                   version := i.version + 1);
      (d.(inter := i'), true)
  }

  function ClaimApplication(d: Db, claim: Claim): (Db, bool) {
    var i := d.inter;
    if i.status == AnswersRecorded then
      (d.(inter := i.(status := Applying, claim := Some(claim), lease := Some(d.now + LEASE_SECONDS),
                      revision := i.revision + 1, version := i.version + 1)), true)
    else if i.status == Applying && Lapsed(i.lease, d.now) then
      (d.(inter := i.(claim := Some(claim), lease := Some(d.now + LEASE_SECONDS), version := i.version + 1)), true)
    else (d, false)
  }

  predicate HoldsApplication(d: Db, claim: Claim) {
    d.inter.status == Applying && d.inter.claim == Some(claim)
  }

  function RenewApplication(d: Db, claim: Claim): (Db, bool) {
    if HoldsApplication(d, claim) then
      (d.(inter := d.inter.(lease := Some(d.now + LEASE_SECONDS), version := d.inter.version + 1)), true)
    else (d, false)
  }

  function ResumeUncertain(d: Db, claim: Claim): (Db, bool) {
    if d.inter.status == DeliveryUncertain then
      (d.(inter := d.inter.(status := Applying, claim := Some(claim), lease := Some(d.now),
                            version := d.inter.version + 1)), true)
    else (d, false)
  }

  function ClaimProjection(d: Db, revision: nat, claim: Claim): (Db, bool) {
    var i := d.inter;
    if i.revision == revision
       && (i.runProjection == ProjectionPending || i.runProjection == ProjectionFailed
           || (i.runProjection == ProjectionApplying && i.runLease.Some? && i.runLease.value <= d.now)) then
      (d.(inter := i.(runProjection := ProjectionApplying, runClaim := Some(claim),
                      runLease := Some(d.now + LEASE_SECONDS), version := i.version + 1)), true)
    else (d, false)
  }

  function MarkProjection(d: Db, claim: Claim, applied: bool): (Db, bool) {
    var i := d.inter;
    if i.runProjection == ProjectionApplying && i.runClaim == Some(claim) then
      (d.(inter := i.(runProjection := if applied then ProjectionApplied else ProjectionFailed,
                      runClaim := None, runLease := None, version := i.version + 1)), true)
    else (d, false)
  }

  /** `mark_interaction_application_state`: fenced by status and claim, and for
      APPLIED also by the run projection. */
  function MarkApplication(d: Db, claim: Claim, target: Status): (Db, bool)
    requires target in {AnswersRecorded, Applying, DeliveryUncertain, Applied, Failed}
  {
    var i := d.inter;
    if HoldsApplication(d, claim) && (target == Applied ==> i.runProjection == ProjectionApplied) then
      var i' := i.(status := target, version := i.version + 1);
      if target == Applying then (d.(inter := i'.(lease := Some(d.now))), true)
      else (d.(inter := i'.(claim := None, lease := None)), true)
    else (d, false)
  }

  /** `terminalize_interaction`: a CAS on the expected statuses. */
  function Terminalize(d: Db, expected: set<Status>, target: Status): (Db, bool)
    requires target in {Canceled, Expired, Failed}
  {
    if d.inter.status in expected then
      (d.(inter := d.inter.(status := target, claim := None, lease := None, terminalReconciled := false,
                            version := d.inter.version + 1)), true)
    else (d, false)
  }

  /** `expire_interaction`. */
  function ExpireInteraction(d: Db): Db {
    Terminalize(d, {Open, PartiallyAnswered, AnswersRecorded}, Expired).0
  }

  function MarkTerminalReconciled(d: Db, version: nat): (Db, bool) {
    if d.inter.version == version then
      (d.(inter := d.inter.(terminalReconciled := true, version := version + 1)), true)
    else (d, false)
  }

  // ----- the resume-command journal

  /** `create_resume_command`: inserts, or returns the existing command when its
      immutable fields agree; None stands for the raised conflict. */
  function CreateCommand(d: Db, revision: nat, requestIds: seq<RequestId>, digest: Digest): (Db, Option<Command>) {
    if revision in d.cmds then
      var c := d.cmds[revision];
      (d, if c.requestIds == requestIds && c.answerDigest == digest then Some(c) else None)
    else
      var c := Command(requestIds, digest, CommandPending, 1, None, None, None);
      (d.(cmds := d.cmds[revision := c]), Some(c))
  }

  function ClaimCommandDoc(c: Command, claim: Claim, now: nat): Option<Command> {
    if (c.status == CommandPending || c.status == RetryableError) && Lapsed(c.nextAttempt, now) then
      Some(c.(status := Delivering, claim := Some(claim), lease := Some(now + LEASE_SECONDS), version := c.version + 1))
    else None
  }

  function RenewCommandDoc(c: Command, claim: Claim, now: nat): Option<Command> {
    if c.status == Delivering && c.claim == Some(claim) then
      Some(c.(lease := Some(now + LEASE_SECONDS), version := c.version + 1))
    else None
  }

  /** `reclaim_stale_resume_command`: a CAS on the claim, version and lease a
      scan observed, and only once that lease has run out. */
  function ReclaimCommandDoc(c: Command, seen: Command, at: nat): Option<Command> {
    if c.status == Delivering && c.claim == seen.claim && c.version == seen.version && c.lease == seen.lease
       && c.lease.Some? && c.lease.value <= at then
      Some(c.(status := RetryableError, claim := None, lease := None, nextAttempt := Some(at),
              version := c.version + 1))
    else None
  }

  /** `mark_resume_command_state`, fenced by a claim when one is given. */
  function MarkCommandDoc(c: Command, claim: Option<Claim>, expected: CommandStatus, target: CommandStatus,
                          now: nat): Option<Command> {
    if c.status == expected && (claim.Some? ==> c.claim == claim) then
      Some(c.(status := target, claim := None, lease := None, version := c.version + 1,
              nextAttempt := if target == RetryableError then Some(now) else c.nextAttempt))
    else None
  }

  function PutCommand(d: Db, revision: nat, c: Option<Command>): (Db, bool) {
    if c.Some? then (d.(cmds := d.cmds[revision := c.value]), true) else (d, false)
  }

  function ClaimCommand(d: Db, revision: nat, claim: Claim): (Db, bool) {
    if revision in d.cmds then PutCommand(d, revision, ClaimCommandDoc(d.cmds[revision], claim, d.now)) else (d, false)
  }

  function RenewCommand(d: Db, revision: nat, claim: Claim): (Db, bool) {
    if revision in d.cmds then PutCommand(d, revision, RenewCommandDoc(d.cmds[revision], claim, d.now)) else (d, false)
  }

  function ReclaimCommand(d: Db, revision: nat, seen: Command, at: nat): (Db, bool) {
    if revision in d.cmds then PutCommand(d, revision, ReclaimCommandDoc(d.cmds[revision], seen, at)) else (d, false)
  }

  function MarkCommand(d: Db, revision: nat, claim: Option<Claim>, expected: CommandStatus, target: CommandStatus)
    : (Db, bool)
  {
    if revision in d.cmds then
      PutCommand(d, revision, MarkCommandDoc(d.cmds[revision], claim, expected, target, d.now))
    else (d, false)
  }
}
