/** What every durable HITL state satisfies, and what every atomic write keeps.

    `Evolves` is the guarantee each operation gives the workers that did not
    perform it. It is reflexive and transitive, so a fact that is stable under
    it, once read, still holds at any later moment of any interleaving. */
module HitlInvariant {
  import opened HitlStore
  import opened Wrappers

  ghost predicate Distinct(s: seq<RequestId>) {
    forall i, j :: 0 <= i < j < |s| ==> s[i] != s[j]
  }

  // ----- single-state invariant

  predicate RowOk(r: Row) {
    && (r.userInput.Some? ==> r.answerDigest == Some(OfText(r.userInput.value)))
    && (r.userInput.None? ==> r.answerDigest.None?)
    && (r.status == Pending ==> r.userInput.None?)
    && (r.status == AnswerRecorded || r.status == Responded ==> r.userInput.Some?)
    && (r.projected ==> r.status == Responded)
  }

  predicate RowTerminal(r: Row) {
    r.status == RowExpired || r.status == RowCanceled
  }

  predicate Ended(st: Status) {
    st == Canceled || st == Expired || st == Failed
  }

  /** The statuses an interaction can have once an application was claimed. */
  predicate Started(st: Status) {
    st == Applying || st == DeliveryUncertain || st == Applied || st == Failed
  }

  predicate Collecting(st: Status) {
    st == Open || st == PartiallyAnswered
  }

  ghost predicate RowsOk(d: Db) {
    && (forall id :: id in d.ids <==> id in d.rows)
    && (forall id :: id in d.rows ==> RowOk(d.rows[id]))
    && (!Ended(d.inter.status) ==> forall id :: id in d.rows ==> !RowTerminal(d.rows[id]))
  }

  /** Every reference is the digest of its row's durable answer. */
  ghost predicate RefsMatch(refs: seq<(RequestId, Digest)>, rows: map<RequestId, Row>) {
    forall k :: 0 <= k < |refs| ==> refs[k].0 in rows && rows[refs[k].0].answerDigest == Some(refs[k].1)
  }

  ghost predicate RefsOk(d: Db) {
    && |d.inter.refs| == |d.inter.answerIds|
    && (forall k :: 0 <= k < |d.inter.refs| ==> d.inter.refs[k].0 == d.inter.answerIds[k])
    && Distinct(d.inter.answerIds)
    && RefsMatch(d.inter.refs, d.rows)
  }

  ghost predicate Answered(d: Db) {
    forall id :: id in d.rows ==> d.rows[id].userInput.Some?
  }

  /** The `id:digest` lines of the rows in inventory order. */
  ghost function Lines(ids: seq<RequestId>, rows: map<RequestId, Row>): seq<(RequestId, Digest)>
    requires forall id :: id in ids ==> id in rows && rows[id].answerDigest.Some?
  {
    seq(|ids|, k requires 0 <= k < |ids| => (ids[k], rows[ids[k]].answerDigest.value))
  }

  ghost predicate CommandOk(d: Db, c: Command)
    requires RowsOk(d)
  {
    && Answered(d)
    && c.requestIds == d.ids
    && c.answerDigest == OfAnswers(Lines(d.ids, d.rows))
    && (c.status == Delivering ==> c.claim.Some? && c.lease.Some?)
    && c.status != PermanentFailure
  }

  ghost predicate CommandsOk(d: Db)
    requires RowsOk(d)
  {
    forall rev :: rev in d.cmds ==> rev == d.inter.revision && Started(d.inter.status) && CommandOk(d, d.cmds[rev])
  }

  ghost predicate StatusOk(d: Db) {
    && (d.inter.status == Open ==> d.inter.answerIds == [])
    && (Collecting(d.inter.status) ==> !Complete(d.ids, d.inter.answerIds))
    && (!Collecting(d.inter.status) && !Ended(d.inter.status) ==> Complete(d.ids, d.inter.answerIds))
    && (Collecting(d.inter.status) || d.inter.status == AnswersRecorded ==> d.inter.revision == 0)
    && d.inter.revision <= 1
    && (Started(d.inter.status) && d.inter.status != Failed ==> d.inter.revision == 1)
    && (d.inter.status == Applying ==> d.inter.claim.Some?)
    && (d.inter.runProjection == ProjectionApplying ==> d.inter.runLease.Some?)
  }

  ghost predicate AllProjected(d: Db) {
    forall id :: id in d.rows ==> d.rows[id].status == Responded && d.rows[id].projected
  }

  ghost predicate CommandProjected(d: Db, revision: nat) {
    revision in d.cmds && d.cmds[revision].status == Projected
  }

  /** What an APPLIED interaction stands for. */
  ghost predicate AppliedOk(d: Db) {
    && AllProjected(d)
    && d.inter.runProjection == ProjectionApplied
    && CommandProjected(d, d.inter.revision)
  }

  ghost predicate DbInv(d: Db) {
    && d.ids != [] && Distinct(d.ids)
    && RowsOk(d) && RefsOk(d) && StatusOk(d) && CommandsOk(d)
    && (d.inter.status == Applied ==> AppliedOk(d))
  }

  // ----- two-state guarantee

  predicate RowEvolves(r: Row, r': Row) {
    && (r.userInput.Some? ==> r'.userInput == r.userInput && r'.answerDigest == r.answerDigest)
    && (r.status == Responded ==> r'.status == Responded)
    && (r.projected ==> r'.projected)
    && (RowTerminal(r) ==> r'.status == r.status)
    && (r'.status == Pending ==> r.status == Pending)
  }

  /** No answer will ever be recorded here: the row has none, and it is closed
      or its deadline has passed. */
  predicate Unanswerable(r: Row, now: nat) {
    r.userInput.None? && (r.status == Pending ==> !Live(r.expiresAt, now))
  }

  ghost predicate UnanswerableStay(d: Db, d': Db) {
    forall id :: id in d.rows && Unanswerable(d.rows[id], d.now) ==>
      id in d'.rows && Unanswerable(d'.rows[id], d'.now)
  }

  predicate Settled(c: Command) {
    c.status == Acknowledged || c.status == Projected
  }

  predicate CommandEvolves(c: Command, c': Command) {
    && c'.requestIds == c.requestIds && c'.answerDigest == c.answerDigest
    && (Settled(c) ==> Settled(c'))
    && (c.status == Projected ==> c'.status == Projected)
  }

  function Phase(st: Status): nat {
    match st
    case Open => 0
    case PartiallyAnswered => 1
    case AnswersRecorded => 2
    case Applying => 3
    case DeliveryUncertain => 3
    case _ => 4
  }

  predicate StatusEvolves(st: Status, st': Status) {
    && Phase(st) <= Phase(st')
    && (Phase(st) == 4 ==> st' == st)
    && (Started(st) ==> Started(st'))
  }

  predicate InteractionEvolves(i: Interaction, i': Interaction) {
    && StatusEvolves(i.status, i'.status) && i'.expiresAt == i.expiresAt
    && i.refs <= i'.refs && i.answerIds <= i'.answerIds
    && (Phase(i.status) >= 3 ==> i'.revision == i.revision && i'.refs == i.refs && i'.answerIds == i.answerIds)
    && (i.runProjection == ProjectionApplied ==> i'.runProjection == ProjectionApplied)
  }

  ghost predicate Evolves(d: Db, d': Db) {
    && d'.ids == d.ids && d.now <= d'.now
    && InteractionEvolves(d.inter, d'.inter)
    && (forall id :: id in d.rows ==> id in d'.rows && RowEvolves(d.rows[id], d'.rows[id]))
    && (forall id :: id in d'.rows ==> id in d.rows)
    && UnanswerableStay(d, d')
    && (forall rev :: rev in d.cmds ==> rev in d'.cmds && CommandEvolves(d.cmds[rev], d'.cmds[rev]))
  }

  lemma EvolvesTransitive(a: Db, b: Db, c: Db)
    requires Evolves(a, b) && Evolves(b, c)
    ensures Evolves(a, c)
  {
    forall id | id in a.rows ensures id in c.rows && RowEvolves(a.rows[id], c.rows[id]) {
      assert RowEvolves(a.rows[id], b.rows[id]);
    }
    forall rev | rev in a.cmds ensures rev in c.cmds && CommandEvolves(a.cmds[rev], c.cmds[rev]) {
      assert CommandEvolves(a.cmds[rev], b.cmds[rev]);
    }
  }

  /** `d'` is a legal successor of `d`. */
  ghost predicate Good(d: Db, d': Db) {
    DbInv(d') && Evolves(d, d')
  }

  lemma StayGood(d: Db)
    requires DbInv(d)
    ensures Good(d, d)
  {
  }

  // ----- writes that touch one row

  lemma RowWriteRefs(d: Db, id: RequestId, r: Row)
    requires RowsOk(d) && RefsOk(d) && id in d.rows && RowEvolves(d.rows[id], r)
    ensures RefsOk(d.(rows := d.rows[id := r]))
  {
    var rows := d.rows[id := r];
    forall k | 0 <= k < |d.inter.refs|
      ensures d.inter.refs[k].0 in rows && rows[d.inter.refs[k].0].answerDigest == Some(d.inter.refs[k].1)
    {
      assert RowOk(d.rows[d.inter.refs[k].0]);
    }
  }

  lemma RowWriteEvolves(d: Db, id: RequestId, r: Row)
    requires id in d.rows && RowEvolves(d.rows[id], r)
    requires Unanswerable(d.rows[id], d.now) ==> Unanswerable(r, d.now)
    ensures Evolves(d, d.(rows := d.rows[id := r]))
  {
  }

  lemma RowWriteCommands(d: Db, id: RequestId, r: Row)
    requires RowsOk(d) && CommandsOk(d) && id in d.rows && RowEvolves(d.rows[id], r)
    requires RowsOk(d.(rows := d.rows[id := r]))
    ensures CommandsOk(d.(rows := d.rows[id := r]))
  {
    var d' := d.(rows := d.rows[id := r]);
    forall rev | rev in d.cmds ensures CommandOk(d', d.cmds[rev]) {
      assert CommandOk(d, d.cmds[rev]);
      LinesStable(d, d');
    }
  }

  /** A row write that keeps answers, on a database whose other parts stay. */
  lemma RowWrite(d: Db, id: RequestId, r: Row)
    requires DbInv(d) && id in d.rows
    requires RowOk(r) && RowEvolves(d.rows[id], r)
    requires Unanswerable(d.rows[id], d.now) ==> Unanswerable(r, d.now)
    requires !Ended(d.inter.status) ==> !RowTerminal(r)
    ensures Good(d, d.(rows := d.rows[id := r]))
  {
    var d' := d.(rows := d.rows[id := r]);
    assert RowsOk(d') by {
      hide RefsOk, CommandsOk, StatusOk;
    }
    hide RowsOk, RefsOk, CommandsOk, Evolves, RowOk;
    RowWriteRefs(d, id, r);
    RowWriteEvolves(d, id, r);
    RowWriteCommands(d, id, r);
  }

  lemma LinesStable(d: Db, d': Db)
    requires RowsOk(d) && RowsOk(d') && d'.ids == d.ids && Answered(d)
    requires forall id :: id in d.rows ==> id in d'.rows && RowEvolves(d.rows[id], d'.rows[id])
    ensures Answered(d') && Lines(d.ids, d.rows) == Lines(d'.ids, d'.rows)
  {
    forall id | id in d.ids ensures d'.rows[id].userInput.Some? && d'.rows[id].answerDigest == d.rows[id].answerDigest {
      assert RowOk(d.rows[id]);
    }
  }

  lemma ClaimRowGood(d: Db, id: RequestId, text: string)
    requires DbInv(d)
    ensures Good(d, ClaimRow(d, id, text, OfText(text)).0)
    ensures ClaimRow(d, id, text, OfText(text)).1 ==>
            ClaimRow(d, id, text, OfText(text)).0.rows[id].answerDigest == Some(OfText(text))
  {
    if ClaimRow(d, id, text, OfText(text)).1 {
      assert RowOk(d.rows[id]);
      RowWrite(d, id, d.rows[id].(status := AnswerRecorded, userInput := Some(text),
                                  answerDigest := Some(OfText(text))));
    }
  }

  lemma RespondRowGood(d: Db, id: RequestId)
    requires DbInv(d)
    ensures Good(d, RespondRow(d, id).0)
  {
    if RespondRow(d, id).1 {
      assert RowOk(d.rows[id]);
      RowWrite(d, id, d.rows[id].(status := Responded, projected := false));
    }
  }

  lemma SetProjectedGood(d: Db, id: RequestId)
    requires DbInv(d) && (id in d.rows ==> d.rows[id].status == Responded)
    ensures Good(d, SetProjected(d, id).0)
  {
    if id in d.rows {
      assert RowOk(d.rows[id]);
      RowWrite(d, id, d.rows[id].(projected := true));
    }
  }

  lemma TerminateRowGood(d: Db, id: RequestId, expected: RowStatus, member: RowStatus)
    requires DbInv(d) && Ended(d.inter.status)
    requires member == RowExpired || member == RowCanceled
    requires expected == Pending || expected == AnswerRecorded || expected == member
    ensures Good(d, TerminateRow(d, id, expected, member).0)
  {
    if TerminateRow(d, id, expected, member).1 {
      assert RowOk(d.rows[id]);
      RowWrite(d, id, d.rows[id].(status := member));
    }
  }

  // ----- writes that touch only the interaction

  /** An aggregate write that leaves the answers alone. */
  lemma InterWrite(d: Db, i: Interaction)
    requires DbInv(d) && InteractionEvolves(d.inter, i)
    requires i.refs == d.inter.refs && i.answerIds == d.inter.answerIds
    requires StatusOk(d.(inter := i))
    requires i.status == Applied ==> AppliedOk(d.(inter := i))
    requires d.cmds == map[] || (i.revision == d.inter.revision)
    ensures Good(d, d.(inter := i))
  {
    InterEvolves(d, i);
    InterCommands(d, i);
    hide InteractionEvolves, CommandsOk, Evolves, AppliedOk, StatusOk;
  }

  lemma InterEvolves(d: Db, i: Interaction)
    requires InteractionEvolves(d.inter, i)
    ensures Evolves(d, d.(inter := i)) && StatusEvolves(d.inter.status, i.status)
  {
  }

  lemma InterCommands(d: Db, i: Interaction)
    requires RowsOk(d) && CommandsOk(d) && StatusEvolves(d.inter.status, i.status)
    requires RowsOk(d.(inter := i)) && (d.cmds == map[] || i.revision == d.inter.revision)
    ensures CommandsOk(d.(inter := i))
  {
    forall rev | rev in d.cmds ensures CommandOk(d.(inter := i), d.cmds[rev]) {
      assert CommandOk(d, d.cmds[rev]);
    }
  }

  lemma NoCommandYet(d: Db)
    requires DbInv(d) && !Started(d.inter.status)
    ensures d.cmds == map[]
  {
    forall rev | rev in d.cmds ensures false { }
  }

  lemma RefPushed(d: Db, id: RequestId, digest: Digest, i: Interaction)
    requires DbInv(d) && id in d.rows && d.rows[id].answerDigest == Some(digest) && id !in d.inter.answerIds
    requires i.answerIds == d.inter.answerIds + [id] && i.refs == d.inter.refs + [(id, digest)]
    ensures RefsOk(d.(inter := i))
    ensures d.inter.refs <= i.refs && d.inter.answerIds <= i.answerIds
  {
    var n := |d.inter.refs|;
    assert i.refs[..n] == d.inter.refs;
    assert i.answerIds[..n] == d.inter.answerIds;
  }

  lemma RecordStatus(d: Db, id: RequestId, digest: Digest)
    requires DbInv(d) && RecordAnswer(d, id, digest).0 != d
    ensures var i' := RecordAnswer(d, id, digest).0.inter;
            StatusOk(d.(inter := i')) && StatusEvolves(d.inter.status, i'.status)
  {
    hide RowsOk, RefsOk, CommandsOk;
    assert RecordAnswer(d, id, digest).0.inter.answerIds != [];
  }

  lemma RecordAnswerGood(d: Db, id: RequestId, digest: Digest)
    requires DbInv(d)
    requires id in d.rows ==> d.rows[id].answerDigest == Some(digest)
    ensures Good(d, RecordAnswer(d, id, digest).0)
  {
    var d' := RecordAnswer(d, id, digest).0;
    if d' != d {
      NoCommandYet(d);
      assert RowsOk(d');
      RecordStatus(d, id, digest);
      hide RowsOk, RefsOk, StatusOk, RowOk;
      RefPushed(d, id, digest, d'.inter);
    }
  }

  lemma ClaimApplicationGood(d: Db, claim: Claim)
    requires DbInv(d)
    ensures Good(d, ClaimApplication(d, claim).0)
  {
    StayGood(d);
    hide RowsOk, RefsOk, CommandsOk, Evolves, Good;
    if d.inter.status == AnswersRecorded {
      NoCommandYet(d);
    }
    if ClaimApplication(d, claim).1 {
      InterWrite(d, ClaimApplication(d, claim).0.inter);
    }
  }

  lemma RenewApplicationGood(d: Db, claim: Claim)
    requires DbInv(d)
    ensures Good(d, RenewApplication(d, claim).0)
  {
    StayGood(d);
    hide RowsOk, RefsOk, CommandsOk, Evolves, Good;
    if RenewApplication(d, claim).1 {
      InterWrite(d, RenewApplication(d, claim).0.inter);
    }
  }

  lemma ResumeUncertainGood(d: Db, claim: Claim)
    requires DbInv(d)
    ensures Good(d, ResumeUncertain(d, claim).0)
  {
    StayGood(d);
    hide RowsOk, RefsOk, CommandsOk, Evolves, Good;
    if ResumeUncertain(d, claim).1 {
      InterWrite(d, ResumeUncertain(d, claim).0.inter);
    }
  }

  lemma ClaimProjectionGood(d: Db, revision: nat, claim: Claim)
    requires DbInv(d)
    ensures Good(d, ClaimProjection(d, revision, claim).0)
  {
    StayGood(d);
    hide RowsOk, RefsOk, CommandsOk, Evolves, Good;
    if ClaimProjection(d, revision, claim).1 {
      InterWrite(d, ClaimProjection(d, revision, claim).0.inter);
    }
  }

  lemma MarkProjectionGood(d: Db, claim: Claim, applied: bool)
    requires DbInv(d)
    ensures Good(d, MarkProjection(d, claim, applied).0)
  {
    StayGood(d);
    hide RowsOk, RefsOk, CommandsOk, Evolves, Good;
    if MarkProjection(d, claim, applied).1 {
      InterWrite(d, MarkProjection(d, claim, applied).0.inter);
    }
  }

  /** The application outcome: APPLIED only by a caller that knows every row
      projected and the revision's command projected. */
  lemma MarkApplicationGood(d: Db, claim: Claim, target: Status)
    requires DbInv(d) && target in {Applying, DeliveryUncertain, Applied, Failed}
    requires target == Applied ==> AllProjected(d) && CommandProjected(d, d.inter.revision)
    ensures Good(d, MarkApplication(d, claim, target).0)
  {
    StayGood(d);
    hide RowsOk, RefsOk, CommandsOk, Evolves, Good;
    if MarkApplication(d, claim, target).1 {
      InterWrite(d, MarkApplication(d, claim, target).0.inter);
    }
  }

  lemma TerminalizeGood(d: Db, expected: set<Status>, target: Status)
    requires DbInv(d) && target in {Canceled, Expired, Failed}
    requires target == Failed ==> expected <= {AnswersRecorded, Applying, DeliveryUncertain}
    requires target != Failed ==> expected <= {Open, PartiallyAnswered, AnswersRecorded}
    ensures Good(d, Terminalize(d, expected, target).0)
  {
    StayGood(d);
    hide RowsOk, RefsOk, CommandsOk, Evolves, Good;
    var d' := Terminalize(d, expected, target).0;
    if d' != d {
      if target != Failed || d.inter.status == AnswersRecorded {
        NoCommandYet(d);
      }
      InterWrite(d, d'.inter);
    }
  }

  lemma MarkTerminalReconciledGood(d: Db, version: nat)
    requires DbInv(d)
    ensures Good(d, MarkTerminalReconciled(d, version).0)
  {
    StayGood(d);
    hide RowsOk, RefsOk, CommandsOk, Evolves, Good;
    if MarkTerminalReconciled(d, version).1 {
      InterWrite(d, MarkTerminalReconciled(d, version).0.inter);
    }
  }

  // ----- writes that touch only the command journal

  lemma CommandWrite(d: Db, rev: nat, c: Command)
    requires DbInv(d) && rev == d.inter.revision && Started(d.inter.status) && CommandOk(d, c)
    requires rev in d.cmds ==> CommandEvolves(d.cmds[rev], c)
    requires d.inter.status == Applied ==> rev in d.cmds
    ensures Good(d, d.(cmds := d.cmds[rev := c]))
  {
    var d' := d.(cmds := d.cmds[rev := c]);
    forall r | r in d'.cmds ensures r == rev && CommandOk(d', d'.cmds[r]) { }
  }

  lemma PutCommandGood(d: Db, rev: nat, c: Option<Command>)
    requires DbInv(d) && rev in d.cmds
    requires c.Some? ==> CommandEvolves(d.cmds[rev], c.value)
    requires c.Some? && c.value.status == Delivering ==> c.value.claim.Some? && c.value.lease.Some?
    requires c.Some? ==> c.value.status != PermanentFailure
    ensures Good(d, PutCommand(d, rev, c).0)
  {
    if c.Some? {
      assert CommandOk(d, d.cmds[rev]);
      CommandWrite(d, rev, c.value);
    }
  }

  lemma CreateCommandGood(d: Db, digest: Digest)
    requires DbInv(d) && Started(d.inter.status) && Answered(d)
    requires digest == OfAnswers(Lines(d.ids, d.rows))
    ensures var (d', c) := CreateCommand(d, d.inter.revision, d.ids, digest);
            Good(d, d') && c.Some? && d.inter.revision in d'.cmds && d'.cmds[d.inter.revision] == c.value
  {
    if d.inter.revision in d.cmds {
      assert CommandOk(d, d.cmds[d.inter.revision]);
    } else {
      CommandWrite(d, d.inter.revision, Command(d.ids, digest, CommandPending, 1, None, None, None));
    }
  }

  lemma ClaimCommandGood(d: Db, rev: nat, claim: Claim)
    requires DbInv(d)
    ensures Good(d, ClaimCommand(d, rev, claim).0)
  {
    if rev in d.cmds {
      PutCommandGood(d, rev, ClaimCommandDoc(d.cmds[rev], claim, d.now));
    }
  }

  lemma RenewCommandGood(d: Db, rev: nat, claim: Claim)
    requires DbInv(d)
    ensures Good(d, RenewCommand(d, rev, claim).0)
  {
    if rev in d.cmds {
      PutCommandGood(d, rev, RenewCommandDoc(d.cmds[rev], claim, d.now));
    }
  }

  lemma ReclaimCommandGood(d: Db, rev: nat, seen: Command, at: nat)
    requires DbInv(d)
    ensures Good(d, ReclaimCommand(d, rev, seen, at).0)
  {
    if rev in d.cmds {
      PutCommandGood(d, rev, ReclaimCommandDoc(d.cmds[rev], seen, at));
    }
  }

  /** The only transitions the code asks of `mark_resume_command_state`. */
  predicate MarkAllowed(expected: CommandStatus, target: CommandStatus) {
    || (expected == Delivering && (target == RetryableError || target == Acknowledged))
    || (expected == Acknowledged && target == Projected)
    || (expected == CommandUncertain && target == RetryableError)
  }

  lemma MarkCommandGood(d: Db, rev: nat, claim: Option<Claim>, expected: CommandStatus, target: CommandStatus)
    requires DbInv(d) && MarkAllowed(expected, target)
    ensures Good(d, MarkCommand(d, rev, claim, expected, target).0)
    ensures MarkCommand(d, rev, claim, expected, target).1 ==>
            rev in d.cmds && MarkCommand(d, rev, claim, expected, target).0.cmds[rev].status == target
  {
    if rev in d.cmds {
      PutCommandGood(d, rev, MarkCommandDoc(d.cmds[rev], claim, expected, target, d.now));
    }
  }
}
