/** Safety of the answer-application protocol over every run.

    The proof is by rely and guarantee: each worker's local knowledge is stable
    under `Evolves`, each store operation it performs is `Good`, and so one
    worker's step cannot invalidate what another one relies on. */
module HitlSafety {
  import opened HitlStore
  import opened HitlInvariant
  import opened HitlProtocol
  import opened Wrappers

  // ----- what a worker knows at each control point

  /** Row snapshots of the first members, possibly out of date. */
  ghost predicate Seen(d: Db, got: seq<Row>) {
    |got| <= |d.ids| && forall k :: 0 <= k < |got| ==> d.ids[k] in d.rows && RowEvolves(got[k], d.rows[d.ids[k]])
  }

  /** The claimed document still tells the revision and the full answer set. */
  ghost predicate Claimed(d: Db, snap: Interaction) {
    && Started(d.inter.status)
    && d.inter.revision == snap.revision == 1
    && d.inter.refs == snap.refs && d.inter.answerIds == snap.answerIds
    && Complete(d.ids, snap.answerIds)
  }

  ghost predicate Released(d: Db, snap: Interaction) {
    Claimed(d, snap) && AllProjected(d)
  }

  ghost predicate Journaled(d: Db, snap: Interaction) {
    Released(d, snap) && snap.revision in d.cmds
  }

  ghost predicate Delivered(d: Db, snap: Interaction) {
    Released(d, snap) && CommandProjected(d, snap.revision)
  }

  ghost predicate DigestOf(d: Db, k: nat, digest: Option<Digest>) {
    k < |d.ids| && d.ids[k] in d.rows && digest.Some? && d.rows[d.ids[k]].answerDigest == digest
  }

  ghost predicate PrefixProjected(d: Db, k: nat) {
    k <= |d.ids| && forall i :: 0 <= i < k ==>
      d.ids[i] in d.rows && d.rows[d.ids[i]].status == Responded && d.rows[d.ids[i]].projected
  }

  ghost predicate RecordingInv(d: Db, pc: Pc) {
    match pc
    case BatchRead(_, got) => Seen(d, got)
    case BatchRow(_, rows, _) => Seen(d, rows)
    case BatchReread(_, rows, k) => Seen(d, rows)
    case BatchCompare(_, rows, k, row) =>
      Seen(d, rows) && (k < |d.ids| ==> d.ids[k] in d.rows && RowEvolves(row, d.rows[d.ids[k]]))
    case BatchRecord(answers, rows, k) =>
      Seen(d, rows) && (k < |d.ids| && d.ids[k] in answers ==> DigestOf(d, k, Some(OfText(answers[d.ids[k]]))))
    case BatchLost(_, rows, _) => Seen(d, rows)
    case RepairRead(got) => Seen(d, got)
    case RepairRow(rows, _) => Seen(d, rows)
    case RepairLost(rows, _) => Seen(d, rows)
    case _ => true
  }

  ghost predicate FinalizingInv(d: Db, pc: Pc) {
    match pc
    case ReadRows(_, snap, stage, got) => Claimed(d, snap) && Seen(d, got) && (stage == Supervise ==> AllProjected(d))
    case Rollback(_) => false
    case FinalizeRow(_, snap, rows, k, ok, _) =>
      Claimed(d, snap) && Seen(d, rows) && |rows| == |d.ids| && (ok ==> PrefixProjected(d, k))
    case ProjectRow(_, snap, rows, k, ok, _) =>
      && Claimed(d, snap) && Seen(d, rows) && |rows| == |d.ids| && k < |d.ids|
      && d.ids[k] in d.rows && d.rows[d.ids[k]].status == Responded && (ok ==> PrefixProjected(d, k))
    case EmitResumed(_, snap) => Released(d, snap)
    case _ => true
  }

  ghost predicate SupervisingInv(d: Db, pc: Pc)
    requires RowsOk(d) && Supervising(pc)
  {
    if pc.MakeCommand? then Released(d, pc.snap) && Answered(d) && pc.digest == OfAnswers(Lines(d.ids, d.rows))
    else if pc.Abort? then true
    else Journaled(d, pc.snap) && (pc == Inspect(pc.app, pc.snap, Projected) ==> Delivered(d, pc.snap))
  }

  predicate Recording(pc: Pc) {
    Batching(pc) || pc.RepairRead? || pc.RepairRow? || pc.RepairLost?
  }

  predicate Finalizing(pc: Pc) {
    pc.ReadRows? || pc.Rollback? || pc.FinalizeRow? || pc.ProjectRow? || pc.Reconcile? || pc.EmitResumed?
  }

  ghost predicate LocalInv(d: Db, pc: Pc)
    requires RowsOk(d)
  {
    if pc.Idle? || pc.Failing? then true
    else if Recording(pc) then RecordingInv(d, pc)
    else if Finalizing(pc) then FinalizingInv(d, pc)
    else if Supervising(pc) then SupervisingInv(d, pc)
    else Delivered(d, pc.snap)
  }

  // ----- stability

  lemma SeenStable(d: Db, d': Db, got: seq<Row>)
    requires Evolves(d, d') && Seen(d, got)
    ensures Seen(d', got)
  {
    forall k | 0 <= k < |got| ensures d'.ids[k] in d'.rows && RowEvolves(got[k], d'.rows[d'.ids[k]]) {
      assert RowEvolves(d.rows[d.ids[k]], d'.rows[d.ids[k]]);
    }
  }

  lemma ProjectedStable(d: Db, d': Db, k: nat)
    requires DbInv(d) && DbInv(d') && Evolves(d, d')
    ensures AllProjected(d) ==> AllProjected(d')
    ensures PrefixProjected(d, k) ==> PrefixProjected(d', k)
  {
    forall id | id in d.rows && d.rows[id].status == Responded && d.rows[id].projected
      ensures id in d'.rows && d'.rows[id].status == Responded && d'.rows[id].projected
    {
      assert RowEvolves(d.rows[id], d'.rows[id]);
    }
  }

  lemma ClaimedStable(d: Db, d': Db, snap: Interaction)
    requires Evolves(d, d') && Claimed(d, snap)
    ensures Claimed(d', snap)
  {
  }

  lemma AnswersStable(d: Db, d': Db)
    requires DbInv(d) && DbInv(d') && Evolves(d, d') && Answered(d)
    ensures Answered(d') && Lines(d.ids, d.rows) == Lines(d'.ids, d'.rows)
  {
    LinesStable(d, d');
  }

  lemma DigestStable(d: Db, d': Db, k: nat, digest: Option<Digest>)
    requires DbInv(d) && Evolves(d, d') && DigestOf(d, k, digest)
    ensures DigestOf(d', k, digest)
  {
    assert RowOk(d.rows[d.ids[k]]);
    assert RowEvolves(d.rows[d.ids[k]], d'.rows[d.ids[k]]);
  }

  lemma CommandStable(d: Db, d': Db, rev: nat)
    requires Evolves(d, d')
    ensures rev in d.cmds ==> rev in d'.cmds
    ensures CommandProjected(d, rev) ==> CommandProjected(d', rev)
  {
    if rev in d.cmds {
      assert CommandEvolves(d.cmds[rev], d'.cmds[rev]);
    }
  }

  lemma RecordingStable(d: Db, d': Db, pc: Pc)
    requires DbInv(d) && Good(d, d') && Recording(pc) && RecordingInv(d, pc)
    ensures RecordingInv(d', pc)
  {
    hide Seen, DbInv;
    SeenStable(d, d', if pc.BatchRead? || pc.RepairRead? then pc.got else pc.rows);
    if pc.BatchCompare? && pc.k < |d.ids| {
      assert RowEvolves(d.rows[d.ids[pc.k]], d'.rows[d.ids[pc.k]]);
    }
    if pc.BatchRecord? && pc.k < |d.ids| && d.ids[pc.k] in pc.answers {
      DigestStable(d, d', pc.k, Some(OfText(pc.answers[d.ids[pc.k]])));
    }
  }

  lemma FinalizingStable(d: Db, d': Db, pc: Pc)
    requires DbInv(d) && Good(d, d') && Finalizing(pc) && FinalizingInv(d, pc)
    ensures FinalizingInv(d', pc)
  {
    hide Seen, DbInv, AllProjected, PrefixProjected, Claimed;
    if pc.ReadRows? {
      SeenStable(d, d', pc.got);
      ClaimedStable(d, d', pc.snap);
      ProjectedStable(d, d', 0);
    } else if pc.FinalizeRow? || pc.ProjectRow? {
      SeenStable(d, d', pc.rows);
      ClaimedStable(d, d', pc.snap);
      ProjectedStable(d, d', pc.k);
      if pc.ProjectRow? {
        assert RowEvolves(d.rows[d.ids[pc.k]], d'.rows[d.ids[pc.k]]);
      }
    } else if pc.EmitResumed? {
      ReleasedStable(d, d', pc.snap);
    }
  }

  /** What a worker knows survives any good step of anybody else. */
  lemma LocalStable(d: Db, d': Db, pc: Pc)
    requires DbInv(d) && Good(d, d') && LocalInv(d, pc)
    ensures LocalInv(d', pc)
  {
    hide RecordingInv, FinalizingInv, Released, Evolves, AllProjected, Answered, RefsOk, StatusOk, CommandsOk;
    if pc.Idle? || pc.Failing? {
    } else if Recording(pc) {
      RecordingStable(d, d', pc);
    } else if Finalizing(pc) {
      FinalizingStable(d, d', pc);
    } else if !pc.Abort? {
      ReleasedStable(d, d', pc.snap);
      if pc.MakeCommand? {
        AnswersStable(d, d');
      }
    }
  }

  lemma ReleasedStable(d: Db, d': Db, snap: Interaction)
    requires DbInv(d) && Good(d, d') && Released(d, snap)
    ensures Released(d', snap)
    ensures snap.revision in d.cmds ==> snap.revision in d'.cmds
    ensures CommandProjected(d, snap.revision) ==> CommandProjected(d', snap.revision)
  {
    ClaimedStable(d, d', snap);
    ProjectedStable(d, d', 0);
    CommandStable(d, d', snap.revision);
  }

  // ----- each step of a worker is good and keeps its own knowledge

  ghost predicate Safe(d: Db, r: (Db, Pc)) {
    Good(d, r.0) && LocalInv(r.0, r.1)
  }

  lemma CompleteAnswered(d: Db)
    requires DbInv(d) && Complete(d.ids, d.inter.answerIds)
    ensures Answered(d)
  {
    forall id | id in d.rows ensures d.rows[id].userInput.Some? {
      assert id in d.inter.answerIds;
      var k :| 0 <= k < |d.inter.answerIds| && d.inter.answerIds[k] == id;
      assert d.inter.refs[k].0 == id;
      assert RowOk(d.rows[id]);
    }
  }

  lemma SeenNext(d: Db, got: seq<Row>)
    requires Seen(d, got) && |got| < |d.ids| && d.ids[|got|] in d.rows
    ensures Seen(d, got + [d.rows[d.ids[|got|]]])
  {
  }

  lemma SeenAt(d: Db, got: seq<Row>, k: nat)
    requires Seen(d, got) && k < |got|
    ensures k < |d.ids| && d.ids[k] in d.rows && RowEvolves(got[k], d.rows[d.ids[k]])
  {
  }

  lemma SeenEmpty(d: Db)
    ensures Seen(d, [])
  {
  }

  lemma RecordSafe(d: Db, k: nat, digest: Digest, rows: seq<Row>)
    requires DbInv(d) && Seen(d, rows) && DigestOf(d, k, Some(digest))
    ensures Good(d, RecordAnswer(d, d.ids[k], digest).0)
    ensures Seen(RecordAnswer(d, d.ids[k], digest).0, rows)
  {
    hide RecordAnswer, DbInv, Evolves, Seen;
    RecordAnswerGood(d, d.ids[k], digest);
    SeenStable(d, RecordAnswer(d, d.ids[k], digest).0, rows);
  }

  lemma ClaimRowSafe(d: Db, k: nat, text: string, rows: seq<Row>)
    requires DbInv(d) && Seen(d, rows) && k < |d.ids|
    ensures var r := ClaimRow(d, d.ids[k], text, OfText(text));
            && Good(d, r.0) && Seen(r.0, rows) && r.0.ids == d.ids
            && (r.1 ==> DigestOf(r.0, k, Some(OfText(text))))
  {
    hide Seen, DbInv, Evolves;
    var d' := ClaimRow(d, d.ids[k], text, OfText(text)).0;
    ClaimRowGood(d, d.ids[k], text);
    SeenStable(d, d', rows);
  }

  /** A compared row's digest is the durable one. */
  lemma CompareSafe(d: Db, k: nat, row: Row, text: string)
    requires k < |d.ids| && d.ids[k] in d.rows && RowEvolves(row, d.rows[d.ids[k]])
    requires row.userInput == Some(text) && row.answerDigest == Some(OfText(text))
    ensures DigestOf(d, k, Some(OfText(text)))
  {
  }

  lemma BatchRowSafe(d: Db, pc: Pc, a: Action)
    requires DbInv(d) && pc.BatchRow? && LocalInv(d, pc)
    ensures Safe(d, BatchStep(d, pc, a))
  {
    hide Good, DbInv, Seen, Evolves, ClaimRow, DigestOf, RowEvolves, FinalizingInv;
    StayGood(d);
    if pc.k < |pc.rows| && pc.k < |d.ids| {
      SeenAt(d, pc.rows, pc.k);
      if d.ids[pc.k] in pc.answers {
        ClaimRowSafe(d, pc.k, pc.answers[d.ids[pc.k]], pc.rows);
      }
    }
  }

  lemma BatchCompareSafe(d: Db, pc: Pc, a: Action)
    requires DbInv(d) && (pc.BatchReread? || pc.BatchCompare?) && LocalInv(d, pc)
    ensures Safe(d, BatchStep(d, pc, a))
  {
    hide Good, DbInv, Seen, Evolves, DigestOf, RowEvolves, FinalizingInv;
    StayGood(d);
    if pc.BatchReread? {
      if pc.k < |d.ids| && d.ids[pc.k] in d.rows {
        RowReflexive(d.rows[d.ids[pc.k]]);
      }
    } else if pc.k < |d.ids| && d.ids[pc.k] in pc.answers && pc.row.userInput == Some(pc.answers[d.ids[pc.k]])
              && pc.row.answerDigest == Some(OfText(pc.answers[d.ids[pc.k]])) {
      CompareSafe(d, pc.k, pc.row, pc.answers[d.ids[pc.k]]);
    }
  }

  lemma BatchRecordSafe(d: Db, pc: Pc, a: Action)
    requires DbInv(d) && pc.BatchRecord? && LocalInv(d, pc)
    ensures Safe(d, BatchStep(d, pc, a))
  {
    hide Good, DbInv, Seen, Evolves, RecordAnswer, DigestOf, FinalizingInv;
    StayGood(d);
    if pc.k < |d.ids| && d.ids[pc.k] in pc.answers {
      RecordSafe(d, pc.k, OfText(pc.answers[d.ids[pc.k]]), pc.rows);
    }
  }

  lemma BatchReadSafe(d: Db, pc: Pc, a: Action)
    requires DbInv(d) && (pc.BatchRead? || pc.BatchLost?) && LocalInv(d, pc)
    ensures Safe(d, BatchStep(d, pc, a))
  {
    hide Good, DbInv, Seen, Evolves, Ended, FinalizingInv, Terminalize;
    StayGood(d);
    TerminalizeGood(d, {Open, PartiallyAnswered, AnswersRecorded}, Expired);
    if pc.BatchRead? && |pc.got| < |d.ids| && d.ids[|pc.got|] in d.rows {
      SeenNext(d, pc.got);
    }
  }

  lemma BatchSafe(d: Db, pc: Pc, a: Action)
    requires DbInv(d) && Batching(pc) && LocalInv(d, pc)
    ensures Safe(d, BatchStep(d, pc, a))
  {
    hide Safe, DbInv, LocalInv, BatchStep;
    if pc.BatchRow? {
      BatchRowSafe(d, pc, a);
    } else if pc.BatchReread? || pc.BatchCompare? {
      BatchCompareSafe(d, pc, a);
    } else if pc.BatchRecord? {
      BatchRecordSafe(d, pc, a);
    } else {
      BatchReadSafe(d, pc, a);
    }
  }

  lemma RowReflexive(r: Row)
    ensures RowEvolves(r, r)
  {
  }

  lemma RepairSafe(d: Db, pc: Pc, a: Action)
    requires DbInv(d) && (pc.RepairRead? || pc.RepairRow? || pc.RepairLost?) && LocalInv(d, pc)
    ensures Safe(d, RepairStep(d, pc, a))
  {
    hide Good, DbInv, Seen, Evolves, RecordAnswer, DigestOf, RowEvolves, FinalizingInv, LookupRef;
    StayGood(d);
    match pc {
      case RepairRead(got) =>
        if |got| < |d.ids| && d.ids[|got|] in d.rows {
          SeenNext(d, got);
        }
      case RepairRow(rows, k) =>
        if k < |rows| && rows[k].userInput.Some? && rows[k].answerDigest == Some(OfText(rows[k].userInput.value)) {
          SeenAt(d, rows, k);
          CompareSafe(d, k, rows[k], rows[k].userInput.value);
          RecordSafe(d, k, OfText(rows[k].userInput.value), rows);
        }
      case RepairLost(rows, k) =>
    }
  }

  lemma PrefixNext(d: Db, k: nat)
    requires PrefixProjected(d, k) && k < |d.ids| && d.ids[k] in d.rows
    requires d.rows[d.ids[k]].status == Responded && d.rows[d.ids[k]].projected
    ensures PrefixProjected(d, k + 1)
  {
  }

  lemma PrefixAll(d: Db)
    requires DbInv(d) && PrefixProjected(d, |d.ids|)
    ensures AllProjected(d)
  {
    forall id | id in d.rows ensures d.rows[id].status == Responded && d.rows[id].projected {
      assert id in d.ids;
    }
  }

  /** Rows that passed `_request_rows` are the durable answers. */
  lemma LinesSeen(d: Db, refs: seq<(RequestId, Digest)>, got: seq<Row>)
    requires DbInv(d) && Seen(d, got) && RowsAccepted(d.ids, refs, got)
    ensures Answered(d) && RowLines(d.ids, got) == Lines(d.ids, d.rows)
  {
    forall k | 0 <= k < |d.ids|
      ensures d.rows[d.ids[k]].userInput.Some? && d.rows[d.ids[k]].answerDigest == got[k].answerDigest
    {
      assert RowEvolves(got[k], d.rows[d.ids[k]]);
    }
    forall id | id in d.rows ensures d.rows[id].userInput.Some? {
      var k :| 0 <= k < |d.ids| && d.ids[k] == id;
    }
  }

  lemma PrefixZero(d: Db)
    ensures PrefixProjected(d, 0)
  {
  }

  /** `_request_rows` raises on a missing answer, so its caller's own test for
      one, which guards the rollback to ANSWERS_RECORDED, never succeeds. */
  lemma NoAnswerMissing(ids: seq<RequestId>, refs: seq<(RequestId, Digest)>, rows: seq<Row>)
    requires RowsAccepted(ids, refs, rows)
    ensures !exists r :: r in rows && r.userInput.None?
  {
  }

  lemma ReadSafe(d: Db, pc: Pc, a: Action)
    requires DbInv(d) && pc.ReadRows? && LocalInv(d, pc)
    ensures Safe(d, FinalizeStep(d, pc, a))
  {
    hide Good, DbInv, Seen, Evolves, Claimed, AllProjected, PrefixProjected, RowsAccepted, Lines, RowLines, Answered,
         RecordingInv;
    StayGood(d);
    SeenEmpty(d);
    PrefixZero(d);
    if |pc.got| < |d.ids| {
      if d.ids[|pc.got|] in d.rows {
        SeenNext(d, pc.got);
      }
    } else if RowsAccepted(d.ids, pc.snap.refs, pc.got) {
      NoAnswerMissing(d.ids, pc.snap.refs, pc.got);
      LinesSeen(d, pc.snap.refs, pc.got);
      AcceptedLength(d.ids, pc.snap.refs, pc.got);
    }
  }

  lemma AcceptedLength(ids: seq<RequestId>, refs: seq<(RequestId, Digest)>, rows: seq<Row>)
    requires RowsAccepted(ids, refs, rows)
    ensures |rows| == |ids|
  {
  }

  lemma RespondSafe(d: Db, k: nat, rows: seq<Row>, snap: Interaction)
    requires DbInv(d) && Seen(d, rows) && Claimed(d, snap) && k < |d.ids|
    ensures var r := RespondRow(d, d.ids[k]);
            && Good(d, r.0) && Seen(r.0, rows) && Claimed(r.0, snap) && r.0.ids == d.ids
            && (PrefixProjected(d, k) ==> PrefixProjected(r.0, k))
            && (r.1 ==> d.ids[k] in r.0.rows && r.0.rows[d.ids[k]].status == Responded)
  {
    hide Seen, DbInv, Evolves, Claimed, PrefixProjected;
    var d' := RespondRow(d, d.ids[k]).0;
    RespondRowGood(d, d.ids[k]);
    SeenStable(d, d', rows);
    ClaimedStable(d, d', snap);
    ProjectedStable(d, d', k);
  }

  lemma SeenResponded(d: Db, rows: seq<Row>, k: nat)
    requires Seen(d, rows) && k < |rows| && rows[k].status == Responded
    ensures d.ids[k] in d.rows && d.rows[d.ids[k]].status == Responded
    ensures rows[k].projected && PrefixProjected(d, k) ==> PrefixProjected(d, k + 1)
  {
    SeenAt(d, rows, k);
  }

  lemma FinalizeEndSafe(d: Db, pc: Pc, a: Action)
    requires DbInv(d) && pc.FinalizeRow? && LocalInv(d, pc) && pc.k >= |d.ids|
    ensures Safe(d, FinalizeStep(d, pc, a))
  {
    hide Good, DbInv, Seen, Evolves, Claimed, AllProjected, PrefixProjected, RecordingInv, SupervisingInv, Delivered;
    StayGood(d);
    if pc.ok {
      PrefixLength(d, pc.k);
      PrefixAll(d);
    }
  }

  lemma FinalizeAnswerSafe(d: Db, pc: Pc, a: Action)
    requires DbInv(d) && pc.FinalizeRow? && LocalInv(d, pc) && pc.k < |d.ids| && pc.rows[pc.k].status == AnswerRecorded
    ensures Safe(d, FinalizeStep(d, pc, a))
  {
    hide Good, DbInv, Seen, Evolves, Claimed, AllProjected, PrefixProjected, RespondRow, RecordingInv;
    RespondSafe(d, pc.k, pc.rows, pc.snap);
  }

  lemma FinalizeResponseSafe(d: Db, pc: Pc, a: Action)
    requires DbInv(d) && pc.FinalizeRow? && LocalInv(d, pc) && pc.k < |d.ids| && pc.rows[pc.k].status != AnswerRecorded
    ensures Safe(d, FinalizeStep(d, pc, a))
  {
    hide Good, DbInv, Seen, Evolves, Claimed, AllProjected, PrefixProjected, RespondRow, RecordingInv;
    StayGood(d);
    if pc.rows[pc.k].status == Responded {
      SeenResponded(d, pc.rows, pc.k);
    }
  }

  lemma FinalizeRowSafe(d: Db, pc: Pc, a: Action)
    requires DbInv(d) && pc.FinalizeRow? && LocalInv(d, pc)
    ensures Safe(d, FinalizeStep(d, pc, a))
  {
    hide Safe, DbInv, FinalizeStep;
    if pc.k >= |d.ids| {
      FinalizeEndSafe(d, pc, a);
    } else if pc.rows[pc.k].status == AnswerRecorded {
      FinalizeAnswerSafe(d, pc, a);
    } else {
      FinalizeResponseSafe(d, pc, a);
    }
  }

  lemma PrefixLength(d: Db, k: nat)
    requires PrefixProjected(d, k)
    ensures k <= |d.ids|
  {
  }

  lemma ProjectSafe(d: Db, k: nat, rows: seq<Row>, snap: Interaction)
    requires DbInv(d) && Seen(d, rows) && Claimed(d, snap) && k < |d.ids|
    requires d.ids[k] in d.rows && d.rows[d.ids[k]].status == Responded
    ensures var d' := SetProjected(d, d.ids[k]).0;
            && Good(d, d') && Seen(d', rows) && Claimed(d', snap) && d'.ids == d.ids
            && (PrefixProjected(d, k) ==> PrefixProjected(d', k + 1))
  {
    hide Seen, DbInv, Evolves, Claimed, PrefixProjected;
    var d' := SetProjected(d, d.ids[k]).0;
    SetProjectedGood(d, d.ids[k]);
    SeenStable(d, d', rows);
    ClaimedStable(d, d', snap);
    ProjectedStable(d, d', k);
    if PrefixProjected(d, k) {
      PrefixNext(d', k);
    }
  }

  lemma ProjectRowSafe(d: Db, pc: Pc, a: Action)
    requires DbInv(d) && pc.ProjectRow? && LocalInv(d, pc)
    ensures Safe(d, FinalizeStep(d, pc, a))
  {
    hide Good, DbInv, Seen, Evolves, Claimed, AllProjected, PrefixProjected, SetProjected, RecordingInv;
    StayGood(d);
    ProjectSafe(d, pc.k, pc.rows, pc.snap);
  }

  lemma JournaledStable(d: Db, d': Db, snap: Interaction)
    requires DbInv(d) && Good(d, d') && Journaled(d, snap)
    ensures Journaled(d', snap)
  {
    hide DbInv, Evolves, Released;
    ReleasedStable(d, d', snap);
  }

  lemma CreateSafe(d: Db, snap: Interaction, digest: Digest)
    requires DbInv(d) && Released(d, snap) && Answered(d) && digest == OfAnswers(Lines(d.ids, d.rows))
    ensures var r := CreateCommand(d, snap.revision, d.ids, digest);
            && Good(d, r.0) && r.1.Some? && Journaled(r.0, snap)
            && (r.1.value.status == Projected ==> Delivered(r.0, snap))
  {
    hide AllProjected, RefsOk, StatusOk;
    CreateCommandGood(d, digest);
    ReleasedStable(d, CreateCommand(d, snap.revision, d.ids, digest).0, snap);
  }

  lemma MarkSafe(d: Db, snap: Interaction, claim: Option<Claim>, expected: CommandStatus, target: CommandStatus)
    requires DbInv(d) && Journaled(d, snap) && MarkAllowed(expected, target)
    ensures var r := MarkCommand(d, snap.revision, claim, expected, target);
            && Good(d, r.0) && Journaled(r.0, snap)
            && (r.1 && target == Projected ==> Delivered(r.0, snap))
  {
    hide DbInv, Evolves, Released, MarkCommand;
    MarkCommandGood(d, snap.revision, claim, expected, target);
    JournaledStable(d, MarkCommand(d, snap.revision, claim, expected, target).0, snap);
  }

  lemma LeaseSafe(d: Db, snap: Interaction, claim: Claim)
    requires DbInv(d) && Journaled(d, snap)
    ensures Good(d, RenewApplication(d, claim).0) && Journaled(RenewApplication(d, claim).0, snap)
    ensures Good(d, ClaimCommand(d, snap.revision, claim).0) && Journaled(ClaimCommand(d, snap.revision, claim).0, snap)
    ensures Good(d, RenewCommand(d, snap.revision, claim).0) && Journaled(RenewCommand(d, snap.revision, claim).0, snap)
  {
    hide DbInv, Evolves, Released, Journaled, RenewApplication, ClaimCommand, RenewCommand;
    RenewApplicationGood(d, claim);
    JournaledStable(d, RenewApplication(d, claim).0, snap);
    ClaimCommandGood(d, snap.revision, claim);
    JournaledStable(d, ClaimCommand(d, snap.revision, claim).0, snap);
    RenewCommandGood(d, snap.revision, claim);
    JournaledStable(d, RenewCommand(d, snap.revision, claim).0, snap);
  }

  predicate Preparing(pc: Pc) {
    pc.MakeCommand? || pc.Inspect? || pc.Promote? || pc.Requeue? || pc.ClaimCmd?
  }

  lemma PrepareSafe(d: Db, pc: Pc, a: Action)
    requires DbInv(d) && Preparing(pc) && LocalInv(d, pc)
    ensures Safe(d, SuperviseStep(d, pc, a))
  {
    hide Good, DbInv, Evolves, Released, Journaled, Delivered, AllProjected, Claimed, Lines, Answered, RecordingInv,
         FinalizingInv, CreateCommand, MarkCommand, RenewApplication, RenewCommand, ClaimCommand;
    StayGood(d);
    if pc.MakeCommand? {
      CreateSafe(d, pc.snap, pc.digest);
    } else if pc.Promote? {
      MarkSafe(d, pc.snap, None, Acknowledged, Projected);
    } else if pc.Requeue? {
      MarkSafe(d, pc.snap, None, CommandUncertain, RetryableError);
    } else if pc.ClaimCmd? && a.GoWith? {
      LeaseSafe(d, pc.snap, a.claim);
    }
  }

  lemma FencedSafe(d: Db, pc: Pc, a: Action)
    requires DbInv(d) && (pc.Fence? || pc.FenceCmd? || pc.Fenced? || pc.EffectDone? || pc.Abort?) && LocalInv(d, pc)
    ensures Safe(d, SuperviseStep(d, pc, a))
  {
    hide Good, DbInv, Evolves, Released, Journaled, Delivered, AllProjected, Claimed, Lines, Answered, RecordingInv,
         FinalizingInv, CreateCommand, MarkCommand, RenewApplication, RenewCommand, ClaimCommand;
    StayGood(d);
    if pc.Fence? {
      LeaseSafe(d, pc.snap, pc.app);
    } else if pc.FenceCmd? {
      LeaseSafe(d, pc.snap, pc.cc);
    } else if pc.EffectDone? {
      MarkSafe(d, pc.snap, Some(pc.cc), Delivering, Acknowledged);
    } else if pc.Abort? {
      MarkCommandGood(d, pc.snap.revision, Some(pc.cc), Delivering, RetryableError);
    }
  }

  lemma HeartbeatSafe(d: Db, pc: Pc, a: Action)
    requires DbInv(d) && (pc.Running? || pc.Beating?) && LocalInv(d, pc)
    ensures Safe(d, SuperviseStep(d, pc, a))
  {
    hide Good, DbInv, Evolves, Released, Journaled, Delivered, AllProjected, Claimed, Lines, Answered, RecordingInv,
         FinalizingInv, CreateCommand, MarkCommand, RenewApplication, RenewCommand, ClaimCommand;
    StayGood(d);
    LeaseSafe(d, pc.snap, if pc.Running? then pc.app else pc.cc);
  }

  lemma ProjectionSafe(d: Db, snap: Interaction, claim: Claim, applied: bool)
    requires DbInv(d) && Delivered(d, snap)
    ensures Good(d, ClaimProjection(d, snap.revision, claim).0)
    ensures Delivered(ClaimProjection(d, snap.revision, claim).0, snap)
    ensures Good(d, MarkProjection(d, claim, applied).0) && Delivered(MarkProjection(d, claim, applied).0, snap)
  {
    hide DbInv, Evolves, Released, CommandProjected, ClaimProjection, MarkProjection;
    ClaimProjectionGood(d, snap.revision, claim);
    ReleasedStable(d, ClaimProjection(d, snap.revision, claim).0, snap);
    MarkProjectionGood(d, claim, applied);
    ReleasedStable(d, MarkProjection(d, claim, applied).0, snap);
  }

  lemma DeliveredMark(d: Db, snap: Interaction, app: Claim)
    requires DbInv(d) && Delivered(d, snap)
    ensures Good(d, MarkApplication(d, app, Applied).0)
  {
    hide DbInv, Good, AllProjected, CommandProjected, MarkApplication;
    MarkApplicationGood(d, app, Applied);
  }

  lemma RunAnswersSafe(cfg: Config, d: Db, pc: Pc, a: Action)
    requires DbInv(d) && (pc.RunAnswers? || pc.RunLost? || pc.Projecting?) && LocalInv(d, pc)
    ensures Safe(d, FinishStep(cfg, d, pc, a))
  {
    hide Good, DbInv, Evolves, Delivered, RecordingInv, FinalizingInv, SupervisingInv, ClaimProjection, MarkProjection;
    StayGood(d);
    if pc.RunAnswers? && a.GoWith? {
      ProjectionSafe(d, pc.snap, a.claim, true);
    } else if pc.Projecting? {
      ProjectionSafe(d, pc.snap, pc.rc, a == External(true));
    }
  }

  lemma FinishSafe(cfg: Config, d: Db, pc: Pc, a: Action)
    requires DbInv(d) && LocalInv(d, pc)
    requires pc.RunAnswers? || pc.RunLost? || pc.Projecting? || pc.Finish? || pc.Failing?
    ensures Safe(d, FinishStep(cfg, d, pc, a))
  {
    hide Good, DbInv, Evolves, Delivered, MarkApplication;
    if pc.Finish? {
      DeliveredMark(d, pc.snap, pc.app);
    } else if pc.Failing? {
      MarkApplicationGood(d, pc.app, OutcomeStatus(pc.kind));
    } else {
      RunAnswersSafe(cfg, d, pc, a);
    }
  }

  lemma ClaimedAtStart(d: Db, claim: Claim)
    requires DbInv(d)
    ensures var r := ClaimApplication(d, claim);
            Good(d, r.0) && (r.1 ==> Claimed(r.0, r.0.inter) && Seen(r.0, []))
  {
    hide RowsOk, RefsOk, CommandsOk, Evolves;
    ClaimApplicationGood(d, claim);
  }

  lemma ClaimedApplied(d: Db)
    requires DbInv(d) && d.inter.status == Applied
    ensures Claimed(d, d.inter) && Seen(d, [])
  {
  }

  lemma IdleSafe(d: Db, a: Action)
    requires DbInv(d)
    ensures Safe(d, IdleStep(d, a))
  {
    hide Good, DbInv, Claimed, ClaimApplication, SupervisingInv, Delivered;
    StayGood(d);
    SeenEmpty(d);
    if a.StartApply? {
      ClaimedAtStart(d, a.claim);
    } else if d.inter.status == Applied {
      ClaimedApplied(d);
    }
  }

  lemma ResumedSafe(d: Db, pc: Pc, a: Action)
    requires DbInv(d) && (pc.EmitResumed? || pc.Reconcile? || pc.Rollback?) && LocalInv(d, pc)
    ensures Safe(d, FinalizeStep(d, pc, a))
  {
    hide Good, DbInv, Claimed, AllProjected, MarkTerminalReconciled, SupervisingInv, Delivered, RecordingInv;
    StayGood(d);
    SeenEmpty(d);
    if pc.Reconcile? {
      MarkTerminalReconciledGood(d, pc.snap.version);
    }
  }

  lemma UnwindSafe(d: Db, pc: Pc, kind: Outcome)
    requires DbInv(d)
    ensures LocalInv(d, Unwind(pc, kind)) && LocalInv(d, Idle)
  {
  }

  lemma ExecSafe(cfg: Config, d: Db, pc: Pc, a: Action)
    requires DbInv(d) && LocalInv(d, pc)
    ensures Safe(d, Exec(cfg, d, pc, a))
  {
    hide Good, DbInv, LocalInv, Unwind, IdleStep, BatchStep, RepairStep, FinalizeStep, SuperviseStep, FinishStep;
    if a.Raise? {
      StayGood(d);
      UnwindSafe(d, pc, a.kind);
    } else if pc.Idle? {
      IdleSafe(d, a);
    } else if Batching(pc) {
      BatchSafe(d, pc, a);
    } else if pc.RepairRead? || pc.RepairRow? || pc.RepairLost? {
      RepairSafe(d, pc, a);
    } else if pc.ReadRows? {
      ReadSafe(d, pc, a);
    } else if pc.FinalizeRow? {
      FinalizeRowSafe(d, pc, a);
    } else if pc.ProjectRow? {
      ProjectRowSafe(d, pc, a);
    } else if pc.Reconcile? || pc.EmitResumed? || pc.Rollback? {
      ResumedSafe(d, pc, a);
    } else if Supervising(pc) {
      if Preparing(pc) {
        PrepareSafe(d, pc, a);
      } else if pc.Running? || pc.Beating? {
        HeartbeatSafe(d, pc, a);
      } else {
        FencedSafe(d, pc, a);
      }
    } else {
      FinishSafe(cfg, d, pc, a);
    }
  }

  lemma EnvSafe(d: Db, e: Event)
    requires DbInv(d)
    ensures Good(d, EnvStep(d, e))
  {
    StayGood(d);
    match e {
      case Expire => TerminalizeGood(d, {Open, PartiallyAnswered, AnswersRecorded}, Expired);
      case Cancel => TerminalizeGood(d, {Open, PartiallyAnswered, AnswersRecorded}, Canceled);
      case FailUnclaimed => TerminalizeGood(d, {AnswersRecorded, Applying, DeliveryUncertain}, Failed);
      case FailClaimed(claim) => MarkApplicationGood(d, claim, Failed);
      case EndRow(id, expected, member) =>
        if EnvStep(d, e) != d {
          TerminateRowGood(d, id, expected, member);
        }
      case Reclaim(revision, seen, at) => ReclaimCommandGood(d, revision, seen, at);
      case PromoteAck(revision) => MarkCommandGood(d, revision, None, Acknowledged, Projected);
      case RequeueUncertain(revision) => MarkCommandGood(d, revision, None, CommandUncertain, RetryableError);
      case Resume(claim) => ResumeUncertainGood(d, claim);
      case Reconciled(version) => MarkTerminalReconciledGood(d, version);
      case _ =>
    }
  }

  // ----- all runs

  ghost predicate Inv(s: State) {
    DbInv(s.db) && forall w :: w in s.pcs ==> LocalInv(s.db, s.pcs[w])
  }

  lemma OthersStable(s: State, d': Db, w: nat, pc': Pc)
    requires Inv(s) && Good(s.db, d') && LocalInv(d', pc')
    ensures Inv(State(d', s.pcs[w := pc']))
  {
    forall v | v in s.pcs && v != w ensures LocalInv(d', s.pcs[v]) {
      LocalStable(s.db, d', s.pcs[v]);
    }
  }

  lemma IdleKnown(s: State, w: nat)
    requires Inv(s)
    ensures LocalInv(s.db, PcOf(s, w))
  {
  }

  lemma WorkSafe(cfg: Config, s: State, w: nat, a: Action)
    requires Inv(s)
    ensures Safe(s.db, Exec(cfg, s.db, PcOf(s, w), a))
  {
    hide LocalInv, Safe, Exec;
    IdleKnown(s, w);
    ExecSafe(cfg, s.db, PcOf(s, w), a);
  }

  lemma EnvStable(s: State, d': Db)
    requires Inv(s) && Good(s.db, d')
    ensures Inv(s.(db := d'))
  {
    hide LocalInv, Evolves;
    forall v | v in s.pcs ensures LocalInv(d', s.pcs[v]) {
      LocalStable(s.db, d', s.pcs[v]);
    }
  }

  lemma NextSafe(cfg: Config, s: State, e: Event)
    requires Inv(s)
    ensures Inv(Next(cfg, s, e)) && Evolves(s.db, Next(cfg, s, e).db)
  {
    hide Exec, Unwind, LocalInv, DbInv, Evolves, EnvStep, PcOf;
    match e {
      case Work(w, a) =>
        WorkSafe(cfg, s, w, a);
        var r := Exec(cfg, s.db, PcOf(s, w), a);
        OthersStable(s, r.0, w, r.1);
      case LostReply(w, a, kind) =>
        WorkSafe(cfg, s, w, a);
        var d' := Exec(cfg, s.db, PcOf(s, w), a).0;
        UnwindSafe(d', PcOf(s, w), kind);
        OthersStable(s, d', w, Unwind(PcOf(s, w), kind));
      case Crash(w) =>
        StayGood(s.db);
        UnwindSafe(s.db, Idle, ToApplying);
        OthersStable(s, s.db, w, Idle);
      case _ =>
        EnvSafe(s.db, e);
        EnvStable(s, EnvStep(s.db, e));
    }
  }

  lemma InitInv(s: State)
    requires Init(s)
    ensures Inv(s)
  {
    assert s.db.ids[0] in s.db.ids;
  }

  lemma {:induction false} RunInv(cfg: Config, s: State, es: seq<Event>)
    requires Init(s)
    ensures Inv(Run(cfg, s, es))
    decreases |es|
  {
    if es == [] {
      InitInv(s);
    } else {
      RunInv(cfg, s, es[..|es| - 1]);
      NextSafe(cfg, Run(cfg, s, es[..|es| - 1]), es[|es| - 1]);
    }
  }

  /** Any later state of a run is a legal successor of any earlier one. */
  lemma {:induction false} RunEvolves(cfg: Config, s: State, es: seq<Event>, i: nat)
    requires Init(s) && i <= |es|
    ensures Evolves(Run(cfg, s, es[..i]).db, Run(cfg, s, es).db)
    decreases |es|
  {
    hide DbInv, Evolves, LocalInv, Next, Init;
    RunInv(cfg, s, es);
    if i == |es| {
      assert es[..i] == es;
      StayGood(Run(cfg, s, es).db);
    } else {
      var n := |es| - 1;
      RunInv(cfg, s, es[..n]);
      RunEvolves(cfg, s, es[..n], i);
      assert es[..n][..i] == es[..i];
      NextSafe(cfg, Run(cfg, s, es[..n]), es[n]);
      EvolvesTransitive(Run(cfg, s, es[..i]).db, Run(cfg, s, es[..n]).db, Run(cfg, s, es).db);
    }
  }
}
