/** What a worker recording a batch has made durable so far, under any
    interference of other batches, repairs, applications and the reconciler
    (`handle_batch_response` in backend/approval/application.py). */
module HitlBatch {
  import opened HitlStore
  import opened HitlInvariant
  import opened HitlProtocol
  import opened HitlSafety
  import opened Wrappers

  /** Member `k` durably holds this batch's own, non-blank text. */
  ghost predicate Holds(d: Db, answers: map<RequestId, string>, k: nat) {
    && k < |d.ids| && d.ids[k] in answers && answers[d.ids[k]] != ""
    && d.ids[k] in d.rows && d.rows[d.ids[k]].userInput == Some(answers[d.ids[k]])
  }

  /** The first `k` members do, and the aggregate references them. */
  ghost predicate Recorded(d: Db, answers: map<RequestId, string>, k: nat) {
    k <= |d.ids| && forall i :: 0 <= i < k ==> Holds(d, answers, i) && d.ids[i] in d.inter.answerIds
  }

  predicate Whole(ids: seq<RequestId>, answers: map<RequestId, string>) {
    answers.Keys == set id | id in ids
  }

  predicate MidMember(pc: Pc) {
    pc.BatchReread? || pc.BatchCompare? || pc.BatchRecord? || pc.BatchLost?
  }

  ghost predicate RowsRead(rows: seq<Row>) {
    forall k :: 0 <= k < |rows| ==> RowOk(rows[k])
  }

  /** A worker that failed to claim a row for its answer, or read it as pending
      after that, never sees it answered. */
  ghost predicate ClaimFailed(d: Db, pc: Pc)
    requires MidMember(pc)
  {
    pc.BatchReread? || (pc.BatchCompare? && pc.row.status == Pending) ==>
      && pc.k < |d.ids| && d.ids[pc.k] in d.rows
      && ((pc.BatchReread? && d.rows[d.ids[pc.k]].status != Pending) || Unanswerable(d.rows[d.ids[pc.k]], d.now))
  }

  ghost predicate BatchInv(d: Db, pc: Pc)
    requires Batching(pc)
  {
    && Whole(d.ids, pc.answers)
    && (pc.BatchCompare? ==> RowOk(pc.row))
    && if pc.BatchRead? then |pc.got| <= |d.ids| && RowsRead(pc.got)
       else
         && |pc.rows| == |d.ids| && RowsRead(pc.rows) && Recorded(d, pc.answers, pc.k)
         && (MidMember(pc) ==> pc.k < |d.ids| && d.ids[pc.k] in pc.answers && pc.answers[d.ids[pc.k]] != "")
         && (MidMember(pc) ==> ClaimFailed(d, pc))
         && (pc.BatchRecord? || pc.BatchLost? ==> Holds(d, pc.answers, pc.k))
  }

  // ----- stability

  lemma HoldsStable(d: Db, d': Db, answers: map<RequestId, string>, k: nat)
    requires Evolves(d, d') && Holds(d, answers, k)
    ensures Holds(d', answers, k)
  {
    assert RowEvolves(d.rows[d.ids[k]], d'.rows[d.ids[k]]);
  }

  lemma ReferenceStable(d: Db, d': Db, id: RequestId)
    requires Evolves(d, d') && id in d.inter.answerIds
    ensures id in d'.inter.answerIds
  {
    var k :| 0 <= k < |d.inter.answerIds| && d.inter.answerIds[k] == id;
    assert d'.inter.answerIds[k] == id;
  }

  lemma RecordedStable(d: Db, d': Db, answers: map<RequestId, string>, k: nat)
    requires Evolves(d, d') && d'.ids == d.ids && Recorded(d, answers, k)
    ensures Recorded(d', answers, k)
  {
    hide Evolves, Holds;
    forall i | 0 <= i < k ensures Holds(d', answers, i) && d'.ids[i] in d'.inter.answerIds {
      HoldsStable(d, d', answers, i);
      ReferenceStable(d, d', d.ids[i]);
    }
  }

  lemma IdsStay(d: Db, d': Db)
    requires Evolves(d, d')
    ensures d'.ids == d.ids
  {
  }

  lemma ClaimFailedStable(d: Db, d': Db, pc: Pc)
    requires Evolves(d, d') && MidMember(pc) && ClaimFailed(d, pc)
    ensures ClaimFailed(d', pc)
  {
    if pc.k < |d.ids| && d.ids[pc.k] in d.rows {
      assert RowEvolves(d.rows[d.ids[pc.k]], d'.rows[d.ids[pc.k]]);
    }
  }

  lemma BatchStable(d: Db, d': Db, pc: Pc)
    requires Evolves(d, d') && Batching(pc) && BatchInv(d, pc)
    ensures BatchInv(d', pc)
  {
    hide Evolves, Holds, Recorded, ClaimFailed;
    IdsStay(d, d');
    if MidMember(pc) {
      ClaimFailedStable(d, d', pc);
    }
    if !pc.BatchRead? {
      RecordedStable(d, d', pc.answers, pc.k);
      if pc.BatchRecord? || pc.BatchLost? {
        HoldsStable(d, d', pc.answers, pc.k);
      }
    }
  }

  lemma RecordedNext(d: Db, answers: map<RequestId, string>, k: nat)
    requires Recorded(d, answers, k) && Holds(d, answers, k) && d.ids[k] in d.inter.answerIds
    ensures Recorded(d, answers, k + 1)
  {
  }

  // ----- steps

  /** What a step has to show of the control point it leads to. */
  ghost predicate Kept(r: (Db, Pc)) {
    Batching(r.1) ==> BatchInv(r.0, r.1)
  }

  lemma MemberOk(d: Db, k: nat)
    requires DbInv(d) && k < |d.ids|
    ensures d.ids[k] in d.rows && RowOk(d.rows[d.ids[k]])
  {
  }

  lemma ReadKept(d: Db, pc: Pc, a: Action)
    requires DbInv(d) && pc.BatchRead? && BatchInv(d, pc)
    ensures Kept(BatchStep(d, pc, a))
  {
    if |pc.got| < |d.ids| {
      MemberOk(d, |pc.got|);
    }
    hide DbInv, Whole, RowOk, Holds;
  }

  lemma ClaimKept(d: Db, answers: map<RequestId, string>, rows: seq<Row>, k: nat)
    requires DbInv(d) && Recorded(d, answers, k) && k < |d.ids| && d.ids[k] in answers && answers[d.ids[k]] != ""
    ensures var (d', won) := ClaimRow(d, d.ids[k], answers[d.ids[k]], OfText(answers[d.ids[k]]));
            && d'.ids == d.ids && Recorded(d', answers, k) && (won ==> Holds(d', answers, k))
            && (!won ==> d' == d && ClaimFailed(d, BatchReread(answers, rows, k)))
  {
    hide DbInv, Evolves, Recorded;
    var text := answers[d.ids[k]];
    MemberOk(d, k);
    ClaimRowGood(d, d.ids[k], text);
    var d' := ClaimRow(d, d.ids[k], text, OfText(text)).0;
    IdsStay(d, d');
    RecordedStable(d, d', answers, k);
  }

  lemma RowKept(d: Db, pc: Pc, a: Action)
    requires DbInv(d) && pc.BatchRow? && BatchInv(d, pc)
    ensures Kept(BatchStep(d, pc, a))
  {
    hide DbInv, Recorded, Holds, RowOk, RowsRead, Whole, ClaimRow;
    if pc.k < |d.ids| && d.ids[pc.k] in pc.answers && pc.answers[d.ids[pc.k]] != "" {
      ClaimKept(d, pc.answers, pc.rows, pc.k);
      RowOf(d, pc);
    }
  }

  lemma RowOf(d: Db, pc: Pc)
    requires pc.BatchRow? && BatchInv(d, pc) && pc.k < |pc.rows|
    ensures RowOk(pc.rows[pc.k])
  {
  }

  lemma CompareKept(d: Db, pc: Pc, a: Action)
    requires DbInv(d) && (pc.BatchReread? || pc.BatchCompare?) && BatchInv(d, pc) && RecordingInv(d, pc)
    ensures Kept(BatchStep(d, pc, a))
  {
    hide Recorded, Seen, DbInv, RowOk, RowsRead, Whole;
    MemberOk(d, pc.k);
  }

  lemma RecordKept(d: Db, pc: Pc, a: Action)
    requires DbInv(d) && pc.BatchRecord? && BatchInv(d, pc) && RecordingInv(d, pc)
    ensures Kept(BatchStep(d, pc, a))
  {
    hide Recorded, Holds, Seen, DbInv, Evolves, RowOk, RowsRead;
    var k, answers := pc.k, pc.answers;
    var digest := OfText(answers[d.ids[k]]);
    RecordAnswerGood(d, d.ids[k], digest);
    var (d', recorded) := RecordAnswer(d, d.ids[k], digest);
    IdsStay(d, d');
    RecordedStable(d, d', answers, k);
    HoldsStable(d, d', answers, k);
    if recorded {
      ReferencedBy(d, d.ids[k], digest);
      RecordedNext(d', answers, k);
    }
  }

  lemma ReferencedBy(d: Db, id: RequestId, digest: Digest)
    requires RecordAnswer(d, id, digest).1
    ensures id in RecordAnswer(d, id, digest).0.inter.answerIds
  {
  }

  lemma BatchKept(d: Db, pc: Pc, a: Action)
    requires DbInv(d) && Batching(pc) && BatchInv(d, pc) && RecordingInv(d, pc)
    ensures Kept(BatchStep(d, pc, a))
  {
    hide DbInv, BatchStep, BatchInv, RecordingInv, Kept;
    if pc.BatchRead? {
      ReadKept(d, pc, a);
    } else if pc.BatchRow? {
      RowKept(d, pc, a);
    } else if pc.BatchReread? || pc.BatchCompare? {
      CompareKept(d, pc, a);
    } else if pc.BatchRecord? {
      RecordKept(d, pc, a);
    } else {
      LostKept(d, pc, a);
    }
  }

  lemma LostKept(d: Db, pc: Pc, a: Action)
    requires pc.BatchLost? && BatchInv(d, pc)
    ensures Kept(BatchStep(d, pc, a))
  {
    if d.ids[pc.k] in d.inter.answerIds {
      RecordedNext(d, pc.answers, pc.k);
    }
    hide Recorded, Holds, RowOk;
  }

  lemma RepairNeverBatches(d: Db, pc: Pc, a: Action)
    requires pc.RepairRead? || pc.RepairRow? || pc.RepairLost?
    ensures !Batching(RepairStep(d, pc, a).1)
  {
    hide RecordAnswer, LookupRef;
  }

  lemma FinalizeNeverBatches(d: Db, pc: Pc, a: Action)
    requires Finalizing(pc)
    ensures !Batching(FinalizeStep(d, pc, a).1)
  {
    hide RowsAccepted, RowLines, RespondRow, SetProjected;
  }

  lemma SuperviseNeverBatches(d: Db, pc: Pc, a: Action)
    requires Supervising(pc)
    ensures !Batching(SuperviseStep(d, pc, a).1)
  {
    hide CreateCommand, MarkCommand, ClaimCommand, RenewCommand, RenewApplication;
  }

  /** Only `StartBatch` opens a batch. */
  lemma NotBatching(cfg: Config, d: Db, pc: Pc, a: Action)
    requires !Batching(pc) && !(pc.Idle? && a.StartBatch?)
    ensures !Batching(Exec(cfg, d, pc, a).1)
  {
    hide RepairStep, FinalizeStep, SuperviseStep, ClaimApplication, ClaimProjection, MarkProjection, MarkApplication;
    if a.Raise? || pc.Idle? {
    } else if pc.RepairRead? || pc.RepairRow? || pc.RepairLost? {
      RepairNeverBatches(d, pc, a);
    } else if Finalizing(pc) {
      FinalizeNeverBatches(d, pc, a);
    } else if Supervising(pc) {
      SuperviseNeverBatches(d, pc, a);
    }
  }

  lemma ExecBatch(cfg: Config, d: Db, pc: Pc, a: Action)
    requires Batching(pc)
    ensures Exec(cfg, d, pc, a) == if a.Raise? then (d, Idle) else BatchStep(d, pc, a)
  {
    hide BatchStep, RepairStep, FinalizeStep, SuperviseStep, FinishStep, IdleStep;
  }

  lemma OpenKept(cfg: Config, d: Db, a: Action)
    requires a.StartBatch?
    ensures Kept(Exec(cfg, d, Idle, a))
  {
    hide BatchStep, RepairStep, FinalizeStep, SuperviseStep, FinishStep, Recorded;
  }

  lemma ExecKept(cfg: Config, d: Db, pc: Pc, a: Action)
    requires DbInv(d) && LocalInv(d, pc) && (Batching(pc) ==> BatchInv(d, pc))
    ensures Kept(Exec(cfg, d, pc, a))
  {
    hide Exec, BatchStep, DbInv, BatchInv, RecordingInv, FinalizingInv, SupervisingInv, Delivered;
    if Batching(pc) {
      ExecBatch(cfg, d, pc, a);
      BatchKept(d, pc, a);
    } else if pc.Idle? && a.StartBatch? {
      OpenKept(cfg, d, a);
    } else {
      NotBatching(cfg, d, pc, a);
    }
  }

  // ----- all runs

  ghost predicate BatchesInv(s: State) {
    forall w :: w in s.pcs && Batching(s.pcs[w]) ==> BatchInv(s.db, s.pcs[w])
  }

  lemma OthersKept(s: State, d': Db, w: nat, pc': Pc)
    requires BatchesInv(s) && Evolves(s.db, d') && Kept((d', pc'))
    ensures BatchesInv(State(d', s.pcs[w := pc']))
  {
    hide BatchInv, Evolves;
    forall v | v in s.pcs && v != w && Batching(s.pcs[v]) ensures BatchInv(d', s.pcs[v]) {
      BatchStable(s.db, d', s.pcs[v]);
    }
  }

  lemma UnwindEnds(pc: Pc, kind: Outcome)
    ensures !Batching(Unwind(pc, kind))
  {
  }

  lemma WorkKept(cfg: Config, s: State, w: nat, a: Action)
    requires Inv(s) && BatchesInv(s)
    ensures Kept(Exec(cfg, s.db, PcOf(s, w), a)) && Evolves(s.db, Exec(cfg, s.db, PcOf(s, w), a).0)
  {
    hide LocalInv, BatchInv, Exec, DbInv, Evolves;
    IdleKnown(s, w);
    ExecSafe(cfg, s.db, PcOf(s, w), a);
    ExecKept(cfg, s.db, PcOf(s, w), a);
  }

  lemma BatchesKept(cfg: Config, s: State, e: Event)
    requires Inv(s) && BatchesInv(s)
    ensures BatchesInv(Next(cfg, s, e))
  {
    hide Exec, Unwind, LocalInv, DbInv, Evolves, EnvStep, PcOf, BatchInv;
    match e {
      case Work(w, a) =>
        WorkKept(cfg, s, w, a);
        OthersKept(s, Exec(cfg, s.db, PcOf(s, w), a).0, w, Exec(cfg, s.db, PcOf(s, w), a).1);
      case LostReply(w, a, kind) =>
        WorkKept(cfg, s, w, a);
        UnwindEnds(PcOf(s, w), kind);
        OthersKept(s, Exec(cfg, s.db, PcOf(s, w), a).0, w, Unwind(PcOf(s, w), kind));
      case Crash(w) =>
        StayGood(s.db);
        OthersKept(s, s.db, w, Idle);
      case _ =>
        EnvSafe(s.db, e);
        EnvKept(s, EnvStep(s.db, e));
    }
  }

  lemma EnvKept(s: State, d': Db)
    requires BatchesInv(s) && Evolves(s.db, d')
    ensures BatchesInv(s.(db := d'))
  {
    hide BatchInv, Evolves;
    forall v | v in s.pcs && Batching(s.pcs[v]) ensures BatchInv(d', s.pcs[v]) {
      BatchStable(s.db, d', s.pcs[v]);
    }
  }

  lemma {:induction false} RunBatches(cfg: Config, s: State, es: seq<Event>)
    requires Init(s)
    ensures BatchesInv(Run(cfg, s, es))
    decreases |es|
  {
    if es != [] {
      hide Next, Inv, BatchesInv;
      RunBatches(cfg, s, es[..|es| - 1]);
      RunInv(cfg, s, es[..|es| - 1]);
      BatchesKept(cfg, Run(cfg, s, es[..|es| - 1]), es[|es| - 1]);
    }
  }

  // ----- a batch whose answers are all recorded already

  /** The rounds a worker of this batch still needs when nothing stops it. */
  function Left(n: nat, pc: Pc): int
    requires Batching(pc)
  {
    if pc.BatchRead? then 6 * n + 1 - |pc.got|
    else 5 * (n - pc.k) - (if pc.BatchRow? then 0 else if pc.BatchReread? then 1 else if pc.BatchCompare? then 2
                           else if pc.BatchRecord? then 3 else 4)
  }

  /** The one write of a batch that finds its deadline passed. */
  predicate ComesTooLate(d: Db, pc: Pc) {
    pc.BatchRead? && |pc.got| >= |d.ids| && !Live(d.inter.expiresAt, d.now)
  }

  /** Recording them again writes nothing, whatever the worker has read, unless
      it comes too late; then it expires an interaction nobody has claimed yet. */
  lemma RecordedChangesNothing(d: Db, pc: Pc, a: Action)
    requires DbInv(d) && Batching(pc) && Recorded(d, pc.answers, |d.ids|) && (MidMember(pc) ==> pc.k < |d.ids|)
    ensures BatchStep(d, pc, a).0
         == if ComesTooLate(d, pc) && d.inter.status == AnswersRecorded
            then d.(inter := BatchStep(d, pc, a).0.inter) else d
    ensures ComesTooLate(d, pc) && d.inter.status == AnswersRecorded ==>
      BatchStep(d, pc, a).0.inter.status == Expired
  {
    AllRecorded(d, pc.answers);
    if !pc.BatchRead? && pc.k < |d.ids| {
      assert Holds(d, pc.answers, pc.k) && d.ids[pc.k] in d.inter.answerIds;
      assert RowOk(d.rows[d.ids[pc.k]]);
    }
  }

  lemma AllRecorded(d: Db, answers: map<RequestId, string>)
    requires DbInv(d) && Recorded(d, answers, |d.ids|)
    ensures !Collecting(d.inter.status)
  {
    forall id | id in d.ids ensures id in d.inter.answerIds {
      var k :| 0 <= k < |d.ids| && d.ids[k] == id;
      assert Holds(d, answers, k) && d.ids[k] in d.inter.answerIds;
    }
  }

  ghost predicate GoesOn(d: Db, pc: Pc, pc': Pc)
    requires Batching(pc)
  {
    Batching(pc') && pc'.answers == pc.answers && 0 <= Left(|d.ids|, pc') < Left(|d.ids|, pc)
  }

  predicate Through(d: Db, pc: Pc) { pc.BatchRow? && pc.k >= |d.ids| }

  lemma AnsweredMember(d: Db, answers: map<RequestId, string>, k: nat)
    requires DbInv(d) && Recorded(d, answers, |d.ids|) && k < |d.ids| && !Ended(d.inter.status)
    ensures Holds(d, answers, k) && d.ids[k] in d.inter.answerIds
    ensures d.rows[d.ids[k]].status != Pending && !RowTerminal(d.rows[d.ids[k]])
    ensures d.rows[d.ids[k]].answerDigest == Some(OfText(answers[d.ids[k]]))
  {
    assert RowOk(d.rows[d.ids[k]]) && !RowTerminal(d.rows[d.ids[k]]);
  }

  /** A row read at any time cannot disagree with the recorded answer. */
  lemma SnapshotAgrees(d: Db, answers: map<RequestId, string>, k: nat, row: Row)
    requires DbInv(d) && Recorded(d, answers, |d.ids|) && k < |d.ids| && !Ended(d.inter.status)
    requires RowOk(row) && RowEvolves(row, d.rows[d.ids[k]])
    ensures !RowTerminal(row)
    ensures row.status != Pending ==> row.userInput == Some(answers[d.ids[k]])
    ensures row.userInput.Some? ==>
      && (row.status == AnswerRecorded || row.status == Responded)
      && row.userInput == Some(answers[d.ids[k]]) && row.answerDigest == Some(OfText(answers[d.ids[k]]))
  {
    AnsweredMember(d, answers, k);
  }

  lemma RowGoesOn(d: Db, pc: Pc, a: Action)
    requires DbInv(d) && pc.BatchRow? && BatchInv(d, pc) && RecordingInv(d, pc) && pc.k < |d.ids|
    requires Recorded(d, pc.answers, |d.ids|) && !Ended(d.inter.status)
    ensures GoesOn(d, pc, BatchStep(d, pc, a).1)
  {
    hide DbInv, Recorded, Seen, Whole, RowOk, RowsRead, RowEvolves, Ended, BatchInv;
    AnsweredMember(d, pc.answers, pc.k);
    RowLength(d, pc);
    SeenAt(d, pc.rows, pc.k);
    RowOf(d, pc);
    SnapshotAgrees(d, pc.answers, pc.k, pc.rows[pc.k]);
  }

  lemma RowLength(d: Db, pc: Pc)
    requires Batching(pc) && BatchInv(d, pc) && !pc.BatchRead?
    ensures |pc.rows| == |d.ids| && pc.k <= |d.ids| && (MidMember(pc) ==> pc.k < |d.ids|)
    ensures pc.BatchCompare? ==> RowOk(pc.row)
  {
  }

  /** An answered row was not read as pending after a failed claim. */
  lemma ComparesAnswered(d: Db, pc: Pc)
    requires pc.BatchCompare? && BatchInv(d, pc) && Holds(d, pc.answers, pc.k)
    ensures pc.row.status != Pending
  {
  }

  lemma CompareGoesOn(d: Db, pc: Pc, a: Action)
    requires DbInv(d) && (pc.BatchReread? || pc.BatchCompare?) && BatchInv(d, pc) && RecordingInv(d, pc)
    requires Recorded(d, pc.answers, |d.ids|) && !Ended(d.inter.status)
    ensures GoesOn(d, pc, BatchStep(d, pc, a).1)
  {
    hide DbInv, Recorded, Seen, Whole, RowOk, RowsRead, RowEvolves, Ended, BatchInv;
    RowLength(d, pc);
    AnsweredMember(d, pc.answers, pc.k);
    if pc.BatchCompare? {
      ComparesAnswered(d, pc);
      SnapshotAgrees(d, pc.answers, pc.k, pc.row);
    }
  }

  lemma RecordGoesOn(d: Db, pc: Pc, a: Action)
    requires DbInv(d) && (pc.BatchRecord? || pc.BatchLost?) && BatchInv(d, pc)
    requires Recorded(d, pc.answers, |d.ids|) && !Ended(d.inter.status)
    ensures GoesOn(d, pc, BatchStep(d, pc, a).1)
  {
    hide DbInv, Recorded, Whole, RowOk, RowsRead, Ended, BatchInv;
    RowLength(d, pc);
    AnsweredMember(d, pc.answers, pc.k);
  }

  lemma ReadGoesOn(d: Db, pc: Pc, a: Action)
    requires DbInv(d) && pc.BatchRead? && |pc.got| <= |d.ids| && !ComesTooLate(d, pc)
    ensures GoesOn(d, pc, BatchStep(d, pc, a).1)
  {
    if |pc.got| < |d.ids| {
      MemberOk(d, |pc.got|);
    }
    hide DbInv, RowOk;
  }

  /** And until the interaction ends each step brings it closer to the end. */
  lemma RecordedGoesOn(d: Db, pc: Pc, a: Action)
    requires DbInv(d) && Batching(pc) && BatchInv(d, pc) && RecordingInv(d, pc)
    requires Recorded(d, pc.answers, |d.ids|) && !Ended(d.inter.status) && !Through(d, pc) && !ComesTooLate(d, pc)
    ensures GoesOn(d, pc, BatchStep(d, pc, a).1)
  {
    hide DbInv, BatchStep, RecordingInv, GoesOn, Recorded, RowsRead, Whole, RowOk, ComesTooLate;
    if pc.BatchRead? {
      ReadGoesOn(d, pc, a);
    } else if pc.BatchRow? {
      RowGoesOn(d, pc, a);
    } else if pc.BatchReread? || pc.BatchCompare? {
      CompareGoesOn(d, pc, a);
    } else {
      RecordGoesOn(d, pc, a);
    }
  }
}
