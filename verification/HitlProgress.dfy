/** Progress: which submissions can still be recorded, and that a recorded one
    can be applied. The other theorems say what a run never does; these say that
    the runs that matter exist. */
module HitlProgress {
  import opened HitlStore
  import opened HitlInvariant
  import opened HitlProtocol
  import opened HitlSafety
  import opened HitlBatch
  import opened HitlRecovery
  import T = HitlTheorems
  import opened Wrappers

  /** Member `k` already holds the submitted text, or is open for it. */
  ghost predicate Takes(d: Db, answers: map<RequestId, string>, k: nat) {
    && k < |d.ids| && d.ids[k] in answers && answers[d.ids[k]] != "" && d.ids[k] in d.rows
    && (d.rows[d.ids[k]].userInput == Some(answers[d.ids[k]])
        || (d.rows[d.ids[k]].status == Pending && Live(d.rows[d.ids[k]].expiresAt, d.now)))
  }

  ghost predicate AllTake(d: Db, answers: map<RequestId, string>) {
    forall k :: 0 <= k < |d.ids| ==> Takes(d, answers, k)
  }

  ghost predicate Accepting(d: Db, answers: map<RequestId, string>) {
    StillOpen(d) && AllTake(d, answers)
  }

  /** Where a worker that nobody disturbs can be in its batch. */
  predicate Steady(pc: Pc) {
    Batching(pc) && !pc.BatchLost? && (pc.BatchCompare? ==> pc.row.status != Pending)
  }

  ghost predicate Advances(d: Db, pc: Pc, r: (Db, Pc))
    requires Batching(pc)
  {
    && r.0.ids == d.ids && GoesOn(d, pc, r.1) && Steady(r.1) && Accepting(r.0, pc.answers)
  }

  // ----- one step

  lemma ReadAdvances(d: Db, pc: Pc)
    requires DbInv(d) && pc.BatchRead? && BatchInv(d, pc) && Accepting(d, pc.answers)
    ensures Advances(d, pc, BatchStep(d, pc, Go))
  {
    ReadGoesOn(d, pc, Go);
    hide DbInv, AllTake, Whole, RowsRead, GoesOn;
    if |pc.got| < |d.ids| {
      MemberOk(d, |pc.got|);
    }
  }

  lemma ClaimTakes(d: Db, answers: map<RequestId, string>, k: nat)
    requires Accepting(d, answers) && k < |d.ids| && d.ids[k] in answers
    ensures var d' := ClaimRow(d, d.ids[k], answers[d.ids[k]], OfText(answers[d.ids[k]])).0;
            d'.ids == d.ids && Accepting(d', answers)
  {
    assert Takes(d, answers, k);
    var d' := ClaimRow(d, d.ids[k], answers[d.ids[k]], OfText(answers[d.ids[k]])).0;
    forall j | 0 <= j < |d.ids| ensures Takes(d', answers, j) {
      assert Takes(d, answers, j);
    }
  }

  /** A row that left Pending before holds the submitted text now. */
  lemma TakenRow(d: Db, answers: map<RequestId, string>, k: nat, row: Row)
    requires DbInv(d) && Accepting(d, answers) && k < |d.ids| && d.ids[k] in answers
    requires d.ids[k] in d.rows && RowOk(row) && RowEvolves(row, d.rows[d.ids[k]]) && row.status != Pending
    ensures row.status == AnswerRecorded || row.status == Responded
    ensures row.userInput == Some(answers[d.ids[k]]) && row.answerDigest == Some(OfText(answers[d.ids[k]]))
  {
    assert Takes(d, answers, k);
    assert RowOk(d.rows[d.ids[k]]) && !RowTerminal(d.rows[d.ids[k]]);
  }

  /** What a worker at a member knows of its row. */
  lemma RowFacts(d: Db, pc: Pc)
    requires DbInv(d) && pc.BatchRow? && BatchInv(d, pc) && RecordingInv(d, pc) && Accepting(d, pc.answers)
    requires pc.k < |d.ids|
    ensures |pc.rows| == |d.ids| && d.ids[pc.k] in pc.answers && pc.answers[d.ids[pc.k]] != ""
    ensures var row := pc.rows[pc.k];
      row.status != Pending ==>
        && (row.status == AnswerRecorded || row.status == Responded)
        && row.userInput == Some(pc.answers[d.ids[pc.k]])
        && row.answerDigest == Some(OfText(pc.answers[d.ids[pc.k]]))
  {
    RowLength(d, pc);
    RowOf(d, pc);
    SeenAt(d, pc.rows, pc.k);
    hide DbInv, Seen, AllTake, RowOk, RowsRead, RowEvolves, Whole, BatchInv;
    MemberTakes(d, pc.answers, pc.k);
    if pc.rows[pc.k].status != Pending {
      TakenRow(d, pc.answers, pc.k, pc.rows[pc.k]);
    }
  }

  lemma MemberTakes(d: Db, answers: map<RequestId, string>, k: nat)
    requires Accepting(d, answers) && k < |d.ids|
    ensures d.ids[k] in answers && answers[d.ids[k]] != ""
  {
    assert Takes(d, answers, k);
  }

  lemma RowAdvances(d: Db, pc: Pc)
    requires DbInv(d) && pc.BatchRow? && BatchInv(d, pc) && RecordingInv(d, pc) && Accepting(d, pc.answers)
    requires pc.k < |d.ids|
    ensures Advances(d, pc, BatchStep(d, pc, Go))
  {
    hide DbInv, RecordingInv, BatchInv, ClaimRow, Accepting;
    RowFacts(d, pc);
    ClaimTakes(d, pc.answers, pc.k);
  }

  lemma RereadAdvances(d: Db, pc: Pc)
    requires DbInv(d) && pc.BatchReread? && BatchInv(d, pc) && Accepting(d, pc.answers)
    ensures Advances(d, pc, BatchStep(d, pc, Go))
  {
    RowLength(d, pc);
    MemberOk(d, pc.k);
    assert ClaimFailed(d, pc) && Takes(d, pc.answers, pc.k);
    hide DbInv, AllTake, RowOk, RowsRead, Whole, BatchInv;
  }

  lemma CompareAdvances(d: Db, pc: Pc)
    requires DbInv(d) && pc.BatchCompare? && Steady(pc) && BatchInv(d, pc) && RecordingInv(d, pc)
    requires Accepting(d, pc.answers)
    ensures Advances(d, pc, BatchStep(d, pc, Go))
  {
    RowLength(d, pc);
    hide DbInv, Seen, AllTake, RowOk, RowsRead, RowEvolves, Whole, BatchInv;
    MemberTakes(d, pc.answers, pc.k);
    TakenRow(d, pc.answers, pc.k, pc.row);
    hide Accepting;
  }

  /** While it collects, before its deadline, a reference can be recorded. */
  lemma RecordAccepts(d: Db, answers: map<RequestId, string>, k: nat)
    requires DbInv(d) && Accepting(d, answers) && k < |d.ids| && d.ids[k] in answers
    ensures var (d', recorded) := RecordAnswer(d, d.ids[k], OfText(answers[d.ids[k]]));
            recorded && d'.ids == d.ids && Accepting(d', answers)
  {
    var d' := RecordAnswer(d, d.ids[k], OfText(answers[d.ids[k]])).0;
    forall j | 0 <= j < |d.ids| ensures Takes(d', answers, j) {
      assert Takes(d, answers, j);
    }
  }

  lemma RecordAdvances(d: Db, pc: Pc)
    requires DbInv(d) && pc.BatchRecord? && BatchInv(d, pc) && Accepting(d, pc.answers)
    ensures Advances(d, pc, BatchStep(d, pc, Go))
  {
    RowLength(d, pc);
    hide DbInv, BatchInv, RecordAnswer, Accepting;
    MemberTakes(d, pc.answers, pc.k);
    RecordAccepts(d, pc.answers, pc.k);
  }

  lemma SubmissionAdvances(d: Db, pc: Pc)
    requires DbInv(d) && Steady(pc) && BatchInv(d, pc) && RecordingInv(d, pc)
    requires Accepting(d, pc.answers) && !Through(d, pc)
    ensures Advances(d, pc, BatchStep(d, pc, Go))
  {
    hide DbInv, BatchStep, RecordingInv, BatchInv, Advances, Accepting;
    if pc.BatchRead? {
      ReadAdvances(d, pc);
    } else if pc.BatchRow? {
      RowAdvances(d, pc);
    } else if pc.BatchReread? {
      RereadAdvances(d, pc);
    } else if pc.BatchCompare? {
      CompareAdvances(d, pc);
    } else {
      RecordAdvances(d, pc);
    }
  }

  // ----- the rest of the batch

  lemma SubmissionStep(cfg: Config, t: State, w: nat)
    requires Inv(t) && BatchesInv(t) && Steady(PcOf(t, w)) && Accepting(t.db, PcOf(t, w).answers)
    requires !Through(t.db, PcOf(t, w))
    ensures var t' := Next(cfg, t, Work(w, Go));
            Inv(t') && BatchesInv(t') && Advances(t.db, PcOf(t, w), (t'.db, PcOf(t', w)))
  {
    IdleKnown(t, w);
    assert BatchInv(t.db, PcOf(t, w)) && RecordingInv(t.db, PcOf(t, w));
    hide Inv, BatchesInv, BatchInv, RecordingInv, LocalInv, Advances, Accepting, Exec, BatchStep, Through;
    NextSafe(cfg, t, Work(w, Go));
    BatchesKept(cfg, t, Work(w, Go));
    ExecBatch(cfg, t.db, PcOf(t, w), Go);
    assert DbInv(t.db) by { InvDb(t); }
    SubmissionAdvances(t.db, PcOf(t, w));
  }

  /** Left alone, a worker whose texts every member takes gets through. */
  lemma Submits(cfg: Config, t: State, w: nat) returns (es: seq<Event>)
    requires Inv(t) && BatchesInv(t) && Steady(PcOf(t, w)) && Accepting(t.db, PcOf(t, w).answers)
    ensures var u := Run(cfg, t, es);
            && Through(u.db, PcOf(u, w)) && PcOf(u, w).answers == PcOf(t, w).answers
            && Accepting(u.db, PcOf(u, w).answers)
    decreases Left(|t.db.ids|, PcOf(t, w))
  {
    hide Inv, BatchesInv, Accepting, Next;
    if Through(t.db, PcOf(t, w)) {
      es := [];
    } else {
      var t' := Next(cfg, t, Work(w, Go));
      SubmissionStep(cfg, t, w);
      var rest := Submits(cfg, t', w);
      RunCons(cfg, t, Work(w, Go), rest);
      es := [Work(w, Go)] + rest;
    }
  }

  lemma {:induction false} RunConcat(cfg: Config, s: State, xs: seq<Event>, ys: seq<Event>)
    ensures Run(cfg, s, xs + ys) == Run(cfg, Run(cfg, s, xs), ys)
    decreases |ys|
  {
    hide Next;
    if ys == [] {
      assert xs + ys == xs;
    } else {
      assert (xs + ys)[..|xs + ys| - 1] == xs + ys[..|ys| - 1];
      RunConcat(cfg, s, xs, ys[..|ys| - 1]);
    }
  }

  // ----- over runs

  /** The worker got this batch through. */
  predicate Submitted(t: State, w: nat, answers: map<RequestId, string>) {
    Through(t.db, PcOf(t, w)) && PcOf(t, w).answers == answers
  }

  /** The rows hold exactly these texts. */
  predicate HoldsTexts(d: Db, answers: map<RequestId, string>) {
    && answers.Keys == (set id | id in d.ids)
    && forall id :: id in d.ids ==> id in d.rows && d.rows[id].userInput == Some(answers[id])
  }

  /** From every reachable state, whatever other workers are doing: an idle
      worker can get this submission through when every member takes it. */
  lemma FirstSubmissionSucceeds(cfg: Config, s: State, es: seq<Event>, w: nat, answers: map<RequestId, string>)
    returns (more: seq<Event>)
    requires Init(s) && PcOf(Run(cfg, s, es), w).Idle?
    requires var d := Run(cfg, s, es).db; Whole(d.ids, answers) && Accepting(d, answers)
    ensures var u := Run(cfg, s, es + more);
            Submitted(u, w, answers) && StillOpen(u.db) && HoldsTexts(u.db, answers)
  {
    var t := Run(cfg, s, es);
    var e := Work(w, StartBatch(answers));
    RunInv(cfg, s, es);
    RunBatches(cfg, s, es);
    StartsBatch(cfg, t, w, answers);
    hide Inv, BatchesInv, DbInv, AllTake, Next, Whole;
    var t' := Next(cfg, t, e);
    var rest := Submits(cfg, t', w);
    RunCons(cfg, t, e, rest);
    more := [e] + rest;
    RunConcat(cfg, s, es, more);
    assert (es + more)[..|es + more|] == es + more;
    T.ThroughIsRecorded(cfg, s, es + more, |es + more|, w);
  }

  /** The worker will not get past the checks that open a batch. */
  predicate ShutOut(t: State, w: nat) {
    || (!Live(t.db.inter.expiresAt, t.db.now) && (Batching(PcOf(t, w)) ==> PcOf(t, w).BatchRead?))
    || (Ended(t.db.inter.status) && !Batching(PcOf(t, w)))
  }

  lemma ShutOutStep(cfg: Config, t: State, e: Event, w: nat)
    requires Inv(t) && ShutOut(t, w)
    ensures ShutOut(Next(cfg, t, e), w)
  {
    hide Inv, Evolves, Next, Exec, Unwind, PcOf, Ended, Live, Batching;
    NextSafe(cfg, t, e);
    StaysShut(t.db, Next(cfg, t, e).db);
    PcAfter(cfg, t, e, w);
    if e.Work? && e.worker == w {
      ShutOutWork(cfg, t.db, PcOf(t, w), e.action);
    } else if e.LostReply? && e.worker == w {
      UnwindEnds(PcOf(t, w), e.kind);
    }
    assert !Batching(Idle) by { IdleNotBatching(); }
  }

  lemma IdleNotBatching()
    ensures !Batching(Idle)
  {
  }

  lemma PcAfter(cfg: Config, t: State, e: Event, w: nat)
    ensures PcOf(Next(cfg, t, e), w)
         == if e.Work? && e.worker == w then Exec(cfg, t.db, PcOf(t, w), e.action).1
            else if e.LostReply? && e.worker == w then Unwind(PcOf(t, w), e.kind)
            else if e == Crash(w) then Idle
            else PcOf(t, w)
  {
    hide Exec, Unwind, EnvStep;
  }

  /** Only an open interaction's worker gets past the reading of its rows. */
  lemma ShutOutWork(cfg: Config, d: Db, pc: Pc, a: Action)
    requires Batching(pc) ==> pc.BatchRead? && !Live(d.inter.expiresAt, d.now)
    ensures var pc' := Exec(cfg, d, pc, a).1;
      Batching(pc') ==> pc'.BatchRead? && (Batching(pc) || !Ended(d.inter.status))
  {
    hide Exec, Ended, Live, Batching;
    if Batching(pc) {
      ExecBatch(cfg, d, pc, a);
      LateBatchStep(d, pc, a);
    } else if pc.Idle? && a.StartBatch? {
      OpensOnlyRead(cfg, d, a);
    } else {
      NotBatching(cfg, d, pc, a);
    }
  }

  lemma LateBatchStep(d: Db, pc: Pc, a: Action)
    requires pc.BatchRead? && !Live(d.inter.expiresAt, d.now)
    ensures var pc' := BatchStep(d, pc, a).1; (Batching(pc') ==> pc'.BatchRead?)
    ensures !Batching(Idle)
  {
  }

  lemma StaysShut(d: Db, d': Db)
    requires Evolves(d, d')
    ensures Ended(d.inter.status) ==> Ended(d'.inter.status)
    ensures !Live(d.inter.expiresAt, d.now) ==> !Live(d'.inter.expiresAt, d'.now)
  {
  }

  lemma OpensOnlyRead(cfg: Config, d: Db, a: Action)
    requires a.StartBatch?
    ensures var pc' := Exec(cfg, d, Idle, a).1; (Batching(pc') ==> pc'.BatchRead? && !Ended(d.inter.status))
    ensures Exec(cfg, d, Idle, a).0 == d
  {
  }

  lemma {:induction false} ShutOutRun(cfg: Config, t: State, es: seq<Event>, w: nat)
    requires Inv(t) && ShutOut(t, w)
    ensures Inv(Run(cfg, t, es)) && ShutOut(Run(cfg, t, es), w)
    decreases |es|
  {
    hide Inv, Next, ShutOut;
    if es != [] {
      ShutOutRun(cfg, t, es[..|es| - 1], w);
      NextSafe(cfg, Run(cfg, t, es[..|es| - 1]), es[|es| - 1]);
      ShutOutStep(cfg, Run(cfg, t, es[..|es| - 1]), es[|es| - 1], w);
    }
  }

  /** Exactly which submissions an idle worker can still get through, from any
      reachable state: the complete ones whose every text its member takes, while
      the interaction is open. */
  lemma SubmissionExact(cfg: Config, s: State, es: seq<Event>, w: nat, answers: map<RequestId, string>)
    requires Init(s) && PcOf(Run(cfg, s, es), w).Idle?
    ensures var t := Run(cfg, s, es);
      Whole(t.db.ids, answers) && Accepting(t.db, answers) <==>
      exists more :: Submitted(Run(cfg, s, es + more), w, answers)
  {
    var t := Run(cfg, s, es);
    hide Submitted, AllTake, Whole, StillOpen;
    if Whole(t.db.ids, answers) && Accepting(t.db, answers) {
      var more := FirstSubmissionSucceeds(cfg, s, es, w, answers);
    }
    forall more | Submitted(Run(cfg, s, es + more), w, answers)
      ensures Whole(t.db.ids, answers) && Accepting(t.db, answers)
    {
      ThroughWasTaken(cfg, s, es, w, more, answers);
      ThroughWasOpen(cfg, s, es, w, more, answers);
    }
  }

  lemma ThroughWasOpen(cfg: Config, s: State, es: seq<Event>, w: nat, more: seq<Event>,
                       answers: map<RequestId, string>)
    requires Init(s) && PcOf(Run(cfg, s, es), w).Idle? && Submitted(Run(cfg, s, es + more), w, answers)
    ensures StillOpen(Run(cfg, s, es).db)
  {
    var t := Run(cfg, s, es);
    RunInv(cfg, s, es);
    RunConcat(cfg, s, es, more);
    hide Run, Init, Inv;
    if !StillOpen(t.db) {
      ShutOutRun(cfg, t, more, w);
    }
  }

  lemma ThroughWasTaken(cfg: Config, s: State, es: seq<Event>, w: nat, more: seq<Event>,
                        answers: map<RequestId, string>)
    requires Init(s) && Submitted(Run(cfg, s, es + more), w, answers)
    ensures Whole(Run(cfg, s, es).db.ids, answers) && AllTake(Run(cfg, s, es).db, answers)
  {
    var all := es + more;
    var d, d' := Run(cfg, s, es).db, Run(cfg, s, all).db;
    assert all[..|es|] == es && all[..|all|] == all;
    T.ThroughIsRecorded(cfg, s, all, |all|, w);
    T.AtEvolves(cfg, s, all, |es|, |all|);
    IdsStay(d, d');
    hide Run, Through, Init, Inv, DbInv, Complete;
    forall k | 0 <= k < |d.ids| ensures Takes(d, answers, k) {
      TookIt(d, d', answers, k);
    }
  }

  lemma TookIt(d: Db, d': Db, answers: map<RequestId, string>, k: nat)
    requires Evolves(d, d') && Recorded(d', answers, |d'.ids|) && k < |d.ids| && |d'.ids| == |d.ids|
    ensures Takes(d, answers, k)
  {
    assert Holds(d', answers, k);
    var id := d.ids[k];
    assert RowEvolves(d.rows[id], d'.rows[id]);
    assert !Unanswerable(d.rows[id], d.now);
  }

  /** From there the answers can be applied: such a submission can reach APPLIED
      with exactly its texts in the rows. */
  lemma AnswersReachApplied(cfg: Config, s: State, es: seq<Event>, w: nat, answers: map<RequestId, string>)
    requires cfg.projectorBound && Init(s) && PcOf(Run(cfg, s, es), w).Idle?
    requires var d := Run(cfg, s, es).db; Whole(d.ids, answers) && Accepting(d, answers)
    ensures exists more :: ReachesWith(cfg, s, es + more, answers)
  {
    hide Run, Init, PcOf, Accepting, Whole, Submitted, StillOpen, HoldsTexts, ReachesWith;
    var more := FirstSubmissionSucceeds(cfg, s, es, w, answers);
    var rest := FromSubmitted(cfg, s, es + more, w, answers);
    assert es + more + rest == es + (more + rest);
  }

  lemma FromSubmitted(cfg: Config, s: State, es: seq<Event>, w: nat, answers: map<RequestId, string>)
    returns (rest: seq<Event>)
    requires cfg.projectorBound && Init(s)
    requires var u := Run(cfg, s, es); Submitted(u, w, answers) && StillOpen(u.db) && HoldsTexts(u.db, answers)
    ensures ReachesWith(cfg, s, es + rest, answers)
  {
    var u := Run(cfg, s, es);
    RunInv(cfg, s, es);
    assert es[..|es|] == es;
    T.ThroughIsRecorded(cfg, s, es, |es|, w);
    RecordedStatus(u.db);
    hide Run, Inv, Init, Through, Complete, Recorded, HoldsTexts;
    if u.db.inter.status != Applied {
      FromAnywhere(cfg, u);
      rest :| Run(cfg, u, rest).db.inter.status == Applied;
      RunConcat(cfg, s, es, rest);
      StillHeld(cfg, s, es, rest, answers);
    } else {
      rest := [];
      assert es + rest == es;
    }
  }

  ghost predicate ReachesWith(cfg: Config, s: State, es: seq<Event>, answers: map<RequestId, string>) {
    Run(cfg, s, es).db.inter.status == Applied && HoldsTexts(Run(cfg, s, es).db, answers)
  }

  lemma RecordedStatus(d: Db)
    requires DbInv(d) && !Ended(d.inter.status) && Complete(d.ids, d.inter.answerIds)
    ensures d.inter.status in {AnswersRecorded, Applying, DeliveryUncertain, Applied}
  {
  }

  lemma StillHeld(cfg: Config, s: State, es: seq<Event>, rest: seq<Event>, answers: map<RequestId, string>)
    requires Init(s) && HoldsTexts(Run(cfg, s, es).db, answers)
    ensures HoldsTexts(Run(cfg, s, es + rest).db, answers)
  {
    var all := es + rest;
    assert all[..|es|] == es && all[..|all|] == all;
    T.AtEvolves(cfg, s, all, |es|, |all|);
    hide Run, Init, Inv;
    TextsStay(Run(cfg, s, es).db, Run(cfg, s, all).db, answers);
  }

  lemma TextsStay(d: Db, d': Db, answers: map<RequestId, string>)
    requires Evolves(d, d') && HoldsTexts(d, answers)
    ensures HoldsTexts(d', answers)
  {
    forall id | id in d'.ids ensures id in d'.rows && d'.rows[id].userInput == Some(answers[id]) {
      assert RowEvolves(d.rows[id], d'.rows[id]);
    }
  }

  /** A fresh questionnaire with live deadlines can be answered with any texts
      and applied with exactly those. */
  lemma FreshReachesApplied(cfg: Config, s: State, answers: map<RequestId, string>)
    requires cfg.projectorBound && Init(s) && Live(s.db.inter.expiresAt, s.db.now)
    requires forall id :: id in s.db.ids ==> Live(s.db.rows[id].expiresAt, s.db.now)
    requires Whole(s.db.ids, answers) && forall id :: id in s.db.ids ==> answers[id] != ""
    ensures exists es :: ReachesWith(cfg, s, es, answers)
  {
    assert Run(cfg, s, []) == s;
    forall k | 0 <= k < |s.db.ids| ensures Takes(s.db, answers, k) {
      assert s.db.ids[k] in s.db.ids;
    }
    AnswersReachApplied(cfg, s, [], 0, answers);
    var more :| ReachesWith(cfg, s, [] + more, answers);
  }

  // ----- a late submission

  /** Reads the rows of its members up to the check of the deadline. */
  lemma LateReads(cfg: Config, t: State, w: nat) returns (es: seq<Event>)
    requires Inv(t) && BatchesInv(t) && PcOf(t, w).BatchRead? && !Live(t.db.inter.expiresAt, t.db.now)
    ensures PcOf(Run(cfg, t, es), w).Idle? && Run(cfg, t, es).db == ExpireInteraction(t.db)
    decreases |t.db.ids| - |PcOf(t, w).got|
  {
    var pc := PcOf(t, w);
    var e := Work(w, Go);
    var t' := Next(cfg, t, e);
    assert BatchInv(t.db, pc);
    InvDb(t);
    LateStep(cfg, t.db, pc);
    hide Inv, BatchesInv, BatchInv, DbInv, ExpireInteraction, Live, Exec;
    if |pc.got| < |t.db.ids| {
      NextSafe(cfg, t, e);
      BatchesKept(cfg, t, e);
      var rest := LateReads(cfg, t', w);
      RunCons(cfg, t, e, rest);
      es := [e] + rest;
    } else {
      es := [e];
      assert es[..0] == [];
      assert Run(cfg, t, es[..0]) == t;
    }
  }

  lemma LateStep(cfg: Config, d: Db, pc: Pc)
    requires DbInv(d) && pc.BatchRead? && !Live(d.inter.expiresAt, d.now)
    ensures Exec(cfg, d, pc, Go)
         == if |pc.got| < |d.ids| then (d, BatchRead(pc.answers, pc.got + [d.rows[d.ids[|pc.got|]]]))
            else (ExpireInteraction(d), Idle)
    ensures |pc.got| < |d.ids| ==> d.ids[|pc.got|] in d.rows
  {
    if |pc.got| < |d.ids| {
      MemberOk(d, |pc.got|);
    }
  }

  /** A submission after the deadline can expire what nobody has claimed yet, and
      records nothing. */
  lemma LateSubmissionExpires(cfg: Config, s: State, es: seq<Event>, w: nat, answers: map<RequestId, string>)
    returns (more: seq<Event>)
    requires Init(s) && PcOf(Run(cfg, s, es), w).Idle? && Whole(Run(cfg, s, es).db.ids, answers)
    requires var d := Run(cfg, s, es).db;
      !Live(d.inter.expiresAt, d.now) && d.inter.status in {Open, PartiallyAnswered, AnswersRecorded}
    ensures var d, d' := Run(cfg, s, es).db, Run(cfg, s, es + more).db;
      d'.inter.status == Expired && d'.rows == d.rows && d'.inter.refs == d.inter.refs
  {
    var t := Run(cfg, s, es);
    var e := Work(w, StartBatch(answers));
    RunInv(cfg, s, es);
    RunBatches(cfg, s, es);
    StartsBatch(cfg, t, w, answers);
    hide Inv, BatchesInv, DbInv, Next, Whole, Run, Init;
    var rest := LateReads(cfg, Next(cfg, t, e), w);
    RunCons(cfg, t, e, rest);
    more := [e] + rest;
    RunConcat(cfg, s, es, more);
  }
}
