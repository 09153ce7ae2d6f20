/** What the answer-application protocol promises, for every run from a freshly
    opened questionnaire: every interleaving, crash, lost reply and clock. */
module HitlTheorems {
  import opened HitlStore
  import opened HitlInvariant
  import opened HitlProtocol
  import opened HitlSafety
  import opened HitlBatch
  import opened Wrappers

  /** The state of a run after its first `i` events. */
  function At(cfg: Config, s: State, es: seq<Event>, i: nat): State
    requires i <= |es|
  {
    Run(cfg, s, es[..i])
  }

  lemma AtEvolves(cfg: Config, s: State, es: seq<Event>, i: nat, j: nat)
    requires Init(s) && i <= j <= |es|
    ensures Inv(At(cfg, s, es, i)) && Inv(At(cfg, s, es, j))
    ensures Evolves(At(cfg, s, es, i).db, At(cfg, s, es, j).db)
  {
    RunInv(cfg, s, es[..i]);
    RunInv(cfg, s, es[..j]);
    RunEvolves(cfg, s, es[..j], i);
    assert es[..j][..i] == es[..i];
  }

  /** The worker has proved both of its claims and its effect may be running or
      have completed. */
  predicate PastFence(pc: Pc) {
    pc.Fenced? || pc.Running? || pc.Beating? || pc.EffectDone?
  }

  // ----- APPLIED

  /** An APPLIED interaction has every member row responded, answered and
      projected, its run projection applied and its revision's command
      projected. */
  lemma AppliedIsComplete(cfg: Config, s: State, es: seq<Event>)
    requires Init(s) && Run(cfg, s, es).db.inter.status == Applied
    ensures var d := Run(cfg, s, es).db;
            && (forall id :: id in d.ids ==>
                  && id in d.rows && d.rows[id].status == Responded
                  && d.rows[id].projected && d.rows[id].userInput.Some?)
            && d.inter.runProjection == ProjectionApplied
            && d.inter.revision in d.cmds && d.cmds[d.inter.revision].status == Projected
  {
    RunInv(cfg, s, es);
    var d := Run(cfg, s, es).db;
    forall id | id in d.ids ensures d.rows[id].userInput.Some? {
      assert RowOk(d.rows[id]);
    }
  }

  ghost predicate NeverProjecting(s: State) {
    s.db.inter.runProjection == ProjectionPending && forall w :: w in s.pcs ==> !s.pcs[w].Projecting?
  }

  predicate Unprojected(r: (Db, Pc)) {
    r.0.inter.runProjection == ProjectionPending && !r.1.Projecting?
  }

  lemma RecordingProjection(d: Db, pc: Pc, a: Action)
    requires d.inter.runProjection == ProjectionPending && Recording(pc)
    ensures Batching(pc) ==> Unprojected(BatchStep(d, pc, a))
    ensures !Batching(pc) ==> Unprojected(RepairStep(d, pc, a))
  {
    hide LookupRef, Complete, Live;
  }

  lemma SupervisingProjection(d: Db, pc: Pc, a: Action)
    requires d.inter.runProjection == ProjectionPending && Supervising(pc)
    ensures Unprojected(SuperviseStep(d, pc, a))
  {
    hide ClaimCommandDoc, RenewCommandDoc, MarkCommandDoc;
  }

  lemma FinalizingProjection(d: Db, pc: Pc, a: Action)
    requires d.inter.runProjection == ProjectionPending && Finalizing(pc)
    ensures Unprojected(FinalizeStep(d, pc, a))
  {
    hide RowsAccepted, RowLines;
  }

  lemma ExecProjection(cfg: Config, d: Db, pc: Pc, a: Action)
    requires !cfg.projectorBound && d.inter.runProjection == ProjectionPending && !pc.Projecting?
    ensures Unprojected(Exec(cfg, d, pc, a))
  {
    hide BatchStep, RepairStep, FinalizeStep, SuperviseStep;
    if a.Raise? || pc.Idle? {
    } else if Recording(pc) {
      RecordingProjection(d, pc, a);
    } else if Finalizing(pc) {
      FinalizingProjection(d, pc, a);
    } else if Supervising(pc) {
      SupervisingProjection(d, pc, a);
    }
  }

  lemma {:induction false} NeverProjectingRun(cfg: Config, s: State, es: seq<Event>)
    requires Init(s) && !cfg.projectorBound
    ensures NeverProjecting(Run(cfg, s, es))
    decreases |es|
  {
    if es != [] {
      hide Exec, Unwind;
      var t, e := Run(cfg, s, es[..|es| - 1]), es[|es| - 1];
      NeverProjectingRun(cfg, s, es[..|es| - 1]);
      if e.Work? || e.LostReply? {
        ExecProjection(cfg, t.db, PcOf(t, e.worker), e.action);
        if e.LostReply? {
          UnwindProjection(PcOf(t, e.worker), e.kind);
        }
      }
    }
  }

  lemma UnwindProjection(pc: Pc, kind: Outcome)
    ensures !Unwind(pc, kind).Projecting?
  {
  }

  /** The store accepts APPLIED only after the run projection, so without a
      bound projector no interaction is ever applied. */
  lemma UnboundNeverApplied(cfg: Config, s: State, es: seq<Event>)
    requires Init(s) && !cfg.projectorBound
    ensures Run(cfg, s, es).db.inter.status != Applied
  {
    RunInv(cfg, s, es);
    NeverProjectingRun(cfg, s, es);
  }

  // ----- the supervisor effect

  lemma {:induction false} LookupMatches(refs: seq<(RequestId, Digest)>, rows: map<RequestId, Row>, id: RequestId)
    requires RefsMatch(refs, rows)
    requires exists k :: 0 <= k < |refs| && refs[k].0 == id
    ensures id in rows && LookupRef(refs, id) == rows[id].answerDigest
    decreases |refs|
  {
    var init := refs[..|refs| - 1];
    if refs[|refs| - 1].0 != id {
      var k :| 0 <= k < |refs| && refs[k].0 == id;
      assert init[k].0 == id;
      assert RefsMatch(init, rows) by {
        forall i | 0 <= i < |init| ensures init[i].0 in rows && rows[init[i].0].answerDigest == Some(init[i].1) {
          assert init[i] == refs[i];
        }
      }
      LookupMatches(init, rows, id);
    } else {
      assert refs[|refs| - 1].0 in rows;
    }
  }

  /** A reference to a member with no later one to it. */
  ghost predicate LastReference(refs: seq<(RequestId, Digest)>, id: RequestId, digest: Digest) {
    exists j :: 0 <= j < |refs| && refs[j] == (id, digest) && forall m :: j < m < |refs| ==> refs[m].0 != id
  }

  lemma {:induction false} LookupIsLast(refs: seq<(RequestId, Digest)>, id: RequestId, digest: Digest)
    ensures LookupRef(refs, id) == Some(digest) <==> LastReference(refs, id, digest)
    decreases |refs|
  {
    if refs != [] {
      var n := |refs| - 1;
      var init := refs[..n];
      LookupIsLast(init, id, digest);
      if refs[n].0 == id {
        if refs[n].1 == digest {
          assert refs[n] == (id, digest);
        }
      } else {
        if LastReference(init, id, digest) {
          var j :| 0 <= j < |init| && init[j] == (id, digest) && forall m :: j < m < |init| ==> init[m].0 != id;
          assert refs[j] == (id, digest);
          forall m | j < m < |refs| ensures refs[m].0 != id {
            if m < n {
              assert init[m] == refs[m];
            }
          }
        }
        if LastReference(refs, id, digest) {
          var j :| 0 <= j < |refs| && refs[j] == (id, digest) && forall m :: j < m < |refs| ==> refs[m].0 != id;
          assert j < n && init[j] == refs[j];
        }
      }
    }
  }

  /** `_request_rows` accepts the rows exactly when there is one for every member,
      each with an answer and the digest of it, each digest is the last reference
      to its member, and every reference is to a member. */
  lemma AcceptedMeans(ids: seq<RequestId>, refs: seq<(RequestId, Digest)>, rows: seq<Row>)
    ensures RowsAccepted(ids, refs, rows) <==>
      && |rows| == |ids| && (forall j :: 0 <= j < |refs| ==> refs[j].0 in ids)
      && forall k :: 0 <= k < |ids| ==>
           && rows[k].userInput.Some? && rows[k].answerDigest == Some(OfText(rows[k].userInput.value))
           && LastReference(refs, ids[k], OfText(rows[k].userInput.value))
  {
    hide LookupRef, LastReference;
    if |rows| == |ids| {
      forall k | 0 <= k < |ids| && rows[k].userInput.Some?
        ensures LookupRef(refs, ids[k]) == Some(OfText(rows[k].userInput.value)) <==>
                LastReference(refs, ids[k], OfText(rows[k].userInput.value))
      {
        LookupIsLast(refs, ids[k], OfText(rows[k].userInput.value));
      }
    }
  }

  /** What the effect is run on: durable answers, their digests, the aggregate's
      references to exactly those and the command computed over them in
      inventory order. */
  ghost predicate EffectInput(d: Db, revision: nat) {
    && (forall id :: id in d.ids ==>
          && id in d.rows && d.rows[id].userInput.Some?
          && d.rows[id].answerDigest == Some(OfText(d.rows[id].userInput.value))
          && LookupRef(d.inter.refs, id) == d.rows[id].answerDigest)
    && (forall k :: 0 <= k < |d.inter.refs| ==> d.inter.refs[k].0 in d.ids)
    && revision in d.cmds
    && d.cmds[revision].requestIds == d.ids
    && d.cmds[revision].answerDigest == OfAnswers(Lines(d.ids, d.rows))
  }

  /** Whenever a worker's effect runs, every answer it is given is durable and
      the aggregate and the command agree with it. */
  lemma EffectRunsOnDurableAnswers(cfg: Config, s: State, es: seq<Event>, w: nat)
    requires Init(s) && PastFence(PcOf(Run(cfg, s, es), w))
    ensures EffectInput(Run(cfg, s, es).db, PcOf(Run(cfg, s, es), w).snap.revision)
  {
    RunInv(cfg, s, es);
    var t := Run(cfg, s, es);
    var d := t.db;
    IdleKnown(t, w);
    EffectInputHolds(d, PcOf(t, w).snap);
  }

  lemma EffectInputHolds(d: Db, snap: Interaction)
    requires DbInv(d) && Journaled(d, snap)
    ensures EffectInput(d, snap.revision)
  {
    CompleteAnswered(d);
    assert CommandOk(d, d.cmds[snap.revision]);
    forall id | id in d.ids
      ensures d.rows[id].answerDigest == Some(OfText(d.rows[id].userInput.value))
      ensures LookupRef(d.inter.refs, id) == d.rows[id].answerDigest
    {
      assert RowOk(d.rows[id]);
      assert id in d.inter.answerIds;
      var k :| 0 <= k < |d.inter.answerIds| && d.inter.answerIds[k] == id;
      assert d.inter.refs[k].0 == id;
      LookupMatches(d.inter.refs, d.rows, id);
    }
  }

  /** The effect identity is derived from the application revision
      (`_supervisor_command_identity`); any two invocations in a run, by any
      workers at any time, carry the same one. */
  lemma OneEffectIdentity(cfg: Config, s: State, es: seq<Event>, i: nat, w: nat, j: nat, v: nat)
    requires Init(s) && i <= j <= |es|
    requires PastFence(PcOf(At(cfg, s, es, i), w)) && PastFence(PcOf(At(cfg, s, es, j), v))
    ensures PcOf(At(cfg, s, es, i), w).snap.revision == PcOf(At(cfg, s, es, j), v).snap.revision
    ensures At(cfg, s, es, j).db.cmds.Keys == {PcOf(At(cfg, s, es, i), w).snap.revision}
  {
    hide DbInv, LocalInv, Evolves;
    AtEvolves(cfg, s, es, i, j);
    FencedRevision(At(cfg, s, es, i), w);
    FencedRevision(At(cfg, s, es, j), v);
  }

  lemma FencedRevision(t: State, w: nat)
    requires Inv(t) && PastFence(PcOf(t, w))
    ensures PcOf(t, w).snap.revision == 1 && t.db.cmds.Keys == {1}
  {
    IdleKnown(t, w);
  }

  /** A worker passes its fence only while the command is DELIVERING under the
      claim it holds and the interaction has started its application. */
  lemma FenceNeedsDelivering(cfg: Config, t: State, e: Event, w: nat)
    requires !PastFence(PcOf(t, w)) && PastFence(PcOf(Next(cfg, t, e), w))
    ensures var pc := PcOf(t, w);
            && pc.FenceCmd? && pc.snap.revision in t.db.cmds
            && t.db.cmds[pc.snap.revision].status == Delivering
            && t.db.cmds[pc.snap.revision].claim == Some(pc.cc)
  {
    match e {
      case Work(v, a) => FenceStep(cfg, t.db, PcOf(t, v), a);
      case _ =>
    }
  }

  lemma RecordingNeverFenced(d: Db, pc: Pc, a: Action)
    requires Recording(pc)
    ensures Batching(pc) ==> !PastFence(BatchStep(d, pc, a).1)
    ensures !Batching(pc) ==> !PastFence(RepairStep(d, pc, a).1)
  {
    hide LookupRef, ClaimRow, RecordAnswer;
  }

  lemma FinalizingNeverFenced(d: Db, pc: Pc, a: Action)
    requires Finalizing(pc)
    ensures !PastFence(FinalizeStep(d, pc, a).1)
  {
    hide RowsAccepted, RowLines, RespondRow, SetProjected;
  }

  lemma FenceStep(cfg: Config, d: Db, pc: Pc, a: Action)
    ensures !PastFence(pc) && PastFence(Exec(cfg, d, pc, a).1) ==>
            pc.FenceCmd? && RenewCommand(d, pc.snap.revision, pc.cc).1
  {
    hide BatchStep, RepairStep, FinalizeStep, CreateCommand, MarkCommand, ClaimCommand, RenewCommand, RenewApplication,
         ClaimProjection, MarkProjection, MarkApplication, ClaimApplication;
    if a.Raise? || pc.Idle? {
    } else if Recording(pc) {
      RecordingNeverFenced(d, pc, a);
    } else if Finalizing(pc) {
      FinalizingNeverFenced(d, pc, a);
    }
  }

  /** Once the command is acknowledged, no worker or reconciler pass gets past
      the fence of that effect again, in any continuation of the run. */
  lemma NoEffectAfterAcknowledgement(cfg: Config, s: State, es: seq<Event>, i: nat, j: nat, w: nat, rev: nat)
    requires Init(s) && i <= j < |es|
    requires rev in At(cfg, s, es, i).db.cmds && Settled(At(cfg, s, es, i).db.cmds[rev])
    requires !PastFence(PcOf(At(cfg, s, es, j), w))
    ensures !PastFence(PcOf(At(cfg, s, es, j + 1), w))
  {
    var t := At(cfg, s, es, j);
    AtEvolves(cfg, s, es, i, j);
    assert es[..j + 1][..j] == es[..j];
    var t' := Next(cfg, t, es[j]);
    assert t' == At(cfg, s, es, j + 1);
    if PastFence(PcOf(t', w)) {
      FenceNeedsDelivering(cfg, t, es[j], w);
      IdleKnown(t, w);
      assert false;
    }
  }

  // ----- the status machine

  /** APPLIED, FAILED, EXPIRED and CANCELED are final, and an application, once
      claimed, is never handed back to answer collection. */
  lemma StatusNeverReturns(cfg: Config, s: State, es: seq<Event>, i: nat, j: nat)
    requires Init(s) && i <= j <= |es|
    ensures var before, after := At(cfg, s, es, i).db.inter.status, At(cfg, s, es, j).db.inter.status;
            && (before == Applied || Ended(before) ==> after == before)
            && (Started(before) ==> Started(after))
  {
    hide DbInv, LocalInv, Run, Init;
    AtEvolves(cfg, s, es, i, j);
  }

  /** No effect runs in an interaction that expired or was canceled, and one
      whose effect has run never expires or is canceled later. */
  lemma ExpiryExcludesEffect(cfg: Config, s: State, es: seq<Event>, i: nat, j: nat, w: nat)
    requires Init(s) && i <= |es| && j <= |es|
    requires PastFence(PcOf(At(cfg, s, es, i), w))
    ensures At(cfg, s, es, j).db.inter.status != Expired && At(cfg, s, es, j).db.inter.status != Canceled
  {
    FencedStarted(cfg, s, es, i, w);
    if i <= j {
      StatusNeverReturns(cfg, s, es, i, j);
    } else {
      StatusNeverReturns(cfg, s, es, j, i);
    }
  }

  lemma FencedStarted(cfg: Config, s: State, es: seq<Event>, i: nat, w: nat)
    requires Init(s) && i <= |es| && PastFence(PcOf(At(cfg, s, es, i), w))
    ensures Started(At(cfg, s, es, i).db.inter.status)
  {
    hide DbInv, Evolves, AllProjected;
    AtEvolves(cfg, s, es, i, i);
    IdleKnown(At(cfg, s, es, i), w);
  }

  /** The rollback of `apply_interaction` is dead code. */
  lemma RollbackUnreachable(cfg: Config, s: State, es: seq<Event>, w: nat)
    requires Init(s)
    ensures !PcOf(Run(cfg, s, es), w).Rollback?
  {
    RunInv(cfg, s, es);
    IdleKnown(Run(cfg, s, es), w);
  }

  // ----- answers

  /** A recorded answer keeps its text and digest for ever, and the aggregate
      never drops or rewrites a reference. */
  lemma AnswersWriteOnce(cfg: Config, s: State, es: seq<Event>, i: nat, j: nat, id: RequestId)
    requires Init(s) && i <= j <= |es|
    requires id in At(cfg, s, es, i).db.rows && At(cfg, s, es, i).db.rows[id].userInput.Some?
    ensures var d, d' := At(cfg, s, es, i).db, At(cfg, s, es, j).db;
            && id in d'.rows
            && d'.rows[id].userInput == d.rows[id].userInput
            && d'.rows[id].answerDigest == d.rows[id].answerDigest
            && d.inter.refs <= d'.inter.refs
  {
    AtEvolves(cfg, s, es, i, j);
    var d := At(cfg, s, es, i).db;
    assert RowEvolves(d.rows[id], At(cfg, s, es, j).db.rows[id]);
  }

  // ----- racing batches

  /** The worker's batch has got past member `m`. */
  predicate Passed(pc: Pc, m: nat) {
    Batching(pc) && !pc.BatchRead? && (m < pc.k || (m == pc.k && (pc.BatchRecord? || pc.BatchLost?)))
  }

  lemma AtNext(cfg: Config, s: State, es: seq<Event>, j: nat)
    requires j < |es|
    ensures At(cfg, s, es, j + 1) == Next(cfg, At(cfg, s, es, j), es[j])
  {
    assert es[..j + 1][..j] == es[..j];
  }

  lemma BatchKnown(cfg: Config, s: State, es: seq<Event>, i: nat, w: nat)
    requires Init(s) && i <= |es| && Batching(PcOf(At(cfg, s, es, i), w))
    ensures DbInv(At(cfg, s, es, i).db) && BatchInv(At(cfg, s, es, i).db, PcOf(At(cfg, s, es, i), w))
    ensures RecordingInv(At(cfg, s, es, i).db, PcOf(At(cfg, s, es, i), w))
  {
    hide DbInv, BatchInv, RecordingInv;
    RunInv(cfg, s, es[..i]);
    RunBatches(cfg, s, es[..i]);
  }

  /** However many batches, repairs and applications interleave, a batch that
      got past a member has its own text durable there. */
  lemma PassedIsHeld(cfg: Config, s: State, es: seq<Event>, i: nat, w: nat, m: nat)
    requires Init(s) && i <= |es| && Passed(PcOf(At(cfg, s, es, i), w), m)
    ensures Holds(At(cfg, s, es, i).db, PcOf(At(cfg, s, es, i), w).answers, m)
  {
    BatchKnown(cfg, s, es, i, w);
  }

  /** A batch that got through has exactly its own answers durable, one
      non-blank text for every member, each with its digest and its reference,
      and the interaction's answers are complete. */
  lemma ThroughIsRecorded(cfg: Config, s: State, es: seq<Event>, i: nat, w: nat)
    requires Init(s) && i <= |es| && Through(At(cfg, s, es, i).db, PcOf(At(cfg, s, es, i), w))
    ensures var d, answers := At(cfg, s, es, i).db, PcOf(At(cfg, s, es, i), w).answers;
      && answers.Keys == (set id | id in d.ids) && Recorded(d, answers, |d.ids|) && Complete(d.ids, d.inter.answerIds)
      && forall id :: id in d.ids ==>
           && answers[id] != "" && id in d.rows && d.rows[id].userInput == Some(answers[id])
           && d.rows[id].answerDigest == Some(OfText(answers[id])) && id in d.inter.answerIds
  {
    var d, pc := At(cfg, s, es, i).db, PcOf(At(cfg, s, es, i), w);
    BatchKnown(cfg, s, es, i, w);
    RowLength(d, pc);
    forall id | id in d.ids
      ensures pc.answers[id] != "" && id in d.rows && d.rows[id].userInput == Some(pc.answers[id])
      ensures d.rows[id].answerDigest == Some(OfText(pc.answers[id])) && id in d.inter.answerIds
    {
      var k :| 0 <= k < |d.ids| && d.ids[k] == id;
      assert Holds(d, pc.answers, k) && RowOk(d.rows[id]);
    }
  }

  /** A text once recorded for a member is the text of every batch that gets
      past it, before or after, so a batch with another text never gets
      through. */
  lemma DifferentAnswerNeverPasses(cfg: Config, s: State, es: seq<Event>, i: nat, id: RequestId, j: nat, w: nat, m: nat)
    requires Init(s) && i <= |es| && j <= |es|
    requires id in At(cfg, s, es, i).db.rows && At(cfg, s, es, i).db.rows[id].userInput.Some?
    requires Passed(PcOf(At(cfg, s, es, j), w), m) && m < |s.db.ids| && s.db.ids[m] == id
    ensures var answers := PcOf(At(cfg, s, es, j), w).answers;
      id in answers && At(cfg, s, es, i).db.rows[id].userInput == Some(answers[id])
  {
    hide DbInv, Evolves, Batching;
    PassedIsHeld(cfg, s, es, j, w, m);
    SameMembers(cfg, s, es, j);
    if i <= j {
      AnswersWriteOnce(cfg, s, es, i, j, id);
    } else {
      AnswersWriteOnce(cfg, s, es, j, i, id);
    }
  }

  lemma SameMembers(cfg: Config, s: State, es: seq<Event>, i: nat)
    requires Init(s) && i <= |es|
    ensures At(cfg, s, es, i).db.ids == s.db.ids
  {
    AtEvolves(cfg, s, es, 0, i);
  }

  /** Any two batches of a run that get through carry the same answers. */
  lemma ThroughBatchesAgree(cfg: Config, s: State, es: seq<Event>, i: nat, w: nat, j: nat, v: nat)
    requires Init(s) && i <= j <= |es|
    requires Through(At(cfg, s, es, i).db, PcOf(At(cfg, s, es, i), w))
    requires Through(At(cfg, s, es, j).db, PcOf(At(cfg, s, es, j), v))
    ensures PcOf(At(cfg, s, es, i), w).answers == PcOf(At(cfg, s, es, j), v).answers
  {
    hide DbInv, Evolves, Recorded, Complete;
    var a, b := PcOf(At(cfg, s, es, i), w).answers, PcOf(At(cfg, s, es, j), v).answers;
    ThroughIsRecorded(cfg, s, es, i, w);
    ThroughIsRecorded(cfg, s, es, j, v);
    SameMembers(cfg, s, es, i);
    SameMembers(cfg, s, es, j);
    forall id | id in a ensures id in b && a[id] == b[id] {
      AnswersWriteOnce(cfg, s, es, i, j, id);
    }
    assert a == b;
  }

  lemma StaysRecorded(cfg: Config, s: State, es: seq<Event>, i: nat, w: nat, j: nat)
    requires Init(s) && i <= j <= |es| && Through(At(cfg, s, es, i).db, PcOf(At(cfg, s, es, i), w))
    ensures var d := At(cfg, s, es, j).db; Recorded(d, PcOf(At(cfg, s, es, i), w).answers, |d.ids|)
  {
    hide DbInv, Evolves, Recorded, Complete;
    ThroughIsRecorded(cfg, s, es, i, w);
    AtEvolves(cfg, s, es, i, j);
    IdsStay(At(cfg, s, es, i).db, At(cfg, s, es, j).db);
    RecordedStable(At(cfg, s, es, i).db, At(cfg, s, es, j).db, PcOf(At(cfg, s, es, i), w).answers,
                   |At(cfg, s, es, i).db.ids|);
  }

  /** Once a batch got through, no step of any worker submitting the same
      answers writes anything, at any later moment of the run and whether or
      not its reply is lost, with one exception: a submission that finds its
      deadline passed expires an interaction whose answers nobody has claimed. */
  lemma ResubmissionWritesNothing(cfg: Config, s: State, es: seq<Event>, i: nat, v: nat, j: nat)
    requires Init(s) && i <= j < |es| && Through(At(cfg, s, es, i).db, PcOf(At(cfg, s, es, i), v))
    requires es[j].Work? || es[j].LostReply?
    requires var pc := PcOf(At(cfg, s, es, j), es[j].worker);
             Batching(pc) && pc.answers == PcOf(At(cfg, s, es, i), v).answers
    ensures var d, d' := At(cfg, s, es, j).db, At(cfg, s, es, j + 1).db;
            if ComesTooLate(d, PcOf(At(cfg, s, es, j), es[j].worker)) && d.inter.status == AnswersRecorded
               && !es[j].action.Raise?
            then d' == d.(inter := d'.inter) && d'.inter.status == Expired else d' == d
  {
    var t, w := At(cfg, s, es, j), es[j].worker;
    StaysRecorded(cfg, s, es, i, v, j);
    BatchKnown(cfg, s, es, j, w);
    AtNext(cfg, s, es, j);
    if !PcOf(t, w).BatchRead? {
      RowLength(t.db, PcOf(t, w));
    }
    hide DbInv, BatchInv, RecordingInv, Recorded, BatchStep, Exec, Batching;
    ExecBatch(cfg, t.db, PcOf(t, w), es[j].action);
    RecordedChangesNothing(t.db, PcOf(t, w), es[j].action);
  }

  /** And while the interaction has not ended such a worker gets through in turn:
      every step that does not raise or find the deadline passed leads on within
      its batch and leaves fewer steps, whatever the other workers do in between. */
  lemma ResubmissionGoesOn(cfg: Config, s: State, es: seq<Event>, i: nat, v: nat, j: nat)
    requires Init(s) && i <= j < |es| && Through(At(cfg, s, es, i).db, PcOf(At(cfg, s, es, i), v))
    requires es[j].Work? && !es[j].action.Raise? && !Ended(At(cfg, s, es, j).db.inter.status)
    requires var d, pc := At(cfg, s, es, j).db, PcOf(At(cfg, s, es, j), es[j].worker);
             Batching(pc) && pc.answers == PcOf(At(cfg, s, es, i), v).answers && !Through(d, pc) && !ComesTooLate(d, pc)
    ensures var d, w := At(cfg, s, es, j).db, es[j].worker;
            GoesOn(d, PcOf(At(cfg, s, es, j), w), PcOf(At(cfg, s, es, j + 1), w))
  {
    var t, w := At(cfg, s, es, j), es[j].worker;
    StaysRecorded(cfg, s, es, i, v, j);
    BatchKnown(cfg, s, es, j, w);
    AtNext(cfg, s, es, j);
    hide DbInv, BatchInv, RecordingInv, Recorded, BatchStep, Exec, Batching, GoesOn;
    ExecBatch(cfg, t.db, PcOf(t, w), es[j].action);
    RecordedGoesOn(t.db, PcOf(t, w), es[j].action);
  }
}
