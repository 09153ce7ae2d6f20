/** What one worker or the reconciler achieves when nothing disturbs it: repair
    passes, replays of an applied interaction, heartbeats, and the closing of an
    interaction that ended without an application. */
module HitlAlone {
  import opened HitlStore
  import opened HitlInvariant
  import opened HitlProtocol
  import opened HitlSafety
  import opened HitlFailure
  import opened HitlRecovery
  import C = HitlCoordinator
  import T = HitlTheorems
  import opened HitlProgress
  import opened Wrappers

  /** One step of a worker, then the rest. */
  lemma StepThen(cfg: Config, t: State, w: nat, a: Action, rest: seq<Event>)
    ensures Run(cfg, t, [Work(w, a)] + rest) == Run(cfg, Next(cfg, t, Work(w, a)), rest)
    ensures var t' := Next(cfg, t, Work(w, a)); (t'.db, PcOf(t', w)) == Exec(cfg, t.db, PcOf(t, w), a)
  {
    hide Next, Exec;
    RunCons(cfg, t, Work(w, a), rest);
    Worked(cfg, t, w, a);
  }

  lemma NoStep(cfg: Config, t: State)
    ensures Run(cfg, t, []) == t
  {
  }

  /** The worker finished with this database. */
  ghost predicate Ends(cfg: Config, t: State, w: nat, es: seq<Event>, d: Db) {
    Run(cfg, t, es).db == d && PcOf(Run(cfg, t, es), w).Idle?
  }

  // ----- a repair pass

  ghost predicate Snapshot(d: Db, rows: seq<Row>) {
    |rows| == |d.ids| && forall j :: 0 <= j < |rows| ==> d.ids[j] in d.rows && rows[j] == d.rows[d.ids[j]]
  }

  lemma RecordKeepsRows(d: Db, id: RequestId, digest: Digest)
    ensures var (d', ok) := RecordAnswer(d, id, digest); d'.ids == d.ids && d'.rows == d.rows && (!ok ==> d' == d)
  {
  }

  /** Where the round of member `k` leads, and with what the repair function
      goes on. */
  lemma RepairRound(cfg: Config, d: Db, rows: seq<Row>, k: nat)
    requires Snapshot(d, rows) && k < |d.ids|
    ensures var (d', pc') := Exec(cfg, d, RepairRow(rows, k), Go);
      && Snapshot(d', rows) && d'.ids == d.ids
      && (pc' == RepairRow(rows, k + 1) ==> C.RepairFrom(d, k) == C.RepairFrom(d', k + 1))
      && (pc' == RepairLost(rows, k) ==> d' == d)
      && (pc' == RepairRow(rows, k + 1) || pc' == RepairLost(rows, k)
          || (pc'.Idle? && d' == d && C.RepairFrom(d, k).0 == d))
  {
    hide RecordAnswer, LookupRef;
    if rows[k].answerDigest.Some? {
      RecordKeepsRows(d, d.ids[k], rows[k].answerDigest.value);
    }
  }

  lemma LostRound(cfg: Config, d: Db, rows: seq<Row>, k: nat)
    requires Snapshot(d, rows) && k < |d.ids| && Exec(cfg, d, RepairRow(rows, k), Go) == (d, RepairLost(rows, k))
    ensures var (d', pc') := Exec(cfg, d, RepairLost(rows, k), Go);
      && d' == d
      && if pc' == RepairRow(rows, k + 1) then C.RepairFrom(d, k) == C.RepairFrom(d, k + 1)
         else pc'.Idle? && C.RepairFrom(d, k).0 == d
  {
    hide LookupRef;
  }

  lemma RepairsFrom(cfg: Config, t: State, w: nat, rows: seq<Row>, k: nat) returns (es: seq<Event>)
    requires PcOf(t, w) == RepairRow(rows, k) && Snapshot(t.db, rows) && k <= |t.db.ids|
    ensures Ends(cfg, t, w, es, C.RepairFrom(t.db, k).0)
    decreases |t.db.ids| - k
  {
    hide Next, Exec, Run, PcOf, C.RepairFrom, Snapshot;
    var t1 := Next(cfg, t, Work(w, Go));
    StepThen(cfg, t, w, Go, []);
    NoStep(cfg, t1);
    es := [Work(w, Go)] + [];
    if k == |t.db.ids| {
      RepairDone(cfg, t.db, rows, k);
    } else {
      RepairRound(cfg, t.db, rows, k);
      if PcOf(t1, w) == RepairRow(rows, k + 1) {
        var rest := RepairsFrom(cfg, t1, w, rows, k + 1);
        StepThen(cfg, t, w, Go, rest);
        es := [Work(w, Go)] + rest;
      } else if PcOf(t1, w) == RepairLost(rows, k) {
        var rest := RepairsLost(cfg, t1, w, rows, k);
        StepThen(cfg, t, w, Go, rest);
        es := [Work(w, Go)] + rest;
      }
    }
  }

  lemma RepairsLost(cfg: Config, t: State, w: nat, rows: seq<Row>, k: nat) returns (es: seq<Event>)
    requires PcOf(t, w) == RepairLost(rows, k) && Snapshot(t.db, rows) && k < |t.db.ids|
    requires Exec(cfg, t.db, RepairRow(rows, k), Go) == (t.db, RepairLost(rows, k))
    ensures Ends(cfg, t, w, es, C.RepairFrom(t.db, k).0)
    decreases |t.db.ids| - k, 0
  {
    hide Next, Exec, Run, PcOf, C.RepairFrom, Snapshot;
    var t1 := Next(cfg, t, Work(w, Go));
    LostRound(cfg, t.db, rows, k);
    StepThen(cfg, t, w, Go, []);
    NoStep(cfg, t1);
    es := [Work(w, Go)] + [];
    if PcOf(t1, w) == RepairRow(rows, k + 1) {
      var rest := RepairsFrom(cfg, t1, w, rows, k + 1);
      StepThen(cfg, t, w, Go, rest);
      es := [Work(w, Go)] + rest;
    }
  }

  lemma RepairDone(cfg: Config, d: Db, rows: seq<Row>, k: nat)
    requires Snapshot(d, rows) && k == |d.ids|
    ensures Exec(cfg, d, RepairRow(rows, k), Go) == (d, Idle) && C.RepairFrom(d, k).0 == d
  {
  }

  lemma RepairReads(cfg: Config, t: State, w: nat) returns (es: seq<Event>)
    requires PcOf(t, w).RepairRead? && Exact(t.db, PcOf(t, w).got) && DbInv(t.db)
    ensures Ends(cfg, t, w, es, C.RepairFrom(t.db, 0).0)
    decreases |t.db.ids| - |PcOf(t, w).got|
  {
    var got := PcOf(t, w).got;
    RepairReadStep(cfg, t.db, got);
    hide Next, Exec, Run, PcOf, DbInv, C.RepairFrom;
    var t1 := Next(cfg, t, Work(w, Go));
    StepThen(cfg, t, w, Go, []);
    var rest;
    if |got| < |t.db.ids| {
      rest := RepairReads(cfg, t1, w);
    } else {
      rest := RepairsFrom(cfg, t1, w, got, 0);
    }
    StepThen(cfg, t, w, Go, rest);
    es := [Work(w, Go)] + rest;
  }

  lemma RepairReadStep(cfg: Config, d: Db, got: seq<Row>)
    requires DbInv(d) && Exact(d, got)
    ensures |got| < |d.ids| ==> d.ids[|got|] in d.rows
    ensures Exec(cfg, d, RepairRead(got), Go)
         == (d, if |got| < |d.ids| then RepairRead(got + [d.rows[d.ids[|got|]]]) else RepairRow(got, 0))
    ensures |got| < |d.ids| ==> Exact(d, got + [d.rows[d.ids[|got|]]])
  {
    if |got| < |d.ids| {
      assert d.ids[|got|] in d.ids;
      ExactNext(d, got);
    }
  }

  /** From every reachable state an idle worker can carry out a whole repair
      pass, and what it leaves is what the repair loop leaves, exactly. */
  lemma RepairPass(cfg: Config, s: State, es: seq<Event>, w: nat) returns (more: seq<Event>)
    requires Init(s) && PcOf(Run(cfg, s, es), w).Idle?
    ensures Run(cfg, s, es + more).db == C.RepairFrom(Run(cfg, s, es).db, 0).0
    ensures PcOf(Run(cfg, s, es + more), w).Idle?
  {
    var t := Run(cfg, s, es);
    RunInv(cfg, s, es);
    InvDb(t);
    StepThen(cfg, t, w, StartRepair, []);
    var t1 := Next(cfg, t, Work(w, StartRepair));
    assert PcOf(t1, w) == RepairRead([]) && t1.db == t.db;
    hide Next, Exec, Run, PcOf, DbInv, C.RepairFrom, Inv;
    var rest := RepairReads(cfg, t1, w);
    StepThen(cfg, t, w, StartRepair, rest);
    more := [Work(w, StartRepair)] + rest;
    RunConcat(cfg, s, es, more);
  }

  // ----- a replay of an applied interaction

  function MarkedReconciled(d: Db): Db {
    if d.inter.terminalReconciled then d
    else d.(inter := d.inter.(terminalReconciled := true, version := d.inter.version + 1))
  }

  ghost predicate Replaying(t: State, w: nat, pc: Pc) {
    PcOf(t, w) == pc && DbInv(t.db) && t.db.inter.status == Applied
  }

  lemma ReplayRows(cfg: Config, t: State, w: nat, rows: seq<Row>, k: nat) returns (es: seq<Event>)
    requires Replaying(t, w, FinalizeRow(Confirmed, t.db.inter, rows, k, true, true))
    requires Snapshot(t.db, rows) && k <= |rows|
    ensures Ends(cfg, t, w, es, MarkedReconciled(t.db))
    decreases |rows| - k
  {
    ReplayRow(cfg, t.db, rows, k);
    hide Next, Exec, Run, PcOf, DbInv, Snapshot, MarkedReconciled;
    var t1 := Next(cfg, t, Work(w, Go));
    StepThen(cfg, t, w, Go, []);
    var rest;
    if k < |rows| {
      rest := ReplayRows(cfg, t1, w, rows, k + 1);
    } else {
      rest := ReplayMark(cfg, t1, w);
    }
    StepThen(cfg, t, w, Go, rest);
    es := [Work(w, Go)] + rest;
  }

  lemma ReplayMark(cfg: Config, t: State, w: nat) returns (es: seq<Event>)
    requires PcOf(t, w) == Reconcile(t.db.inter)
    ensures Ends(cfg, t, w, es, MarkedReconciled(t.db))
  {
    ReconcileExec(cfg, t.db);
    hide Next, Exec, Run, PcOf;
    StepThen(cfg, t, w, Go, []);
    NoStep(cfg, Next(cfg, t, Work(w, Go)));
    es := [Work(w, Go)] + [];
  }

  lemma ReplayRow(cfg: Config, d: Db, rows: seq<Row>, k: nat)
    requires DbInv(d) && d.inter.status == Applied && Snapshot(d, rows) && k <= |rows|
    ensures Exec(cfg, d, FinalizeRow(Confirmed, d.inter, rows, k, true, true), Go)
         == (d, if k < |rows| then FinalizeRow(Confirmed, d.inter, rows, k + 1, true, true) else Reconcile(d.inter))
  {
  }

  lemma ReconcileExec(cfg: Config, d: Db)
    ensures Exec(cfg, d, Reconcile(d.inter), Go) == (MarkedReconciled(d), Idle)
  {
  }

  lemma ReplayReads(cfg: Config, t: State, w: nat, got: seq<Row>) returns (es: seq<Event>)
    requires Replaying(t, w, ReadRows(Confirmed, t.db.inter, Finalize(true), got)) && Exact(t.db, got)
    ensures Ends(cfg, t, w, es, MarkedReconciled(t.db))
    decreases |t.db.ids| - |got|
  {
    ReplayRead(cfg, t.db, got);
    hide Next, Exec, Run, PcOf, DbInv, MarkedReconciled;
    var t1 := Next(cfg, t, Work(w, Go));
    StepThen(cfg, t, w, Go, []);
    var rest;
    if |got| < |t.db.ids| {
      rest := ReplayReads(cfg, t1, w, got + [t.db.rows[t.db.ids[|got|]]]);
    } else {
      rest := ReplayRows(cfg, t1, w, got, 0);
    }
    StepThen(cfg, t, w, Go, rest);
    es := [Work(w, Go)] + rest;
  }

  lemma ReplayRead(cfg: Config, d: Db, got: seq<Row>)
    requires DbInv(d) && d.inter.status == Applied && Exact(d, got)
    ensures |got| < |d.ids| ==> d.ids[|got|] in d.rows && Exact(d, got + [d.rows[d.ids[|got|]]])
    ensures Exec(cfg, d, ReadRows(Confirmed, d.inter, Finalize(true), got), Go)
         == (d, if |got| < |d.ids|
                then ReadRows(Confirmed, d.inter, Finalize(true), got + [d.rows[d.ids[|got|]]])
                else FinalizeRow(Confirmed, d.inter, got, 0, true, true))
  {
    if |got| < |d.ids| {
      assert d.ids[|got|] in d.ids;
      ExactNext(d, got);
    } else {
      ClaimedApplied(d);
      ExactAccepted(d, d.inter, got);
    }
    hide DbInv, Exact, RowsAccepted;
  }

  /** From every reachable applied state an idle worker can replay the
      application: it rewrites nothing and marks the interaction reconciled. */
  lemma ReplayReconciles(cfg: Config, s: State, es: seq<Event>, w: nat) returns (more: seq<Event>)
    requires Init(s) && PcOf(Run(cfg, s, es), w).Idle? && Run(cfg, s, es).db.inter.status == Applied
    ensures var d, d' := Run(cfg, s, es).db, Run(cfg, s, es + more).db;
      && d'.inter.terminalReconciled && d'.rows == d.rows && d'.cmds == d.cmds
      && d'.inter.(terminalReconciled := false, version := 0) == d.inter.(terminalReconciled := false, version := 0)
  {
    var t := Run(cfg, s, es);
    RunInv(cfg, s, es);
    InvDb(t);
    StepThen(cfg, t, w, StartReplay, []);
    var t1 := Next(cfg, t, Work(w, StartReplay));
    assert PcOf(t1, w) == ReadRows(Confirmed, t.db.inter, Finalize(true), []) && t1.db == t.db;
    hide Next, Exec, Run, PcOf, DbInv, Inv;
    var rest := ReplayReads(cfg, t1, w, []);
    StepThen(cfg, t, w, StartReplay, rest);
    more := [Work(w, StartReplay)] + rest;
    RunConcat(cfg, s, es, more);
  }

  // ----- heartbeats and a lost projection

  /** A fence or a heartbeat that goes on has renewed the lease it is about to
      the full 300 seconds; one that is refused aborts, and only then. */
  lemma HeartbeatRenews(cfg: Config, d: Db, pc: Pc, a: Action)
    requires pc.Fence? || pc.FenceCmd? || pc.Running? || pc.Beating?
    requires !a.Raise? && (pc.Running? || pc.Beating? ==> !a.External?)
    ensures var (d', pc') := Exec(cfg, d, pc, a);
      if pc.Fence? || pc.Running? then
        if HoldsApplication(d, pc.app) then
          HoldsApplication(d', pc.app) && d'.inter.lease == Some(d.now + 300) && (pc'.FenceCmd? || pc'.Beating?)
        else d' == d && pc' == Abort(pc.app, pc.snap, pc.cc, ToApplying)
      else
        var rev := pc.snap.revision;
        if rev in d.cmds && d.cmds[rev].status == Delivering && d.cmds[rev].claim == Some(pc.cc) then
          && rev in d'.cmds && d'.cmds[rev].status == Delivering && d'.cmds[rev].claim == Some(pc.cc)
          && d'.cmds[rev].lease == Some(d.now + 300) && (pc'.Fenced? || pc'.Running?)
        else d' == d && pc' == Abort(pc.app, pc.snap, pc.cc, ToApplying)
  {
  }

  /** A worker that lost the run projection to another one that has applied it
      marks the interaction APPLIED two steps later. */
  lemma LostProjectionFinishes(cfg: Config, t: State, w: nat)
    requires PcOf(t, w).RunLost? && HoldsApplication(t.db, PcOf(t, w).app)
    requires t.db.inter.runProjection == ProjectionApplied
    ensures Steps(cfg, t, w, 2).db.inter.status == Applied && PcOf(Steps(cfg, t, w, 2), w).Idle?
  {
    var t1 := Next(cfg, t, Work(w, Go));
    Worked(cfg, t, w, Go);
    Worked(cfg, t1, w, Go);
    LostThenApplied(cfg, t.db, PcOf(t, w));
    hide Next, Exec;
    assert Steps(cfg, t, w, 1) == t1 by { assert Steps(cfg, t, w, 0) == t; }
  }

  lemma LostThenApplied(cfg: Config, d: Db, pc: Pc)
    requires pc.RunLost? && HoldsApplication(d, pc.app) && d.inter.runProjection == ProjectionApplied
    ensures var (d1, pc1) := Exec(cfg, d, pc, Go);
      Exec(cfg, d1, pc1, Go).0.inter.status == Applied && Exec(cfg, d1, pc1, Go).1.Idle?
  {
  }

  /** A worker that finds the delivery of its command uncertain requeues it: two
      steps later the command can be claimed. */
  lemma UncertainIsRequeued(cfg: Config, d: Db, pc: Pc)
    requires pc.Inspect? && pc.seen == CommandUncertain && pc.snap.revision in d.cmds
    requires d.cmds[pc.snap.revision].status == CommandUncertain
    ensures var (d1, pc1) := Exec(cfg, d, pc, Go);
            var (d2, pc2) := Exec(cfg, d1, pc1, Go);
            && pc2 == ClaimCmd(pc.app, pc.snap) && d2.inter == d.inter && d2.rows == d.rows
            && forall claim :: ClaimCommand(d2, pc.snap.revision, claim).1
  {
  }

  /** A run projection that failed can be claimed again at once, and so can the
      application whose step it was. */
  lemma FailedProjectionRetries(cfg: Config, d: Db, pc: Pc)
    requires pc.Projecting? && HoldsApplication(d, pc.app)
    requires d.inter.runProjection == ProjectionApplying && d.inter.runClaim == Some(pc.rc)
    ensures var (d1, pc1) := Exec(cfg, d, pc, External(false));
            var (d2, pc2) := Exec(cfg, d1, pc1, Go);
            && pc2.Idle? && d2.inter.runProjection == ProjectionFailed && d2.cmds == d.cmds && d2.rows == d.rows
            && (forall claim :: ClaimProjection(d2, d.inter.revision, claim).1)
            && forall claim :: ClaimApplication(d2, claim).1
  {
  }

  // ----- leases

  /** A claim taken or renewed at one second keeps others out until exactly 300
      seconds later when nothing else is written: the application, the run
      projection and the command, which is taken back before it is claimed anew. */
  lemma ClaimsAreLeases(d: Db, claim: Claim, at: nat, other: Claim)
    requires d.now <= at
    ensures var (d', won) := ClaimApplication(d, claim);
      won ==> (ClaimApplication(d'.(now := at), other).1 <==> at >= d.now + 300)
    ensures var (d', held) := RenewApplication(d, claim);
      held ==> (ClaimApplication(d'.(now := at), other).1 <==> at >= d.now + 300)
    ensures var (d', won) := ClaimProjection(d, d.inter.revision, claim);
      won ==> (ClaimProjection(d'.(now := at), d.inter.revision, other).1 <==> at >= d.now + 300)
  {
  }

  lemma CommandClaimsAreLeases(d: Db, rev: nat, claim: Claim, at: nat, other: Claim, renewed: bool)
    requires d.now <= at
    requires if renewed then RenewCommand(d, rev, claim).1 else ClaimCommand(d, rev, claim).1
    ensures var d' := (if renewed then RenewCommand(d, rev, claim) else ClaimCommand(d, rev, claim)).0.(now := at);
      && rev in d'.cmds && !ClaimCommand(d', rev, other).1
      && var (d2, taken) := ReclaimCommand(d', rev, d'.cmds[rev], at);
         && (taken <==> at >= d.now + 300)
         && (taken ==> ClaimCommand(d2, rev, other).1)
  {
  }

  // ----- the end without an application

  /** An event that ends the interaction, and as what. */
  predicate Closes(d: Db, e: Event, target: Status) {
    || (e.Expire? && target == Expired && d.inter.status in {Open, PartiallyAnswered, AnswersRecorded})
    || (e.Cancel? && target == Canceled && d.inter.status in {Open, PartiallyAnswered, AnswersRecorded})
    || (e.FailUnclaimed? && target == Failed && d.inter.status in {AnswersRecorded, Applying, DeliveryUncertain})
    || (e.FailClaimed? && target == Failed && HoldsApplication(d, e.claim))
  }

  lemma ClosesIt(d: Db, e: Event, target: Status)
    requires Closes(d, e, target)
    ensures var d' := EnvStep(d, e);
      && d'.inter.status == target && d'.rows == d.rows && d'.ids == d.ids && d'.cmds == d.cmds
      && d'.inter.refs == d.inter.refs && d'.inter.answerIds == d.inter.answerIds && d'.inter.claim.None?
  {
  }

  /** The first `k` members are terminal or responded, and answers are kept. */
  ghost predicate MembersClosed(before: Db, d: Db, k: nat) {
    && d.ids == before.ids && k <= |d.ids| && d.rows.Keys == before.rows.Keys
    && (forall j :: 0 <= j < k ==>
          d.ids[j] in d.rows && (RowTerminal(d.rows[d.ids[j]]) || d.rows[d.ids[j]].status == Responded))
    && (forall id :: id in d.rows ==>
          && d.rows[id].userInput == before.rows[id].userInput
          && d.rows[id].answerDigest == before.rows[id].answerDigest)
  }

  lemma CloseMember(before: Db, d: Db, k: nat, member: RowStatus)
    requires Ended(d.inter.status) && MembersClosed(before, d, k) && k < |d.ids| && d.ids[k] in d.rows
    requires member == RowExpired || member == RowCanceled
    ensures var d' := EnvStep(d, EndRow(d.ids[k], d.rows[d.ids[k]].status, member));
      d'.inter == d.inter && MembersClosed(before, d', k + 1)
  {
  }

  lemma CloseMembers(cfg: Config, before: Db, t: State, k: nat, member: RowStatus) returns (es: seq<Event>)
    requires Ended(t.db.inter.status) && MembersClosed(before, t.db, k)
    requires forall id :: id in t.db.ids ==> id in t.db.rows
    requires member == RowExpired || member == RowCanceled
    ensures var d := Run(cfg, t, es).db; d.inter == t.db.inter && MembersClosed(before, d, |d.ids|)
    decreases |t.db.ids| - k
  {
    hide EnvStep, Run, Ended;
    if k == |t.db.ids| {
      es := [];
      NoStep(cfg, t);
    } else {
      var id := t.db.ids[k];
      assert id in t.db.ids;
      var e := EndRow(id, t.db.rows[id].status, member);
      CloseMember(before, t.db, k, member);
      var rest := CloseMembers(cfg, before, Next(cfg, t, e), k + 1, member);
      RunCons(cfg, t, e, rest);
      es := [e] + rest;
    }
  }

  /** Whatever ends an interaction without an application, in any reachable
      state: its members can then all be closed, with every answer kept, and the
      interaction marked reconciled. */
  lemma EndingReconciles(cfg: Config, s: State, es: seq<Event>, e: Event, target: Status) returns (more: seq<Event>)
    requires Init(s) && Closes(Run(cfg, s, es).db, e, target)
    ensures var d, d' := Run(cfg, s, es).db, Run(cfg, s, es + ([e] + more)).db;
      && d'.inter.status == target && d'.inter.terminalReconciled && d'.inter.refs == d.inter.refs
      && MembersClosed(d, d', |d'.ids|)
  {
    var t := Run(cfg, s, es);
    RunInv(cfg, s, es);
    MembersPresent(t);
    hide Run, EnvStep, Closes, Inv, Init, MembersClosed, Ended;
    var t1 := Next(cfg, t, e);
    NextOfClosing(cfg, t, e, target);
    NoneClosedYet(t.db, t1.db);
    var rest := CloseAndReconcile(cfg, t.db, t1, if target == Expired then RowExpired else RowCanceled);
    RunCons(cfg, t, e, rest);
    more := rest;
    RunConcat(cfg, s, es, [e] + more);
  }

  lemma MembersPresent(t: State)
    requires Inv(t)
    ensures forall id :: id in t.db.ids ==> id in t.db.rows
  {
  }

  lemma NoneClosedYet(before: Db, d: Db)
    requires d.ids == before.ids && d.rows == before.rows
    ensures MembersClosed(before, d, 0)
  {
  }

  lemma CloseAndReconcile(cfg: Config, before: Db, t: State, member: RowStatus) returns (es: seq<Event>)
    requires Ended(t.db.inter.status) && MembersClosed(before, t.db, 0)
    requires forall id :: id in t.db.ids ==> id in t.db.rows
    requires member == RowExpired || member == RowCanceled
    ensures var d := Run(cfg, t, es).db;
      && d.inter.status == t.db.inter.status && d.inter.refs == t.db.inter.refs && d.inter.terminalReconciled
      && MembersClosed(before, d, |d.ids|)
  {
    hide Run, Ended;
    var rest := CloseMembers(cfg, before, t, 0, member);
    var t2 := Run(cfg, t, rest);
    var last := Reconciled(t2.db.inter.version);
    Reconciles(cfg, t2);
    hide Next;
    RunCons(cfg, t2, last, []);
    NoStep(cfg, Next(cfg, t2, last));
    RunConcat(cfg, t, rest, [last] + []);
    es := rest + ([last] + []);
  }

  lemma NextOfClosing(cfg: Config, t: State, e: Event, target: Status)
    requires Closes(t.db, e, target)
    ensures var d' := Next(cfg, t, e).db;
      && d'.inter.status == target && Ended(target) && d'.rows == t.db.rows && d'.ids == t.db.ids
      && d'.inter.refs == t.db.inter.refs
  {
    ClosesIt(t.db, e, target);
    hide EnvStep;
  }

  lemma Reconciles(cfg: Config, t: State)
    ensures var i := t.db.inter;
      Next(cfg, t, Reconciled(i.version)).db == t.db.(inter := i.(terminalReconciled := true, version := i.version + 1))
  {
  }

  /** The reconciler takes a delivery back only once its lease is over. */
  lemma ReclaimNeedsLapse(cfg: Config, t: State, revision: nat, seen: Command, at: nat)
    requires Next(cfg, t, Reclaim(revision, seen, at)) != t
    ensures revision in t.db.cmds && t.db.cmds[revision].status == Delivering
    ensures var lease := t.db.cmds[revision].lease; lease.Some? && lease.value <= t.db.now
  {
  }

  /** The reconciler promotes an acknowledged command whose worker is gone. */
  lemma AcknowledgedIsPromoted(cfg: Config, t: State, revision: nat)
    requires revision in t.db.cmds && t.db.cmds[revision].status == Acknowledged
    ensures var d' := Next(cfg, t, PromoteAck(revision)).db;
      && revision in d'.cmds && d'.cmds[revision].status == Projected
      && d' == t.db.(cmds := t.db.cmds[revision := d'.cmds[revision]])
  {
  }
}
