/** The three loops of the application coordinator that write member by member
    (backend/approval/application.py): recording a batch, repairing answer
    references and finalizing responses.

    Each loop is a method over the mutable store and is proved equal to a
    function of the store's state; what the loops promise is proved about those
    functions, from any reachable state and so from any crash point. */
module HitlCoordinator {
  import opened HitlStore
  import opened HitlInvariant
  import P = HitlProtocol
  import T = HitlTheorems
  import opened Wrappers

  // ----- the mutable store

  class Store {
    const ids: seq<RequestId>
    var rows: map<RequestId, Row>
    var inter: Interaction
    var cmds: map<nat, Command>
    var now: nat

    constructor (d: Db)
      ensures View() == d
    {
      ids, rows, inter, cmds, now := d.ids, d.rows, d.inter, d.cmds, d.now;
    }

    function View(): Db
      reads this
    {
      Db(ids, rows, inter, cmds, now)
    }

    method ClaimHitlRequest(id: RequestId, text: string) returns (won: bool)
      modifies this
      ensures (View(), won) == ClaimRow(old(View()), id, text, OfText(text))
    {
      won := id in rows && rows[id].status == Pending && Live(rows[id].expiresAt, now);
      if won {
        rows := rows[id := rows[id].(status := AnswerRecorded, userInput := Some(text),
                                     answerDigest := Some(OfText(text)))];
      }
    }

    method RecordInteractionAnswer(id: RequestId, digest: Digest) returns (recorded: bool)
      modifies this
      ensures (View(), recorded) == RecordAnswer(old(View()), id, digest)
    {
      if id !in ids {
        return false;
      }
      if id in inter.answerIds {
        return true;
      }
      if !Collecting(inter.status) || !Live(inter.expiresAt, now) {
        return false;
      }
      var answered := inter.answerIds + [id];
      var status := if Complete(ids, answered) then AnswersRecorded else PartiallyAnswered;
      inter := inter.(answerIds := answered, refs := inter.refs + [(id, digest)], status := status,
                      version := inter.version + 1);
      return true;
    }

    method CasRespond(id: RequestId) returns (won: bool)
      modifies this
      ensures (View(), won) == RespondRow(old(View()), id)
    {
      won := id in rows && rows[id].status == AnswerRecorded;
      if won {
        rows := rows[id := rows[id].(status := Responded, projected := false)];
      }
    }

    method MarkProjected(id: RequestId) returns (done: bool)
      modifies this
      ensures (View(), done) == SetProjected(old(View()), id)
    {
      done := id in rows;
      if done {
        rows := rows[id := rows[id].(projected := true)];
      }
    }

    method ExpireInteraction()
      modifies this
      ensures View() == Terminalize(old(View()), {Open, PartiallyAnswered, AnswersRecorded}, Expired).0
    {
      if inter.status in {Open, PartiallyAnswered, AnswersRecorded} {
        inter := inter.(status := Expired, claim := None, lease := None, terminalReconciled := false,
                        version := inter.version + 1);
      }
    }
  }

  // ----- repair_persisted_answer_refs

  predicate HasAnswer(r: Row) {
    r.status == AnswerRecorded || r.status == Responded
  }

  /** What the repair loop does from member `k` on. */
  function RepairFrom(d: Db, k: nat): (Db, bool)
    decreases |d.ids| - k
  {
    if k >= |d.ids| then (d, true)
    else if d.ids[k] !in d.rows then (d, false)
    else
      var r := d.rows[d.ids[k]];
      if !HasAnswer(r) then RepairFrom(d, k + 1)
      else if r.userInput.None? || r.answerDigest != Some(OfText(r.userInput.value)) then (d, false)
      else
        var (d', recorded) := RecordAnswer(d, d.ids[k], r.answerDigest.value);
        if recorded then RepairFrom(d', k + 1)
        else if P.LookupRef(d.inter.refs, d.ids[k]) == r.answerDigest then RepairFrom(d, k + 1)
        else (d, false)
  }

  method RepairPersistedAnswerRefs(store: Store) returns (ok: bool)
    requires DbInv(store.View())
    modifies store
    ensures (store.View(), ok) == RepairFrom(old(store.View()), 0)
  {
    ghost var before := store.View();
    var i := 0;
    while i < |store.ids|
      invariant i <= |store.ids| && store.rows == before.rows
      invariant RepairFrom(before, 0) == RepairFrom(store.View(), i)
    {
      var id := store.ids[i];
      if id !in store.rows {
        return false;
      }
      var row := store.rows[id];
      if HasAnswer(row) {
        if row.userInput.None? || row.answerDigest != Some(OfText(row.userInput.value)) {
          return false;
        }
        var recorded := store.RecordInteractionAnswer(id, row.answerDigest.value);
        if !recorded && P.LookupRef(store.inter.refs, id) != row.answerDigest {
          return false;
        }
      }
      i := i + 1;
    }
    return true;
  }

  /** A member's answer can be referenced: it already is, or the aggregate still
      collects answers before its deadline. */
  predicate Referable(d: Db, id: RequestId) {
    id in d.inter.answerIds || (Collecting(d.inter.status) && Live(d.inter.expiresAt, d.now))
  }

  ghost predicate Repairable(d: Db) {
    forall id :: id in d.rows && HasAnswer(d.rows[id]) ==> Referable(d, id)
  }

  /** One repaired member: afterwards its reference is there, everybody else's
      chance of a reference is what it was. */
  lemma RecordEffect(d: Db, id: RequestId)
    requires DbInv(d) && id in d.rows && d.rows[id].answerDigest.Some?
    ensures var (d', ok) := RecordAnswer(d, id, d.rows[id].answerDigest.value);
            && Good(d, d') && d'.rows == d.rows && d'.now == d.now
            && (ok <==> Referable(d, id))
            && (forall x :: x in d'.inter.answerIds <==> x in d.inter.answerIds || (ok && x == id))
            && (forall x :: x in d.ids ==> (Referable(d', x) <==> Referable(d, x)))
            && (!ok ==> d' == d)
            && (ok && id in d.inter.answerIds ==> d' == d)
  {
    hide RefsOk, CommandsOk, Evolves, AppliedOk;
    RecordAnswerGood(d, id, d.rows[id].answerDigest.value);
  }

  lemma LookupMissing(refs: seq<(RequestId, Digest)>, id: RequestId)
    requires P.LookupRef(refs, id).Some?
    ensures exists k :: 0 <= k < |refs| && refs[k].0 == id
    decreases |refs|
  {
    if refs[|refs| - 1].0 != id {
      LookupMissing(refs[..|refs| - 1], id);
    }
  }

  lemma UnreferencedLookup(d: Db, id: RequestId)
    requires DbInv(d) && id !in d.inter.answerIds
    ensures P.LookupRef(d.inter.refs, id) == None
  {
    if P.LookupRef(d.inter.refs, id).Some? {
      LookupMissing(d.inter.refs, id);
      assert false;
    }
  }

  ghost predicate RepairableFrom(d: Db, k: nat) {
    forall i :: k <= i < |d.ids| && d.ids[i] in d.rows && HasAnswer(d.rows[d.ids[i]]) ==> Referable(d, d.ids[i])
  }

  ghost predicate AnsweredFrom(d: Db, k: nat, id: RequestId) {
    exists i :: k <= i < |d.ids| && d.ids[i] == id && id in d.rows && HasAnswer(d.rows[id])
  }

  lemma AnsweredFromStep(d: Db, k: nat, id: RequestId)
    requires k < |d.ids| && d.ids[k] in d.rows
    ensures AnsweredFrom(d, k, id) <==> (id == d.ids[k] && HasAnswer(d.rows[id])) || AnsweredFrom(d, k + 1, id)
  {
    if id == d.ids[k] && HasAnswer(d.rows[id]) {
      assert d.ids[k] == id;
    }
  }

  lemma RepairableStep(d: Db, k: nat)
    requires k < |d.ids| && d.ids[k] in d.rows
    ensures RepairableFrom(d, k) <==>
      (HasAnswer(d.rows[d.ids[k]]) ==> Referable(d, d.ids[k])) && RepairableFrom(d, k + 1)
  {
  }

  lemma RepairableSame(d: Db, d': Db, k: nat)
    requires d'.ids == d.ids && d'.rows == d.rows
    requires forall x :: x in d.ids ==> (Referable(d', x) <==> Referable(d, x))
    ensures RepairableFrom(d', k) <==> RepairableFrom(d, k)
    ensures forall x :: AnsweredFrom(d', k, x) <==> AnsweredFrom(d, k, x)
  {
    forall x ensures AnsweredFrom(d', k, x) <==> AnsweredFrom(d, k, x) {
      if AnsweredFrom(d, k, x) {
        var i :| k <= i < |d.ids| && d.ids[i] == x && x in d.rows && HasAnswer(d.rows[x]);
        assert d'.ids[i] == x;
      }
      if AnsweredFrom(d', k, x) {
        var i :| k <= i < |d'.ids| && d'.ids[i] == x && x in d'.rows && HasAnswer(d'.rows[x]);
        assert d.ids[i] == x;
      }
    }
  }

  ghost predicate ExactFrom(d: Db, k: nat, d': Db, ok: bool) {
    && Good(d, d') && d'.rows == d.rows
    && (ok <==> RepairableFrom(d, k))
    && (ok ==> forall x :: x in d'.inter.answerIds <==> x in d.inter.answerIds || AnsweredFrom(d, k, x))
  }

  lemma ExactStep(d: Db, k: nat, d1: Db, d': Db, ok: bool)
    requires k < |d.ids| && d.ids[k] in d.rows && HasAnswer(d.rows[d.ids[k]]) && Referable(d, d.ids[k])
    requires Good(d, d1) && d1.rows == d.rows && ExactFrom(d1, k + 1, d', ok)
    requires forall x :: x in d1.inter.answerIds <==> x in d.inter.answerIds || x == d.ids[k]
    requires forall x :: x in d.ids ==> (Referable(d1, x) <==> Referable(d, x))
    ensures ExactFrom(d, k, d', ok)
  {
    hide DbInv, Evolves, Referable, AnsweredFrom, RepairableFrom;
    assert d1.ids == d.ids by { IdsKept(d, d1); }
    RepairableStep(d, k);
    RepairableSame(d, d1, k + 1);
    EvolvesTransitive(d, d1, d');
    forall x ensures AnsweredFrom(d, k, x) <==> x == d.ids[k] || AnsweredFrom(d1, k + 1, x) {
      AnsweredFromStep(d, k, x);
    }
  }

  lemma IdsKept(d: Db, d': Db)
    requires Evolves(d, d')
    ensures d'.ids == d.ids
  {
  }

  lemma ExactSkip(d: Db, k: nat, d': Db, ok: bool)
    requires k < |d.ids| && d.ids[k] in d.rows && !HasAnswer(d.rows[d.ids[k]]) && ExactFrom(d, k + 1, d', ok)
    ensures ExactFrom(d, k, d', ok)
  {
    hide Good, Referable, AnsweredFrom, RepairableFrom;
    RepairableStep(d, k);
    forall x ensures AnsweredFrom(d, k, x) <==> AnsweredFrom(d, k + 1, x) {
      AnsweredFromStep(d, k, x);
    }
  }

  lemma ExactStuck(d: Db, k: nat)
    requires DbInv(d) && k < |d.ids| && d.ids[k] in d.rows && HasAnswer(d.rows[d.ids[k]]) && !Referable(d, d.ids[k])
    ensures ExactFrom(d, k, d, false)
  {
    hide DbInv, Evolves;
    StayGood(d);
    RepairableStep(d, k);
  }

  lemma MemberRow(d: Db, k: nat)
    requires DbInv(d) && k < |d.ids|
    ensures d.ids[k] in d.rows && RowOk(d.rows[d.ids[k]])
  {
  }

  /** Exact meaning of the loop from member `k` on. */
  lemma {:induction false} RepairFromExact(d: Db, k: nat)
    requires DbInv(d) && k <= |d.ids|
    ensures ExactFrom(d, k, RepairFrom(d, k).0, RepairFrom(d, k).1)
    decreases |d.ids| - k
  {
    if k == |d.ids| {
      StayGood(d);
    } else {
      var id := d.ids[k];
      MemberRow(d, k);
      hide DbInv, Evolves, RecordAnswer, RepairFrom, Referable, ExactFrom;
      if !HasAnswer(d.rows[id]) {
        RepairSkips(d, k);
        RepairFromExact(d, k + 1);
        ExactSkip(d, k, RepairFrom(d, k + 1).0, RepairFrom(d, k + 1).1);
      } else if RecordAnswer(d, id, d.rows[id].answerDigest.value).1 {
        RepairRecords(d, k);
        RecordEffect(d, id);
        var d' := RecordAnswer(d, id, d.rows[id].answerDigest.value).0;
        IdsKept(d, d');
        RepairFromExact(d', k + 1);
        ExactStep(d, k, d', RepairFrom(d', k + 1).0, RepairFrom(d', k + 1).1);
      } else {
        RepairStuckExact(d, k);
      }
    }
  }

  lemma RepairRecords(d: Db, k: nat)
    requires k < |d.ids| && d.ids[k] in d.rows && RowOk(d.rows[d.ids[k]]) && HasAnswer(d.rows[d.ids[k]])
    requires RecordAnswer(d, d.ids[k], d.rows[d.ids[k]].answerDigest.value).1
    ensures RepairFrom(d, k) == RepairFrom(RecordAnswer(d, d.ids[k], d.rows[d.ids[k]].answerDigest.value).0, k + 1)
  {
    hide RecordAnswer;
  }

  lemma RepairSkips(d: Db, k: nat)
    requires k < |d.ids| && d.ids[k] in d.rows && !HasAnswer(d.rows[d.ids[k]])
    ensures RepairFrom(d, k) == RepairFrom(d, k + 1)
  {
  }

  lemma RepairStuckExact(d: Db, k: nat)
    requires DbInv(d) && k < |d.ids| && d.ids[k] in d.rows && HasAnswer(d.rows[d.ids[k]])
    requires !RecordAnswer(d, d.ids[k], d.rows[d.ids[k]].answerDigest.value).1
    ensures RepairFrom(d, k) == (d, false) && ExactFrom(d, k, d, false)
  {
    var id := d.ids[k];
    MemberRow(d, k);
    hide DbInv, Evolves, RecordAnswer, Referable, ExactFrom;
    RecordEffect(d, id);
    assert id !in d.inter.answerIds by { Unreferable(d, id); }
    UnreferencedLookup(d, id);
    ExactStuck(d, k);
  }

  lemma Unreferable(d: Db, id: RequestId)
    requires !Referable(d, id)
    ensures id !in d.inter.answerIds
  {
  }

  /** `repair_persisted_answer_refs` succeeds exactly when every answered member
      is referenced already or the aggregate still takes references. It never
      drops a reference, and while the interaction has not ended the references
      it leaves are those of exactly the members that have an answer. */
  lemma RepairExact(d: Db)
    requires DbInv(d)
    ensures var (d', ok) := RepairFrom(d, 0);
            && Good(d, d') && d'.rows == d.rows && d.inter.refs <= d'.inter.refs
            && (ok <==> Repairable(d))
            && (ok && !Ended(d.inter.status) ==>
                  forall id :: id in d.ids ==> (id in d'.inter.answerIds <==> d.rows[id].userInput.Some?))
  {
    var (d', ok) := RepairFrom(d, 0);
    RepairFromExact(d, 0);
    hide RepairFrom, Referable;
    if RepairableFrom(d, 0) {
      forall id | id in d.rows && HasAnswer(d.rows[id]) ensures Referable(d, id) {
        assert id in d.ids;
      }
    }
    if ok && !Ended(d.inter.status) {
      hide DbInv, Evolves;
      forall id | id in d.ids ensures id in d'.inter.answerIds <==> d.rows[id].userInput.Some? {
        AnsweredStatus(d, id);
      }
    }
  }

  lemma AnsweredStatus(d: Db, id: RequestId)
    requires DbInv(d) && id in d.ids && !Ended(d.inter.status)
    ensures id in d.rows && (HasAnswer(d.rows[id]) <==> d.rows[id].userInput.Some?)
    ensures id in d.inter.answerIds ==> d.rows[id].userInput.Some?
    ensures exists i :: 0 <= i < |d.ids| && d.ids[i] == id
  {
    assert RowOk(d.rows[id]);
    if id in d.inter.answerIds {
      var k :| 0 <= k < |d.inter.answerIds| && d.inter.answerIds[k] == id;
      assert d.inter.refs[k].0 == id;
    }
  }

  /** Where the loop leaves the store it has nothing more to do there. */
  lemma {:induction false} RepairFromIdempotent(d: Db, k: nat)
    requires DbInv(d) && k <= |d.ids|
    ensures RepairFrom(RepairFrom(d, k).0, k) == RepairFrom(d, k)
    decreases |d.ids| - k
  {
    if k == |d.ids| {
      RepairEnds(d, k);
    } else {
      MemberRow(d, k);
      hide DbInv, RecordAnswer, RepairFrom, RowOk;
      if !HasAnswer(d.rows[d.ids[k]]) {
        RepairFromIdempotent(d, k + 1);
        RepairSkippedAgain(d, k);
      } else if RecordAnswer(d, d.ids[k], d.rows[d.ids[k]].answerDigest.value).1 {
        var d' := RecordedMember(d, k);
        RepairFromIdempotent(d', k + 1);
        RepairRecordedAgain(d, d', k);
      } else {
        RepairStuckExact(d, k);
      }
    }
  }

  lemma RepairEnds(d: Db, k: nat)
    requires k >= |d.ids|
    ensures RepairFrom(d, k) == (d, true)
  {
  }

  lemma RepairSkippedAgain(d: Db, k: nat)
    requires DbInv(d) && k < |d.ids| && d.ids[k] in d.rows && !HasAnswer(d.rows[d.ids[k]])
    requires RepairFrom(RepairFrom(d, k + 1).0, k + 1) == RepairFrom(d, k + 1)
    ensures RepairFrom(RepairFrom(d, k).0, k) == RepairFrom(d, k)
  {
    hide DbInv, RepairFrom, Evolves;
    RepairKeepsRows(d, k + 1);
    RepairSkips(d, k);
    RepairSkips(RepairFrom(d, k + 1).0, k);
  }

  lemma RecordedMember(d: Db, k: nat) returns (d': Db)
    requires DbInv(d) && k < |d.ids| && d.ids[k] in d.rows && RowOk(d.rows[d.ids[k]]) && HasAnswer(d.rows[d.ids[k]])
    requires RecordAnswer(d, d.ids[k], d.rows[d.ids[k]].answerDigest.value).1
    ensures (d', true) == RecordAnswer(d, d.ids[k], d.rows[d.ids[k]].answerDigest.value)
    ensures DbInv(d') && d'.rows == d.rows && d'.ids == d.ids && d.ids[k] in d'.inter.answerIds
  {
    d' := RecordAnswer(d, d.ids[k], d.rows[d.ids[k]].answerDigest.value).0;
    RecordEffect(d, d.ids[k]);
    hide DbInv, Evolves, RecordAnswer, Referable;
    IdsKept(d, d');
  }

  lemma RepairKeepsRows(d: Db, k: nat)
    requires DbInv(d) && k <= |d.ids|
    ensures var d' := RepairFrom(d, k).0;
            Good(d, d') && d'.rows == d.rows && d'.ids == d.ids
  {
    RepairFromExact(d, k);
    hide DbInv, RepairFrom;
    IdsKept(d, RepairFrom(d, k).0);
  }

  lemma RepairRecordedAgain(d: Db, d': Db, k: nat)
    requires DbInv(d) && k < |d.ids| && d.ids[k] in d.rows && HasAnswer(d.rows[d.ids[k]])
    requires (d', true) == RecordAnswer(d, d.ids[k], d.rows[d.ids[k]].answerDigest.value)
    requires DbInv(d') && d'.rows == d.rows && d'.ids == d.ids && d.ids[k] in d'.inter.answerIds
    requires RepairFrom(RepairFrom(d', k + 1).0, k + 1) == RepairFrom(d', k + 1)
    ensures RepairFrom(RepairFrom(d, k).0, k) == RepairFrom(d, k)
  {
    MemberRow(d, k);
    hide DbInv, Evolves, RecordAnswer, RepairFrom;
    var id := d.ids[k];
    var d'' := RepairFrom(d', k + 1).0;
    RepairKeepsRows(d', k + 1);
    AgainRecorded(d', d'', id, d.rows[id].answerDigest.value);
    RepairRecords(d, k);
    RepairRecords(d'', k);
  }

  lemma AgainRecorded(d: Db, d': Db, id: RequestId, digest: Digest)
    requires Evolves(d, d') && id in d.ids && id in d.inter.answerIds
    ensures RecordAnswer(d', id, digest) == (d', true)
  {
    ReferenceKept(d, d', id);
  }

  lemma ReferenceKept(d: Db, d': Db, id: RequestId)
    requires Evolves(d, d') && id in d.inter.answerIds
    ensures id in d'.inter.answerIds
  {
    var k :| 0 <= k < |d.inter.answerIds| && d.inter.answerIds[k] == id;
    assert d'.inter.answerIds[k] == id;
  }

  /** Repairing twice, whatever the first repair met, is repairing once. */
  lemma RepairIdempotent(d: Db)
    requires DbInv(d)
    ensures RepairFrom(RepairFrom(d, 0).0, 0) == RepairFrom(d, 0)
  {
    RepairFromIdempotent(d, 0);
  }

  /** The same at every crash point of every run of the protocol. */
  lemma RepairAfterCrash(cfg: P.Config, s: P.State, es: seq<P.Event>)
    requires P.Init(s)
    ensures var d := P.Run(cfg, s, es).db;
            var (d', ok) := RepairFrom(d, 0);
            && d.inter.refs <= d'.inter.refs
            && (ok <==> Repairable(d))
            && (ok && !Ended(d.inter.status) ==>
                  forall id :: id in d.ids ==>
                    id in d.rows && (id in d'.inter.answerIds <==> d.rows[id].userInput.Some?))
  {
    T.AtEvolves(cfg, s, es, |es|, |es|);
    assert es[..|es|] == es;
    RepairExact(P.Run(cfg, s, es).db);
  }

  // ----- handle_batch_response

  datatype BatchResult = Ready | Conflict | DeadlinePassed | RoutingFailed

  /** One round of the recording loop for a member and its stripped answer;
      `seen` is the row as the preflight read it. */
  function MemberFrom(d: Db, id: RequestId, text: string, seen: Row): (Db, BatchResult)
    requires id in d.rows
  {
    if text == "" then (d, Conflict)
    else
      var d1 := if seen.status == Pending then ClaimRow(d, id, text, OfText(text)).0 else d;
      var row := if seen.status == Pending then d1.rows[id] else seen;
      if !HasAnswer(row) || row.userInput != Some(text) || row.answerDigest != Some(OfText(text)) then (d1, Conflict)
      else if id in d1.inter.answerIds then (d1, Ready)
      else
        var (d2, recorded) := RecordAnswer(d1, id, OfText(text));
        if recorded then (d2, Ready)
        else if !Live(d1.inter.expiresAt, d1.now) then (ExpireInteraction(d1), DeadlinePassed)
        else (d1, RoutingFailed)
  }

  /** The round on a row that is as the preflight read it. */
  function BatchMember(d: Db, id: RequestId, text: string): (Db, BatchResult) {
    if id !in d.rows then (d, if text == "" then Conflict else RoutingFailed) else MemberFrom(d, id, text, d.rows[id])
  }

  function BatchFrom(d: Db, answers: map<RequestId, string>, k: nat): (Db, BatchResult)
    decreases |d.ids| - k
  {
    if k >= |d.ids| then (d, Ready)
    else if d.ids[k] !in answers then (d, Conflict)
    else
      var (d', r) := BatchMember(d, d.ids[k], answers[d.ids[k]]);
      if r == Ready then BatchFrom(d', answers, k + 1) else (d', r)
  }

  /** Everything `handle_batch_response` does before it applies the answers. */
  function Batch(d: Db, answers: map<RequestId, string>): (Db, BatchResult) {
    if d.ids == [] || answers.Keys != (set id | id in d.ids) then (d, Conflict)
    else if exists id :: id in d.ids && id !in d.rows then (d, RoutingFailed)
    else if !Live(d.inter.expiresAt, d.now) then (ExpireInteraction(d), DeadlinePassed)
    else if Ended(d.inter.status) then (d, Conflict)
    else
      var (d', r) := BatchFrom(d, answers, 0);
      if r != Ready then (d', r)
      else if d'.inter.status in {Applied, AnswersRecorded, Applying} then (d', Ready)
      else (d', RoutingFailed)
  }

  /** `preflight` is the member as the preflight read it, however long ago. */
  method RecordMember(store: Store, id: RequestId, text: string, preflight: Row) returns (r: BatchResult)
    requires id in store.rows
    modifies store
    ensures (store.View(), r) == MemberFrom(old(store.View()), id, text, preflight)
  {
    if text == "" {
      return Conflict;
    }
    var row := preflight;
    if row.status == Pending {
      var won := store.ClaimHitlRequest(id, text);
      row := store.rows[id];
    }
    if !HasAnswer(row) || row.userInput != Some(text) || row.answerDigest != Some(OfText(text)) {
      return Conflict;
    }
    if id !in store.inter.answerIds {
      var recorded := store.RecordInteractionAnswer(id, OfText(text));
      if !recorded {
        if !Live(store.inter.expiresAt, store.now) {
          store.ExpireInteraction();
          return DeadlinePassed;
        }
        return RoutingFailed;
      }
    }
    return Ready;
  }

  /** A preflight row that others have moved on since leads to the same writes
      and the same outcome as the row they left, until the interaction ends. */
  lemma StalePreflightHarmless(d: Db, id: RequestId, text: string, seen: Row)
    requires DbInv(d) && id in d.rows && !Ended(d.inter.status) && RowOk(seen) && RowEvolves(seen, d.rows[id])
    ensures MemberFrom(d, id, text, seen) == BatchMember(d, id, text)
  {
    assert RowOk(d.rows[id]) && !RowTerminal(d.rows[id]);
    hide DbInv, RecordAnswer;
  }

  lemma MemberLocal(d: Db, id: RequestId, text: string)
    requires id in d.rows
    ensures var d' := BatchMember(d, id, text).0;
            d'.ids == d.ids && forall x :: x in d.rows && x != id ==> x in d'.rows && d'.rows[x] == d.rows[x]
  {
  }

  method HandleBatchResponse(store: Store, answers: map<RequestId, string>) returns (r: BatchResult)
    requires DbInv(store.View())
    modifies store
    ensures (store.View(), r) == Batch(old(store.View()), answers)
  {
    if store.ids == [] || answers.Keys != (set id | id in store.ids) {
      return Conflict;
    }
    if exists id :: id in store.ids && id !in store.rows {
      return RoutingFailed;
    }
    if !Live(store.inter.expiresAt, store.now) {
      store.ExpireInteraction();
      return DeadlinePassed;
    }
    if Ended(store.inter.status) {
      return Conflict;
    }
    r := RecordBatch(store, answers);
    if r == Ready && store.inter.status !in {Applied, AnswersRecorded, Applying} {
      r := RoutingFailed;
    }
  }

  method RecordBatch(store: Store, answers: map<RequestId, string>) returns (r: BatchResult)
    requires Distinct(store.ids) && forall id :: id in store.ids ==> id in answers && id in store.rows
    modifies store
    ensures (store.View(), r) == BatchFrom(old(store.View()), answers, 0)
  {
    hide MemberFrom;
    ghost var before := store.View();
    var preflight := store.rows;
    var i := 0;
    while i < |store.ids|
      invariant i <= |store.ids|
      invariant forall j :: i <= j < |store.ids| ==>
                  store.ids[j] in store.rows && store.rows[store.ids[j]] == preflight[store.ids[j]]
      invariant BatchFrom(before, answers, 0) == BatchFrom(store.View(), answers, i)
    {
      var id := store.ids[i];
      assert id in store.ids;
      ghost var d := store.View();
      MemberLocal(d, id, answers[id]);
      r := RecordMember(store, id, answers[id], preflight[id]);
      if r != Ready {
        return;
      }
      i := i + 1;
    }
    return Ready;
  }

  /** A member takes an answer: it is not blank, and the row either holds just
      that text or is pending before its deadline. */
  predicate Takes(r: Row, text: string, now: nat) {
    text != "" && ((HasAnswer(r) && r.userInput == Some(text)) || (r.status == Pending && Live(r.expiresAt, now)))
  }

  predicate Holding(d: Db, id: RequestId, text: string) {
    id in d.rows && HasAnswer(d.rows[id]) && d.rows[id].userInput == Some(text) && id in d.inter.answerIds
  }

  /** The interaction accepts a batch: its deadline lies ahead and it runs. */
  predicate Accepting(d: Db) {
    Live(d.inter.expiresAt, d.now) && !Ended(d.inter.status)
  }

  lemma ClaimEffect(d: Db, id: RequestId, text: string)
    requires DbInv(d) && Accepting(d) && id in d.rows
    ensures var d1 := if d.rows[id].status == Pending then ClaimRow(d, id, text, OfText(text)).0 else d;
            && Good(d, d1) && d1.inter == d.inter && d1.now == d.now && d1.ids == d.ids
            && (forall x :: x in d.rows && x != id ==> x in d1.rows && d1.rows[x] == d.rows[x])
            && id in d1.rows
            && (text != "" ==>
                 (Takes(d.rows[id], text, d.now) <==>
                  HasAnswer(d1.rows[id]) && d1.rows[id].userInput == Some(text)
                  && d1.rows[id].answerDigest == Some(OfText(text))))
  {
    assert RowOk(d.rows[id]);
    hide DbInv, Evolves;
    StayGood(d);
    ClaimRowGood(d, id, text);
  }

  lemma AcceptingReferable(d: Db, id: RequestId)
    requires DbInv(d) && Accepting(d) && id in d.ids
    ensures Referable(d, id)
  {
  }

  ghost predicate MemberDone(d: Db, id: RequestId, text: string, d': Db, r: BatchResult) {
    && Good(d, d') && Accepting(d') && d'.now == d.now && d'.ids == d.ids
    && (forall x :: x in d.rows && x != id ==> x in d'.rows && d'.rows[x] == d.rows[x])
    && (r == Ready <==> id in d.rows && Takes(d.rows[id], text, d.now))
    && (r == Ready || r == Conflict)
    && (r == Ready ==> Holding(d', id, text))
    && OnlyCompletes(d.inter.status, d'.inter.status)
  }

  /** Recording moves the status only from collecting to recorded. */
  predicate OnlyCompletes(st: Status, st': Status) {
    st' == st || (Collecting(st) && (Collecting(st') || st' == AnswersRecorded))
  }

  lemma MemberExact(d: Db, id: RequestId, text: string)
    requires DbInv(d) && Accepting(d) && id in d.ids
    ensures MemberDone(d, id, text, BatchMember(d, id, text).0, BatchMember(d, id, text).1)
  {
    hide DbInv, MemberDone, BatchMember, Takes, Accepting;
    assert id in d.rows by { MemberPresent(d, id); }
    if text != "" && Takes(d.rows[id], text, d.now) && id !in d.inter.answerIds {
      MemberRecords(d, id, text);
    } else {
      MemberKeeps(d, id, text);
    }
  }

  lemma MemberPresent(d: Db, id: RequestId)
    requires DbInv(d) && id in d.ids
    ensures id in d.rows
  {
  }

  /** Nothing new to reference: a conflict, or an answer already recorded. */
  lemma MemberKeeps(d: Db, id: RequestId, text: string)
    requires DbInv(d) && Accepting(d) && id in d.ids && id in d.rows
    requires text == "" || !Takes(d.rows[id], text, d.now) || id in d.inter.answerIds
    ensures MemberDone(d, id, text, BatchMember(d, id, text).0, BatchMember(d, id, text).1)
  {
    StayGood(d);
    hide DbInv, Evolves, ClaimRow, RecordAnswer;
    if text != "" {
      ClaimEffect(d, id, text);
    }
  }

  lemma MemberRecords(d: Db, id: RequestId, text: string)
    requires DbInv(d) && Accepting(d) && id in d.ids && id in d.rows
    requires text != "" && Takes(d.rows[id], text, d.now) && id !in d.inter.answerIds
    ensures MemberDone(d, id, text, BatchMember(d, id, text).0, BatchMember(d, id, text).1)
  {
    hide DbInv, Evolves, ClaimRow, RecordAnswer, OnlyCompletes;
    ClaimEffect(d, id, text);
    var d1 := if d.rows[id].status == Pending then ClaimRow(d, id, text, OfText(text)).0 else d;
    AcceptingReferable(d1, id);
    hide Referable;
    RecordAccepting(d1, id, OfText(text));
    EvolvesTransitive(d, d1, RecordAnswer(d1, id, OfText(text)).0);
  }

  lemma RecordAccepting(d: Db, id: RequestId, digest: Digest)
    requires DbInv(d) && Accepting(d) && id in d.ids && Referable(d, id) && id !in d.inter.answerIds
    requires id in d.rows && d.rows[id].answerDigest == Some(digest)
    ensures var (d', ok) := RecordAnswer(d, id, digest);
            && ok && Good(d, d') && Accepting(d') && d'.now == d.now && d'.ids == d.ids && d'.rows == d.rows
            && id in d'.inter.answerIds && OnlyCompletes(d.inter.status, d'.inter.status)
  {
    hide DbInv, Evolves;
    RecordEffect(d, id);
  }

  ghost predicate TakesFrom(d: Db, answers: map<RequestId, string>, k: nat) {
    forall i :: k <= i < |d.ids| ==>
      d.ids[i] in d.rows && d.ids[i] in answers && Takes(d.rows[d.ids[i]], answers[d.ids[i]], d.now)
  }

  ghost predicate HoldsFrom(d: Db, answers: map<RequestId, string>, k: nat) {
    forall i :: k <= i < |d.ids| ==> d.ids[i] in answers && Holding(d, d.ids[i], answers[d.ids[i]])
  }

  ghost predicate BatchDone(d: Db, answers: map<RequestId, string>, k: nat, d': Db, r: BatchResult) {
    && Good(d, d') && Accepting(d') && d'.ids == d.ids
    && (r == Ready <==> TakesFrom(d, answers, k))
    && (r == Ready || r == Conflict)
    && (r == Ready ==> HoldsFrom(d', answers, k))
    && OnlyCompletes(d.inter.status, d'.inter.status)
  }

  lemma TakesStep(d: Db, d1: Db, answers: map<RequestId, string>, k: nat)
    requires Distinct(d.ids) && k < |d.ids| && d.ids[k] in d.rows && d.ids[k] in answers
    requires d1.ids == d.ids && d1.now == d.now
    requires forall x :: x in d.rows && x != d.ids[k] ==> x in d1.rows && d1.rows[x] == d.rows[x]
    requires forall id :: id in d.ids ==> id in d.rows
    ensures TakesFrom(d, answers, k) <==>
            Takes(d.rows[d.ids[k]], answers[d.ids[k]], d.now) && TakesFrom(d1, answers, k + 1)
  {
    hide Takes;
    forall i | k < i < |d.ids| ensures d.ids[i] in d1.rows && d1.rows[d.ids[i]] == d.rows[d.ids[i]] {
      assert d.ids[i] in d.ids && d.ids[i] != d.ids[k];
    }
  }

  lemma HoldingKept(d: Db, d': Db, id: RequestId, text: string)
    requires Good(d, d') && Accepting(d') && Holding(d, id, text)
    ensures Holding(d', id, text)
  {
    ReferenceKept(d, d', id);
    assert RowEvolves(d.rows[id], d'.rows[id]) && RowOk(d'.rows[id]);
    assert !RowTerminal(d'.rows[id]);
  }

  lemma HoldsStep(d: Db, d1: Db, answers: map<RequestId, string>, k: nat)
    requires Good(d, d1) && Accepting(d1) && k < |d.ids| && d1.ids == d.ids && d.ids[k] in answers
    requires Holding(d, d.ids[k], answers[d.ids[k]]) && HoldsFrom(d1, answers, k + 1)
    ensures HoldsFrom(d1, answers, k)
  {
    hide DbInv, Evolves, Holding, Accepting;
    HoldingKept(d, d1, d.ids[k], answers[d.ids[k]]);
  }

  lemma BatchFromStep(d: Db, d1: Db, answers: map<RequestId, string>, k: nat, d': Db, r: BatchResult)
    requires DbInv(d) && k < |d.ids| && d.ids[k] in answers
    requires MemberDone(d, d.ids[k], answers[d.ids[k]], d1, Ready) && BatchDone(d1, answers, k + 1, d', r)
    ensures BatchDone(d, answers, k, d', r)
  {
    assert d.ids[k] in d.ids && Distinct(d.ids);
    assert forall x :: x in d.ids ==> x in d.rows;
    hide DbInv, Evolves, Accepting, Takes, Holding, TakesFrom, HoldsFrom, Distinct;
    TakesStep(d, d1, answers, k);
    EvolvesTransitive(d, d1, d');
    if r == Ready {
      HoldsStep(d1, d', answers, k);
    }
  }

  lemma BatchFromStop(d: Db, d1: Db, answers: map<RequestId, string>, k: nat, r: BatchResult)
    requires DbInv(d) && k < |d.ids| && d.ids[k] in answers
    requires MemberDone(d, d.ids[k], answers[d.ids[k]], d1, r) && r != Ready
    ensures BatchDone(d, answers, k, d1, r)
  {
    hide DbInv, Evolves, Accepting, Takes, Holding;
  }

  lemma {:induction false} BatchFromExact(d: Db, answers: map<RequestId, string>, k: nat)
    requires DbInv(d) && Accepting(d) && k <= |d.ids| && forall id :: id in d.ids ==> id in answers
    ensures BatchDone(d, answers, k, BatchFrom(d, answers, k).0, BatchFrom(d, answers, k).1)
    decreases |d.ids| - k
  {
    if k == |d.ids| {
      StayGood(d);
    } else {
      var id := d.ids[k];
      assert id in d.ids;
      MemberExact(d, id, answers[id]);
      hide BatchDone, BatchMember, DbInv, Evolves, Accepting;
      var (d1, r) := BatchMember(d, id, answers[id]);
      if r == Ready {
        BatchFromExact(d1, answers, k + 1);
        BatchFromStep(d, d1, answers, k, BatchFrom(d1, answers, k + 1).0, BatchFrom(d1, answers, k + 1).1);
      } else {
        BatchFromStop(d, d1, answers, k, r);
      }
    }
  }

  /** A batch of the interaction's questions, submitted before the deadline to
      an interaction that has not ended, is recorded in full exactly when every
      member takes its answer; otherwise it raises a conflict. Either way every
      answer recorded before is left as it was. */
  lemma BatchExact(d: Db, answers: map<RequestId, string>)
    requires DbInv(d) && Accepting(d) && answers.Keys == (set id | id in d.ids)
    ensures var (d', r) := Batch(d, answers);
            && Good(d, d')
            && (forall id :: id in d.rows && d.rows[id].userInput.Some? ==>
                  id in d'.rows && d'.rows[id].userInput == d.rows[id].userInput
                  && d'.rows[id].answerDigest == d.rows[id].answerDigest)
            && (r == Conflict <==> !TakesFrom(d, answers, 0))
            && (r != Conflict ==> HoldsFrom(d', answers, 0))
            && (r == Ready <==> TakesFrom(d, answers, 0) && d.inter.status != DeliveryUncertain)
  {
    BatchFromExact(d, answers, 0);
    var (d', r) := Batch(d, answers);
    assert Batch(d, answers).0 == BatchFrom(d, answers, 0).0;
    forall id | id in d.rows && d.rows[id].userInput.Some?
      ensures id in d'.rows && d'.rows[id].userInput == d.rows[id].userInput
      ensures d'.rows[id].answerDigest == d.rows[id].answerDigest
    {
      assert RowEvolves(d.rows[id], d'.rows[id]);
    }
    if TakesFrom(d, answers, 0) {
      HeldComplete(d, answers, d');
    }
  }

  /** And every other call: one that is not about just this interaction's
      questions, or comes after it ended, is a conflict and writes nothing; one
      after the deadline records nothing and expires the interaction, unless it
      was claimed or over. */
  lemma BatchRefused(d: Db, answers: map<RequestId, string>)
    requires DbInv(d)
    ensures var (d', r) := Batch(d, answers);
      if answers.Keys != (set id | id in d.ids) then r == Conflict && d' == d
      else if d.inter.expiresAt.Some? && d.inter.expiresAt.value <= d.now then
        && r == DeadlinePassed
        && (if Collecting(d.inter.status) || d.inter.status == AnswersRecorded
            then d' == d.(inter := d.inter.(status := Expired, claim := None, lease := None,
                                            terminalReconciled := false, version := d.inter.version + 1))
            else d' == d)
      else d.inter.status == Canceled || d.inter.status == Expired || d.inter.status == Failed ==>
        r == Conflict && d' == d
  {
  }

  lemma HeldComplete(d: Db, answers: map<RequestId, string>, d': Db)
    requires Good(d, d') && d'.ids == d.ids && HoldsFrom(d', answers, 0) && Accepting(d')
    requires OnlyCompletes(d.inter.status, d'.inter.status)
    ensures d'.inter.status in {Applied, AnswersRecorded, Applying} <==> d.inter.status != DeliveryUncertain
  {
    forall id | id in d'.ids ensures id in d'.inter.answerIds {
      var i :| 0 <= i < |d'.ids| && d'.ids[i] == id;
      assert Holding(d', d'.ids[i], answers[d'.ids[i]]);
    }
    assert Complete(d'.ids, d'.inter.answerIds);
  }

  /** An answer that differs from a recorded one, or is blank, makes the whole
      batch a conflict. */
  lemma DifferentAnswerConflicts(d: Db, answers: map<RequestId, string>, id: RequestId)
    requires DbInv(d) && Accepting(d) && answers.Keys == (set x | x in d.ids)
    requires id in d.ids && d.rows[id].userInput.Some? && d.rows[id].userInput != Some(answers[id])
    ensures Batch(d, answers).1 == Conflict
  {
    BatchExact(d, answers);
    assert RowOk(d.rows[id]);
    var i :| 0 <= i < |d.ids| && d.ids[i] == id;
    assert !Takes(d.rows[d.ids[i]], answers[d.ids[i]], d.now);
  }

  lemma {:induction false} BatchFromAgain(d: Db, answers: map<RequestId, string>, k: nat)
    requires DbInv(d) && k <= |d.ids| && HoldsFrom(d, answers, k)
    requires forall i :: k <= i < |d.ids| ==> answers[d.ids[i]] != ""
    ensures BatchFrom(d, answers, k) == (d, Ready)
    decreases |d.ids| - k
  {
    if k < |d.ids| {
      assert Holding(d, d.ids[k], answers[d.ids[k]]);
      assert RowOk(d.rows[d.ids[k]]);
      BatchFromAgain(d, answers, k + 1);
    }
  }

  /** Submitting a recorded batch again changes nothing and succeeds again. */
  lemma ResubmissionHarmless(d: Db, answers: map<RequestId, string>)
    requires DbInv(d) && Batch(d, answers).1 == Ready
    ensures Batch(Batch(d, answers).0, answers) == Batch(d, answers)
  {
    BatchReady(d, answers);
    hide DbInv, Evolves, Batch, HoldsFrom, TakesFrom, Accepting;
    NothingBlank(d, answers);
    RecordedAgain(Batch(d, answers).0, answers);
  }

  lemma BatchReady(d: Db, answers: map<RequestId, string>)
    requires DbInv(d) && Batch(d, answers).1 == Ready
    ensures d.ids != [] && answers.Keys == (set id | id in d.ids) && TakesFrom(d, answers, 0)
    ensures var d' := Batch(d, answers).0;
            && DbInv(d') && Accepting(d') && d'.ids == d.ids && HoldsFrom(d', answers, 0)
            && d'.inter.status in {Applied, AnswersRecorded, Applying}
  {
    BatchFromExact(d, answers, 0);
    hide DbInv, Evolves, BatchFrom, HoldsFrom, TakesFrom;
  }

  lemma NothingBlank(d: Db, answers: map<RequestId, string>)
    requires TakesFrom(d, answers, 0)
    ensures forall i :: 0 <= i < |d.ids| ==> d.ids[i] in answers && answers[d.ids[i]] != ""
  {
  }

  lemma RecordedAgain(d: Db, answers: map<RequestId, string>)
    requires DbInv(d) && Accepting(d) && d.ids != [] && answers.Keys == (set id | id in d.ids)
    requires d.inter.status in {Applied, AnswersRecorded, Applying} && HoldsFrom(d, answers, 0)
    requires forall i :: 0 <= i < |d.ids| ==> answers[d.ids[i]] != ""
    ensures Batch(d, answers) == (d, Ready)
  {
    BatchFromAgain(d, answers, 0);
  }

  // ----- finalize_applied

  /** One round of the finalization loop; `can` tells whether the display
      projection and the event emission succeed for this member. */
  function FinalizeMember(d: Db, id: RequestId, can: bool): (Db, bool)
    requires id in d.rows
  {
    var r := d.rows[id];
    var d1 := if r.status == AnswerRecorded then RespondRow(d, id).0 else d;
    if r.status != AnswerRecorded && r.status != Responded then (d, false)
    else if d1.rows[id].projected then (d1, true)
    else if can then (SetProjected(d1, id).0, true)
    else (d1, false)
  }

  function FinalizeFrom(d: Db, projects: set<RequestId>, k: nat): (Db, bool)
    requires forall id :: id in d.ids ==> id in d.rows
    decreases |d.ids| - k
  {
    if k >= |d.ids| then (d, true)
    else
      var (d1, ok1) := FinalizeMember(d, d.ids[k], d.ids[k] in projects);
      var (d2, ok2) := FinalizeFrom(d1, projects, k + 1);
      (d2, ok1 && ok2)
  }

  /** The member rows in inventory order. */
  function Members(d: Db): seq<Row>
    requires forall id :: id in d.ids ==> id in d.rows
  {
    seq(|d.ids|, i requires 0 <= i < |d.ids| => d.rows[d.ids[i]])
  }

  /** Raises when `_request_rows` rejects the rows; otherwise runs the loop. */
  method FinalizeApplied(store: Store, snap: Interaction, projects: set<RequestId>, reconcile: bool)
    returns (allProjected: bool, raised: bool)
    requires DbInv(store.View())
    modifies store
    ensures raised <==> !P.RowsAccepted(store.ids, snap.refs, Members(old(store.View())))
    ensures raised ==> store.View() == old(store.View()) && !allProjected
    ensures !raised ==>
              var (d, ok) := FinalizeFrom(old(store.View()), projects, 0);
              && allProjected == ok
              && store.View() == if reconcile && ok && !snap.terminalReconciled
                                 then MarkTerminalReconciled(d, snap.version).0 else d
  {
    if !P.RowsAccepted(store.ids, snap.refs, Members(store.View())) {
      return false, true;
    }
    raised := false;
    allProjected := FinalizeRows(store, projects);
    if reconcile && allProjected && !snap.terminalReconciled && store.inter.version == snap.version {
      store.inter := store.inter.(terminalReconciled := true, version := snap.version + 1);
    }
  }

  method FinalizeRows(store: Store, projects: set<RequestId>) returns (allProjected: bool)
    requires forall id :: id in store.ids ==> id in store.rows
    modifies store
    ensures (store.View(), allProjected) == FinalizeFrom(old(store.View()), projects, 0)
  {
    hide FinalizeMember;
    ghost var before := store.View();
    allProjected := true;
    var i := 0;
    while i < |store.ids|
      invariant i <= |store.ids| && forall id :: id in store.ids ==> id in store.rows
      invariant FinalizeFrom(before, projects, 0).0 == FinalizeFrom(store.View(), projects, i).0
      invariant FinalizeFrom(before, projects, 0).1 <==> allProjected && FinalizeFrom(store.View(), projects, i).1
    {
      var id := store.ids[i];
      assert id in store.ids;
      var ok := FinalizeRow(store, id, id in projects);
      allProjected := allProjected && ok;
      i := i + 1;
    }
  }

  method FinalizeRow(store: Store, id: RequestId, can: bool) returns (ok: bool)
    requires id in store.rows
    modifies store
    ensures (store.View(), ok) == FinalizeMember(old(store.View()), id, can)
    ensures store.rows.Keys == old(store.rows).Keys
  {
    var row := store.rows[id];
    if row.status == AnswerRecorded {
      var won := store.CasRespond(id);
      row := store.rows[id];
    }
    if row.status != Responded {
      return false;
    }
    if row.projected {
      return true;
    }
    if !can {
      return false;
    }
    ok := store.MarkProjected(id);
  }

  predicate Finalizable(r: Row, can: bool) {
    (r.status == Responded && r.projected) || (HasAnswer(r) && can)
  }

  predicate DoneRow(d: Db, id: RequestId) {
    id in d.rows && d.rows[id].status == Responded && d.rows[id].projected
  }

  lemma FinalizeMemberExact(d: Db, id: RequestId, can: bool)
    requires DbInv(d) && id in d.rows
    ensures var (d', ok) := FinalizeMember(d, id, can);
            && Good(d, d') && d'.inter == d.inter && d'.ids == d.ids
            && (forall x :: x in d.rows && x != id ==> x in d'.rows && d'.rows[x] == d.rows[x])
            && (ok <==> Finalizable(d.rows[id], can)) && (ok <==> DoneRow(d', id))
  {
    if HasAnswer(d.rows[id]) {
      AnsweredMemberExact(d, id, can);
    } else {
      assert RowOk(d.rows[id]);
      hide DbInv, Evolves;
      StayGood(d);
    }
  }

  lemma AnsweredMemberExact(d: Db, id: RequestId, can: bool)
    requires DbInv(d) && id in d.rows && HasAnswer(d.rows[id])
    ensures var (d', ok) := FinalizeMember(d, id, can);
            && Good(d, d') && d'.inter == d.inter && d'.ids == d.ids
            && (forall x :: x in d.rows && x != id ==> x in d'.rows && d'.rows[x] == d.rows[x])
            && (ok <==> Finalizable(d.rows[id], can)) && (ok <==> DoneRow(d', id))
  {
    assert RowOk(d.rows[id]);
    hide DbInv, Evolves, RowOk;
    var d1 := if d.rows[id].status == AnswerRecorded then RespondRow(d, id).0 else d;
    Responding(d, id);
    SetProjectedGood(d1, id);
    EvolvesTransitive(d, d1, SetProjected(d1, id).0);
  }

  lemma Responding(d: Db, id: RequestId)
    requires DbInv(d) && id in d.rows && HasAnswer(d.rows[id])
    ensures var d1 := if d.rows[id].status == AnswerRecorded then RespondRow(d, id).0 else d;
            && Good(d, d1) && d1.inter == d.inter && d1.ids == d.ids && id in d1.rows && d1.rows[id].status == Responded
            && d1.rows[id].projected == (d.rows[id].status == Responded && d.rows[id].projected)
            && (forall x :: x in d.rows && x != id ==> x in d1.rows && d1.rows[x] == d.rows[x])
  {
    hide DbInv, Evolves;
    StayGood(d);
    RespondRowGood(d, id);
  }

  ghost predicate FinalizableFrom(d: Db, projects: set<RequestId>, k: nat) {
    forall i :: k <= i < |d.ids| ==> d.ids[i] in d.rows && Finalizable(d.rows[d.ids[i]], d.ids[i] in projects)
  }

  ghost predicate DoneFrom(d: Db, k: nat) {
    forall i :: k <= i < |d.ids| ==> DoneRow(d, d.ids[i])
  }

  ghost predicate FinalizeDone(d: Db, projects: set<RequestId>, k: nat, d': Db, ok: bool) {
    && Good(d, d') && d'.inter == d.inter && d'.ids == d.ids
    && (forall i :: 0 <= i < k && i < |d.ids| ==> SameRow(d, d', d.ids[i]))
    && (ok <==> FinalizableFrom(d, projects, k)) && (ok <==> DoneFrom(d', k))
  }

  predicate SameRow(d: Db, d': Db, id: RequestId) {
    id in d.rows && id in d'.rows && d'.rows[id] == d.rows[id]
  }

  lemma OthersSame(d: Db, d1: Db, k: nat)
    requires DbInv(d) && k < |d.ids| && d1.ids == d.ids
    requires forall x :: x in d.rows && x != d.ids[k] ==> x in d1.rows && d1.rows[x] == d.rows[x]
    ensures forall i :: 0 <= i < |d.ids| && i != k ==> SameRow(d, d1, d.ids[i])
  {
    assert Distinct(d.ids);
    forall i | 0 <= i < |d.ids| && i != k ensures SameRow(d, d1, d.ids[i]) {
      assert d.ids[i] in d.ids;
    }
  }

  lemma FinalizableStep(d: Db, d1: Db, projects: set<RequestId>, k: nat)
    requires k < |d.ids| && d.ids[k] in d.rows && d1.ids == d.ids
    requires forall i :: 0 <= i < |d.ids| && i != k ==> SameRow(d, d1, d.ids[i])
    ensures FinalizableFrom(d, projects, k) <==>
            Finalizable(d.rows[d.ids[k]], d.ids[k] in projects) && FinalizableFrom(d1, projects, k + 1)
  {
    hide Finalizable;
    forall i | k < i < |d.ids| ensures SameRow(d, d1, d.ids[i]) { }
  }

  lemma DoneStep(d1: Db, d': Db, k: nat)
    requires k < |d'.ids| && d1.ids == d'.ids && SameRow(d1, d', d'.ids[k])
    ensures DoneFrom(d', k) <==> DoneRow(d1, d'.ids[k]) && DoneFrom(d', k + 1)
  {
  }

  lemma FinalizeStep(d: Db, d1: Db, ok1: bool, projects: set<RequestId>, k: nat, d': Db, ok: bool)
    requires DbInv(d) && k < |d.ids| && d.ids[k] in d.rows
    requires Good(d, d1) && d1.inter == d.inter && d1.ids == d.ids
    requires forall i :: 0 <= i < |d.ids| && i != k ==> SameRow(d, d1, d.ids[i])
    requires ok1 <==> Finalizable(d.rows[d.ids[k]], d.ids[k] in projects)
    requires ok1 <==> DoneRow(d1, d.ids[k])
    requires FinalizeDone(d1, projects, k + 1, d', ok)
    ensures FinalizeDone(d, projects, k, d', ok1 && ok)
  {
    hide DbInv, Evolves, Finalizable, FinalizableFrom, DoneFrom, DoneRow;
    EvolvesTransitive(d, d1, d');
    FinalizableStep(d, d1, projects, k);
    assert SameRow(d1, d', d.ids[k]);
    DoneStep(d1, d', k);
    forall i | 0 <= i < k ensures SameRow(d, d', d.ids[i]) {
      assert SameRow(d, d1, d.ids[i]) && SameRow(d1, d', d.ids[i]);
    }
  }

  lemma {:induction false} FinalizeFromExact(d: Db, projects: set<RequestId>, k: nat)
    requires DbInv(d) && k <= |d.ids|
    ensures forall id :: id in d.ids ==> id in d.rows
    ensures FinalizeDone(d, projects, k, FinalizeFrom(d, projects, k).0, FinalizeFrom(d, projects, k).1)
    decreases |d.ids| - k
  {
    MembersAre(d);
    hide DbInv, Evolves, FinalizeMember, Finalizable, DoneRow, FinalizeFrom, FinalizeDone;
    if k == |d.ids| {
      FinalizeNone(d, projects);
    } else {
      assert d.ids[k] in d.ids;
      FinalizeMemberExact(d, d.ids[k], d.ids[k] in projects);
      var d1 := FinalizeMember(d, d.ids[k], d.ids[k] in projects).0;
      MembersAre(d1);
      FinalizeUnfold(d, projects, k);
      FinalizeFromExact(d1, projects, k + 1);
      FinalizeJoin(d, projects, k, FinalizeFrom(d1, projects, k + 1).0, FinalizeFrom(d1, projects, k + 1).1);
    }
  }

  lemma FinalizeNone(d: Db, projects: set<RequestId>)
    requires DbInv(d) && forall id :: id in d.ids ==> id in d.rows
    ensures FinalizeFrom(d, projects, |d.ids|) == (d, true) && FinalizeDone(d, projects, |d.ids|, d, true)
  {
    StayGood(d);
    hide DbInv, Evolves;
  }

  lemma FinalizeUnfold(d: Db, projects: set<RequestId>, k: nat)
    requires k < |d.ids| && forall id :: id in d.ids ==> id in d.rows
    requires var d1 := FinalizeMember(d, d.ids[k], d.ids[k] in projects).0;
             forall id :: id in d1.ids ==> id in d1.rows
    ensures var (d1, ok1) := FinalizeMember(d, d.ids[k], d.ids[k] in projects);
            FinalizeFrom(d, projects, k)
              == (FinalizeFrom(d1, projects, k + 1).0, ok1 && FinalizeFrom(d1, projects, k + 1).1)
  {
    hide FinalizeMember;
  }

  lemma FinalizeJoin(d: Db, projects: set<RequestId>, k: nat, d': Db, ok: bool)
    requires DbInv(d) && k < |d.ids| && d.ids[k] in d.rows
    requires var d1 := FinalizeMember(d, d.ids[k], d.ids[k] in projects).0;
             FinalizeDone(d1, projects, k + 1, d', ok)
    ensures var ok1 := FinalizeMember(d, d.ids[k], d.ids[k] in projects).1;
            FinalizeDone(d, projects, k, d', ok1 && ok)
  {
    var (d1, ok1) := FinalizeMember(d, d.ids[k], d.ids[k] in projects);
    FinalizeMemberExact(d, d.ids[k], d.ids[k] in projects);
    hide DbInv, Evolves, FinalizeMember, FinalizeDone, Finalizable, DoneRow, SameRow;
    OthersSame(d, d1, k);
    FinalizeStep(d, d1, ok1, projects, k, d', ok);
  }

  /** The finalization loop reports success exactly when every member is
      answered and can be projected, and exactly then leaves every member
      responded and projected; it never touches the aggregate's answers. */
  lemma FinalizeExact(d: Db, projects: set<RequestId>)
    requires DbInv(d)
    ensures forall id :: id in d.ids ==> id in d.rows
    ensures var (d', ok) := FinalizeFrom(d, projects, 0);
            && Good(d, d') && d'.inter == d.inter
            && (ok <==> forall id :: id in d.ids ==> Finalizable(d.rows[id], id in projects))
            && (ok <==> AllProjected(d'))
  {
    FinalizeFromExact(d, projects, 0);
    var (d', ok) := FinalizeFrom(d, projects, 0);
    MembersAre(d);
    MembersAre(d');
    hide FinalizeFrom, Finalizable, DbInv, Evolves, DoneRow;
    MeansFinalizable(d, projects);
    MeansProjected(d');
  }

  lemma MembersAre(d: Db)
    requires DbInv(d)
    ensures forall id :: id in d.rows <==> id in d.ids
  {
  }

  lemma MeansFinalizable(d: Db, projects: set<RequestId>)
    requires forall id :: id in d.rows <==> id in d.ids
    ensures FinalizableFrom(d, projects, 0) <==> forall id :: id in d.ids ==> Finalizable(d.rows[id], id in projects)
  {
    hide Finalizable;
    if FinalizableFrom(d, projects, 0) {
      forall id | id in d.ids ensures Finalizable(d.rows[id], id in projects) {
        var i :| 0 <= i < |d.ids| && d.ids[i] == id;
        assert d.ids[i] in d.rows;
      }
    }
  }

  lemma MeansProjected(d: Db)
    requires forall id :: id in d.rows <==> id in d.ids
    ensures DoneFrom(d, 0) <==> AllProjected(d)
  {
    if DoneFrom(d, 0) {
      forall id | id in d.rows ensures DoneRow(d, id) {
        var i :| 0 <= i < |d.ids| && d.ids[i] == id;
      }
    }
    if AllProjected(d) {
      forall i | 0 <= i < |d.ids| ensures DoneRow(d, d.ids[i]) {
        assert d.ids[i] in d.ids;
      }
    }
  }
}
