/** The timing of the fenced supervisor effect (`_run_fenced_effect`,
    `_renew_leases_once` and `_heartbeat_leases` of
    backend/approval/application.py): when can two workers run the effect of
    one command at the same time?

    A renewal is a call: it starts, renews the application claim in the store,
    then the command claim, and its reply arrives later. The one timing
    assumption is that a call takes at most `latency` seconds from start to
    reply and that the heartbeat wakes on time.

    Cancelling the caller while it waits for its effect and its heartbeat
    cancels neither of them: both go on as orphans. A refused renewal then ends
    the heartbeat only, and the end of the effect does not end the heartbeat. */
module FencedEffect {
  import opened HitlStore
  import I = HitlInvariant
  import opened Wrappers

  const HEARTBEAT_SECONDS: nat := 15

  datatype Renewal = Started | ApplicationRenewed | CommandRenewed | Refused

  /** Who is left besides the heartbeat: caller and effect, the effect alone, nobody. */
  datatype Crew = Awaited | Orphaned | HeartbeatOnly

  /** `since` is when the current renewal call or heartbeat sleep began. A
      `Loose` effect has lost both its caller and its heartbeat. */
  datatype Worker =
    | Off
    | Entered(app: Claim)
    | Claimed(app: Claim, cc: Claim)
    | Fencing(app: Claim, cc: Claim, since: nat, renewal: Renewal)
    | Asleep(app: Claim, cc: Claim, since: nat, crew: Crew)
    | Beating(app: Claim, cc: Claim, since: nat, renewal: Renewal, crew: Crew)
    | Loose(app: Claim, cc: Claim)
    | Returned(app: Claim, cc: Claim)
    | Cancelled(app: Claim, cc: Claim)
    | Settled(app: Claim)

  datatype State = State(db: Db, workers: map<nat, Worker>, issued: nat)

  /** `Crash` is the end of a worker's process, `Orphan` the cancellation of a
      caller while it waits. */
  datatype Event =
    | ClaimApp(w: nat)
    | ClaimCmd(w: nat)
    | Call(w: nat)
    | Store(w: nat)
    | Reply(w: nat)
    | Orphan(w: nat)
    | Complete(w: nat)
    | Settle(w: nat)
    | Mark(w: nat, outcome: Status)
    | Crash(w: nat)
    | Tick(seconds: nat)
    | Reclaim(seen: Command, at: nat)
    | Resume(claim: Claim)
    | EndApplication

  predicate Beats(k: Worker) {
    k.Asleep? || k.Beating?
  }

  /** The effect is running. */
  predicate Runs(k: Worker) {
    k.Loose? || (Beats(k) && !k.crew.HeartbeatOnly?)
  }

  function WorkerOf(s: State, w: nat): Worker {
    if w in s.workers then s.workers[w] else Off
  }

  function Set(s: State, w: nat, k: Worker): State {
    s.(workers := s.workers[w := k])
  }

  /** The store side of a renewal: application first, then command. */
  function Renew(d: Db, rev: nat, app: Claim, cc: Claim, r: Renewal): (Db, Renewal) {
    match r
    case Started =>
      var (d', held) := RenewApplication(d, app);
      (d', if held then ApplicationRenewed else Refused)
    case ApplicationRenewed =>
      var (d', held) := RenewCommand(d, rev, cc);
      (d', if held then CommandRenewed else Refused)
    case _ => (d, r)
  }

  /** A refused first renewal starts nothing; a refused heartbeat makes a caller
      that is still there cancel the effect. */
  function AfterReply(k: Worker, now: nat): Worker {
    match k
    case Fencing(app, cc, _, CommandRenewed) => Asleep(app, cc, now, Awaited)
    case Fencing(app, cc, _, Refused) => Cancelled(app, cc)
    case Beating(app, cc, _, CommandRenewed, crew) => Asleep(app, cc, now, crew)
    case Beating(app, cc, _, Refused, Awaited) => Cancelled(app, cc)
    case Beating(app, cc, _, Refused, Orphaned) => Loose(app, cc)
    case Beating(_, _, _, Refused, HeartbeatOnly) => Off
    case _ => k
  }

  function AfterEffect(k: Worker): Worker {
    if k.Loose? then Off
    else if !Runs(k) then k
    else if k.crew.Awaited? then Returned(k.app, k.cc)
    else k.(crew := HeartbeatOnly)
  }

  /** What `apply_interaction` stores once its effect is over. */
  function MarkOutcome(d: Db, app: Claim, outcome: Status): Db {
    if outcome in {Applying, DeliveryUncertain, Applied, Failed} then MarkApplication(d, app, outcome).0 else d
  }

  function Next(rev: nat, s: State, e: Event): State {
    match e
    case ClaimApp(w) =>
      var claim := Uuid(s.issued);
      var (d', won) := ClaimApplication(s.db, claim);
      if WorkerOf(s, w).Off? && won then Set(s.(db := d', issued := s.issued + 1), w, Entered(claim)) else s
    case ClaimCmd(w) =>
      var cc := Uuid(s.issued);
      var (d', won) := ClaimCommand(s.db, rev, cc);
      var k := WorkerOf(s, w);
      if k.Entered? && won then Set(s.(db := d', issued := s.issued + 1), w, Claimed(k.app, cc)) else s
    case Call(w) =>
      (match WorkerOf(s, w)
       case Claimed(app, cc) => Set(s, w, Fencing(app, cc, s.db.now, Started))
       case Asleep(app, cc, _, crew) => Set(s, w, Beating(app, cc, s.db.now, Started, crew))
       case _ => s)
    case Store(w) =>
      var k := WorkerOf(s, w);
      if k.Fencing? || k.Beating? then
        var (d', r') := Renew(s.db, rev, k.app, k.cc, k.renewal);
        Set(s.(db := d'), w, k.(renewal := r'))
      else s
    case Reply(w) => Set(s, w, AfterReply(WorkerOf(s, w), s.db.now))
    case Orphan(w) =>
      var k := WorkerOf(s, w);
      if Beats(k) && k.crew.Awaited? then Set(s, w, k.(crew := Orphaned)) else s
    case Complete(w) => Set(s, w, AfterEffect(WorkerOf(s, w)))
    case Settle(w) =>
      (match WorkerOf(s, w)
       case Returned(app, cc) =>
         Set(s.(db := MarkCommand(s.db, rev, Some(cc), Delivering, Acknowledged).0), w, Settled(app))
       case Cancelled(app, cc) =>
         Set(s.(db := MarkCommand(s.db, rev, Some(cc), Delivering, RetryableError).0), w, Settled(app))
       case _ => s)
    case Mark(w, outcome) =>
      var k := WorkerOf(s, w);
      if k.Entered? || k.Settled? then Set(s.(db := MarkOutcome(s.db, k.app, outcome)), w, Off) else s
    case Crash(w) => Set(s, w, Off)
    case Tick(seconds) => s.(db := s.db.(now := s.db.now + seconds))
    case Reclaim(seen, at) => if at <= s.db.now then s.(db := ReclaimCommand(s.db, rev, seen, at).0) else s
    case Resume(claim) => s.(db := ResumeUncertain(s.db, claim).0)
    case EndApplication => s.(db := Terminalize(s.db, {Applying}, Failed).0)
  }

  function Run(rev: nat, s: State, es: seq<Event>): State
    decreases |es|
  {
    if es == [] then s else Run(rev, Next(rev, s, es[0]), es[1..])
  }

  /** No call is older than `latency`, no sleep longer than the heartbeat. */
  predicate OnTime(k: Worker, now: nat, latency: nat) {
    match k
    case Fencing(_, _, since, _) => now <= since + latency
    case Asleep(_, _, since, _) => now <= since + HEARTBEAT_SECONDS
    case Beating(_, _, since, _, _) => now <= since + latency
    case _ => true
  }

  ghost predicate Timely(s: State, latency: nat) {
    forall w :: w in s.workers ==> OnTime(s.workers[w], s.db.now, latency)
  }

  /** Every state of the run is timely. */
  ghost predicate TimelyRun(rev: nat, s: State, es: seq<Event>, latency: nat)
    decreases |es|
  {
    Timely(s, latency) && (es != [] ==> TimelyRun(rev, Next(rev, s, es[0]), es[1..], latency))
  }

  /** A sound store in which nobody has claimed the command yet. */
  ghost predicate Init(rev: nat, s: State) {
    && I.DbInv(s.db) && s.workers == map[]
    && rev in s.db.cmds && s.db.cmds[rev].status != Delivering && s.db.cmds[rev].lease.None?
  }

  ghost predicate AtMostOneRuns(s: State) {
    forall v, w :: Runs(WorkerOf(s, v)) && Runs(WorkerOf(s, w)) ==> v == w
  }

  // ----- the leases cover the effect

  predicate Claims(d: Db, rev: nat, cc: Claim) {
    rev in d.cmds && d.cmds[rev].status == Delivering && d.cmds[rev].claim == Some(cc)
  }

  predicate Holds(d: Db, rev: nat, cc: Claim, until: int) {
    Claims(d, rev, cc) && d.cmds[rev].lease.Some? && d.cmds[rev].lease.value >= until
  }

  /** How long the command lease still lasts at least, told from the worker's
      own clock readings. */
  predicate CommandCovered(d: Db, rev: nat, k: Worker, latency: nat) {
    match k
    case Fencing(_, cc, since, r) =>
      since <= d.now && (r == CommandRenewed ==> Holds(d, rev, cc, since + LEASE_SECONDS))
    case Asleep(_, cc, since, _) => since <= d.now && Holds(d, rev, cc, since - latency + LEASE_SECONDS)
    case Beating(_, cc, since, r, _) =>
      && since <= d.now
      && Holds(d, rev, cc, if r == CommandRenewed then since + LEASE_SECONDS
                           else since - latency - HEARTBEAT_SECONDS + LEASE_SECONDS)
    case _ => true
  }

  /** Applied, failed, expired or canceled: final. */
  predicate Over(d: Db) { I.Phase(d.inter.status) == 4 }

  predicate HoldsApp(d: Db, app: Claim, until: int) {
    Over(d) || (HoldsApplication(d, app) && d.inter.lease.Some? && d.inter.lease.value >= until)
  }

  /** The application lease likewise, unless the interaction is over, which is
      the one reason a heartbeat is ever refused. */
  predicate AppCovered(d: Db, k: Worker, latency: nat) {
    match k
    case Fencing(app, _, since, r) =>
      since <= d.now && (r == ApplicationRenewed || r == CommandRenewed ==> HoldsApp(d, app, since + LEASE_SECONDS))
    case Asleep(app, _, since, _) => since <= d.now && HoldsApp(d, app, since - latency + LEASE_SECONDS)
    case Beating(app, _, since, r, _) =>
      && since <= d.now && (r == Refused ==> Over(d))
      && HoldsApp(d, app, if r == ApplicationRenewed || r == CommandRenewed then since + LEASE_SECONDS
                          else since - latency - HEARTBEAT_SECONDS + LEASE_SECONDS)
    case Loose(_, _) => Over(d)
    case _ => true
  }

  predicate Covered(d: Db, rev: nat, k: Worker, latency: nat) {
    CommandCovered(d, rev, k, latency) && AppCovered(d, k, latency)
  }

  predicate HasClaim(k: Worker) {
    k.Claimed? || k.Fencing? || Beats(k) || k.Loose? || k.Returned? || k.Cancelled?
  }

  predicate Drawn(claim: Claim, issued: nat) { claim.Uuid? && claim.n < issued }

  /** Claims are drawn once each. */
  ghost predicate FreshClaims(s: State) {
    && (forall w :: w in s.workers && HasClaim(s.workers[w]) ==> Drawn(s.workers[w].cc, s.issued))
    && (forall w :: w in s.workers && !s.workers[w].Off? ==> Drawn(s.workers[w].app, s.issued))
    && (forall v, w :: v in s.workers && w in s.workers && v != w && HasClaim(s.workers[v]) && HasClaim(s.workers[w])
          ==> s.workers[v].cc != s.workers[w].cc)
    && (forall v, w :: v in s.workers && w in s.workers && v != w && !s.workers[v].Off? && !s.workers[w].Off?
          ==> s.workers[v].app != s.workers[w].app)
  }

  predicate LeaseBound(d: Db, rev: nat) {
    rev in d.cmds && d.cmds[rev].lease.Some? ==> d.cmds[rev].lease.value <= d.now + LEASE_SECONDS
  }

  ghost predicate Inv(rev: nat, s: State, latency: nat) {
    && FreshClaims(s) && LeaseBound(s.db, rev)
    && forall w :: w in s.workers ==> Covered(s.db, rev, s.workers[w], latency)
  }

  /** Everything but the end of the lease leaves a held command held. */
  predicate KeepsCommand(d: Db, d': Db, rev: nat) {
    rev in d.cmds && d.cmds[rev].status == Delivering && d.cmds[rev].lease.Some? && d.cmds[rev].lease.value > d.now ==>
      && rev in d'.cmds && d'.cmds[rev].status == Delivering && d'.cmds[rev].claim == d.cmds[rev].claim
      && d'.cmds[rev].lease.Some? && d'.cmds[rev].lease.value >= d.cmds[rev].lease.value
  }

  /** And a held application, until the interaction is over. */
  predicate KeepsApp(d: Db, d': Db) {
    && (Over(d) ==> Over(d'))
    && (d.inter.status == Applying && d.inter.lease.Some? && d.inter.lease.value > d.now ==>
          Over(d') || (d'.inter.status == Applying && d'.inter.claim == d.inter.claim && d'.inter.lease.Some?
                       && (d'.inter.lease.value >= d.inter.lease.value
                           || d'.inter.lease.value >= d.now + LEASE_SECONDS)))
  }

  predicate Keeps(d: Db, d': Db, rev: nat) {
    d.now <= d'.now && KeepsCommand(d, d', rev) && KeepsApp(d, d')
  }

  lemma CommandCoveredKept(d: Db, d': Db, rev: nat, k: Worker, latency: nat)
    requires 2 * latency + HEARTBEAT_SECONDS < LEASE_SECONDS
    requires CommandCovered(d, rev, k, latency) && OnTime(k, d.now, latency)
    requires KeepsCommand(d, d', rev) && d.now <= d'.now
    ensures CommandCovered(d', rev, k, latency)
  {
  }

  lemma AppCoveredKept(d: Db, d': Db, k: Worker, latency: nat)
    requires 2 * latency + HEARTBEAT_SECONDS < LEASE_SECONDS
    requires AppCovered(d, k, latency) && OnTime(k, d.now, latency)
    requires KeepsApp(d, d') && d.now <= d'.now
    ensures AppCovered(d', k, latency)
  {
  }

  lemma CoveredKept(d: Db, d': Db, rev: nat, k: Worker, latency: nat)
    requires 2 * latency + HEARTBEAT_SECONDS < LEASE_SECONDS
    requires Covered(d, rev, k, latency) && OnTime(k, d.now, latency) && Keeps(d, d', rev)
    ensures Covered(d', rev, k, latency)
  {
    hide CommandCovered, AppCovered, OnTime, KeepsCommand, KeepsApp;
    CommandCoveredKept(d, d', rev, k, latency);
    AppCoveredKept(d, d', k, latency);
  }

  lemma BeatsHolds(s: State, rev: nat, w: nat, latency: nat)
    requires 2 * latency + HEARTBEAT_SECONDS < LEASE_SECONDS
    requires Inv(rev, s, latency) && Timely(s, latency)
    requires var k := WorkerOf(s, w); Beats(k) || (k.Fencing? && k.renewal == CommandRenewed)
    ensures Claims(s.db, rev, WorkerOf(s, w).cc)
    ensures s.db.cmds[rev].lease.Some? && s.db.cmds[rev].lease.value > s.db.now
  {
    assert OnTime(s.workers[w], s.db.now, latency);
    assert Covered(s.db, rev, s.workers[w], latency);
  }

  /** A worker changes and keeps its claims. */
  predicate SameClaims(k: Worker, k': Worker) {
    && (HasClaim(k') ==> HasClaim(k) && k'.cc == k.cc)
    && (!k'.Off? ==> !k.Off? && k'.app == k.app)
  }

  /** A step of `w` that keeps every covered lease. */
  lemma StepCovered(s: State, d': Db, rev: nat, w: nat, k: Worker, latency: nat)
    requires 2 * latency + HEARTBEAT_SECONDS < LEASE_SECONDS
    requires Inv(rev, s, latency) && Timely(s, latency)
    requires Keeps(s.db, d', rev) && LeaseBound(d', rev) && Covered(d', rev, k, latency)
    requires SameClaims(WorkerOf(s, w), k)
    ensures Inv(rev, Set(s.(db := d'), w, k), latency)
  {
    hide Covered, OnTime, Keeps, LeaseBound;
    forall v | v in s.workers && v != w ensures Covered(d', rev, s.workers[v], latency) {
      CoveredKept(s.db, d', rev, s.workers[v], latency);
    }
    hide *;
    FreshSame(s, w, k);
  }

  lemma FreshSame(s: State, w: nat, k: Worker)
    requires FreshClaims(s) && SameClaims(WorkerOf(s, w), k)
    ensures FreshClaims(Set(s, w, k))
  {
  }

  lemma EnvCovered(s: State, d': Db, rev: nat, latency: nat)
    requires 2 * latency + HEARTBEAT_SECONDS < LEASE_SECONDS
    requires Inv(rev, s, latency) && Timely(s, latency) && Keeps(s.db, d', rev) && LeaseBound(d', rev)
    ensures Inv(rev, s.(db := d'), latency)
  {
    hide Covered, OnTime, Keeps;
    forall v | v in s.workers ensures Covered(d', rev, s.workers[v], latency) {
      CoveredKept(s.db, d', rev, s.workers[v], latency);
    }
  }

  // ----- steps

  lemma RenewKeeps(d: Db, rev: nat, app: Claim, cc: Claim, r: Renewal)
    requires LeaseBound(d, rev)
    ensures var (d', r') := Renew(d, rev, app, cc, r);
            && Keeps(d, d', rev) && LeaseBound(d', rev) && d'.now == d.now
            && (r' == CommandRenewed && r != CommandRenewed ==> Holds(d', rev, cc, d.now + LEASE_SECONDS))
            && (r == Started && r' == ApplicationRenewed ==> HoldsApp(d', app, d.now + LEASE_SECONDS))
  {
  }

  /** While both claims are held a renewal is refused only after the end. */
  lemma RefusedIsOver(d: Db, rev: nat, app: Claim, cc: Claim, r: Renewal)
    requires Over(d) || (HoldsApplication(d, app) && Claims(d, rev, cc))
    requires r != Refused && Renew(d, rev, app, cc, r).1 == Refused && Claims(d, rev, cc)
    ensures Over(Renew(d, rev, app, cc, r).0)
  {
  }

  lemma RenewedStays(d: Db, rev: nat, app: Claim, cc: Claim, r: Renewal)
    ensures r == CommandRenewed || r == Refused ==> Renew(d, rev, app, cc, r) == (d, r)
    ensures r == Started ==> Renew(d, rev, app, cc, r).1 != CommandRenewed
    ensures r == ApplicationRenewed ==> Renew(d, rev, app, cc, r).1 != ApplicationRenewed
  {
  }

  lemma StoreCovered(s: State, rev: nat, w: nat, latency: nat)
    requires 2 * latency + HEARTBEAT_SECONDS < LEASE_SECONDS
    requires Inv(rev, s, latency) && Timely(s, latency)
    ensures Inv(rev, Next(rev, s, Store(w)), latency)
  {
    var k := WorkerOf(s, w);
    if k.Fencing? || k.Beating? {
      hide Renew, Covered;
      var d' := Renew(s.db, rev, k.app, k.cc, k.renewal).0;
      var r' := Renew(s.db, rev, k.app, k.cc, k.renewal).1;
      RenewKeeps(s.db, rev, k.app, k.cc, k.renewal);
      assert OnTime(k, s.db.now, latency) && Covered(s.db, rev, k, latency);
      StoredCovered(s.db, rev, k, latency);
      StepCovered(s, d', rev, w, k.(renewal := r'), latency);
    }
  }

  lemma StoredCovered(d: Db, rev: nat, k: Worker, latency: nat)
    requires 2 * latency + HEARTBEAT_SECONDS < LEASE_SECONDS && LeaseBound(d, rev)
    requires (k.Fencing? || k.Beating?) && OnTime(k, d.now, latency) && Covered(d, rev, k, latency)
    ensures var (d', r') := Renew(d, rev, k.app, k.cc, k.renewal); Covered(d', rev, k.(renewal := r'), latency)
  {
    hide Renew, Keeps, OnTime, HoldsApplication;
    var d' := Renew(d, rev, k.app, k.cc, k.renewal).0;
    var r' := Renew(d, rev, k.app, k.cc, k.renewal).1;
    RenewKeeps(d, rev, k.app, k.cc, k.renewal);
    RenewedStays(d, rev, k.app, k.cc, k.renewal);
    CoveredKept(d, d', rev, k, latency);
    if k.Beating? && r' == Refused && k.renewal != Refused {
      RefusedIsOver(d, rev, k.app, k.cc, k.renewal);
    }
  }

  /** The worker draws the next claim. */
  predicate Draws(s: State, w: nat, k: Worker) {
    || k == Entered(Uuid(s.issued))
    || (WorkerOf(s, w).Entered? && k == Claimed(WorkerOf(s, w).app, Uuid(s.issued)))
  }

  lemma FreshDrawn(s: State, d': Db, w: nat, k: Worker)
    requires FreshClaims(s)
    requires Draws(s, w, k)
    ensures FreshClaims(Set(s.(db := d', issued := s.issued + 1), w, k))
  {
  }

  lemma DrawnCovered(s: State, d': Db, rev: nat, w: nat, k: Worker, latency: nat)
    requires 2 * latency + HEARTBEAT_SECONDS < LEASE_SECONDS
    requires Inv(rev, s, latency) && Timely(s, latency) && Keeps(s.db, d', rev) && LeaseBound(d', rev)
    requires Draws(s, w, k)
    ensures Inv(rev, Set(s.(db := d', issued := s.issued + 1), w, k), latency)
  {
    FreshDrawn(s, d', w, k);
    assert Covered(d', rev, k, latency);
    hide Covered, OnTime, Keeps, LeaseBound, FreshClaims;
    forall v | v in s.workers && v != w ensures Covered(d', rev, s.workers[v], latency) {
      CoveredKept(s.db, d', rev, s.workers[v], latency);
    }
  }

  /** A claim that succeeds finds the application or the command unheld. */
  lemma ClaimKeeps(d: Db, rev: nat, claim: Claim)
    requires LeaseBound(d, rev)
    ensures Keeps(d, ClaimApplication(d, claim).0, rev) && LeaseBound(ClaimApplication(d, claim).0, rev)
    ensures Keeps(d, ClaimCommand(d, rev, claim).0, rev) && LeaseBound(ClaimCommand(d, rev, claim).0, rev)
  {
  }

  lemma ClaimCovered(s: State, rev: nat, w: nat, latency: nat)
    requires 2 * latency + HEARTBEAT_SECONDS < LEASE_SECONDS
    requires Inv(rev, s, latency) && Timely(s, latency)
    ensures Inv(rev, Next(rev, s, ClaimApp(w)), latency)
    ensures Inv(rev, Next(rev, s, ClaimCmd(w)), latency)
  {
    var k := WorkerOf(s, w);
    ClaimKeeps(s.db, rev, Uuid(s.issued));
    hide ClaimApplication, ClaimCommand, Keeps;
    if k.Off? {
      DrawnCovered(s, ClaimApplication(s.db, Uuid(s.issued)).0, rev, w, Entered(Uuid(s.issued)), latency);
    } else if k.Entered? {
      DrawnCovered(s, ClaimCommand(s.db, rev, Uuid(s.issued)).0, rev, w, Claimed(k.app, Uuid(s.issued)), latency);
    }
  }

  /** The mark is fenced by the worker's own claim, which no other worker has. */
  lemma SettleCovered(s: State, rev: nat, w: nat, target: CommandStatus, latency: nat)
    requires 2 * latency + HEARTBEAT_SECONDS < LEASE_SECONDS
    requires Inv(rev, s, latency) && Timely(s, latency)
    requires WorkerOf(s, w).Returned? || WorkerOf(s, w).Cancelled?
    ensures var k := WorkerOf(s, w);
            var d' := MarkCommand(s.db, rev, Some(k.cc), Delivering, target).0;
            Inv(rev, Set(s.(db := d'), w, Settled(k.app)), latency)
  {
    var k := WorkerOf(s, w);
    var d' := MarkCommand(s.db, rev, Some(k.cc), Delivering, target).0;
    FreshSame(s, w, Settled(k.app));
    assert d'.inter == s.db.inter && d'.now == s.db.now && LeaseBound(d', rev);
    forall v | v in s.workers && v != w ensures Covered(d', rev, s.workers[v], latency) {
      assert Covered(s.db, rev, s.workers[v], latency);
      OtherCommand(s.db, rev, k.cc, s.workers[v], target, latency);
    }
  }

  lemma OtherCommand(d: Db, rev: nat, cc: Claim, k: Worker, target: CommandStatus, latency: nat)
    requires Covered(d, rev, k, latency) && (HasClaim(k) ==> k.cc != cc)
    ensures Covered(MarkCommand(d, rev, Some(cc), Delivering, target).0, rev, k, latency)
  {
  }

  lemma MarkCovered(s: State, rev: nat, w: nat, outcome: Status, latency: nat)
    requires 2 * latency + HEARTBEAT_SECONDS < LEASE_SECONDS
    requires Inv(rev, s, latency) && Timely(s, latency)
    requires WorkerOf(s, w).Entered? || WorkerOf(s, w).Settled?
    ensures Inv(rev, Set(s.(db := MarkOutcome(s.db, WorkerOf(s, w).app, outcome)), w, Off), latency)
  {
    var app := WorkerOf(s, w).app;
    FreshSame(s, w, Off);
    forall v | v in s.workers && v != w
      ensures Covered(MarkOutcome(s.db, app, outcome), rev, s.workers[v], latency)
    {
      assert Covered(s.db, rev, s.workers[v], latency);
      OtherApplication(s.db, rev, app, s.workers[v], outcome, latency);
    }
  }

  lemma OtherApplication(d: Db, rev: nat, app: Claim, k: Worker, outcome: Status, latency: nat)
    requires Covered(d, rev, k, latency) && (!k.Off? ==> k.app != app)
    ensures Covered(MarkOutcome(d, app, outcome), rev, k, latency)
  {
  }

  lemma ReplyCovered(d: Db, rev: nat, k: Worker, latency: nat)
    requires OnTime(k, d.now, latency) && Covered(d, rev, k, latency)
    ensures Covered(d, rev, AfterReply(k, d.now), latency) && SameClaims(k, AfterReply(k, d.now))
  {
  }

  lemma EffectCovered(d: Db, rev: nat, k: Worker, latency: nat)
    requires Covered(d, rev, k, latency)
    ensures Covered(d, rev, AfterEffect(k), latency) && SameClaims(k, AfterEffect(k))
    ensures Beats(k) ==> forall crew :: Covered(d, rev, k.(crew := crew), latency)
  {
  }

  lemma OwnStep(s: State, rev: nat, w: nat, k: Worker, latency: nat)
    requires 2 * latency + HEARTBEAT_SECONDS < LEASE_SECONDS
    requires Inv(rev, s, latency) && Timely(s, latency)
    requires Covered(s.db, rev, k, latency) && SameClaims(WorkerOf(s, w), k)
    ensures Inv(rev, Set(s, w, k), latency)
  {
    StepCovered(s, s.db, rev, w, k, latency);
  }

  predicate Silent(e: Event) { e.Call? || e.Reply? || e.Orphan? || e.Complete? || e.Crash? }

  /** Steps that touch no store. */
  lemma SilentCovered(rev: nat, s: State, e: Event, latency: nat)
    requires 2 * latency + HEARTBEAT_SECONDS < LEASE_SECONDS
    requires Inv(rev, s, latency) && Timely(s, latency) && Silent(e)
    ensures Inv(rev, Next(rev, s, e), latency)
  {
    var k := WorkerOf(s, e.w);
    assert OnTime(k, s.db.now, latency) && Covered(s.db, rev, k, latency);
    match e {
      case Call(w) => CallCovered(rev, s, w, latency);
      case Reply(w) =>
        ReplyCovered(s.db, rev, k, latency);
        hide Inv, Covered, OnTime, AfterReply;
        OwnStep(s, rev, w, AfterReply(k, s.db.now), latency);
      case Orphan(w) =>
        EffectCovered(s.db, rev, k, latency);
        hide Inv, Covered, OnTime;
        if Beats(k) && k.crew.Awaited? {
          OwnStep(s, rev, w, k.(crew := Orphaned), latency);
        }
      case Complete(w) =>
        EffectCovered(s.db, rev, k, latency);
        hide Inv, Covered, OnTime, AfterEffect;
        OwnStep(s, rev, w, AfterEffect(k), latency);
      case Crash(w) => OwnStep(s, rev, w, Off, latency);
    }
  }

  lemma CallCovered(rev: nat, s: State, w: nat, latency: nat)
    requires 2 * latency + HEARTBEAT_SECONDS < LEASE_SECONDS
    requires Inv(rev, s, latency) && Timely(s, latency)
    ensures Inv(rev, Next(rev, s, Call(w)), latency)
  {
    var k := WorkerOf(s, w);
    assert OnTime(k, s.db.now, latency) && Covered(s.db, rev, k, latency);
    if k.Claimed? {
      OwnStep(s, rev, w, Fencing(k.app, k.cc, s.db.now, Started), latency);
    } else if k.Asleep? {
      OwnStep(s, rev, w, Beating(k.app, k.cc, s.db.now, Started, k.crew), latency);
    }
  }

  lemma NextCovered(rev: nat, s: State, e: Event, latency: nat)
    requires 2 * latency + HEARTBEAT_SECONDS < LEASE_SECONDS
    requires Inv(rev, s, latency) && Timely(s, latency)
    ensures Inv(rev, Next(rev, s, e), latency)
  {
    if Silent(e) {
      hide Inv, Timely, Next;
      SilentCovered(rev, s, e, latency);
    } else {
      hide Covered, Timely, FreshClaims, ClaimApplication, ClaimCommand, MarkOutcome, MarkCommand;
      match e
      case ClaimApp(w) => ClaimCovered(s, rev, w, latency);
      case ClaimCmd(w) => ClaimCovered(s, rev, w, latency);
      case Store(w) => StoreCovered(s, rev, w, latency);
      case Settle(w) =>
        if WorkerOf(s, w).Returned? {
          SettleCovered(s, rev, w, Acknowledged, latency);
        } else if WorkerOf(s, w).Cancelled? {
          SettleCovered(s, rev, w, RetryableError, latency);
        }
      case Mark(w, outcome) =>
        if WorkerOf(s, w).Entered? || WorkerOf(s, w).Settled? {
          MarkCovered(s, rev, w, outcome, latency);
        }
      case _ =>
        EnvKeeps(rev, s, e);
        EnvCovered(s, Next(rev, s, e).db, rev, latency);
    }
  }

  lemma EnvKeeps(rev: nat, s: State, e: Event)
    requires LeaseBound(s.db, rev) && (e.Tick? || e.Reclaim? || e.Resume? || e.EndApplication?)
    ensures Keeps(s.db, Next(rev, s, e).db, rev) && LeaseBound(Next(rev, s, e).db, rev)
    ensures Next(rev, s, e) == s.(db := Next(rev, s, e).db)
  {
  }

  // ----- a loose effect is alone

  /** The worker's effect runs, or the worker is on its way past the fence. */
  predicate MayRun(d: Db, rev: nat, k: Worker) {
    || Beats(k) || k.Loose?
    || (k.Fencing? && (k.renewal == CommandRenewed || (k.renewal == ApplicationRenewed && Claims(d, rev, k.cc))))
  }

  ghost predicate LooseAlone(rev: nat, s: State) {
    forall x, v :: x in s.workers && v in s.workers && x != v && s.workers[x].Loose? ==>
      !MayRun(s.db, rev, s.workers[v])
  }

  predicate NoNewClaim(d: Db, d': Db, rev: nat, k: Worker) {
    HasClaim(k) && Claims(d', rev, k.cc) ==> Claims(d, rev, k.cc)
  }

  lemma LooseStep(s: State, s': State, rev: nat, w: nat, k: Worker)
    requires LooseAlone(rev, s) && s'.workers == s.workers[w := k]
    requires forall v :: v in s.workers && v != w ==> NoNewClaim(s.db, s'.db, rev, s.workers[v])
    requires MayRun(s'.db, rev, k) ==>
      MayRun(s.db, rev, WorkerOf(s, w)) || forall v :: v in s.workers && v != w ==> !s.workers[v].Loose?
    requires k.Loose? ==>
      WorkerOf(s, w).Loose? || forall v :: v in s.workers && v != w ==> !MayRun(s'.db, rev, s.workers[v])
    ensures LooseAlone(rev, s')
  {
  }

  /** A worker with a live heartbeat, or about to start one, holds the command;
      so nobody else may run. */
  lemma HolderAlone(s: State, rev: nat, w: nat, v: nat, latency: nat)
    requires 2 * latency + HEARTBEAT_SECONDS < LEASE_SECONDS
    requires Inv(rev, s, latency) && Timely(s, latency) && LooseAlone(rev, s)
    requires Beats(WorkerOf(s, w)) && v in s.workers && v != w
    ensures !MayRun(s.db, rev, s.workers[v])
  {
    hide Covered, Timely;
    BeatsHolds(s, rev, w, latency);
    var k := s.workers[v];
    if Beats(k) || (k.Fencing? && k.renewal == CommandRenewed) {
      BeatsHolds(s, rev, v, latency);
    }
  }

  lemma StoreLoose(rev: nat, s: State, w: nat, latency: nat)
    requires Inv(rev, s, latency) && LooseAlone(rev, s)
    ensures LooseAlone(rev, Next(rev, s, Store(w)))
  {
    var k := WorkerOf(s, w);
    var s' := Next(rev, s, Store(w));
    if k.Fencing? || k.Beating? {
      forall v | v in s.workers && v != w ensures s.workers[v].Loose? ==> Over(s.db) {
        assert Covered(s.db, rev, s.workers[v], latency);
      }
      RenewLoose(s.db, rev, k);
      hide Renew, Over, FreshClaims, Covered, Claims;
      LooseStep(s, s', rev, w, s'.workers[w]);
    }
  }

  lemma RenewLoose(d: Db, rev: nat, k: Worker)
    requires k.Fencing? || k.Beating?
    ensures var (d', r') := Renew(d, rev, k.app, k.cc, k.renewal);
            && (forall v: Worker :: NoNewClaim(d, d', rev, v))
            && (MayRun(d', rev, k.(renewal := r')) ==> MayRun(d, rev, k) || !Over(d))
  {
  }

  lemma SilentLoose(rev: nat, s: State, e: Event, latency: nat)
    requires 2 * latency + HEARTBEAT_SECONDS < LEASE_SECONDS
    requires Inv(rev, s, latency) && Timely(s, latency) && LooseAlone(rev, s) && Silent(e)
    ensures LooseAlone(rev, Next(rev, s, e))
  {
    var s' := Next(rev, s, e);
    if s' != s {
      if Beats(WorkerOf(s, e.w)) && s'.workers[e.w].Loose? {
        forall v | v in s.workers && v != e.w ensures !MayRun(s.db, rev, s.workers[v]) {
          HolderAlone(s, rev, e.w, v, latency);
        }
      }
      hide Inv, Timely, LooseAlone;
      LooseStep(s, s', rev, e.w, s'.workers[e.w]);
    }
  }

  lemma NextLoose(rev: nat, s: State, e: Event, latency: nat)
    requires 2 * latency + HEARTBEAT_SECONDS < LEASE_SECONDS
    requires Inv(rev, s, latency) && Timely(s, latency) && LooseAlone(rev, s)
    ensures LooseAlone(rev, Next(rev, s, e))
  {
    var s' := Next(rev, s, e);
    if Silent(e) {
      hide Inv, Timely, LooseAlone, Next;
      SilentLoose(rev, s, e, latency);
    } else if e.Store? {
      hide Inv, Timely, LooseAlone, Next;
      StoreLoose(rev, s, e.w, latency);
    } else {
      ClaimsLoose(rev, s, e);
      hide Timely, Covered, Next;
      if s' != s && Acts(e) {
        hide LooseAlone, NoNewClaim;
        LooseStep(s, s', rev, e.w, s'.workers[e.w]);
      }
    }
  }

  /** Of the steps that write the store only renewals let a worker on, and none
      gives a command to a claim drawn before. */
  ghost predicate LetsNobodyOn(rev: nat, s: State, e: Event, s': State) {
    && (forall v :: v in s.workers ==> NoNewClaim(s.db, s'.db, rev, s.workers[v]))
    && (s' != s && Acts(e) ==>
          && e.w in s'.workers && s'.workers == s.workers[e.w := s'.workers[e.w]]
          && !MayRun(s'.db, rev, s'.workers[e.w]))
    && (!Acts(e) ==> s'.workers == s.workers)
  }

  predicate Acts(e: Event) { e.ClaimApp? || e.ClaimCmd? || e.Settle? || e.Mark? }

  lemma ClaimsLoose(rev: nat, s: State, e: Event)
    requires FreshClaims(s) && !Silent(e) && !e.Store?
    ensures LetsNobodyOn(rev, s, e, Next(rev, s, e))
  {
    hide Next, LetsNobodyOn, FreshClaims;
    match e
    case ClaimApp(w) => ClaimAppLoose(rev, s, w);
    case ClaimCmd(w) => ClaimCmdLoose(rev, s, w);
    case Settle(w) => SettleLoose(rev, s, w);
    case Mark(w, outcome) => MarkLoose(rev, s, w, outcome);
    case _ => EnvLoose(rev, s, e);
  }

  lemma ClaimAppLoose(rev: nat, s: State, w: nat)
    ensures LetsNobodyOn(rev, s, ClaimApp(w), Next(rev, s, ClaimApp(w)))
  {
  }

  lemma ClaimCmdLoose(rev: nat, s: State, w: nat)
    requires FreshClaims(s)
    ensures LetsNobodyOn(rev, s, ClaimCmd(w), Next(rev, s, ClaimCmd(w)))
  {
  }

  lemma SettleLoose(rev: nat, s: State, w: nat)
    ensures LetsNobodyOn(rev, s, Settle(w), Next(rev, s, Settle(w)))
  {
  }

  lemma MarkLoose(rev: nat, s: State, w: nat, outcome: Status)
    ensures LetsNobodyOn(rev, s, Mark(w, outcome), Next(rev, s, Mark(w, outcome)))
  {
  }

  lemma EnvLoose(rev: nat, s: State, e: Event)
    requires !Silent(e) && !e.Store? && !Acts(e)
    ensures LetsNobodyOn(rev, s, e, Next(rev, s, e))
  {
  }

  // ----- exclusion

  lemma {:induction false} RunCovered(rev: nat, s: State, es: seq<Event>, latency: nat)
    requires 2 * latency + HEARTBEAT_SECONDS < LEASE_SECONDS
    requires Inv(rev, s, latency) && LooseAlone(rev, s) && TimelyRun(rev, s, es, latency)
    ensures var t := Run(rev, s, es); Inv(rev, t, latency) && LooseAlone(rev, t) && Timely(t, latency)
    decreases |es|
  {
    hide Inv, Timely, Next, LooseAlone;
    if es != [] {
      NextCovered(rev, s, es[0], latency);
      NextLoose(rev, s, es[0], latency);
      RunCovered(rev, Next(rev, s, es[0]), es[1..], latency);
    }
  }

  /** When a renewal takes at most `latency` seconds and twice that plus one
      heartbeat is below the lease, no two workers ever run the effect of one
      command at the same time, orphans included. Whoever runs it holds its
      command, or is loose in an interaction that is over. */
  lemma EffectExclusive(rev: nat, s: State, es: seq<Event>, latency: nat)
    requires 2 * latency + HEARTBEAT_SECONDS < LEASE_SECONDS
    requires Init(rev, s) && TimelyRun(rev, s, es, latency)
    ensures AtMostOneRuns(Run(rev, s, es))
    ensures var t := Run(rev, s, es);
            forall w :: Runs(WorkerOf(t, w)) ==>
              if WorkerOf(t, w).Loose? then Over(t.db) else Claims(t.db, rev, WorkerOf(t, w).cc)
  {
    var t := Run(rev, s, es);
    RunCovered(rev, s, es, latency);
    forall w | Runs(WorkerOf(t, w))
      ensures if WorkerOf(t, w).Loose? then Over(t.db) else Claims(t.db, rev, WorkerOf(t, w).cc)
    {
      if WorkerOf(t, w).Loose? {
        assert Covered(t.db, rev, t.workers[w], latency);
      } else {
        BeatsHolds(t, rev, w, latency);
      }
    }
    forall v, w | Runs(WorkerOf(t, v)) && Runs(WorkerOf(t, w)) ensures v == w {
      if v != w && !WorkerOf(t, v).Loose? {
        HolderAlone(t, rev, v, w, latency);
      }
    }
  }
}
