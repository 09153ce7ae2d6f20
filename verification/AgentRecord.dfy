/** The agent-record state machine: bundled-agent gating and reconciliation
    (backend/agent/bundled.py), registration takeover and local discovery
    (backend/agent/facade.py), and the health and liveness writers
    (backend/agent/health.py, backend/agent/liveness.py).

    Every repository read and every repository write is a step of its own, so
    any other actor may run between what a task reads and what it writes. */
module AgentRecord {

  import opened Wrappers

  datatype Source = Local | Cloud | Bundled
  datatype Status = Active | Inactive
  datatype Reason = ProviderNotConfigured | ImageModelNotConfigured

  /** Minted by the id factory, or the hash of a discovered URL. */
  datatype Id = Minted(n: nat) | UrlHash(url: string)

  datatype Record = Record(
    source: Source, owner: Option<string>, status: Status,
    reason: Option<Reason>, bundledName: Option<string>, url: string)

  type Db = map<Id, Record>

  datatype Availability = Availability(configured: bool, imageModel: bool)
  datatype Requirement = NoneNeeded | Text | Image
  datatype Entry = Entry(needs: Requirement, url: string, composeUrl: string)

  datatype Conflict = AlreadyRegistered | OwnedByAnother | ActiveLocalDiscovery | DuplicateUrl

  datatype Found = Found(id: Id, record: Record)

  /** Where a task is between two repository accesses. */
  datatype Task =
    | Idle
    | Registering(provider: string, url: string, seen: Option<Found>)
    | Rereading(provider: string, url: string)
    | Registered(id: Id, provider: string)
    | Refused(conflict: Conflict)
    | Discovering(url: string, seen: Option<Found>)
    | Discovered(id: Id, managed: bool)
    | Probing(probed: Found)
    | GateReading(available: Availability)
    | Gating(available: Availability, visited: seq<Found>, next: nat)
    | Gated(available: Availability)
    | FindingName(name: string)
    | FindingUrl(name: string)
    | FindingComposeUrl(name: string)
    | FindingHolder(name: string, record: Option<Found>)
    | Reconciling(name: string, record: Option<Found>, reason: Option<Reason>)

  datatype State = State(
    db: Db, lock: Option<nat>, tasks: map<nat, Task>,
    available: Availability, manifest: map<string, Entry>, systemProvider: string)

  datatype Act =
    | SetAvailability(available: Availability)
    | RegisterRead(i: nat, provider: string, url: string, found: Option<Id>)
    | RegisterWrite(i: nat, minted: Id)
    | RegisterReread(i: nat, found: Option<Id>)
    | DiscoverRead(i: nat, url: string, found: Option<Id>)
    | DiscoverWrite(i: nat)
    | MarkInactive(ids: set<Id>)
    | Prune(ids: set<Id>)
    | ProbeRead(i: nat, id: Id)
    | ProbeWrite(i: nat, healthy: bool)
    | GateLock(i: nat)
    | GateRead(i: nat, visited: seq<Found>)
    | GateStep(i: nat)
    | GateReturn(i: nat)
    | ReconcileLock(i: nat, name: string)
    | ReconcileFindName(i: nat, found: Option<Id>)
    | ReconcileFindUrl(i: nat, found: Option<Id>)
    | ReconcileFindComposeUrl(i: nat, found: Option<Id>)
    | ReconcileHolder(i: nat, holder: Option<Id>)
    | ReconcileWrite(i: nat, minted: Id)
    | Abort(i: nat)

  // ----- pure parts of the source

  function InactiveReason(needs: Requirement, available: Availability): Option<Reason> {
    if needs.NoneNeeded? then None
    else if !available.configured then Some(ProviderNotConfigured)
    else if needs.Image? && !available.imageModel then Some(ImageModelNotConfigured)
    else None
  }

  /** `_gating_updates`: the status and reason to write, or nothing. */
  function GatingUpdates(r: Record, reason: Option<Reason>): Option<(Status, Option<Reason>)> {
    if reason.Some? then
      if r.reason == reason && r.status == Inactive then None else Some((Inactive, reason))
    else if r.reason.None? then None
    else Some((Active, None))
  }

  function RegistrationConflict(r: Record, provider: string): Option<Conflict> {
    if r.owner == Some(provider) then Some(AlreadyRegistered)
    else if r.owner.Some? then Some(OwnedByAnother)
    else if !r.source.Local? then Some(OwnedByAnother)
    else if r.status != Inactive then Some(ActiveLocalDiscovery)
    else None
  }

  /** `_TAKEOVER_CONDITIONS`. */
  predicate Takeable(r: Record) { r.source.Local? && r.owner.None? && r.status.Inactive? }

  /** The unique index on the normalized URL. */
  predicate UrlTaken(db: Db, id: Id, url: string) {
    exists other :: other in db && other != id && db[other].url == url
  }

  /** `find_by_normalized_url`: some record at the URL, or none when there is none. */
  predicate Finds(db: Db, url: string, found: Option<Id>) {
    if found.Some? then found.value in db && db[found.value].url == url
    else forall id :: id in db ==> db[id].url != url
  }

  function Seen(db: Db, found: Option<Id>): Option<Found>
    requires found.Some? ==> found.value in db
  {
    if found.Some? then Some(Found(found.value, db[found.value])) else None
  }

  // ----- repository writes

  function TakeOver(db: Db, id: Id, provider: string, url: string): Db
    requires id in db
  {
    db[id := db[id].(source := Cloud, owner := Some(provider), status := Active, url := url)]
  }

  /** `upsert` of a discovery document: fields it does not name are kept. */
  function InsertLocal(db: Db, id: Id, url: string): Db {
    var was := if id in db then db[id] else Record(Local, None, Active, None, None, url);
    db[id := was.(source := Local, owner := None, status := Active, url := url)]
  }

  function SetStatus(db: Db, id: Id, status: Status): Db {
    if id in db then db[id := db[id].(status := status)] else db
  }

  /** `reactivate_agent`: only while inactive and ungated. */
  function Reactivate(db: Db, id: Id): Db {
    if id in db && db[id].status.Inactive? && db[id].reason.None? then SetStatus(db, id, Active) else db
  }

  function MarkInactiveIn(db: Db, ids: set<Id>): Db {
    map id | id in db :: if id in ids && db[id].source.Local? then db[id].(status := Inactive) else db[id]
  }

  function Gate(db: Db, id: Id, u: Option<(Status, Option<Reason>)>): Db {
    if u.Some? && id in db then db[id := db[id].(status := u.value.0, reason := u.value.1)] else db
  }

  function BundledRecord(provider: string, name: string, url: string, reason: Option<Reason>): Record {
    Record(Bundled, Some(provider), if reason.Some? then Inactive else Active, reason, Some(name), url)
  }

  // ----- steps

  function TaskOf(s: State, i: nat): Task { if i in s.tasks then s.tasks[i] else Idle }

  function At(s: State, i: nat, t: Task): State { s.(tasks := s.tasks[i := t]) }

  /** Every bundled record, once. */
  ghost predicate ReadsBundled(db: Db, visited: seq<Found>) {
    && (forall j :: 0 <= j < |visited| ==> visited[j].id in db && visited[j].record == db[visited[j].id])
    && (forall j :: 0 <= j < |visited| ==> visited[j].record.source.Bundled?)
    && (forall id :: id in db && db[id].source.Bundled? ==> exists j :: 0 <= j < |visited| && visited[j].id == id)
    && (forall j, k :: 0 <= j < k < |visited| ==> visited[j].id != visited[k].id)
  }

  ghost predicate Enabled(s: State, a: Act) {
    match a
    case SetAvailability(_) => true
    case RegisterRead(i, _, url, found) => TaskOf(s, i).Idle? && Finds(s.db, url, found)
    case RegisterWrite(i, minted) => TaskOf(s, i).Registering? && minted.Minted? && minted !in s.db
    case RegisterReread(i, found) => TaskOf(s, i).Rereading? && Finds(s.db, TaskOf(s, i).url, found)
    case DiscoverRead(i, url, found) => TaskOf(s, i).Idle? && Finds(s.db, url, found)
    case DiscoverWrite(i) => TaskOf(s, i).Discovering?
    case MarkInactive(_) => true
    case Prune(ids) => forall id :: id in ids && id in s.db ==> Takeable(s.db[id])
    case ProbeRead(i, id) => TaskOf(s, i).Idle? && id in s.db
    case ProbeWrite(i, _) => TaskOf(s, i).Probing?
    case GateLock(i) => TaskOf(s, i).Idle? && s.lock.None?
    case GateRead(i, visited) => TaskOf(s, i).GateReading? && ReadsBundled(s.db, visited)
    case GateStep(i) => TaskOf(s, i).Gating? && TaskOf(s, i).next < |TaskOf(s, i).visited|
    case GateReturn(i) => TaskOf(s, i).Gating? && TaskOf(s, i).next >= |TaskOf(s, i).visited|
    case ReconcileLock(i, name) => TaskOf(s, i).Idle? && s.lock.None? && name in s.manifest
    case ReconcileFindName(i, found) =>
      && TaskOf(s, i).FindingName?
      && if found.Some? then
           found.value in s.db && IsNamed(s.db[found.value], TaskOf(s, i).name)
         else forall id :: id in s.db ==> !IsNamed(s.db[id], TaskOf(s, i).name)
    case ReconcileFindUrl(i, found) =>
      TaskOf(s, i).FindingUrl? && TaskOf(s, i).name in s.manifest
      && Finds(s.db, s.manifest[TaskOf(s, i).name].url, found)
    case ReconcileFindComposeUrl(i, found) =>
      TaskOf(s, i).FindingComposeUrl? && TaskOf(s, i).name in s.manifest
      && Finds(s.db, s.manifest[TaskOf(s, i).name].composeUrl, found)
    case ReconcileHolder(i, holder) =>
      TaskOf(s, i).FindingHolder? && TaskOf(s, i).name in s.manifest
      && Finds(s.db, s.manifest[TaskOf(s, i).name].url, holder)
    case ReconcileWrite(i, minted) =>
      TaskOf(s, i).Reconciling? && TaskOf(s, i).name in s.manifest && minted.Minted? && minted !in s.db
    case Abort(i) => true
  }

  predicate IsNamed(r: Record, name: string) { r.source.Bundled? && r.bundledName == Some(name) }

  function RegisterWriteStep(s: State, i: nat, minted: Id): State
    requires TaskOf(s, i).Registering?
  {
    var t := TaskOf(s, i);
    if t.seen.None? then
      if UrlTaken(s.db, minted, t.url) then At(s, i, Refused(DuplicateUrl))
      else
        At(s, i, Registered(minted, t.provider))
        .(db := s.db[minted := Record(Cloud, Some(t.provider), Active, None, None, t.url)])
    else
      var id := t.seen.value.id;
      if id !in s.db || !Takeable(s.db[id]) then At(s, i, Rereading(t.provider, t.url))
      else if UrlTaken(s.db, id, t.url) then At(s, i, Refused(DuplicateUrl))
      else At(s, i, Registered(id, t.provider)).(db := TakeOver(s.db, id, t.provider, t.url))
  }

  function DiscoverWriteStep(s: State, i: nat): State
    requires TaskOf(s, i).Discovering?
  {
    var t := TaskOf(s, i);
    if t.seen.Some? then
      var id := t.seen.value.id;
      if id in s.db && s.db[id].source.Local? then
        At(s, i, Discovered(id, true)).(db := SetStatus(s.db, id, Active))
      else At(s, i, Discovered(id, false))
    else
      var id := UrlHash(t.url);
      if UrlTaken(s.db, id, t.url) then At(s, i, Idle)
      else At(s, i, Discovered(id, true)).(db := InsertLocal(s.db, id, t.url))
  }

  /** A health cycle, a health retry and the liveness check write alike: down
      without a condition, up only through `reactivate_agent`. */
  function ProbeWriteStep(s: State, i: nat, healthy: bool): State
    requires TaskOf(s, i).Probing?
  {
    var f := TaskOf(s, i).probed;
    var db' :=
      if healthy then
        if f.record.status.Inactive? && f.record.reason.None? then Reactivate(s.db, f.id) else s.db
      else if f.record.status.Active? then SetStatus(s.db, f.id, Inactive)
      else s.db;
    At(s, i, Idle).(db := db')
  }

  /** What a pass writes for its next entry. */
  function GateWrite(s: State, t: Task): Db
    requires t.Gating? && t.next < |t.visited|
  {
    var f := t.visited[t.next];
    if f.record.bundledName.Some? && f.record.bundledName.value in s.manifest then
      var needs := s.manifest[f.record.bundledName.value].needs;
      Gate(s.db, f.id, GatingUpdates(f.record, InactiveReason(needs, t.available)))
    else s.db
  }

  function GateStepOf(s: State, i: nat): State
    requires TaskOf(s, i).Gating? && TaskOf(s, i).next < |TaskOf(s, i).visited|
  {
    var t := TaskOf(s, i);
    At(s, i, t.(next := t.next + 1)).(db := GateWrite(s, t))
  }

  function ReconcileWriteStep(s: State, i: nat, minted: Id): State
    requires TaskOf(s, i).Reconciling? && TaskOf(s, i).name in s.manifest
  {
    var t := TaskOf(s, i);
    var url := s.manifest[t.name].url;
    var id := if t.record.Some? then t.record.value.id else minted;
    var done := At(s, i, Idle).(lock := None);
    if t.record.Some? && id !in s.db then done
    else if UrlTaken(s.db, id, url) then done
    else done.(db := s.db[id := BundledRecord(s.systemProvider, t.name, url, t.reason)])
  }

  function Apply(s: State, a: Act): State
    requires Enabled(s, a)
  {
    match a
    case SetAvailability(available) => s.(available := available)
    case RegisterRead(i, provider, url, found) =>
      var conflict := if found.Some? then RegistrationConflict(s.db[found.value], provider) else None;
      At(s, i, if conflict.Some? then Refused(conflict.value) else Registering(provider, url, Seen(s.db, found)))
    case RegisterWrite(i, minted) => RegisterWriteStep(s, i, minted)
    case RegisterReread(i, found) =>
      var conflict := if found.Some? then RegistrationConflict(s.db[found.value], TaskOf(s, i).provider) else None;
      At(s, i, Refused(if conflict.Some? then conflict.value else ActiveLocalDiscovery))
    case DiscoverRead(i, url, found) =>
      At(s, i, if found.Some? && !s.db[found.value].source.Local? then Discovered(found.value, false)
               else Discovering(url, Seen(s.db, found)))
    case DiscoverWrite(i) => DiscoverWriteStep(s, i)
    case MarkInactive(ids) => s.(db := MarkInactiveIn(s.db, ids))
    case Prune(ids) => s.(db := s.db - ids)
    case ProbeRead(i, id) => At(s, i, Probing(Found(id, s.db[id])))
    case ProbeWrite(i, healthy) => ProbeWriteStep(s, i, healthy)
    case GateLock(i) => At(s, i, GateReading(s.available)).(lock := Some(i))
    case GateRead(i, visited) => At(s, i, Gating(TaskOf(s, i).available, visited, 0))
    case GateStep(i) => GateStepOf(s, i)
    case GateReturn(i) => At(s, i, Gated(TaskOf(s, i).available)).(lock := None)
    case ReconcileLock(i, name) => At(s, i, FindingName(name)).(lock := Some(i))
    case ReconcileFindName(i, found) =>
      var name := TaskOf(s, i).name;
      At(s, i, if found.Some? then FindingHolder(name, Seen(s.db, found)) else FindingUrl(name))
    case ReconcileFindUrl(i, found) =>
      var name := TaskOf(s, i).name;
      At(s, i, if found.Some? && !s.db[found.value].source.Local? then FindingHolder(name, Seen(s.db, found))
               else FindingComposeUrl(name))
    case ReconcileFindComposeUrl(i, found) =>
      var name := TaskOf(s, i).name;
      At(s, i, FindingHolder(name, if found.Some? && !s.db[found.value].source.Local? then Seen(s.db, found) else None))
    case ReconcileHolder(i, holder) =>
      var t := TaskOf(s, i);
      if holder.Some? && (t.record.None? || holder.value != t.record.value.id) then At(s, i, Idle).(lock := None)
      else At(s, i, Reconciling(t.name, t.record, InactiveReason(s.manifest[t.name].needs, s.available)))
    case ReconcileWrite(i, minted) => ReconcileWriteStep(s, i, minted)
    case Abort(i) => At(s, i, Idle).(lock := if s.lock == Some(i) then None else s.lock)
  }

  ghost predicate Init(s: State) { s.db == map[] && s.lock.None? && s.tasks == map[] }

  /** A discovery insert writes by the hash of its URL; this is the id of the
      record it overwrites. */
  function Overwritten(s: State, a: Act): (id: Option<Id>)
    ensures id.Some? ==> id.value in s.db
  {
    if a.DiscoverWrite? && TaskOf(s, a.i).Discovering? && TaskOf(s, a.i).seen.None?
       && UrlHash(TaskOf(s, a.i).url) in s.db && !UrlTaken(s.db, UrlHash(TaskOf(s, a.i).url), TaskOf(s, a.i).url)
    then Some(UrlHash(TaskOf(s, a.i).url)) else None
  }

  /** The gating pass writes a reason when it comes to this entry. */
  predicate WillGate(s: State, t: Task, f: Found) {
    && t.Gating? && f.record.bundledName.Some? && f.record.bundledName.value in s.manifest
    && InactiveReason(s.manifest[f.record.bundledName.value].needs, t.available).Some?
  }

  /** Task `i` is a gating pass that has read this record and will gate it. */
  ghost predicate AwaitsReason(s: State, i: nat, id: Id) {
    var t := TaskOf(s, i);
    t.Gating? && exists j :: t.next <= j < |t.visited| && t.visited[j].id == id && WillGate(s, t, t.visited[j])
  }

  /** The step overwrites no record that is gated or about to be. */
  ghost predicate SparesGating(s: State, a: Act) {
    Overwritten(s, a).Some? ==>
      s.db[Overwritten(s, a).value].reason.None? && forall i: nat :: !AwaitsReason(s, i, Overwritten(s, a).value)
  }

  /** The step does not overwrite this record while it is owned. */
  predicate SparesOwner(s: State, a: Act, id: Id) {
    Overwritten(s, a) == Some(id) ==> s.db[id].owner.None?
  }

  predicate SparesOwned(s: State, a: Act) {
    Overwritten(s, a).Some? ==> s.db[Overwritten(s, a).value].owner.None?
  }

  /** Consecutive steps from the first state. */
  ghost predicate Path(states: seq<State>, acts: seq<Act>) {
    && |states| == |acts| + 1
    && forall k :: 0 <= k < |acts| ==> Enabled(states[k], acts[k]) && states[k + 1] == Apply(states[k], acts[k])
  }

  /** A run from an empty collection. */
  ghost predicate Run(states: seq<State>, acts: seq<Act>) {
    Path(states, acts) && Init(states[0])
  }

  ghost predicate GatingSpared(states: seq<State>, acts: seq<Act>) {
    |states| == |acts| + 1 && forall k :: 0 <= k < |acts| ==> SparesGating(states[k], acts[k])
  }

  ghost predicate OwnerSpared(states: seq<State>, acts: seq<Act>, id: Id) {
    |states| == |acts| + 1 && forall k :: 0 <= k < |acts| ==> SparesOwner(states[k], acts[k], id)
  }

  ghost predicate OwnedSpared(states: seq<State>, acts: seq<Act>) {
    |states| == |acts| + 1 && forall k :: 0 <= k < |acts| ==> SparesOwned(states[k], acts[k])
  }
}
