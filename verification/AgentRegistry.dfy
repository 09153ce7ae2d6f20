/** What registration, discovery, boot reconciliation, probing and cleaning up
    achieve: one record per URL in every run, and the outcome of each operation
    that nothing disturbs. */
module AgentRegistry {
  import opened AgentRecord
  import opened AgentTheorems
  import opened AgentPass
  import opened Wrappers

  // ----- one record per URL

  ghost predicate UrlsUnique(db: Db) {
    forall a, b :: a in db && b in db && a != b ==> db[a].url != db[b].url
  }

  lemma WrittenUnique(db: Db, id: Id, r: Record)
    requires UrlsUnique(db) && !UrlTaken(db, id, r.url)
    ensures UrlsUnique(db[id := r])
  {
  }

  /** Every step that writes keeps the URLs different. */
  lemma UniqueStep(s: State, a: Act)
    requires UrlsUnique(s.db) && Enabled(s, a)
    ensures UrlsUnique(Apply(s, a).db)
  {
    hide UrlTaken, Finds, ReadsBundled;
    if !Writes(a) {
      hide Apply, Enabled, UrlsUnique;
      ReadsOnly(s, a);
    } else {
      match a
      case RegisterWrite(i, minted) => RegisterUnique(s, i, minted);
      case DiscoverWrite(i) => DiscoverUnique(s, i);
      case ReconcileWrite(i, minted) => ReconcileUnique(s, i, minted);
      case _ => SameUrls(s, a);
    }
  }

  lemma RegisterUnique(s: State, i: nat, minted: Id)
    requires UrlsUnique(s.db) && TaskOf(s, i).Registering?
    ensures UrlsUnique(RegisterWriteStep(s, i, minted).db)
  {
    var t := TaskOf(s, i);
    hide UrlTaken, UrlsUnique;
    if t.seen.None? {
      if !UrlTaken(s.db, minted, t.url) {
        WrittenUnique(s.db, minted, Record(Cloud, Some(t.provider), Active, None, None, t.url));
      }
    } else {
      var id := t.seen.value.id;
      if id in s.db && Takeable(s.db[id]) && !UrlTaken(s.db, id, t.url) {
        WrittenUnique(s.db, id, TakeOver(s.db, id, t.provider, t.url)[id]);
      }
    }
  }

  lemma DiscoverUnique(s: State, i: nat)
    requires UrlsUnique(s.db) && TaskOf(s, i).Discovering?
    ensures UrlsUnique(DiscoverWriteStep(s, i).db)
  {
    var t := TaskOf(s, i);
    hide UrlTaken;
    if t.seen.None? && !UrlTaken(s.db, UrlHash(t.url), t.url) {
      hide UrlsUnique;
      WrittenUnique(s.db, UrlHash(t.url), InsertLocal(s.db, UrlHash(t.url), t.url)[UrlHash(t.url)]);
    }
  }

  lemma ReconcileUnique(s: State, i: nat, minted: Id)
    requires UrlsUnique(s.db) && TaskOf(s, i).Reconciling? && TaskOf(s, i).name in s.manifest
    ensures UrlsUnique(ReconcileWriteStep(s, i, minted).db)
  {
    var t := TaskOf(s, i);
    var id := if t.record.Some? then t.record.value.id else minted;
    var url := s.manifest[t.name].url;
    hide UrlTaken, UrlsUnique;
    if !(t.record.Some? && id !in s.db) && !UrlTaken(s.db, id, url) {
      WrittenUnique(s.db, id, BundledRecord(s.systemProvider, t.name, url, t.reason));
    }
  }

  lemma SameUrls(s: State, a: Act)
    requires UrlsUnique(s.db) && Enabled(s, a)
    requires a.MarkInactive? || a.Prune? || a.ProbeWrite? || a.GateStep?
    ensures UrlsUnique(Apply(s, a).db)
  {
    hide UrlsUnique, InactiveReason, GatingUpdates, Takeable;
    assert KeepsUrls(s.db, Apply(s, a).db);
    KeptUnique(s.db, Apply(s, a).db);
  }

  ghost predicate KeepsUrls(db: Db, db': Db) {
    forall id :: id in db' ==> id in db && db'[id].url == db[id].url
  }

  lemma KeptUnique(db: Db, db': Db)
    requires UrlsUnique(db) && KeepsUrls(db, db')
    ensures UrlsUnique(db')
  {
  }

  /** In every state of every run no two records have the same URL. */
  lemma {:induction false} UrlsStayUnique(states: seq<State>, acts: seq<Act>, k: nat)
    requires Run(states, acts) && k <= |acts|
    ensures UrlsUnique(states[k].db)
  {
    hide Apply, Enabled;
    if k > 0 {
      UrlsStayUnique(states, acts, k - 1);
      UniqueStep(states[k - 1], acts[k - 1]);
    }
  }

  // ----- a registration that nothing disturbs

  /** What a registration is answered, told from the record at its URL. */
  predicate RegistrationAnswer(db: Db, found: Option<Id>, provider: string, url: string, minted: Id, db': Db, t: Task)
    requires found.Some? ==> found.value in db
  {
    if found.None? then
      t == Registered(minted, provider) && db' == db[minted := Record(Cloud, Some(provider), Active, None, None, url)]
    else
      var r := db[found.value];
      if r.owner == Some(provider) then t == Refused(AlreadyRegistered) && db' == db
      else if r.owner.Some? || r.source != Local then t == Refused(OwnedByAnother) && db' == db
      else if r.status == Active then t == Refused(ActiveLocalDiscovery) && db' == db
      else
        t == Registered(found.value, provider)
        && db' == db[found.value := r.(source := Cloud, owner := Some(provider), status := Active)]
  }

  /** In any reachable collection: read, then write. A refusal comes at the read. */
  lemma RegistrationAlone(s: State, i: nat, provider: string, url: string, found: Option<Id>, minted: Id)
    requires UrlsUnique(s.db) && Enabled(s, RegisterRead(i, provider, url, found))
    requires minted.Minted? && minted !in s.db
    ensures var s1 := Apply(s, RegisterRead(i, provider, url, found));
      if TaskOf(s1, i).Registering? then
        && Enabled(s1, RegisterWrite(i, minted))
        && var s2 := Apply(s1, RegisterWrite(i, minted));
           RegistrationAnswer(s.db, found, provider, url, minted, s2.db, TaskOf(s2, i))
      else RegistrationAnswer(s.db, found, provider, url, minted, s1.db, TaskOf(s1, i))
  {
    if found.Some? {
      assert !UrlTaken(s.db, found.value, url);
    } else {
      assert !UrlTaken(s.db, minted, url);
    }
  }

  /** A registration whose record is no longer there for the taking when it
      writes writes nothing, reads again and is told why by what it finds. */
  lemma LoserIsTold(s: State, i: nat, minted: Id, found: Option<Id>)
    requires Enabled(s, RegisterWrite(i, minted)) && TaskOf(s, i).seen.Some?
    requires var id := TaskOf(s, i).seen.value.id;
      id !in s.db || s.db[id].source != Local || s.db[id].owner.Some? || s.db[id].status == Active
    requires Finds(s.db, TaskOf(s, i).url, found)
    ensures var s1 := Apply(s, RegisterWrite(i, minted));
      && s1.db == s.db && Enabled(s1, RegisterReread(i, found))
      && var s2 := Apply(s1, RegisterReread(i, found));
         && s2.db == s.db
         && TaskOf(s2, i) == Refused(
              if found.Some? && s.db[found.value].owner == Some(TaskOf(s, i).provider) then AlreadyRegistered
              else if found.Some? && (s.db[found.value].owner.Some? || s.db[found.value].source != Local)
              then OwnedByAnother else ActiveLocalDiscovery)
  {
  }

  /** A registration whose URL another record got first is refused for that. */
  lemma UrlRaceIsRefused(s: State, i: nat, minted: Id, other: Id)
    requires Enabled(s, RegisterWrite(i, minted)) && other in s.db && s.db[other].url == TaskOf(s, i).url
    requires var seen := TaskOf(s, i).seen;
      seen.Some? ==> seen.value.id in s.db && Takeable(s.db[seen.value.id]) && seen.value.id != other
    ensures var s' := Apply(s, RegisterWrite(i, minted)); s'.db == s.db && TaskOf(s', i) == Refused(DuplicateUrl)
  {
  }

  // ----- a discovery that nothing disturbs

  /** A discovery at a URL nobody has stores an active, ownerless local record;
      one that finds a local record makes it active; anything else it leaves
      alone and reports as not managed. */
  lemma DiscoveryAlone(s: State, i: nat, url: string, found: Option<Id>)
    requires Enabled(s, DiscoverRead(i, url, found))
    ensures var s1 := Apply(s, DiscoverRead(i, url, found));
      if found.Some? && s.db[found.value].source != Local then
        s1.db == s.db && TaskOf(s1, i) == Discovered(found.value, false)
      else
        && Enabled(s1, DiscoverWrite(i))
        && var s2 := Apply(s1, DiscoverWrite(i));
           var id := if found.Some? then found.value else UrlHash(url);
           && TaskOf(s2, i) == Discovered(id, true) && id in s2.db
           && s2.db[id].status == Active && s2.db[id].source == Local && s2.db[id].url == url
           && (found.None? ==> s2.db[id].owner == None)
           && (found.Some? ==> s2.db[id] == s.db[id].(status := Active))
           && (forall other :: other != id ==>
                 (other in s2.db <==> other in s.db) && (other in s.db ==> s2.db[other] == s.db[other]))
  {
    if found.None? {
      assert !UrlTaken(s.db, UrlHash(url), url);
    }
  }

  /** A discovery that finds the world changed when it writes writes nothing: its
      record is gone or no longer local, or its URL was given to another id. */
  lemma StaleDiscoveryWritesNothing(s: State, i: nat)
    requires TaskOf(s, i).Discovering?
    requires var t := TaskOf(s, i);
      if t.seen.Some? then t.seen.value.id !in s.db || s.db[t.seen.value.id].source != Local
      else UrlTaken(s.db, UrlHash(t.url), t.url)
    ensures var t, s' := TaskOf(s, i), Apply(s, DiscoverWrite(i));
      s'.db == s.db && TaskOf(s', i) == if t.seen.Some? then Discovered(t.seen.value.id, false) else Idle
  {
  }

  /** A task that is cancelled writes nothing and gives back the lock if it had it. */
  lemma AbortGivesBack(s: State, i: nat)
    ensures Enabled(s, Abort(i))
    ensures var s' := Apply(s, Abort(i));
      s'.db == s.db && TaskOf(s', i).Idle? && s'.lock == if s.lock == Some(i) then None else s.lock
  {
  }

  // ----- boot reconciliation that nothing disturbs

  /** The record `_find` settles on: one that bears the name, else one outside
      discovery at the agent's URL, else one at its Compose URL. */
  ghost predicate Chosen(s: State, name: string, chosen: Option<Id>)
    requires name in s.manifest
  {
    var e := s.manifest[name];
    var named := exists id :: id in s.db && IsNamed(s.db[id], name);
    var atUrl := exists id :: id in s.db && s.db[id].url == e.url && s.db[id].source != Local;
    var atCompose := exists id :: id in s.db && s.db[id].url == e.composeUrl && s.db[id].source != Local;
    if named then chosen.Some? && chosen.value in s.db && IsNamed(s.db[chosen.value], name)
    else if atUrl then
      chosen.Some? && chosen.value in s.db && s.db[chosen.value].url == e.url && s.db[chosen.value].source != Local
    else if atCompose then
      && chosen.Some? && chosen.value in s.db
      && s.db[chosen.value].url == e.composeUrl && s.db[chosen.value].source != Local
    else chosen.None?
  }

  /** Some other record is at the agent's URL. */
  ghost predicate HeldByOther(s: State, name: string, chosen: Option<Id>)
    requires name in s.manifest
  {
    exists id :: id in s.db && s.db[id].url == s.manifest[name].url && chosen != Some(id)
  }

  /** One record of that name at that URL, owned by the system, and active
      exactly when its requirement is met; every other record as it was. */
  ghost predicate Stores(s: State, name: string, id: Id, db': Db)
    requires name in s.manifest
  {
    && id in db' && IsNamed(db'[id], name) && db'[id].url == s.manifest[name].url
    && db'[id].owner == Some(s.systemProvider)
    && (db'[id].status == Active <==> Meets(s.manifest[name].needs, s.available))
    && Lacks(s.manifest[name].needs, s.available, db'[id].reason)
    && forall other :: other != id ==>
         (other in db' <==> other in s.db) && (other in s.db ==> db'[other] == s.db[other])
  }

  /** Some steps lead from one state to the other. */
  ghost predicate Leads(s: State, s': State) {
    exists states: seq<State>, acts: seq<Act> :: Steps(states, acts, s, s')
  }

  ghost predicate Steps(states: seq<State>, acts: seq<Act>, s: State, s': State) {
    |states| == |acts| + 1 && Path(states, acts) && states[0] == s && states[|acts|] == s'
  }

  lemma LeadsNowhere(s: State)
    ensures Leads(s, s)
  {
    var none: seq<Act> := [];
    assert Steps([s], none, s, s);
  }

  lemma LeadsOn(s: State, s1: State, a: Act)
    requires Leads(s, s1) && Enabled(s1, a)
    ensures Leads(s, Apply(s1, a))
  {
    hide Enabled, Apply;
    var states: seq<State>, acts: seq<Act> :| Steps(states, acts, s, s1);
    var states', acts' := states + [Apply(s1, a)], acts + [a];
    forall k | 0 <= k < |acts'|
      ensures Enabled(states'[k], acts'[k]) && states'[k + 1] == Apply(states'[k], acts'[k])
    {
      if k < |acts| {
        assert states'[k] == states[k] && states'[k + 1] == states[k + 1] && acts'[k] == acts[k];
      }
    }
    assert Steps(states', acts', s, Apply(s1, a));
  }

  /** The reconciling task at this point, with the lock. */
  function Holding(s: State, i: nat, t: Task): State { At(s, i, t).(lock := Some(i)) }

  lemma HoldsOn(s: State, i: nat, t: Task, t': Task)
    ensures At(Holding(s, i, t), i, t') == Holding(s, i, t') && TaskOf(Holding(s, i, t), i) == t
  {
    assert s.tasks[i := t][i := t'] == s.tasks[i := t'];
  }

  lemma Opens(s: State, i: nat, name: string)
    requires Enabled(s, ReconcileLock(i, name))
    ensures Leads(s, Holding(s, i, FindingName(name)))
  {
    LeadsNowhere(s);
    LeadsOn(s, s, ReconcileLock(i, name));
  }

  lemma ByName(s: State, i: nat, name: string, found: Option<Id>)
    requires Leads(s, Holding(s, i, FindingName(name)))
    requires if found.Some? then found.value in s.db && IsNamed(s.db[found.value], name)
             else forall id :: id in s.db ==> !IsNamed(s.db[id], name)
    ensures Leads(s, Holding(s, i, if found.Some? then FindingHolder(name, Seen(s.db, found)) else FindingUrl(name)))
  {
    hide Leads;
    HoldsOn(s, i, FindingName(name), if found.Some? then FindingHolder(name, Seen(s.db, found)) else FindingUrl(name));
    LeadsOn(s, Holding(s, i, FindingName(name)), ReconcileFindName(i, found));
  }

  lemma ByUrl(s: State, i: nat, name: string, found: Option<Id>)
    requires name in s.manifest && Leads(s, Holding(s, i, FindingUrl(name)))
    requires Finds(s.db, s.manifest[name].url, found)
    ensures Leads(s, Holding(s, i, if found.Some? && s.db[found.value].source != Local
                                   then FindingHolder(name, Seen(s.db, found)) else FindingComposeUrl(name)))
  {
    hide Leads;
    HoldsOn(s, i, FindingUrl(name), if found.Some? && s.db[found.value].source != Local
                                    then FindingHolder(name, Seen(s.db, found)) else FindingComposeUrl(name));
    LeadsOn(s, Holding(s, i, FindingUrl(name)), ReconcileFindUrl(i, found));
  }

  lemma ByComposeUrl(s: State, i: nat, name: string, found: Option<Id>)
    requires name in s.manifest && Leads(s, Holding(s, i, FindingComposeUrl(name)))
    requires Finds(s.db, s.manifest[name].composeUrl, found)
    ensures Leads(s, Holding(s, i, FindingHolder(name, if found.Some? && s.db[found.value].source != Local
                                                       then Seen(s.db, found) else None)))
  {
    hide Leads;
    HoldsOn(s, i, FindingComposeUrl(name), FindingHolder(name, if found.Some? && s.db[found.value].source != Local
                                                               then Seen(s.db, found) else None));
    LeadsOn(s, Holding(s, i, FindingComposeUrl(name)), ReconcileFindComposeUrl(i, found));
  }

  lemma SearchAlone(s: State, i: nat, name: string) returns (chosen: Option<Id>)
    requires UrlsUnique(s.db) && Enabled(s, ReconcileLock(i, name))
    ensures Chosen(s, name, chosen) && (chosen.Some? ==> chosen.value in s.db)
    ensures Leads(s, Holding(s, i, FindingHolder(name, Seen(s.db, chosen))))
  {
    hide Leads, Holding;
    Opens(s, i, name);
    if id :| id in s.db && IsNamed(s.db[id], name) {
      chosen := Some(id);
      ByName(s, i, name, chosen);
    } else {
      ByName(s, i, name, None);
      var there := FindAt(s, s.manifest[name].url);
      ByUrl(s, i, name, there);
      if there.Some? && s.db[there.value].source != Local {
        chosen := there;
      } else {
        var compose := FindAt(s, s.manifest[name].composeUrl);
        ByComposeUrl(s, i, name, compose);
        chosen := if compose.Some? && s.db[compose.value].source != Local then compose else None;
      }
    }
  }

  /** Another record is at the URL. */
  lemma HeldOff(s: State, i: nat, name: string, chosen: Option<Id>, holder: Option<Id>) returns (s': State)
    requires name in s.manifest && (chosen.Some? ==> chosen.value in s.db)
    requires Leads(s, Holding(s, i, FindingHolder(name, Seen(s.db, chosen))))
    requires holder.Some? && chosen != holder && Finds(s.db, s.manifest[name].url, holder)
    ensures Leads(s, s') && s'.lock.None? && TaskOf(s', i).Idle? && s'.db == s.db
  {
    hide Leads;
    var s1 := Holding(s, i, FindingHolder(name, Seen(s.db, chosen)));
    HoldsOn(s, i, FindingHolder(name, Seen(s.db, chosen)), Idle);
    LeadsOn(s, s1, ReconcileHolder(i, holder));
    s' := Apply(s1, ReconcileHolder(i, holder));
  }

  lemma Decides(s: State, i: nat, name: string, chosen: Option<Id>, holder: Option<Id>)
    requires name in s.manifest && (chosen.Some? ==> chosen.value in s.db)
    requires Leads(s, Holding(s, i, FindingHolder(name, Seen(s.db, chosen))))
    requires Finds(s.db, s.manifest[name].url, holder) && (holder.None? || chosen == holder)
    ensures Leads(s, Holding(s, i, Reconciling(name, Seen(s.db, chosen),
                                               InactiveReason(s.manifest[name].needs, s.available))))
  {
    hide Leads, InactiveReason;
    var t := FindingHolder(name, Seen(s.db, chosen));
    HoldsOn(s, i, t, Reconciling(name, Seen(s.db, chosen), InactiveReason(s.manifest[name].needs, s.available)));
    LeadsOn(s, Holding(s, i, t), ReconcileHolder(i, holder));
  }

  lemma WritesIt(s: State, i: nat, name: string, chosen: Option<Id>, minted: Id) returns (s': State)
    requires name in s.manifest && (chosen.Some? ==> chosen.value in s.db) && minted.Minted? && minted !in s.db
    requires !UrlTaken(s.db, if chosen.Some? then chosen.value else minted, s.manifest[name].url)
    requires Leads(s, Holding(s, i, Reconciling(name, Seen(s.db, chosen),
                                                InactiveReason(s.manifest[name].needs, s.available))))
    ensures Leads(s, s') && s'.lock.None? && TaskOf(s', i).Idle?
    ensures s'.db == s.db[(if chosen.Some? then chosen.value else minted) :=
                          BundledRecord(s.systemProvider, name, s.manifest[name].url,
                                        InactiveReason(s.manifest[name].needs, s.available))]
  {
    hide Leads, InactiveReason, UrlTaken, BundledRecord;
    var t := Reconciling(name, Seen(s.db, chosen), InactiveReason(s.manifest[name].needs, s.available));
    HoldsOn(s, i, t, Idle);
    LeadsOn(s, Holding(s, i, t), ReconcileWrite(i, minted));
    s' := Apply(Holding(s, i, t), ReconcileWrite(i, minted));
  }

  lemma StoredIsRight(s: State, name: string, id: Id)
    requires name in s.manifest
    ensures var e := s.manifest[name];
      var r := BundledRecord(s.systemProvider, name, e.url, InactiveReason(e.needs, s.available));
      Stores(s, name, id, s.db[id := r])
  {
  }

  /** Held off by another record at the URL, or stored. */
  lemma StoreAlone(s: State, i: nat, name: string, chosen: Option<Id>, minted: Id) returns (s': State)
    requires UrlsUnique(s.db) && name in s.manifest && (chosen.Some? ==> chosen.value in s.db)
    requires minted.Minted? && minted !in s.db
    requires Leads(s, Holding(s, i, FindingHolder(name, Seen(s.db, chosen))))
    ensures Leads(s, s') && s'.lock.None? && TaskOf(s', i).Idle?
    ensures if HeldByOther(s, name, chosen) then s'.db == s.db
            else Stores(s, name, if chosen.Some? then chosen.value else minted, s'.db)
  {
    var holder := FindAt(s, s.manifest[name].url);
    hide Leads, Holding, Stores, BundledRecord;
    if holder.Some? && chosen != holder {
      s' := HeldOff(s, i, name, chosen, holder);
    } else {
      assert !UrlTaken(s.db, if chosen.Some? then chosen.value else minted, s.manifest[name].url);
      Decides(s, i, name, chosen, holder);
      s' := WritesIt(s, i, name, chosen, minted);
      StoredIsRight(s, name, if chosen.Some? then chosen.value else minted);
    }
  }

  /** From any reachable state in which nobody gates or reconciles: a boot
      reconciliation that nothing disturbs leaves one system-owned record of the
      agent at its URL, on the record the search settles on or a new one, active
      exactly when its requirement is met; unless another record is at that URL,
      and then it changes nothing. Either way it gives back the lock. */
  lemma ReconcileAlone(s: State, i: nat, name: string, minted: Id) returns (s': State, chosen: Option<Id>)
    requires UrlsUnique(s.db) && Enabled(s, ReconcileLock(i, name)) && minted.Minted? && minted !in s.db
    ensures Leads(s, s') && s'.lock.None? && TaskOf(s', i).Idle? && Chosen(s, name, chosen)
    ensures if HeldByOther(s, name, chosen) then s'.db == s.db
            else Stores(s, name, if chosen.Some? then chosen.value else minted, s'.db)
  {
    hide Leads, Chosen, HeldByOther, Stores;
    chosen := SearchAlone(s, i, name);
    s' := StoreAlone(s, i, name, chosen, minted);
  }

  lemma FindAt(s: State, url: string) returns (found: Option<Id>)
    ensures Finds(s.db, url, found)
    ensures found.Some? ==> found.value in s.db
  {
    if id :| id in s.db && s.db[id].url == url {
      found := Some(id);
    } else {
      found := None;
    }
  }

  // ----- a gating pass that nothing disturbs

  ghost predicate Has(visited: seq<Found>, id: Id) {
    exists j :: 0 <= j < |visited| && visited[j].id == id
  }

  /** The records with these ids, once each. */
  ghost predicate Lists(db: Db, ids: set<Id>, visited: seq<Found>) {
    && (forall j :: 0 <= j < |visited| ==>
          visited[j].id in ids && visited[j].id in db && visited[j].record == db[visited[j].id])
    && (forall id :: id in ids ==> Has(visited, id))
    && Distinct(visited)
  }

  lemma ListAll(db: Db, ids: set<Id>) returns (visited: seq<Found>)
    requires forall id :: id in ids ==> id in db
    ensures Lists(db, ids, visited)
  {
    if ids == {} {
      visited := [];
    } else {
      var id :| id in ids;
      var rest := ListAll(db, ids - {id});
      visited := rest + [Found(id, db[id])];
      forall other | other in ids ensures Has(visited, other) {
        if other == id {
          assert visited[|rest|].id == other;
        } else {
          assert Has(rest, other);
          var j :| 0 <= j < |rest| && rest[j].id == other;
          assert visited[j].id == other;
        }
      }
    }
  }

  lemma ListBundled(db: Db) returns (visited: seq<Found>)
    ensures ReadsBundled(db, visited)
  {
    var ids := set id | id in db && db[id].source.Bundled?;
    visited := ListAll(db, ids);
    forall id | id in db && db[id].source.Bundled?
      ensures exists j :: 0 <= j < |visited| && visited[j].id == id
    {
      assert id in ids && Has(visited, id);
    }
  }

  /** A step that touches the pass alone keeps the gating invariant. */
  lemma PassLeadsOn(s: State, s1: State, a: Act)
    requires Leads(s, s1) && Inv(s1) && Enabled(s1, a) && !a.DiscoverWrite?
    ensures Leads(s, Apply(s1, a)) && Inv(Apply(s1, a))
  {
    hide Leads, Enabled, Apply, Inv;
    LeadsOn(s, s1, a);
    StepKeeps(s1, a);
  }

  lemma {:induction false} PassFinishes(s: State, s1: State, i: nat) returns (s': State)
    requires Leads(s, s1) && Inv(s1) && TaskOf(s1, i).Gating?
    ensures Leads(s, s') && s'.lock.None? && TaskOf(s', i) == Gated(TaskOf(s1, i).available)
    ensures AllGatedFor(s'.db, s1.manifest, TaskOf(s1, i).available)
    decreases |TaskOf(s1, i).visited| - TaskOf(s1, i).next
  {
    hide Leads, Inv, ReadsBundled;
    if TaskOf(s1, i).next < |TaskOf(s1, i).visited| {
      PassLeadsOn(s, s1, GateStep(i));
      s' := PassFinishes(s, Apply(s1, GateStep(i)), i);
    } else {
      ReturnIsExact(s1, i);
      LeadsOn(s, s1, GateReturn(i));
      s' := Apply(s1, GateReturn(i));
    }
  }

  /** From any state of the invariant in which the lock is free, a gating pass can
      run to its end: it gives back the lock and leaves every bundled record with
      just what the availability lacks for it. */
  lemma PassAlone(s: State, i: nat) returns (s': State)
    requires Inv(s) && Enabled(s, GateLock(i))
    ensures Leads(s, s') && s'.lock.None? && TaskOf(s', i) == Gated(s.available)
    ensures AllGatedFor(s'.db, s.manifest, s.available)
  {
    var s1 := Apply(s, GateLock(i));
    var visited := ListBundled(s1.db);
    LeadsNowhere(s);
    hide Leads, Inv, ReadsBundled;
    PassLeadsOn(s, s, GateLock(i));
    PassLeadsOn(s, s1, GateRead(i, visited));
    s' := PassFinishes(s, Apply(s1, GateRead(i, visited)), i);
  }

  // ----- health, liveness and cleaning up

  /** A probe of a record that is still there: a healthy answer brings back one
      that was read, and still is, inactive and not gated; an unhealthy one takes
      down one that was read as active; nothing else changes. */
  lemma ProbeOutcome(s: State, i: nat, healthy: bool)
    requires Enabled(s, ProbeWrite(i, healthy)) && TaskOf(s, i).probed.id in s.db
    ensures var f := TaskOf(s, i).probed;
      var was, now := s.db[f.id], Apply(s, ProbeWrite(i, healthy)).db;
      && now.Keys == s.db.Keys && (forall id :: id in now && id != f.id ==> now[id] == s.db[id])
      && now[f.id] == was.(status := now[f.id].status)
      && (now[f.id].status == Active <==>
            if healthy then
              was.status == Active
              || (f.record.status == Inactive && f.record.reason.None? && was.reason.None?)
            else was.status == Active && f.record.status == Inactive)
  {
  }

  /** A missed discovery makes local records inactive and only those; pruning
      removes what it was asked to and only that, all of it ownerless, local and
      inactive. */
  lemma CleanUp(s: State, ids: set<Id>)
    ensures Enabled(s, MarkInactive(ids))
    ensures var db' := Apply(s, MarkInactive(ids)).db;
      && db'.Keys == s.db.Keys
      && forall id :: id in s.db ==>
           db'[id] == if id in ids && s.db[id].source == Local then s.db[id].(status := Inactive) else s.db[id]
    ensures Enabled(s, Prune(ids)) ==>
      && (forall id :: id in s.db && id in ids ==>
            s.db[id].source == Local && s.db[id].owner == None && s.db[id].status == Inactive)
      && (forall id :: id in Apply(s, Prune(ids)).db <==> id in s.db && id !in ids)
      && (forall id :: id in Apply(s, Prune(ids)).db ==> Apply(s, Prune(ids)).db[id] == s.db[id])
  {
  }
}
