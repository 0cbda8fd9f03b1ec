/** PoolManager and the queue and API handlers: ordered effects on the store, the
    containers, the proxy and the database, with every call free to fail. */
module Pool {
  import opened Domain
  import opened StoreSpec
  import opened Store
  import opened Caddy
  import opened Tables
  import opened Cleanup
  import R = RateLimit

  /** What the parts of the system share. */
  class Services {
    const repo: ValkeyStore
    const db: Database
    const hasDb: bool
    const baseDomain: string
    var containers: set<string>
    var routes: map<string, CaddyRoute>

    constructor (repo: ValkeyStore, db: Database, hasDb: bool, baseDomain: string)
      ensures this.repo == repo && this.db == db && containers == {} && routes == map[]
    {
      this.repo, this.db, this.hasDb, this.baseDomain := repo, db, hasDb, baseDomain;
      containers, routes := {}, map[];
    }

    function State(): Deployment
      reads this, repo, db
    {
      Deployment(repo.View(), containers, routes, db.tables)
    }

    /** The guarded DropPrefixedTables call that both cleanup paths make. */
    method DropTablesOf(prefix: string, k: Calls)
      modifies db
      ensures State() == DropTables(old(State()), prefix, hasDb, k)
    {
      if hasDb && prefix != "" {
        var dropped := db.DropPrefixedTables(prefix, k.listOk, k.dropOk);
      }
    }
  }

  // ---- provisioning -------------------------------------------------------------------

  datatype NewContainer = NewContainer(id: string, containerId: string)

  /** How the calls of one provisionInstance turn out. */
  datatype ProvisionCalls = ProvisionCalls(
    hostname: string, dbPrefix: string, now: int,
    allocAnswers: nat,
    criu: bool, restored: Option<NewContainer>, started: Option<NewContainer>,
    healthy: bool,
    addAnswers: nat,
    stopOk: bool, releaseAnswers: nat)
  {
    /** A failed restore falls back to a cold start. */
    function Container(): Option<NewContainer> {
      if criu && restored.Some? then restored else started
    }

    predicate Works() {
      allocAnswers >= 2 && Container().Some? && healthy && addAnswers >= 3
    }

    function NewInstance(port: int): Instance
      requires Container().Some?
    {
      var c := Container().value;
      Instance(c.id, c.containerId, hostname, port, Ready, dbPrefix, "", now, None, None, 0)
    }
  }

  /** The deployment after provisionInstance popped `port`. */
  function Provisioned(d: Deployment, e: ProvisionCalls, port: int): Deployment {
    if e.allocAnswers == 0 || d.store.available == {} then d
    else
      var popped := d.(store := d.store.(available := d.store.available - {port}));
      if e.allocAnswers == 1 then popped
      else
        var tracked := popped.(store := popped.store.(inUse := d.store.inUse + {port}));
        if e.Container().None? then FreePort(tracked, port, e.releaseAnswers)
        else
          var c := e.Container().value;
          var running := tracked.(containers := d.containers + {c.containerId});
          if !e.healthy then FreePort(StopContainer(running, c.containerId, e.stopOk), port, e.releaseAnswers)
          else
            var added := running.(store := AddAfter(running.store, e.NewInstance(port), e.addAnswers));
            if e.addAnswers >= 3 then added
            else FreePort(StopContainer(added, c.containerId, e.stopOk), port, e.releaseAnswers)
  }

  /** New ids are new, and the port sets are apart. */
  predicate FreshFor(d: Deployment, e: ProvisionCalls, port: int) {
    && (d.store.available != {} ==> port in d.store.available)
    && d.store.available !! d.store.inUse
    && (e.Container().Some? ==>
          e.Container().value.id !in d.store.records && e.Container().value.containerId !in d.containers)
  }

  /** The compensating calls that a failed provision depends on. */
  predicate Undone(d: Deployment, e: ProvisionCalls) {
    var ran := (e.criu && e.restored.Some?) || e.started.Some?;
    if e.allocAnswers == 0 || d.store.available == {} then true
    else e.allocAnswers >= 2 && e.releaseAnswers >= 2 && (ran ==> e.stopOk && (e.healthy ==> e.addAnswers == 0))
  }

  /** Main theorem: a failed provision restores the deployment exactly when its
      compensating calls work, with two exceptions that no compensation covers:
      AllocatePort failing between its two commands loses the port, and AddToPool
      failing after its first command leaves the record behind. */
  lemma FailedProvisionUndone(d: Deployment, e: ProvisionCalls, port: int)
    requires FreshFor(d, e, port) && !(e.Works() && d.store.available != {})
    ensures Provisioned(d, e, port) == d <==> Undone(d, e)
  {
    if e.allocAnswers > 0 && d.store.available != {} {
      ReleaseUndoesAllocate(d.store, port);
      var v := Provisioned(d, e, port);
      if e.allocAnswers == 1 || e.releaseAnswers < 2 {
        PortLost(d, e, port);
      } else if e.Container().Some? {
        var c := e.Container().value;
        assert d.containers + {c.containerId} - {c.containerId} == d.containers;
        if e.healthy && e.addAnswers > 0 {
          assert c.id in v.store.records;
        } else if !e.stopOk {
          assert c.containerId in v.containers;
        }
      }
    }
  }

  /** What a failed provision leaves of every resource, call by call. */
  lemma FailedProvisionLeaves(d: Deployment, e: ProvisionCalls, port: int)
    requires FreshFor(d, e, port) && !(e.Works() && d.store.available != {})
    ensures var v := Provisioned(d, e, port);
            var ran := (e.criu && e.restored.Some?) || e.started.Some?;
            && v == d.(store := v.store, containers := v.containers) && v.store.ready == d.store.ready
            && (e.allocAnswers == 0 || d.store.available == {} ==> v == d)
            && (e.allocAnswers == 1 && d.store.available != {} ==>
                  v == d.(store := d.store.(available := d.store.available - {port})))
            && (e.allocAnswers >= 2 && d.store.available != {} ==>
                  && v.store.available == d.store.available - (if e.releaseAnswers >= 2 then {} else {port})
                  && v.store.inUse == d.store.inUse + (if e.releaseAnswers >= 1 then {} else {port})
                  && if ran then
                       var c := if e.criu && e.restored.Some? then e.restored.value else e.started.value;
                       && v.containers == (if e.stopOk then d.containers else d.containers + {c.containerId})
                       && v.store.records.Keys == d.store.records.Keys
                            + (if e.healthy && e.addAnswers >= 1 then {c.id} else {})
                       && v.store.records - {c.id} == d.store.records
                       && v.store.index == d.store.index
                            + (if e.healthy && e.addAnswers == 2 then {(Ready, c.id)} else {})
                     else v.containers == d.containers && v.store.records == d.store.records
                          && v.store.index == d.store.index)
  {
    var v := Provisioned(d, e, port);
    if e.allocAnswers >= 2 && d.store.available != {} {
      PortsAfter(d.store, port, e.releaseAnswers);
      if e.Container().Some? {
        var c := e.Container().value;
        assert v.store.records - {c.id} == d.store.records;
        assert d.containers + {c.containerId} - {c.containerId} == d.containers;
      }
    }
  }

  lemma PortsAfter(s: StoreState, port: int, n: nat)
    requires port in s.available && port !in s.inUse
    ensures var v := ReleasePortAfter(s.(available := s.available - {port}, inUse := s.inUse + {port}), port, n);
            && v.available == s.available - (if n >= 2 then {} else {port})
            && v.inUse == s.inUse + (if n >= 1 then {} else {port})
  {
  }

  lemma PortLost(d: Deployment, e: ProvisionCalls, port: int)
    requires FreshFor(d, e, port) && !(e.Works() && d.store.available != {})
    requires e.allocAnswers > 0 && d.store.available != {} && (e.allocAnswers == 1 || e.releaseAnswers < 2)
    ensures port in d.store.available && port !in Provisioned(d, e, port).store.available
  {
  }

  /** A successful provision adds one record, one list entry, one index entry, one
      container and one tracked port, and nothing else. */
  lemma ProvisionAddsOne(d: Deployment, e: ProvisionCalls, port: int)
    requires FreshFor(d, e, port) && e.Works() && d.store.available != {}
    ensures var v := Provisioned(d, e, port);
            var i := e.NewInstance(port);
            && v.store == StoreState(
                 d.store.records[i.id := i], d.store.ready + [i.id], d.store.index + {(Ready, i.id)},
                 d.store.available - {port}, d.store.inUse + {port})
            && v == d.(store := v.store, containers := d.containers + {i.containerId})
            && |v.store.available| == |d.store.available| - 1
            && |v.store.inUse| == |d.store.inUse| + 1
            && |v.containers| == |d.containers| + 1
  {
  }

  /** Every record keeps a tracked port of its own through a provision, except when
      AddToPool fails after it set the record and the port is then untracked. */
  lemma ProvisionKeepsPorts(d: Deployment, e: ProvisionCalls, port: int)
    requires FreshFor(d, e, port) && PortsTracked(d.store)
    ensures PortsTracked(Provisioned(d, e, port).store) <==>
              !(e.allocAnswers >= 2 && d.store.available != {} && ((e.criu && e.restored.Some?) || e.started.Some?)
                && e.healthy && 1 <= e.addAnswers <= 2 && e.releaseAnswers >= 1)
  {
    var v := Provisioned(d, e, port).store;
    if e.allocAnswers >= 2 && d.store.available != {} && e.Container().Some? && e.healthy && e.addAnswers >= 1 {
      assert v.records[e.Container().value.id].port == port;
    }
  }

  /** A clean Release takes a provisioned instance out again: only its id stays behind,
      as an orphan at the end of the list. */
  lemma ProvisionThenRelease(d: Deployment, e: ProvisionCalls, port: int, id: string, hasDb: bool)
    requires FreshFor(d, e, port) && Coherent(d.store) && e.Works() && d.store.available != {}
    requires id == if e.criu && e.restored.Some? then e.restored.value.id else e.started.value.id
    ensures var v := ReleasedById(Provisioned(d, e, port), id, hasDb, ALL_WORK);
            && v.store == d.store.(ready := d.store.ready + [id])
            && v.containers == d.containers && v.routes == d.routes - {RouteId(e.hostname)}
            && (forall t :: t in v.tables <==> t in d.tables && !(hasDb && Matches(e.dbPrefix, t)))
  {
    var u := Provisioned(d, e, port);
    var i := e.NewInstance(port);
    ProvisionAddsOne(d, e, port);
    ReleasedParts(u, id, i, hasDb, ALL_WORK);
    AddThenDelete(d.store, u.store, Released(u, id, i, hasDb, ALL_WORK).store, i);
    assert d.containers + {i.containerId} - {i.containerId} == d.containers;
  }

  lemma AddThenDelete(s: StoreState, u: StoreState, v: StoreState, i: Instance)
    requires Coherent(s) && i.id !in s.records && i.port in s.available && i.port !in s.inUse && i.state == Ready
    requires u == StoreState(s.records[i.id := i], s.ready + [i.id], s.index + {(Ready, i.id)},
                             s.available - {i.port}, s.inUse + {i.port})
    requires StoreWithout(u, v, i.id, i.port, 2, 3)
    ensures v == s.(ready := s.ready + [i.id])
  {
    assert v.records == s.records;
    assert v.index == s.index;
    assert v.available == s.available && v.inUse == s.inUse;
  }

  lemma AddCoherent(s: StoreState, i: Instance)
    requires Coherent(s) && i.id !in s.records && i.state == Ready
    ensures Coherent(AddToPool(s, i)) && |AddToPool(s, i).records| == |s.records| + 1
  {
    assert s.records[i.id := i].Keys == s.records.Keys + {i.id};
    assert AddToPool(s, i).records == s.records[i.id := i];
  }

  // ---- acquiring ------------------------------------------------------------------------

  datatype AcquireCalls = AcquireCalls(
    scriptOk: bool, popNow: int, ttlNow: int, laterNow: int, ttlAnswers: nat, routeOk: bool, undo: Calls)

  datatype AcquireResult = ScriptFailed | Exhausted | TtlFailed | RouteFailed | Got(inst: Instance)

  function AcquireOutcome(d: Deployment, e: AcquireCalls, ttl: int, hasDb: bool): AcquireResult {
    var p := AcquireScript(d.store, e.popNow);
    if !e.scriptOk then ScriptFailed
    else if p.taken.None? then Exhausted
    else if e.ttlAnswers < 2 || p.taken.value.id !in p.store.records then TtlFailed
    else if !e.routeOk then RouteFailed
    else Got(p.taken.value.WithExpiry(e.laterNow + ttl))
  }

  function AcquireState(d: Deployment, e: AcquireCalls, ttl: int, hasDb: bool, baseDomain: string): Deployment {
    var p := AcquireScript(d.store, e.popNow);
    if !e.scriptOk then d
    else if p.taken.None? then d.(store := p.store)
    else
      var i := p.taken.value;
      if e.ttlAnswers < 2 || i.id !in p.store.records then ReleasedById(d.(store := p.store), i.id, hasDb, e.undo)
      else
        var timed := SetTtl(p.store, i.id, ttl, e.ttlNow);
        if !e.routeOk then ReleasedById(d.(store := timed), i.id, hasDb, e.undo)
        else d.(store := timed, routes := AddRoute(d.routes, Route(i.hostname, UpstreamFor(i.port), i.id), baseDomain))
  }

  /** On success the record is assigned, indexed, expiring and routed. */
  predicate Served(v: Deployment, i: Instance, baseDomain: string) {
    && i.id in v.store.records
    && i.state == Assigned && i.Expires()
    && v.store.records[i.id].state == Assigned && v.store.records[i.id].Expires()
    && v.store.records[i.id].(expiresAt := i.expiresAt, expiresAtUnix := i.expiresAtUnix) == i
    && (Assigned, i.id) in v.store.index
    && RouteId(i.hostname) in v.routes
    && v.routes[RouteId(i.hostname)] == BuildCaddyRoute(Route(i.hostname, UpstreamFor(i.port), i.id), baseDomain)
  }

  predicate Compensates(k: Calls) {
    k.routeOk && k.listOk && k.dropOk && k.stopOk && Frees(k)
  }

  /** i is the old record, assigned at popNow and expiring at the given time. */
  predicate HandedOut(i: Instance, was: Instance, popNow: int, expiry: int) {
    i == was.(state := Assigned, assignedAt := Some(popNow), expiresAt := Some(expiry), expiresAtUnix := Unix(expiry))
  }

  lemma HandedOutLives(i: Instance, was: Instance, popNow: int, expiry: int)
    requires HandedOut(i, was, popNow, expiry)
    ensures forall t :: i.IsExpired(t) ==> t > expiry
    ensures forall t | t >= expiry + SECOND :: i.IsExpired(t)
  {
    forall t ensures (i.IsExpired(t) ==> t > expiry) && (t >= expiry + SECOND ==> i.IsExpired(t)) {
      ExpirySet(was, expiry, t);
    }
  }

  /** Main theorem: an Acquire either serves an instance, or leaves no trace of it:
      with working compensation the record, its index entry, list entry and route
      are gone, its port is free and its container stopped. Each outcome is decided by
      the calls and by the head of the list alone. */
  lemma AcquireAllOrNothing(d: Deployment, e: AcquireCalls, ttl: int, hasDb: bool, baseDomain: string)
    requires Coherent(d.store)
    ensures var r := AcquireOutcome(d, e, ttl, hasDb);
            var v := AcquireState(d, e, ttl, hasDb, baseDomain);
            var live := d.store.ready != [] && d.store.ready[0] in d.store.records;
            && (r == ScriptFailed <==> !e.scriptOk)
            && (r == Exhausted <==> e.scriptOk && !live)
            && (r == TtlFailed <==> e.scriptOk && live && e.ttlAnswers < 2)
            && (r == RouteFailed <==> e.scriptOk && live && e.ttlAnswers >= 2 && !e.routeOk)
            && (r.Got? <==> e.scriptOk && live && e.ttlAnswers >= 2 && e.routeOk)
            && match r
            case ScriptFailed => v == d
            case Exhausted => v == d.(store := d.store.(ready := v.store.ready))
            case Got(i) => i.id == d.store.ready[0] && v.store.ready == d.store.ready[1..] && Served(v, i, baseDomain)
                           && v.store.available == d.store.available && v.store.inUse == d.store.inUse
                           && v.store.records - {i.id} == d.store.records - {i.id}
                           && HandedOut(i, d.store.records[i.id], e.popNow, e.laterNow + ttl)
                           && HandedOut(v.store.records[i.id], d.store.records[i.id], e.popNow, e.ttlNow + ttl)
                           && v.containers == d.containers && v.tables == d.tables
            case _ => Compensates(e.undo) ==> Gone(d, v, d.store.ready, hasDb)
  {
    var p := AcquireScript(d.store, e.popNow);
    if p.taken.Some? && Compensates(e.undo) {
      FailedAcquireGone(d, e, p.store, hasDb);
      FailedAcquireGone(d, e, SetTtl(p.store, p.taken.value.id, ttl, e.ttlNow), hasDb);
    }
  }

  lemma ReleaseLeaves(d: Deployment, id: string, hasDb: bool, k: Calls)
    requires id in d.store.records
    ensures var v := ReleasedById(d, id, hasDb, k).store;
            && (id in v.records <==> !k.getOk || k.deleteAnswers <= 2)
            && (id in v.records ==> v.records[id] == d.store.records[id])
  {
    var i := d.store.records[id];
    if k.getOk {
      assert Released(d, id, i, hasDb, k).store
          == DeleteAfter(ReleasePortAfter(d.store, i.port, k.portAnswers), id, k.deleteAnswers);
    }
  }

  /** When the compensating Release fails too, as on a cancelled context, an Acquire can
      leave its instance behind. After a TTL failure it is a zombie, assigned without an
      expiry, exactly if Release did not get as far as deleting the record; after a
      route failure whatever is left expires. */
  lemma FailedAcquireLeaves(d: Deployment, e: AcquireCalls, ttl: int, hasDb: bool, baseDomain: string)
    requires Coherent(d.store)
    requires d.store.ready != [] && d.store.ready[0] in d.store.records ==> !d.store.records[d.store.ready[0]].Expires()
    ensures var r := AcquireOutcome(d, e, ttl, hasDb);
            var v := AcquireState(d, e, ttl, hasDb, baseDomain).store;
            r.TtlFailed? || r.RouteFailed? ==>
              var id := d.store.ready[0];
              && (id in v.records <==> !e.undo.getOk || e.undo.deleteAnswers <= 2)
              && (id in v.records ==> v.records[id].state == Assigned && (v.records[id].Expires() <==> r.RouteFailed?))
  {
    var p := AcquireScript(d.store, e.popNow);
    if p.taken.Some? {
      var id := p.taken.value.id;
      assert id == d.store.ready[0] && p.store.records[id] == p.taken.value;
      ReleaseLeaves(d.(store := p.store), id, hasDb, e.undo);
      ReleaseLeaves(d.(store := SetTtl(p.store, id, ttl, e.ttlNow)), id, hasDb, e.undo);
    }
  }

  /** The handler's save-back of the user address, complete or cut short, keeps the
      instance served and the state sets exact; it can clear no expiry. */
  lemma SaveBackServes(v: Deployment, i: Instance, ip: string, n: nat, baseDomain: string)
    requires Coherent(v.store) && Served(v, i, baseDomain)
    ensures var w := v.(store := SaveAfter(v.store, i.(userIp := ip), n));
            && Coherent(w.store)
            && Served(w, if n == 0 then i else i.(userIp := ip), baseDomain)
  {
    if n == 1 {
      assert SetRecord(v.store, i.(userIp := ip)).index == SaveInstance(v.store, i.(userIp := ip)).index;
    }
  }

  predicate Gone(d: Deployment, v: Deployment, list: seq<string>, hasDb: bool) {
    list != [] && list[0] in d.store.records &&
    var i := d.store.records[list[0]];
    && v.store == StoreState(d.store.records - {i.id}, list[1..], d.store.index - {(i.state, i.id)},
                             d.store.available + {i.port}, d.store.inUse - {i.port})
    && v.containers == d.containers - {i.containerId}
    && v.routes == RemoveRoute(d.routes, i.hostname)
    && v.tables == if hasDb && i.dbPrefix != "" then AfterDrop(d.tables, i.dbPrefix) else d.tables
  }

  lemma FailedAcquireGone(d: Deployment, e: AcquireCalls, s: StoreState, hasDb: bool)
    requires Coherent(d.store) && AcquireScript(d.store, e.popNow).taken.Some? && Compensates(e.undo)
    requires var p := AcquireScript(d.store, e.popNow);
             var id := p.taken.value.id;
             && id in s.records && s == p.store.(records := p.store.records[id := s.records[id]])
             && s.records[id].(expiresAt := None, expiresAtUnix := 0)
                == p.taken.value.(expiresAt := None, expiresAtUnix := 0)
    ensures var id := d.store.ready[0];
            id in s.records && Gone(d, Released(d.(store := s), id, s.records[id], hasDb, e.undo), d.store.ready, hasDb)
  {
    var id := d.store.ready[0];
    var i := d.store.records[id];
    var v := Released(d.(store := s), id, s.records[id], hasDb, e.undo);
    assert v.store.records == d.store.records - {id};
    assert i.state != Assigned ==> (Assigned, id) !in d.store.index;
    assert v.store.index == d.store.index - {(i.state, id)};
  }

  // ---- the managers and handlers ----------------------------------------------------------

  datatype ReleaseResult = GetFailed | NoSuchInstance | DeleteFailed | Done

  datatype ReplenishResult = StatsFailed | ProvisionFailed | Full

  class PoolManager {
    const svc: Services
    const target: int
    const capacity: int
    const defaultTtl: int
    var trigger: bool

    constructor (svc: Services, target: int, capacity: int, defaultTtl: int)
      ensures this.svc == svc && !trigger
    {
      this.svc, this.target, this.capacity, this.defaultTtl := svc, target, capacity, defaultTtl;
      trigger := false;
    }

    method Release(id: string, k: Calls) returns (r: ReleaseResult)
      modifies svc, svc.repo, svc.db
      ensures svc.State() == ReleasedById(old(svc.State()), id, svc.hasDb, k)
      ensures r == if !k.getOk then GetFailed
                   else if id !in old(svc.repo.records) then NoSuchInstance
                   else if k.deleteAnswers >= 3 then Done else DeleteFailed
    {
      if !k.getOk { return GetFailed; }
      if id !in svc.repo.records { return NoSuchInstance; }
      var i := svc.repo.records[id];
      if k.routeOk { svc.routes := svc.routes - {RouteId(i.hostname)}; }
      svc.DropTablesOf(i.dbPrefix, k);
      if k.stopOk { svc.containers := svc.containers - {i.containerId}; }
      var freed := svc.repo.ReleasePort(i.port, k.portAnswers);
      var deleted := svc.repo.DeleteInstance(id, k.deleteAnswers);
      return if deleted then Done else DeleteFailed;
    }

    /** `port` is the port that SPOP took, also when the store failed right after it. */
    method ProvisionInstance(e: ProvisionCalls) returns (ok: bool, ghost port: int)
      modifies svc, svc.repo
      ensures old(svc.repo.available) != {} && e.allocAnswers >= 1 ==> port in old(svc.repo.available)
      ensures ok <==> e.allocAnswers >= 2 && old(svc.repo.available) != {}
                      && ((e.criu && e.restored.Some?) || e.started.Some?) && e.healthy && e.addAnswers >= 3
      ensures ok ==>
                var c := if e.criu && e.restored.Some? then e.restored.value else e.started.value;
                var i := Instance(c.id, c.containerId, e.hostname, port, Ready, e.dbPrefix, "", e.now, None, None, 0);
                && svc.repo.records == old(svc.repo.records)[c.id := i]
                && svc.repo.ready == old(svc.repo.ready) + [c.id]
                && svc.repo.index == old(svc.repo.index) + {(Ready, c.id)}
                && svc.repo.available == old(svc.repo.available) - {port}
                && svc.repo.inUse == old(svc.repo.inUse) + {port}
                && svc.containers == old(svc.containers) + {c.containerId} && svc.routes == old(svc.routes)
      ensures svc.State() == Provisioned(old(svc.State()), e, port)
      ensures ok <==> e.Works() && old(svc.repo.available) != {}
    {
      var popped := svc.repo.AllocatePort(e.allocAnswers);
      if popped.None? {
        ok, port := false, 0;
        if e.allocAnswers == 1 && old(svc.repo.available) != {} {
          port :| port in old(svc.repo.available) && svc.repo.available == old(svc.repo.available) - {port};
        }
        return;
      }
      port := popped.value;
      ok := false;
      var container: Option<NewContainer> := None;
      if e.criu { container := e.restored; }
      if container.None? { container := e.started; }
      if container.Some? {
        svc.containers := svc.containers + {container.value.containerId};
        var i := e.NewInstance(popped.value);
        if e.healthy {
          ok := svc.repo.AddToPool(i, e.addAnswers);
        }
        if !ok && e.stopOk {
          svc.containers := svc.containers - {i.containerId};
        }
      }
      if !ok {
        var released := svc.repo.ReleasePort(popped.value, e.releaseAnswers);
      }
    }

    method Acquire(e: AcquireCalls) returns (r: AcquireResult)
      modifies this, svc, svc.repo, svc.db
      ensures r == AcquireOutcome(old(svc.State()), e, defaultTtl, svc.hasDb)
      ensures svc.State() == AcquireState(old(svc.State()), e, defaultTtl, svc.hasDb, svc.baseDomain)
      ensures trigger == (old(trigger) || r.Got?)
    {
      if !e.scriptOk { return ScriptFailed; }
      var taken := svc.repo.AcquireFromPool(e.popNow);
      if taken.None? { return Exhausted; }
      var i := taken.value;
      var timed := svc.repo.SetInstanceTtl(i.id, defaultTtl, e.ttlNow, e.ttlAnswers);
      if !timed {
        var undone := Release(i.id, e.undo);
        return TtlFailed;
      }
      i := i.WithExpiry(e.laterNow + defaultTtl);
      if !e.routeOk {
        var undone := Release(i.id, e.undo);
        return RouteFailed;
      }
      svc.routes := AddRoute(svc.routes, Route(i.hostname, UpstreamFor(i.port), i.id), svc.baseDomain);
      trigger := true;
      return Got(i);
    }

    /** Undisturbed: one provision per pass, statistics read again before each.
        `statsOk(n)` and `env(n)` say how the calls after n provisions turn out. */
    method TriggerReplenish(statsOk: nat -> bool, env: nat -> ProvisionCalls)
      returns (r: ReplenishResult, provisions: nat)
      modifies svc, svc.repo
      ensures |svc.repo.ready| == |old(svc.repo.ready)| + provisions
      ensures StatsOf(svc.repo.View(), target, capacity)
                == StatsOf(old(svc.repo.View()), target, capacity).(readyCount := |old(svc.repo.ready)| + provisions)
      ensures r == Full ==> provisions == StatsOf(old(svc.repo.View()), target, capacity).ReplenishmentNeeded()
      ensures r == Full ==> StatsOf(svc.repo.View(), target, capacity).ReplenishmentNeeded() == 0
      ensures r == StatsFailed ==> provisions <= StatsOf(old(svc.repo.View()), target, capacity).ReplenishmentNeeded()
      ensures r == ProvisionFailed ==>
                provisions < StatsOf(old(svc.repo.View()), target, capacity).ReplenishmentNeeded()
      ensures r == StatsFailed <==> !statsOk(provisions)
      ensures r == ProvisionFailed ==> !env(provisions).Works() || |old(svc.repo.available)| == provisions
      ensures (forall n :: statsOk(n) && env(n).Works()) ==>
                (r == Full <==> |old(svc.repo.available)|
                                  >= StatsOf(old(svc.repo.View()), target, capacity).ReplenishmentNeeded())
    {
      provisions := 0;
      ghost var start := StatsOf(svc.repo.View(), target, capacity);
      while true
        invariant StatsOf(svc.repo.View(), target, capacity) == start.(readyCount := start.readyCount + provisions)
        invariant StatsOf(svc.repo.View(), target, capacity).ReplenishmentNeeded() + provisions
                  == start.ReplenishmentNeeded()
        invariant |svc.repo.available| + provisions == |old(svc.repo.available)|
        decreases StatsOf(svc.repo.View(), target, capacity).ReplenishmentNeeded()
      {
        if !statsOk(provisions) { return StatsFailed, provisions; }
        var stats := svc.repo.GetPoolStats(target, capacity);
        var needed := stats.ReplenishmentNeeded();
        if needed <= 0 { return Full, provisions; }
        ghost var before := svc.State();
        var e := env(provisions);
        var made, port := ProvisionInstance(e);
        ProvisionCounts(before, e, port);
        ProvisionStats(before.store, svc.repo.View(), target, capacity);
        if !made { return ProvisionFailed, provisions; }
        provisions := provisions + 1;
      }
    }

    /** cleanupExpired: the scan, then one Release after the other in the order of
        the scan; a Release that fails does not stop the rest. */
    method CleanupExpired(now: int, listAnswers: nat, k: string -> Calls) returns (ok: bool, ghost order: seq<string>)
      modifies svc, svc.repo, svc.db
      ensures ok <==> listAnswers > |Members(old(svc.repo.View()), Assigned)|
      ensures svc.State() == ReleasedAll(old(svc.State()), order, svc.hasDb, k)
      ensures !ok ==> order == []
      ensures ok ==> forall id :: id in order <==>
                exists i :: i in Listed(old(svc.repo.View()), Assigned) && i.IsExpired(now) && i.id == id
      ensures ok && Coherent(old(svc.repo.View())) ==>
                NoDup(order) && (set id | id in order) == ExpiredIds(old(svc.repo.View()), now)
      ensures var s := old(svc.repo.View());
              ok && Coherent(s) && (forall id | id in ExpiredIds(s, now) :: Frees(k(id))) ==>
                svc.State() == Without(old(svc.State()), s.records, ExpiredIds(s, now), svc.hasDb, k)
    {
      order := [];
      var expired := svc.repo.ListExpired(now, listAnswers);
      if expired.None? { return false, []; }
      var all := expired.value;
      ghost var d := svc.State();
      order := seq(|all|, j requires 0 <= j < |all| => all[j].id);
      for n := 0 to |all|
        invariant svc.State() == ReleasedAll(d, order[..n], svc.hasDb, k)
      {
        assert order[..n + 1][..n] == order[..n];
        var released := Release(all[n].id, k(all[n].id));
      }
      assert order[..|all|] == order;
      ScanOrder(d.store, all, order, now);
      ScanCloses(d, order, now, svc.hasDb, k);
      ok := true;
    }
  }

  /** When every Release of a scan works, what it leaves does not depend on the order. */
  lemma ScanCloses(d: Deployment, order: seq<string>, now: int, hasDb: bool, k: string -> Calls)
    ensures Coherent(d.store) && NoDup(order) && (set id | id in order) == ExpiredIds(d.store, now)
            && (forall id | id in ExpiredIds(d.store, now) :: Frees(k(id))) ==>
              ReleasedAll(d, order, hasDb, k) == Without(d, d.store.records, ExpiredIds(d.store, now), hasDb, k)
  {
    if Coherent(d.store) && NoDup(order) && (set id | id in order) == ExpiredIds(d.store, now)
       && (forall id | id in ExpiredIds(d.store, now) :: Frees(k(id))) {
      forall id | id in order ensures id in ExpiredIds(d.store, now) {
        assert id in (set x | x in order);
      }
      ReleasesAddUp(d, order, hasDb, k);
    }
  }

  /** The ids of a scan, in its order. */
  lemma ScanOrder(s: StoreState, all: seq<Instance>, order: seq<string>, now: int)
    requires forall i :: i in all <==> i in Listed(s, Assigned) && i.IsExpired(now)
    requires |order| == |all| && forall j | 0 <= j < |all| :: order[j] == all[j].id
    ensures forall id :: id in order <==> exists i :: i in Listed(s, Assigned) && i.IsExpired(now) && i.id == id
    ensures Coherent(s) && NoRepeats(all) ==> NoDup(order) && (set id | id in order) == ExpiredIds(s, now)
  {
    forall id ensures id in order <==> exists i :: i in Listed(s, Assigned) && i.IsExpired(now) && i.id == id {
      if i :| i in Listed(s, Assigned) && i.IsExpired(now) && i.id == id {
        var j :| 0 <= j < |all| && all[j] == i;
        assert order[j] == id;
      }
      if j :| 0 <= j < |order| && order[j] == id {
        assert all[j] in all;
      }
    }
    if Coherent(s) {
      ListedExact(s, Assigned);
      forall id ensures id in (set x | x in order) <==> id in ExpiredIds(s, now) {
        if id in ExpiredIds(s, now) { assert s.records[id] in Listed(s, Assigned); }
      }
    }
  }

  ghost predicate OnlyReadyEntries(s: StoreState, v: StoreState) {
    s.index <= v.index && forall e | e in v.index - s.index :: e.0 == Ready
  }

  lemma ProvisionCounts(d: Deployment, e: ProvisionCalls, port: int)
    ensures var v := Provisioned(d, e, port).store;
            && OnlyReadyEntries(d.store, v)
            && |v.ready| == |d.store.ready| + if e.Works() && d.store.available != {} then 1 else 0
    ensures e.Works() && port in d.store.available ==>
              |Provisioned(d, e, port).store.available| == |d.store.available| - 1
  {
  }

  /** A provision, complete or not, changes no other count than the list length. */
  lemma ProvisionStats(s: StoreState, v: StoreState, target: int, capacity: int)
    requires OnlyReadyEntries(s, v)
    ensures StatsOf(v, target, capacity) == StatsOf(s, target, capacity).(readyCount := |v.ready|)
  {
    forall st | st != Ready ensures Members(v, st) == Members(s, st) {
      forall id ensures id in Members(v, st) <==> id in Members(s, st) {
        assert (st, id) in v.index <==> (st, id) in s.index by {
          if (st, id) in v.index - s.index {}
        }
      }
    }
  }

  class Handlers {
    const svc: Services

    constructor (svc: Services)
      ensures this.svc == svc
    {
      this.svc := svc;
    }

    method CleanupHandler(t: CleanupTask, k: Calls)
      modifies svc, svc.repo, svc.db
      ensures svc.State() == Cleaned(old(svc.State()), t, svc.hasDb, k)
    {
      if t.containerId != "" && k.stopOk {
        svc.containers := svc.containers - {t.containerId};
      }
      svc.DropTablesOf(t.dbPrefix, k);
      if t.hostname != "" && k.routeOk {
        svc.routes := svc.routes - {RouteId(t.hostname)};
      }
      if t.port > 0 {
        var freed := svc.repo.ReleasePort(t.port, k.portAnswers);
      }
      if t.instanceId != "" {
        var deleted := svc.repo.DeleteInstance(t.instanceId, k.deleteAnswers);
      }
    }
  }

  /** i is handed to the client, and its record is i, or, if the save did nothing, what
      the script and SetInstanceTTL stored. */
  predicate DemoStored(s: StoreState, v: StoreState, i: Instance, e: AcquireCalls, ttl: int, ip: string, n: nat) {
    && s.ready != [] && s.ready[0] == i.id && i.id in s.records && i.id in v.records
    && HandedOut(i, s.records[i.id].(userIp := ip), e.popNow, e.laterNow + ttl)
    && v.records - {i.id} == s.records - {i.id}
    && if n >= 1 then v.records[i.id] == i
       else HandedOut(v.records[i.id], s.records[i.id], e.popNow, e.ttlNow + ttl)
  }

  lemma DemoServes(d: Deployment, e: AcquireCalls, ttl: int, hasDb: bool, baseDomain: string, ip: string, n: nat)
    ensures Coherent(d.store) && AcquireOutcome(d, e, ttl, hasDb).Got? ==>
              var i := AcquireOutcome(d, e, ttl, hasDb).inst.(userIp := ip);
              var v := SaveAfter(AcquireState(d, e, ttl, hasDb, baseDomain).store, i, n);
              && DemoStored(d.store, v, i, e, ttl, ip, n)
              && var expiry := ttl + if n >= 1 then e.laterNow else e.ttlNow;
              && (forall t :: v.records[i.id].IsExpired(t) ==> t > expiry)
              && (forall t | t >= expiry + SECOND :: v.records[i.id].IsExpired(t))
  {
    if Coherent(d.store) && AcquireOutcome(d, e, ttl, hasDb).Got? {
      AcquireAllOrNothing(d, e, ttl, hasDb, baseDomain);
      var got := AcquireOutcome(d, e, ttl, hasDb).inst;
      var was := d.store.records[got.id];
      if n == 0 {
        HandedOutLives(AcquireState(d, e, ttl, hasDb, baseDomain).store.records[got.id], was, e.popNow, e.ttlNow + ttl);
      } else {
        HandedOutLives(got.(userIp := ip), was.(userIp := ip), e.popNow, e.laterNow + ttl);
      }
    }
  }

  datatype ExtendResult = BadMinutes | UnknownDemo | TooLong(remaining: int) | ExtendFailed | ExtendedTo(unix: int)

  datatype ReleaseReply = LookupFailed | UnknownInstance | NotReleased | WasReleased

  datatype DemoResult = LimiterDown | Limited | Failed(why: AcquireResult) | Serving(inst: Instance)

  class Api {
    const pool: PoolManager
    const limiter: R.RateLimiter

    constructor (pool: PoolManager, limiter: R.RateLimiter)
      ensures this.pool == pool && this.limiter == limiter
    {
      this.pool, this.limiter := pool, limiter;
    }

    /** acquireDemo: the request counts against the limits even when the pool turns
        out to be exhausted; a limited request, or one whose limit cannot be
        checked, reaches nothing else. */
    method AcquireDemo(ip: string, hourLimit: int, dayLimit: int, clock: int, limiterUp: bool, e: AcquireCalls,
                       saveAnswers: nat)
      returns (r: DemoResult)
      modifies limiter, pool, pool.svc, pool.svc.repo, pool.svc.db
      ensures r == LimiterDown <==> !limiterUp
      ensures !limiterUp ==> limiter.hour == old(limiter.hour) && limiter.day == old(limiter.day)
      ensures limiterUp ==>
                var l := R.Limits(old(limiter.hour), old(limiter.day));
                && R.Limits(limiter.hour, limiter.day) == R.AfterRequest(l, ip, hourLimit, dayLimit, clock)
                && (r == Limited <==> !R.Allows(l, ip, hourLimit, dayLimit, clock))
      ensures r == Limited || r == LimiterDown ==>
                pool.svc.State() == old(pool.svc.State()) && pool.trigger == old(pool.trigger)
      ensures r != Limited && r != LimiterDown ==>
                var d := old(pool.svc.State());
                var got := AcquireOutcome(d, e, pool.defaultTtl, pool.svc.hasDb);
                var v := AcquireState(d, e, pool.defaultTtl, pool.svc.hasDb, pool.svc.baseDomain);
                if got.Got? then
                  && r == Serving(got.inst.(userIp := ip))
                  && pool.svc.State() == v.(store := SaveAfter(v.store, got.inst.(userIp := ip), saveAnswers))
                else r == Failed(got) && pool.svc.State() == v
      ensures r.Serving? && Coherent(old(pool.svc.repo.View())) ==>
                && DemoStored(old(pool.svc.repo.View()), pool.svc.repo.View(), r.inst, e, pool.defaultTtl, ip,
                              saveAnswers)
                && var expiry := pool.defaultTtl + if saveAnswers >= 1 then e.laterNow else e.ttlNow;
                && (forall t :: pool.svc.repo.records[r.inst.id].IsExpired(t) ==> t > expiry)
                && (forall t | t >= expiry + SECOND :: pool.svc.repo.records[r.inst.id].IsExpired(t))
    {
      ghost var before := pool.svc.State();
      if !limiterUp { return LimiterDown; }
      var allowed := limiter.CheckAndIncrement(ip, hourLimit, dayLimit, clock);
      if !allowed { return Limited; }
      var got := pool.Acquire(e);
      if !got.Got? { return Failed(got); }
      var i := got.inst.(userIp := ip);
      var saved := pool.svc.repo.SaveInstance(i, saveAnswers);
      DemoServes(before, e, pool.defaultTtl, pool.svc.hasDb, pool.svc.baseDomain, ip, saveAnswers);
      return Serving(i);
    }

    /** extendDemo: 1 to 60 minutes, and only within the maximum; an accepted extension
        moves the expiry by exactly that much and touches nothing else. */
    method ExtendDemo(id: string, minutes: int, maxTtl: int, clock: int, scriptOk: bool, syncs: bool)
      returns (r: ExtendResult)
      modifies pool.svc.repo
      ensures r == BadMinutes <==> !(1 <= minutes <= 60)
      ensures r == UnknownDemo <==> 1 <= minutes <= 60 && scriptOk && id !in old(pool.svc.repo.records)
      ensures r == ExtendFailed <==>
                1 <= minutes <= 60
                && (!scriptOk
                    || (id in old(pool.svc.repo.records) && old(pool.svc.repo.records)[id].expiresAtUnix == 0))
      ensures r.ExtendedTo? || r.TooLong? ==> id in old(pool.svc.repo.records)
      ensures r.TooLong? ==>
                var exp := old(pool.svc.repo.records)[id].expiresAtUnix;
                && r.remaining == (if exp > Unix(clock) then exp - Unix(clock) else 0)
                && r.remaining + 60 * minutes > Unix(maxTtl)
      ensures r.ExtendedTo? ==>
                var was := old(pool.svc.repo.records)[id];
                && id in pool.svc.repo.records && r.unix == was.expiresAtUnix + 60 * minutes
                && r.unix <= Unix(clock) + Unix(maxTtl)
                && pool.svc.repo.records - {id} == old(pool.svc.repo.records) - {id}
                && pool.svc.repo.records[id] == was.(
                     expiresAt := if syncs then Some(r.unix * SECOND) else was.expiresAt, expiresAtUnix := r.unix)
      ensures pool.svc.State() == old(pool.svc.State()).(store := pool.svc.repo.View())
      ensures pool.svc.repo.View() == old(pool.svc.repo.View()).(records := pool.svc.repo.records)
      ensures !r.ExtendedTo? ==> pool.svc.repo.records == old(pool.svc.repo.records)
    {
      if !(1 <= minutes <= 60) { return BadMinutes; }
      if !scriptOk { return ExtendFailed; }
      var extension := minutes * 60 * SECOND;
      assert Unix(extension) == 60 * minutes;
      var reply := pool.svc.repo.ExtendInstanceTtlAtomic(id, extension, maxTtl, clock, syncs);
      match reply
      case NotFound => return UnknownDemo;
      case NoExpiry => return ExtendFailed;
      case ExceedsMax(remaining) => return TooLong(remaining);
      case Extended(unix) => return ExtendedTo(unix);
    }

    /** releaseDemo: a GET, then Release with a GET of its own. */
    method ReleaseDemo(id: string, getOk: bool, k: Calls) returns (r: ReleaseReply)
      modifies pool.svc, pool.svc.repo, pool.svc.db
      ensures r == LookupFailed <==> !getOk
      ensures r == UnknownInstance <==> getOk && id !in old(pool.svc.repo.records)
      ensures r == WasReleased <==> getOk && k.getOk && id in old(pool.svc.repo.records) && k.deleteAnswers >= 3
      ensures r == WasReleased ==> id !in pool.svc.repo.records
      ensures pool.svc.State() == if getOk then ReleasedById(old(pool.svc.State()), id, pool.svc.hasDb, k)
                                  else old(pool.svc.State())
    {
      if !getOk { return LookupFailed; }
      if id !in pool.svc.repo.records { return UnknownInstance; }
      ghost var before := pool.svc.State();
      var released := pool.Release(id, k);
      ReleasedParts(before, id, before.store.records[id], pool.svc.hasDb, k);
      return if released == Done then WasReleased else NotReleased;
    }
  }
}
