/** The outside world of a pool and the two ways an instance is taken out of it:
    PoolManager.Release and the queue's CleanupHandler. */
module Cleanup {
  import opened Domain
  import opened StoreSpec
  import opened Caddy
  import opened Tables
  import opened ReadyQueue

  /** Everything a cleanup touches. */
  datatype Deployment = Deployment(
    store: StoreState,
    containers: set<string>,
    routes: map<string, CaddyRoute>,
    tables: set<string>)

  /** How the calls of one cleanup turn out; the store answers the given numbers
      of commands of ReleasePort and DeleteInstance. `getOk` is Release's first GET;
      CleanupHandler has none. */
  datatype Calls = Calls(
    getOk: bool, routeOk: bool, listOk: bool, dropOk: bool, stopOk: bool, portAnswers: nat, deleteAnswers: nat)

  const ALL_WORK: Calls := Calls(true, true, true, true, true, 2, 3)

  function CutRoute(d: Deployment, hostname: string, ok: bool): Deployment {
    if ok then d.(routes := RemoveRoute(d.routes, hostname)) else d
  }

  function DropTables(d: Deployment, prefix: string, hasDb: bool, k: Calls): Deployment {
    if hasDb && prefix != "" && k.listOk && k.dropOk then d.(tables := AfterDrop(d.tables, prefix)) else d
  }

  function StopContainer(d: Deployment, containerId: string, ok: bool): Deployment {
    if ok then d.(containers := d.containers - {containerId}) else d
  }

  function FreePort(d: Deployment, port: int, answers: nat): Deployment {
    d.(store := ReleasePortAfter(d.store, port, answers))
  }

  function Forget(d: Deployment, id: string, answers: nat): Deployment {
    d.(store := DeleteAfter(d.store, id, answers))
  }

  /** Release of an instance that was read: route, tables, container, port, record. */
  function Released(d: Deployment, id: string, i: Instance, hasDb: bool, k: Calls): Deployment {
    var d1 := DropTables(CutRoute(d, i.hostname, k.routeOk), i.dbPrefix, hasDb, k);
    Forget(FreePort(StopContainer(d1, i.containerId, k.stopOk), i.port, k.portAnswers), id, k.deleteAnswers)
  }

  /** Release by id: without a record, or without an answer to the GET, it is an error
      without effect. */
  function ReleasedById(d: Deployment, id: string, hasDb: bool, k: Calls): Deployment {
    if k.getOk && id in d.store.records then Released(d, id, d.store.records[id], hasDb, k) else d
  }

  datatype CleanupTask = CleanupTask(
    instanceId: string, containerId: string, hostname: string, port: int, dbPrefix: string)

  /** CleanupHandler: container, tables, route, port, record; empty fields are skipped. */
  function Cleaned(d: Deployment, t: CleanupTask, hasDb: bool, k: Calls): Deployment {
    var d1 := if t.containerId != "" then StopContainer(d, t.containerId, k.stopOk) else d;
    var d2 := DropTables(d1, t.dbPrefix, hasDb, k);
    var d3 := if t.hostname != "" then CutRoute(d2, t.hostname, k.routeOk) else d2;
    var d4 := if t.port > 0 then FreePort(d3, t.port, k.portAnswers) else d3;
    if t.instanceId != "" then Forget(d4, t.instanceId, k.deleteAnswers) else d4
  }

  function TaskFor(i: Instance): CleanupTask {
    CleanupTask(i.id, i.containerId, i.hostname, i.port, i.dbPrefix)
  }

  predicate Complete(i: Instance) {
    i.id != "" && i.containerId != "" && i.hostname != "" && i.port > 0
  }

  /** Main theorem: for a task that matches the stored record both paths reach the
      same state, not only without faults but for every pattern of faults. */
  lemma PathsAgree(d: Deployment, i: Instance, hasDb: bool, k: Calls)
    requires Complete(i)
    ensures Cleaned(d, TaskFor(i), hasDb, k) == Released(d, i.id, i, hasDb, k)
  {
  }

  /** What a Release leaves of every resource, call by call. */
  lemma ReleasedParts(d: Deployment, id: string, i: Instance, hasDb: bool, k: Calls)
    ensures var v := Released(d, id, i, hasDb, k);
            && v.containers == (if k.stopOk then d.containers - {i.containerId} else d.containers)
            && v.routes == (if k.routeOk then d.routes - {RouteId(i.hostname)} else d.routes)
            && (forall t :: t in v.tables <==>
                  t in d.tables && !(hasDb && Matches(i.dbPrefix, t) && k.listOk && k.dropOk))
            && StoreWithout(d.store, v.store, id, i.port, k.portAnswers, k.deleteAnswers)
  {
    DropMatches(d, i.dbPrefix, hasDb, k);
    var freed := ReleasePortAfter(d.store, i.port, k.portAnswers);
    assert Released(d, id, i, hasDb, k).store == DeleteAfter(freed, id, k.deleteAnswers);
    StoreParts(d.store, id, i.port, k.portAnswers, k.deleteAnswers);
  }

  /** The same for CleanupHandler, which skips what its task does not name. */
  lemma CleanedParts(d: Deployment, t: CleanupTask, hasDb: bool, k: Calls)
    ensures var v := Cleaned(d, t, hasDb, k);
            && v.containers == d.containers - (if k.stopOk && t.containerId != "" then {t.containerId} else {})
            && v.routes == (if k.routeOk && t.hostname != "" then d.routes - {RouteId(t.hostname)} else d.routes)
            && (forall x :: x in v.tables <==>
                  x in d.tables && !(hasDb && Matches(t.dbPrefix, x) && k.listOk && k.dropOk))
            && StoreWithout(d.store, v.store, t.instanceId, t.port, if t.port > 0 then k.portAnswers else 0,
                            if t.instanceId != "" then k.deleteAnswers else 0)
  {
    ByResource(d, t, hasDb, k);
    DropMatches(d, t.dbPrefix, hasDb, k);
    StoreParts(d.store, t.instanceId, t.port, if t.port > 0 then k.portAnswers else 0,
               if t.instanceId != "" then k.deleteAnswers else 0);
  }

  /** The table belongs to a valid prefix, as PatternSelects says. */
  predicate Matches(prefix: string, t: string) {
    ValidPrefix(prefix) && |t| >= 10 && t[..9] == prefix[..9]
  }

  lemma DropMatches(d: Deployment, prefix: string, hasDb: bool, k: Calls)
    ensures forall t :: t in DropTables(d, prefix, hasDb, k).tables <==>
              t in d.tables && !(hasDb && Matches(prefix, t) && k.listOk && k.dropOk)
  {
    forall t | ValidPrefix(prefix) ensures Like(Pattern(prefix), t) <==> Matches(prefix, t) {
      PatternSelects(prefix, t);
    }
  }

  /** v is s after the given numbers of answers to SREM and SADD of the port and to
      GET, SREM and DEL of the record. */
  predicate StoreWithout(s: StoreState, v: StoreState, id: string, port: int, portAnswers: nat, deleteAnswers: nat) {
    && v.ready == s.ready
    && v.inUse == (if portAnswers >= 1 then s.inUse - {port} else s.inUse)
    && v.available == (if portAnswers >= 2 then s.available + {port} else s.available)
    && v.records == (if deleteAnswers >= 3 then s.records - {id} else s.records)
    && v.index == (if deleteAnswers >= 2 && id in s.records then s.index - {(s.records[id].state, id)} else s.index)
  }

  lemma StoreParts(s: StoreState, id: string, port: int, n: nat, m: nat)
    ensures StoreWithout(s, DeleteAfter(ReleasePortAfter(s, port, n), id, m), id, port, n, m)
  {
    if id !in s.records {
      assert s.records - {id} == s.records;
    }
  }

  // ---- a cleanup acts on each resource separately --------------------------------

  function CleanedStore(s: StoreState, t: CleanupTask, k: Calls): StoreState {
    var s1 := if t.port > 0 then ReleasePortAfter(s, t.port, k.portAnswers) else s;
    if t.instanceId != "" then DeleteAfter(s1, t.instanceId, k.deleteAnswers) else s1
  }

  function CleanedContainers(cs: set<string>, t: CleanupTask, k: Calls): set<string> {
    if t.containerId != "" && k.stopOk then cs - {t.containerId} else cs
  }

  function CleanedRoutes(rs: map<string, CaddyRoute>, t: CleanupTask, k: Calls): map<string, CaddyRoute> {
    if t.hostname != "" && k.routeOk then RemoveRoute(rs, t.hostname) else rs
  }

  function CleanedTables(ts: set<string>, t: CleanupTask, hasDb: bool, k: Calls): set<string> {
    if hasDb && t.dbPrefix != "" && k.listOk && k.dropOk then AfterDrop(ts, t.dbPrefix) else ts
  }

  lemma ByResource(d: Deployment, t: CleanupTask, hasDb: bool, k: Calls)
    ensures Cleaned(d, t, hasDb, k)
              == Deployment(CleanedStore(d.store, t, k), CleanedContainers(d.containers, t, k),
                            CleanedRoutes(d.routes, t, k), CleanedTables(d.tables, t, hasDb, k))
  {
  }

  lemma PortAbsorbs(s: StoreState, p: int, n: nat)
    ensures ReleasePortAfter(ReleasePortAfter(s, p, n), p, 2) == ReleasePortAfter(s, p, 2)
  {
  }

  lemma DeleteAbsorbs(s: StoreState, id: string, n: nat)
    ensures DeleteAfter(DeleteAfter(s, id, n), id, 3) == DeleteAfter(s, id, 3)
  {
  }

  lemma PortDeleteSwap(s: StoreState, p: int, n: nat, id: string, m: nat)
    ensures DeleteAfter(ReleasePortAfter(s, p, n), id, m) == ReleasePortAfter(DeleteAfter(s, id, m), p, n)
  {
  }

  lemma PortsSwap(s: StoreState, p: int, n: nat, q: int, m: nat)
    requires p != q
    ensures ReleasePortAfter(ReleasePortAfter(s, p, n), q, m) == ReleasePortAfter(ReleasePortAfter(s, q, m), p, n)
  {
    var a, b := ReleasePortAfter(ReleasePortAfter(s, p, n), q, m), ReleasePortAfter(ReleasePortAfter(s, q, m), p, n);
    assert a.available == b.available && a.inUse == b.inUse;
  }

  lemma DeletesSwap(s: StoreState, i: string, n: nat, j: string, m: nat)
    requires i != j
    ensures DeleteAfter(DeleteAfter(s, i, n), j, m) == DeleteAfter(DeleteAfter(s, j, m), i, n)
  {
    var a, b := DeleteAfter(DeleteAfter(s, i, n), j, m), DeleteAfter(DeleteAfter(s, j, m), i, n);
    assert a.records == b.records;
    assert a.index == b.index;
  }

  lemma StoreAbsorbs(s: StoreState, t: CleanupTask, k: Calls)
    ensures CleanedStore(CleanedStore(s, t, k), t, ALL_WORK) == CleanedStore(s, t, ALL_WORK)
  {
    var p, n, id, m := t.port, k.portAnswers, t.instanceId, k.deleteAnswers;
    var freed := ReleasePortAfter(s, p, n);
    PortAbsorbs(s, p, n);
    DeleteAbsorbs(s, id, m);
    PortDeleteSwap(freed, p, 2, id, m);
    DeleteAbsorbs(ReleasePortAfter(s, p, 2), id, m);
  }

  lemma StoresCommute(s: StoreState, t: CleanupTask, u: CleanupTask, k: Calls, l: Calls)
    requires t.instanceId != u.instanceId && t.port != u.port
    ensures CleanedStore(CleanedStore(s, t, k), u, l) == CleanedStore(CleanedStore(s, u, l), t, k)
  {
    var p, i, q, j := t.port, t.instanceId, u.port, u.instanceId;
    var n, m := if p > 0 then k.portAnswers else 0, if i != "" then k.deleteAnswers else 0;
    var o, r := if q > 0 then l.portAnswers else 0, if j != "" then l.deleteAnswers else 0;
    FourWaySwap(s, p, n, i, m, q, o, j, r);
    assert CleanedStore(s, t, k) == DeleteAfter(ReleasePortAfter(s, p, n), i, m);
    assert CleanedStore(s, u, l) == DeleteAfter(ReleasePortAfter(s, q, o), j, r);
  }

  lemma FourWaySwap(s: StoreState, p: int, n: nat, i: string, m: nat, q: int, o: nat, j: string, r: nat)
    requires p != q && i != j
    ensures DeleteAfter(ReleasePortAfter(DeleteAfter(ReleasePortAfter(s, p, n), i, m), q, o), j, r)
              == DeleteAfter(ReleasePortAfter(DeleteAfter(ReleasePortAfter(s, q, o), j, r), p, n), i, m)
  {
    var sp, sq := ReleasePortAfter(s, p, n), ReleasePortAfter(s, q, o);
    PortDeleteSwap(sp, q, o, i, m);
    PortDeleteSwap(sq, p, n, j, r);
    PortsSwap(s, p, n, q, o);
    DeletesSwap(ReleasePortAfter(sp, q, o), i, m, j, r);
  }

  lemma DropTwice(tables: set<string>, p: string)
    ensures AfterDrop(AfterDrop(tables, p), p) == AfterDrop(tables, p)
  {
  }

  lemma DropSwap(tables: set<string>, p: string, q: string)
    ensures AfterDrop(AfterDrop(tables, p), q) == AfterDrop(AfterDrop(tables, q), p)
  {
  }

  // ---- retries and independence ------------------------------------------------------

  /** A clean attempt after any partial one equals a clean attempt alone. */
  lemma CleanAbsorbsAttempt(d: Deployment, t: CleanupTask, hasDb: bool, k: Calls)
    ensures Cleaned(Cleaned(d, t, hasDb, k), t, hasDb, ALL_WORK) == Cleaned(d, t, hasDb, ALL_WORK)
  {
    ByResource(d, t, hasDb, k);
    ByResource(d, t, hasDb, ALL_WORK);
    ByResource(Cleaned(d, t, hasDb, k), t, hasDb, ALL_WORK);
    StoreAbsorbs(d.store, t, k);
    DropTwice(d.tables, t.dbPrefix);
  }

  function Attempts(d: Deployment, t: CleanupTask, hasDb: bool, ks: seq<Calls>): Deployment
    decreases |ks|
  {
    if ks == [] then d else Attempts(Cleaned(d, t, hasDb, ks[0]), t, hasDb, ks[1..])
  }

  /** Retries converge: any number of failed or partial attempts and then one clean
      attempt leave the same state as one clean attempt. With only clean attempts
      this is idempotence. */
  lemma {:induction false} RetriesConverge(d: Deployment, t: CleanupTask, hasDb: bool, ks: seq<Calls>)
    ensures Cleaned(Attempts(d, t, hasDb, ks), t, hasDb, ALL_WORK) == Cleaned(d, t, hasDb, ALL_WORK)
    decreases |ks|
  {
    if ks == [] {
    } else {
      RetriesConverge(Cleaned(d, t, hasDb, ks[0]), t, hasDb, ks[1..]);
      CleanAbsorbsAttempt(d, t, hasDb, ks[0]);
    }
  }

  /** Tasks of instances that share no resource commute, whatever fails in either. */
  lemma CleanupsCommute(d: Deployment, t: CleanupTask, u: CleanupTask, hasDb: bool, k: Calls, l: Calls)
    requires t.instanceId != u.instanceId && t.port != u.port
    ensures Cleaned(Cleaned(d, t, hasDb, k), u, hasDb, l) == Cleaned(Cleaned(d, u, hasDb, l), t, hasDb, k)
  {
    ByResource(d, t, hasDb, k);
    ByResource(d, u, hasDb, l);
    ByResource(Cleaned(d, t, hasDb, k), u, hasDb, l);
    ByResource(Cleaned(d, u, hasDb, l), t, hasDb, k);
    StoresCommute(d.store, t, u, k, l);
    DropSwap(d.tables, t.dbPrefix, u.dbPrefix);
    assert CleanedContainers(CleanedContainers(d.containers, t, k), u, l)
        == CleanedContainers(CleanedContainers(d.containers, u, l), t, k);
    assert CleanedRoutes(CleanedRoutes(d.routes, t, k), u, l) == CleanedRoutes(CleanedRoutes(d.routes, u, l), t, k);
  }

  // ---- the expiry scan -------------------------------------------------------------

  function ExpiredIds(s: StoreState, now: int): set<string> {
    set id | id in s.records && s.records[id].state == Assigned && s.records[id].IsExpired(now)
  }

  /** The deployment without the instances in `gone`, whose records are in `r`;
      `k` says how the calls for each id turned out. */
  ghost function Without(d: Deployment, r: map<string, Instance>, gone: set<string>, hasDb: bool,
                         k: string -> Calls): Deployment
    requires gone <= r.Keys
  {
    Deployment(
      StoreState(
        d.store.records - gone,
        d.store.ready,
        (set e | e in d.store.index && e.1 !in gone),
        d.store.available + (set id | id in gone :: r[id].port),
        d.store.inUse - (set id | id in gone :: r[id].port)),
      d.containers - (set id | id in gone && k(id).stopOk :: r[id].containerId),
      d.routes - (set id | id in gone && k(id).routeOk :: RouteId(r[id].hostname)),
      (set t | t in d.tables && !(exists id :: id in gone && Dropped(r[id], t, hasDb, k(id)))))
  }

  predicate Dropped(i: Instance, t: string, hasDb: bool, k: Calls) {
    hasDb && i.dbPrefix != "" && k.listOk && k.dropOk && ValidPrefix(i.dbPrefix) && Like(Pattern(i.dbPrefix), t)
  }

  lemma WithoutNone(d: Deployment, hasDb: bool, k: string -> Calls)
    ensures Without(d, d.store.records, {}, hasDb, k) == d
  {
    var v := Without(d, d.store.records, {}, hasDb, k);
    assert v.store.records == d.store.records;
    assert v.store.index == d.store.index;
    assert v.tables == d.tables;
    assert v.routes == d.routes;
  }

  lemma WithoutStore(d: Deployment, gone: set<string>, id: string, hasDb: bool, k: string -> Calls)
    requires Coherent(d.store) && gone <= d.store.records.Keys && id in d.store.records && id !in gone
    requires k(id).portAnswers >= 2 && k(id).deleteAnswers >= 3
    ensures Released(Without(d, d.store.records, gone, hasDb, k), id, d.store.records[id], hasDb, k(id)).store
              == Without(d, d.store.records, gone + {id}, hasDb, k).store
  {
    var i := d.store.records[id];
    var w := Without(d, d.store.records, gone, hasDb, k).store;
    var u := DeleteInstance(ReleasePort(w, i.port), id);
    var v := Without(d, d.store.records, gone + {id}, hasDb, k).store;
    assert u.records == v.records;
    IndexWithout(d.store, gone, id);
    assert u.index == v.index;
    var r := d.store.records;
    assert (set x | x in gone + {id} :: r[x].port) == (set x | x in gone :: r[x].port) + {i.port};
    assert u.available == v.available;
    assert u.inUse == v.inUse;
  }

  lemma IndexWithout(s: StoreState, gone: set<string>, id: string)
    requires Coherent(s) && id in s.records && id !in gone
    ensures (set e | e in s.index && e.1 !in gone) - {(s.records[id].state, id)}
            == set e | e in s.index && e.1 !in gone + {id}
  {
    forall e | e in s.index && e.1 == id ensures e == (s.records[id].state, id) {
      assert (e.0, e.1) in s.index;
    }
  }

  /** Releasing one more instance. */
  lemma WithoutOneMore(d: Deployment, gone: set<string>, id: string, hasDb: bool, k: string -> Calls)
    requires Coherent(d.store) && gone <= d.store.records.Keys && id in d.store.records && id !in gone
    requires k(id).portAnswers >= 2 && k(id).deleteAnswers >= 3
    ensures Released(Without(d, d.store.records, gone, hasDb, k), id, d.store.records[id], hasDb, k(id))
              == Without(d, d.store.records, gone + {id}, hasDb, k)
  {
    WithoutStore(d, gone, id, hasDb, k);
    WithoutRest(d, gone, id, hasDb, k);
  }

  lemma WithoutTables(d: Deployment, gone: set<string>, id: string, hasDb: bool, k: string -> Calls)
    requires gone <= d.store.records.Keys && id in d.store.records
    ensures DropTables(Without(d, d.store.records, gone, hasDb, k), d.store.records[id].dbPrefix, hasDb, k(id)).tables
              == Without(d, d.store.records, gone + {id}, hasDb, k).tables
  {
    var r := d.store.records;
    forall t ensures (exists x :: x in gone + {id} && Dropped(r[x], t, hasDb, k(x))) <==>
                       (exists x :: x in gone && Dropped(r[x], t, hasDb, k(x))) || Dropped(r[id], t, hasDb, k(id))
    {
    }
  }

  lemma WithoutRoutes(d: Deployment, gone: set<string>, id: string, hasDb: bool, k: string -> Calls)
    requires gone <= d.store.records.Keys && id in d.store.records
    ensures CutRoute(Without(d, d.store.records, gone, hasDb, k), d.store.records[id].hostname, k(id).routeOk).routes
              == Without(d, d.store.records, gone + {id}, hasDb, k).routes
  {
    var u := CutRoute(Without(d, d.store.records, gone, hasDb, k), d.store.records[id].hostname, k(id).routeOk);
    assert u.routes.Keys == Without(d, d.store.records, gone + {id}, hasDb, k).routes.Keys;
  }

  lemma WithoutRest(d: Deployment, gone: set<string>, id: string, hasDb: bool, k: string -> Calls)
    requires gone <= d.store.records.Keys && id in d.store.records
    ensures var u := Released(Without(d, d.store.records, gone, hasDb, k), id, d.store.records[id], hasDb, k(id));
            var v := Without(d, d.store.records, gone + {id}, hasDb, k);
            u.containers == v.containers && u.routes == v.routes && u.tables == v.tables
  {
    WithoutTables(d, gone, id, hasDb, k);
    WithoutRoutes(d, gone, id, hasDb, k);
  }

  /** One Release after the other, each on what the one before left. */
  function ReleasedAll(d: Deployment, ids: seq<string>, hasDb: bool, k: string -> Calls): Deployment {
    if ids == [] then d
    else
      var n := |ids| - 1;
      ReleasedById(ReleasedAll(d, ids[..n], hasDb, k), ids[n], hasDb, k(ids[n]))
  }

  /** The calls that take the record away and give its port back. */
  predicate Frees(k: Calls) {
    k.getOk && k.portAnswers >= 2 && k.deleteAnswers >= 3
  }

  /** Main theorem: releases of different instances one after the other, in any
      order, take away exactly what each of them owns. */
  lemma {:induction false} ReleasesAddUp(d: Deployment, ids: seq<string>, hasDb: bool, k: string -> Calls)
    requires Coherent(d.store) && NoDup(ids)
    requires forall id | id in ids :: id in d.store.records && Frees(k(id))
    ensures (set id | id in ids) <= d.store.records.Keys
    ensures ReleasedAll(d, ids, hasDb, k) == Without(d, d.store.records, (set id | id in ids), hasDb, k)
  {
    if ids == [] {
      WithoutNone(d, hasDb, k);
      assert (set id | id in ids) == {};
    } else {
      var n := |ids| - 1;
      ReleasesAddUp(d, ids[..n], hasDb, k);
      assert ids == ids[..n] + [ids[n]];
      var gone := set id | id in ids[..n];
      assert (set id | id in ids) == gone + {ids[n]};
      WithoutOneMore(d, gone, ids[n], hasDb, k);
      assert ids[n] in Without(d, d.store.records, gone, hasDb, k).store.records;
    }
  }

  /** No two records share a port or a route, listed records are ready, and every
      record's port is tracked: what the protocol keeps when nothing is in flight
      (ProtocolRest.RestIsSeparate). */
  ghost predicate Separate(s: StoreState) {
    && Coherent(s)
    && (forall i, j | i in s.records && j in s.records && i != j ::
          s.records[i].port != s.records[j].port && RouteId(s.records[i].hostname) != RouteId(s.records[j].hostname))
    && (forall id | id in s.ready && id in s.records :: s.records[id].state == Ready)
    && PortsTracked(s)
  }

  lemma ScanKeepsSeparate(d: Deployment, gone: set<string>, hasDb: bool, k: string -> Calls)
    requires Separate(d.store) && gone <= d.store.records.Keys
    ensures Separate(Without(d, d.store.records, gone, hasDb, k).store)
  {
  }

  /** Main theorem: one pass of the scan removes the expired instances, all of them
      and no others: every remaining record keeps its fields, its port, its state
      set and its route, and the queue of live ready instances is unchanged. */
  lemma ScanIsExact(d: Deployment, now: int, hasDb: bool, k: string -> Calls, baseDomain: string)
    requires Separate(d.store)
    ensures var gone := ExpiredIds(d.store, now);
            var v := Without(d, d.store.records, gone, hasDb, k);
            && ExpiredIds(v.store, now) == {}
            && (forall id :: id in v.store.records <==> id in d.store.records && id !in gone)
            && Separate(v.store)
            && (forall id | id in v.store.records ::
                  && v.store.records[id] == d.store.records[id]
                  && GetRoute(v.routes, v.store.records[id].hostname, baseDomain)
                      == GetRoute(d.routes, v.store.records[id].hostname, baseDomain))
            && (forall id | id in gone ::
                  d.store.records[id].port in v.store.available && d.store.records[id].port !in v.store.inUse)
            && (forall id | id in gone && k(id).routeOk ::
                  GetRoute(v.routes, d.store.records[id].hostname, baseDomain) == None)
            && (forall id | id in gone && k(id).stopOk :: d.store.records[id].containerId !in v.containers)
            && (forall x | x in d.containers && (forall id | id in gone :: d.store.records[id].containerId != x) ::
                  x in v.containers)
            && LiveQueue(v.store) == LiveQueue(d.store)
  {
    var gone := ExpiredIds(d.store, now);
    var v := Without(d, d.store.records, gone, hasDb, k);
    ScanKeepsSeparate(d, gone, hasDb, k);
    FilterSame(d.store.ready, v.store.records, d.store.records);
  }

  /** Of the tables named by valid prefixes, the scan drops those of the expired
      instances whose drop worked, and no others. */
  lemma ScanDropsTables(d: Deployment, now: int, hasDb: bool, k: string -> Calls, q: string, rest: string)
    requires ValidPrefix(q) && q + rest in d.tables
    ensures var gone := ExpiredIds(d.store, now);
            var r := d.store.records;
            q + rest !in Without(d, r, gone, hasDb, k).tables <==>
              hasDb && exists id :: id in gone && r[id].dbPrefix == q && k(id).listOk && k(id).dropOk
  {
    var gone := ExpiredIds(d.store, now);
    var r := d.store.records;
    forall id | id in gone
      ensures Dropped(r[id], q + rest, hasDb, k(id)) <==>
                hasDb && r[id].dbPrefix == q && k(id).listOk && k(id).dropOk
    {
      if ValidPrefix(r[id].dbPrefix) { DropIsolates(d.tables, r[id].dbPrefix, q, rest); }
    }
    var v := Without(d, r, gone, hasDb, k);
    assert q + rest !in v.tables <==> exists id :: id in gone && Dropped(r[id], q + rest, hasDb, k(id));
  }

  /** What a Release that fails part of the way leaves to the next scan: as long as
      nothing was deleted the scan finds the instance again. If the store failed
      between SREM and DEL, the record stays for good: it is in no state set, so no
      scan sees it. */
  lemma FailedReleaseAndNextScan(d: Deployment, id: string, hasDb: bool, k: Calls, now: int)
    requires Coherent(d.store) && id in ExpiredIds(d.store, now)
    ensures var i := d.store.records[id];
            var v := Released(d, id, i, hasDb, k).store;
            && (i in Listed(v, Assigned) <==> k.deleteAnswers <= 1)
            && (id in v.records && (forall st :: id !in Members(v, st)) <==> k.deleteAnswers == 2)
  {
    var i := d.store.records[id];
    var s := ReleasePortAfter(d.store, i.port, k.portAnswers);
    assert Released(d, id, i, hasDb, k).store == DeleteAfter(s, id, k.deleteAnswers);
    PartlyDeleted(s, id, k.deleteAnswers);
  }

  lemma PartlyDeleted(s: StoreState, id: string, n: nat)
    requires Coherent(s) && id in s.records && s.records[id].state == Assigned
    ensures var v := DeleteAfter(s, id, n);
            && (s.records[id] in Listed(v, Assigned) <==> n <= 1)
            && (id in v.records && (forall st :: id !in Members(v, st)) <==> n == 2)
  {
    var v := DeleteAfter(s, id, n);
    assert (Assigned, id) in s.index;
    assert forall st :: id in Members(v, st) <==> (st, id) in v.index;
    if n >= 2 {
      forall x | x in Members(v, Assigned) && x in v.records ensures v.records[x] != s.records[id] {
        assert v.records[x].id == x;
      }
    }
  }

  /** A clean Release of the instance the scan finds again ends where a clean one alone
      would have ended. */
  lemma RetriedReleaseIsClean(d: Deployment, id: string, hasDb: bool, k: Calls)
    requires Coherent(d.store) && id in d.store.records && Complete(d.store.records[id]) && k.deleteAnswers <= 1
    ensures var i := d.store.records[id];
            ReleasedById(Released(d, id, i, hasDb, k), id, hasDb, ALL_WORK) == Released(d, id, i, hasDb, ALL_WORK)
  {
    var i := d.store.records[id];
    var v := Released(d, id, i, hasDb, k);
    assert v.store.records == d.store.records;
    PathsAgree(d, i, hasDb, k);
    PathsAgree(d, i, hasDb, ALL_WORK);
    PathsAgree(v, i, hasDb, ALL_WORK);
    CleanAbsorbsAttempt(d, TaskFor(i), hasDb, k);
  }

  /** Release goes on to delete the record when it could not free the port. The port is
      lost, on offer nowhere and held by no record, if and only if the record went and
      the port did not come back. */
  lemma FailedReleaseLosesPort(d: Deployment, id: string, hasDb: bool, k: Calls)
    requires Separate(d.store) && id in d.store.records
    ensures var i := d.store.records[id];
            var v := Released(d, id, i, hasDb, k).store;
            var kept := i.port in v.available || exists j :: j in v.records && v.records[j].port == i.port;
            kept <==> k.portAnswers >= 2 || k.deleteAnswers <= 2
  {
    var i := d.store.records[id];
    var v := Released(d, id, i, hasDb, k).store;
    assert v == DeleteAfter(ReleasePortAfter(d.store, i.port, k.portAnswers), id, k.deleteAnswers);
    if k.deleteAnswers <= 2 {
      assert v.records[id].port == i.port;
    } else {
      assert v.records == d.store.records - {id};
    }
  }
}
