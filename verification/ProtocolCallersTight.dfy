/** The bound on concurrent callers of TriggerReplenish is reached. */
module ProtocolCallersTight {
  import opened Domain
  import opened StoreSpec
  import opened Protocol
  import opened ProtocolCapacity
  import opened ProtocolAlone
  import opened ProtocolCallers

  // ---- runs of callers from runs of commands -------------------------------------------

  lemma {:induction false} CallersOn(q: Callers, ss: seq<CallerStep>, u: Callers, ts: seq<CallerStep>, p: Callers,
                                     c: Config, callers: set<nat>)
    requires CallersLead(q, ss, u, c, callers) && CallersLead(u, ts, p, c, callers)
    ensures CallersLead(q, ss + ts, p, c, callers)
    decreases |ss|
  {
    if ss == [] {
      assert ss + ts == ts;
    } else {
      assert (ss + ts)[0] == ss[0] && (ss + ts)[1..] == ss[1..] + ts;
      CallersOn(AfterStep(q, ss[0], c, callers), ss[1..], u, ts, p, c, callers);
    }
  }

  lemma CallersOne(q: Callers, cs: CallerStep, c: Config, callers: set<nat>)
    requires CanStep(q, cs, c, callers)
    ensures CallersLead(q, [cs], AfterStep(q, cs, c, callers), c, callers)
  {
    assert [cs][1..] == [];
  }

  /** Commands that begin no provision and use no caller's thread for anything else. */
  ghost predicate Plain(ss: seq<Step>, callers: set<nat>) {
    forall j | 0 <= j < |ss| :: !ss[j].Loop? && !QueueTask(ss[j]) && (ss[j].Provision? || ss[j].t !in callers)
  }

  function Others(ss: seq<Step>): seq<CallerStep> {
    if ss == [] then [] else [Other(ss[0])] + Others(ss[1..])
  }

  lemma {:induction false} Lift(q: Callers, ss: seq<Step>, v: World, c: Config, callers: set<nat>)
    requires Leads(q.w, ss, v, c) && Plain(ss, callers)
    ensures CallersLead(q, Others(ss), q.(w := v), c, callers)
    decreases |ss|
  {
    if ss == [] {
    } else {
      assert Others(ss)[0] == Other(ss[0]) && Others(ss)[1..] == Others(ss[1..]);
      Lift(q.(w := Apply(q.w, ss[0], c)), ss[1..], v, c, callers);
    }
  }

  // ---- one caller checks and begins ------------------------------------------------------

  /** LLEN, SCARD and the decision, with nothing in between. */
  lemma LaunchAlone(w: World, t: nat, c: Config, callers: set<nat>) returns (ss: seq<CallerStep>, v: World)
    requires t in callers && New(w, t) && StatsNow(w, c).ReplenishmentNeeded() > 0
    ensures v == Apply(w, Provision(t, Queue), c) && CallersLead(Quiet(w), ss, Quiet(v), c, callers)
  {
    v := Apply(w, Provision(t, Queue), c);
    var r, a := |w.store.ready|, AssignedCount(w);
    var q1 := Callers(w, map[t := SawList(r)], map[t := InFlight(w)]);
    var q2 := Callers(w, map[t := SawBoth(r, a)], map[t := InFlight(w)]);
    CallersOne(Quiet(w), Llen(t), c, callers);
    assert AfterStep(Quiet(w), Llen(t), c, callers) == q1;
    CallersOne(q1, Scard(t), c, callers);
    assert q1.readers[t := SawBoth(r, a)] == q2.readers;
    CallersOne(q2, Launch(t), c, callers);
    assert Launched(q2, t, v) == Quiet(v);
    CallersOn(Quiet(w), [Llen(t)], q1, [Scard(t)], q2, c, callers);
    CallersOn(Quiet(w), [Llen(t)] + [Scard(t)], q2, [Launch(t)], Quiet(v), c, callers);
    ss := [Llen(t)] + [Scard(t)] + [Launch(t)];
  }

  // ---- filling the pool with assigned instances --------------------------------------------

  /** Unary numerals serve as fresh ids and hostnames. */
  function Numeral(n: nat): string {
    seq(n, _ => 'i')
  }

  function Numbered(n: nat, port: int): Instance {
    Instance(Numeral(n), "", Numeral(n), port, Ready, "", "", 0, None, None, 0)
  }

  /** n instances have been handed out, nothing is listed and nothing is in flight. */
  ghost predicate HandedOut(w: World, c: Config, n: nat) {
    && w.threads == map[LOOP := Checking] && w.locks == map[] && StoreHandedOut(w.store, c, n)
    && (forall id | id in w.hist.used :: |id| < n)
  }

  ghost predicate StoreHandedOut(s: StoreState, c: Config, n: nat) {
    && s.ready == [] && s.available <= c.range && |s.available| == |c.range| - n
    && (forall k | k in s.records :: |s.records[k].hostname| < n)
    && |Members(s, Assigned)| == n && (forall id | id in Members(s, Assigned) :: |id| < n)
    && Members(s, Warming) == {}
  }

  lemma FreshNumeral(w: World, c: Config, n: nat, port: int)
    requires HandedOut(w, c, n)
    ensures Fresh(w, Numbered(n, port), port) && Free(w, Numbered(n, port).id)
  {
    assert forall k | k in w.store.records :: |w.store.records[k].hostname| != |Numbered(n, port).hostname|;
  }

  lemma ServedNext(s: StoreState, c: Config, n: nat, i: Instance)
    requires StoreHandedOut(s, c, n) && i.port in s.available && |i.id| == |i.hostname| == n && i.state == Ready
    ensures StoreHandedOut(AfterClient(s, i, c.defaultTtl), c, n + 1)
  {
    ServedStore(s, i, c.defaultTtl);
    ServedMembers(s, i, c.defaultTtl);
  }

  lemma ClientPlain(a: nat, ip: string, callers: set<nat>)
    requires a !in callers
    ensures Plain(ClientSteps(a, ip), callers)
  {
  }

  lemma ProvisionAfterLaunch(w: World, t: nat, port: int, i: Instance, c: Config, callers: set<nat>)
    returns (ss: seq<Step>, v: World)
    requires New(w, t) && port in w.store.available && Fresh(w, i, port) && Free(w, i.id)
    ensures Leads(Apply(w, Provision(t, Queue), c), ss, v, c) && Plain(ss, callers)
    ensures v.store == AddToPool(WithPort(w.store, port), i) && v.threads == w.threads && v.locks == w.locks
    ensures v.hist.used == w.hist.used + {i.id}
  {
    v := ProvisionAlone(w, t, port, i, c);
    ss := ProvisionSteps(t, port, i)[1..];
    assert ProvisionSteps(t, port, i)[0] == Provision(t, Queue);
  }

  lemma HandOutOne(w: World, c: Config, t: nat, a: nat, n: nat, callers: set<nat>)
    returns (ss: seq<CallerStep>, v: World)
    requires HandedOut(w, c, n) && n < |c.range| && n < c.capacity && 1 <= c.target
    requires t in callers && LOOP !in callers && a !in callers && a != LOOP
    ensures CallersLead(Quiet(w), ss, Quiet(v), c, callers) && HandedOut(v, c, n + 1)
  {
    HasMember(w.store.available);
    var port :| port in w.store.available;
    var i := Numbered(n, port);
    FreshNumeral(w, c, n, port);
    var s1, w1 := LaunchAlone(w, t, c, callers);
    var s2, w2 := ProvisionAfterLaunch(w, t, port, i, c, callers);
    Lift(Quiet(w1), s2, w2, c, callers);
    v := ClientServed(w2, w.store, a, i, c);
    var s3 := ClientSteps(a, i.userIp);
    ClientPlain(a, i.userIp, callers);
    Lift(Quiet(w2), s3, v, c, callers);
    CallersOn(Quiet(w), s1, Quiet(w1), Others(s2), Quiet(w2), c, callers);
    CallersOn(Quiet(w), s1 + Others(s2), Quiet(w2), Others(s3), Quiet(v), c, callers);
    ss := s1 + Others(s2) + Others(s3);
    ServedNext(w.store, c, n, i);
  }

  lemma {:induction false} HandOut(c: Config, t: nat, a: nat, n: nat, callers: set<nat>)
    returns (ss: seq<CallerStep>, v: World)
    requires n <= |c.range| && n <= c.capacity && 1 <= c.target
    requires t in callers && LOOP !in callers && a !in callers && a != LOOP
    ensures CallersLead(Quiet(Initial(c)), ss, Quiet(v), c, callers) && HandedOut(v, c, n)
  {
    if n == 0 {
      ss, v := [], Initial(c);
      assert Members(v.store, Assigned) == {} && Members(v.store, Warming) == {};
    } else {
      var rs, u := HandOut(c, t, a, n - 1, callers);
      var ts;
      ts, v := HandOutOne(u, c, t, a, n - 1, callers);
      CallersOn(Quiet(Initial(c)), rs, Quiet(u), ts, Quiet(v), c, callers);
      ss := rs + ts;
    }
  }

  // ---- all callers begin ---------------------------------------------------------------------

  lemma LaunchMaps(m: map<nat, Pc>, t: nat, todo: set<nat>)
    requires t in todo
    ensures m[t := WantsPort] + (map u | u in todo - {t} :: WantsPort) == m + map u | u in todo :: WantsPort
  {
  }

  lemma {:induction false} AllLaunch(w: World, c: Config, todo: set<nat>, callers: set<nat>)
    returns (ss: seq<CallerStep>, v: World)
    requires todo <= callers && LOOP !in todo && todo !! w.threads.Keys && StatsNow(w, c).ReplenishmentNeeded() > 0
    ensures CallersLead(Quiet(w), ss, Quiet(v), c, callers)
    ensures v.store == w.store && v.threads == w.threads + map t | t in todo :: WantsPort
    decreases |todo|
  {
    if todo == {} {
      ss, v := [], w;
    } else {
      var t :| t in todo;
      var rs, u := LaunchAlone(w, t, c, callers);
      assert u.store == w.store && u.threads == w.threads[t := WantsPort];
      var ts;
      ts, v := AllLaunch(u, c, todo - {t}, callers);
      LaunchMaps(w.threads, t, todo);
      CallersOn(Quiet(w), rs, Quiet(u), ts, Quiet(v), c, callers);
      ss := rs + ts;
    }
  }

  lemma LaunchedTotal(u: World, v: World, c: Config, n: nat, callers: set<nat>)
    requires HandedOut(u, c, n) && LOOP !in callers
    requires v.store == u.store && v.threads == u.threads + map t | t in callers :: WantsPort
    ensures Total(v) == n + |callers|
  {
    assert InFlight(v) == callers;
  }

  lemma {:induction false} Unused(s: set<nat>) returns (a: nat)
    ensures forall x | x in s :: x < a
    decreases |s|
  {
    if s == {} {
      a := 0;
    } else {
      var x :| x in s;
      var b := Unused(s - {x});
      a := Max(b, x + 1);
      assert s == s - {x} + {x};
    }
  }

  /** The bound is reached for every number of callers, every capacity and every target:
      with room for one instance left, all callers may read that and begin. */
  lemma CallersBoundIsTight(c: Config, callers: set<nat>) returns (ss: seq<CallerStep>, p: Callers)
    requires 1 <= c.capacity && 1 <= c.target && |c.range| >= c.capacity - 1
    requires callers != {} && LOOP !in callers
    ensures CallersLead(Quiet(Initial(c)), ss, p, c, callers)
    ensures Total(p.w) == Top(c) + |callers| - 1
  {
    var t :| t in callers;
    var a := Unused(callers);
    var rs, u := HandOut(c, t, a, c.capacity - 1, callers);
    var ts, v := AllLaunch(u, c, callers, callers);
    CallersOn(Quiet(Initial(c)), rs, Quiet(u), ts, Quiet(v), c, callers);
    LaunchedTotal(u, v, c, c.capacity - 1, callers);
    ss, p := rs + ts, Quiet(v);
  }
}
