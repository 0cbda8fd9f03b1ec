/** What the replenish loop leaves behind when it rests: when the pool then needs
    nothing, and what can happen to it unnoticed. */
module ProtocolAtRest {
  import opened Domain
  import opened StoreSpec
  import opened Protocol
  import opened ProtocolSafety
  import opened ProtocolCapacity
  import opened ProtocolAlone
  import opened ProtocolWakeup

  /** The assigned instances whose deletion began since the loop's latest look. */
  function DropsSince(h: History): set<nat> {
    Since(h.dropped, h.lastCheck)
  }

  /** The pool is what it was at the latest look, one more for each addition and one
      less for each deletion since. */
  ghost predicate PoolLook(w: World) {
    && (forall a | a in w.hist.dropped :: a < w.step)
    && InPool(w) + |DropsSince(w.hist)| == w.hist.pool + |PushesSince(w.hist)|
  }

  /** The loop's two reads overcount the pool by at most the pops between them. */
  ghost predicate SeenBound(w: World)
    requires LOOP in w.threads
  {
    && (w.threads[LOOP].SawAssigned? ==>
          w.threads[LOOP].ready + w.threads[LOOP].inUseCount <= w.hist.pool + |PopsSince(w.hist)|)
    && (w.hist.settled ==> w.hist.seen.0 + w.hist.seen.1 <= w.hist.pool + |PopsSince(w.hist)|)
  }

  // ---- what each step records --------------------------------------------------------

  function Mark(steps: set<nat>, now: bool, step: nat): set<nat> {
    if now then steps + {step} else steps
  }

  /** The loop's records are its own; the sets of steps grow with the pool's changes. */
  ghost predicate Recorded(w: World, v: World, s: Step)
    requires Enabled(w, s)
  {
    && v.step == w.step
    && v.hist.lastCheck == w.hist.lastCheck && v.hist.pool == w.hist.pool
    && v.hist.pushed == Mark(w.hist.pushed, Pushes(s), w.step)
    && v.hist.popped == Mark(w.hist.popped, PopsLive(w, s), w.step)
    && v.hist.dropped == Mark(w.hist.dropped, DropsAssigned(w, s), w.step)
    && v.hist.seen == w.hist.seen && v.hist.settled == w.hist.settled
  }

  lemma ProvRecorded(w: World, t: nat, p: ProvStep)
    requires ProvEnabled(w, t, p)
    ensures Recorded(w, ProvEffect(w, t, p), Provision(t, p))
  {
  }

  lemma AcqRecorded(w: World, t: nat, a: AcqStep, c: Config)
    requires AcqEnabled(w, t, a)
    ensures Recorded(w, AcqEffect(w, t, a, c), Acquire(t, a))
  {
  }

  lemma RelRecorded(w: World, t: nat, r: RelStep)
    requires RelEnabled(w, t, r)
    ensures Recorded(w, RelEffect(w, t, r), Release(t, r))
  {
  }

  lemma ExtRecorded(w: World, t: nat, e: ExtStep)
    requires ExtEnabled(w, t, e)
    ensures Recorded(w, ExtEffect(w, t, e), Extend(t, e))
  {
  }

  lemma StepRecorded(w: World, s: Step, c: Config)
    requires Enabled(w, s) && !s.Loop?
    ensures Recorded(w, Effect(w, s, c), s)
  {
    match s
    case Provision(t, p) => ProvRecorded(w, t, p);
    case Acquire(t, a) => AcqRecorded(w, t, a, c);
    case Release(t, r) => RelRecorded(w, t, r);
    case Extend(t, e) => ExtRecorded(w, t, e);
  }

  lemma MarkCounts(steps: set<nat>, last: nat, now: bool, step: nat)
    requires step > last && step !in steps
    ensures |Since(Mark(steps, now, step), last)| == |Since(steps, last)| + if now then 1 else 0
  {
    if now { SinceGrows(steps, last, step); }
  }

  // ---- every step keeps both ---------------------------------------------------------

  lemma PoolLookStep(w: World, s: Step, c: Config)
    requires Safe(w) && HistoryInv(w) && PoolLook(w) && Enabled(w, s) && !s.Loop?
    ensures PoolLook(Apply(w, s, c))
    ensures |PopsSince(Apply(w, s, c).hist)| >= |PopsSince(w.hist)|
  {
    PoolConserved(w, s, c);
    StepRecorded(w, s, c);
    MarkCounts(w.hist.pushed, w.hist.lastCheck, Pushes(s), w.step);
    MarkCounts(w.hist.dropped, w.hist.lastCheck, DropsAssigned(w, s), w.step);
    MarkCounts(w.hist.popped, w.hist.lastCheck, PopsLive(w, s), w.step);
    assert InPool(Apply(w, s, c)) == InPool(Effect(w, s, c));
  }

  predicate Reading(pc: Pc) {
    pc.SawReady? || pc.SawAssigned?
  }

  /** Only the loop's own steps touch its check; a provision of its own comes after it. */
  lemma LoopStays(w: World, s: Step, c: Config)
    requires Safe(w) && Enabled(w, s) && !s.Loop?
    ensures var v := Effect(w, s, c);
            && LOOP in v.threads && ReadyAtCheck(v) == ReadyAtCheck(w)
            && (Reading(v.threads[LOOP]) ==> v.threads[LOOP] == w.threads[LOOP])
  {
    StepRecorded(w, s, c);
    if s.Provision? {
      ProvMoves(w, s.t, s.p);
      if s.t == LOOP { LoopProvides(w, s.p); }
    } else {
      CallerMoves(w, s, c);
    }
  }

  lemma LoopProvides(w: World, p: ProvStep)
    requires LockInv(w) && ProvEnabled(w, LOOP, p)
    ensures var v := ProvEffect(w, LOOP, p);
            LOOP in v.threads && !Reading(v.threads[LOOP]) && !Reading(w.threads[LOOP])
  {
  }

  lemma LookStep(w: World, l: LoopStep, c: Config)
    requires HistoryInv(w) && PoolLook(w) && l.ReadReady? && LoopEnabled(w, l)
    ensures var v := Apply(w, Loop(l), c); PoolLook(v) && SeenBound(v)
  {
    var v := Apply(w, Loop(l), c);
    SinceNone(w.hist.pushed, w.step);
    SinceNone(w.hist.dropped, w.step);
    assert |PushesSince(v.hist)| == 0 && |DropsSince(v.hist)| == 0;
  }

  /** SCARD: the assigned set has grown by the pops and shrunk by the deletions. */
  lemma ScardStep(w: World, l: LoopStep, c: Config)
    requires LOOP in w.threads && FreshLook(w) && PoolLook(w) && SeenBound(w) && l.ReadAssigned? && LoopEnabled(w, l)
    ensures var v := Apply(w, Loop(l), c); PoolLook(v) && SeenBound(v)
  {
    var v := Apply(w, Loop(l), c);
    assert v.hist == w.hist && v.store == w.store;
  }

  lemma DecideStep(w: World, l: LoopStep, c: Config)
    requires LOOP in w.threads && PoolLook(w) && SeenBound(w) && l.Decide? && LoopEnabled(w, l)
    ensures var v := Apply(w, Loop(l), c); PoolLook(v) && SeenBound(v)
  {
    var v := Apply(w, Loop(l), c);
    assert PopsSince(v.hist) == PopsSince(w.hist) && PushesSince(v.hist) == PushesSince(w.hist);
    assert DropsSince(v.hist) == DropsSince(w.hist) && v.store == w.store;
  }

  lemma LoopLook(w: World, l: LoopStep, c: Config)
    requires LOOP in w.threads && HistoryInv(w) && FreshLook(w) && PoolLook(w) && SeenBound(w) && LoopEnabled(w, l)
    ensures var v := Apply(w, Loop(l), c); LOOP in v.threads && PoolLook(v) && SeenBound(v)
  {
    match l
    case ReadReady => LookStep(w, l, c);
    case ReadAssigned => ScardStep(w, l, c);
    case Decide => DecideStep(w, l, c);
    case _ => assert Apply(w, Loop(l), c).hist == w.hist && Apply(w, Loop(l), c).store == w.store;
  }

  lemma OtherLook(w: World, s: Step, c: Config)
    requires Safe(w) && HistoryInv(w) && PoolLook(w) && SeenBound(w) && Enabled(w, s) && !s.Loop?
    ensures var v := Apply(w, s, c); LOOP in v.threads && PoolLook(v) && SeenBound(v)
  {
    PoolLookStep(w, s, c);
    StepRecorded(w, s, c);
    LoopStays(w, s, c);
  }

  ghost predicate LookInv(w: World) {
    LOOP in w.threads && PoolLook(w) && SeenBound(w)
  }

  lemma LookNext(ws: seq<World>, ss: seq<Step>, c: Config, i: nat)
    requires IsRun(ws, ss, c) && i < |ss| && LookInv(ws[i])
    ensures LookInv(ws[i + 1])
  {
    WakeRun(ws, ss, c, i);
    SafeRun(ws, ss, c, i);
    assert RunStep(ws, ss, c, i);
    if ss[i].Loop? { LoopLook(ws[i], ss[i].l, c); } else { OtherLook(ws[i], ss[i], c); }
  }

  lemma LookInitially(c: Config)
    ensures LookInv(Initial(c))
  {
    assert Members(Initial(c).store, Assigned) == {};
    SinceNone({}, 0);
  }

  lemma {:induction false} LookRun(ws: seq<World>, ss: seq<Step>, c: Config, i: nat)
    requires IsRun(ws, ss, c) && i < |ws|
    ensures LookInv(ws[i])
  {
    if i == 0 {
      LookInitially(c);
    } else {
      LookRun(ws, ss, c, i - 1);
      LookNext(ws, ss, c, i - 1);
    }
  }

  /** The state in which the loop's latest look was taken. */
  ghost predicate LookOf(w: World, u: World) {
    LOOP in w.threads && w.hist.pool == InPool(u) && ReadyAtCheck(w) == |u.store.ready|
  }

  ghost predicate HasLooked(w: World) {
    LOOP in w.threads && (Reading(w.threads[LOOP]) || w.hist.settled ==> w.hist.lastCheck > 0)
  }

  lemma HasLookedNext(w: World, s: Step, c: Config)
    requires Safe(w) && HasLooked(w) && Enabled(w, s) && w.step > 0
    ensures HasLooked(Apply(w, s, c))
  {
    if !s.Loop? { StepRecorded(w, s, c); LoopStays(w, s, c); }
  }

  lemma LookKept(w: World, s: Step, u: World, c: Config)
    requires Safe(w) && LookOf(w, u) && Enabled(w, s) && s != Loop(ReadReady)
    ensures LookOf(Apply(w, s, c), u) && Apply(w, s, c).hist.lastCheck == w.hist.lastCheck
  {
    if !s.Loop? { StepRecorded(w, s, c); LoopStays(w, s, c); }
  }

  lemma LookTaken(w: World, c: Config)
    requires LoopEnabled(w, ReadReady)
    ensures LookOf(Apply(w, Loop(ReadReady), c), w) && Apply(w, Loop(ReadReady), c).hist.lastCheck == w.step
  {
  }

  /** The recorded look is that of a state of the run, the one of the latest LLEN. */
  ghost predicate LookThere(ws: seq<World>, i: nat)
    requires i < |ws|
  {
    var k := ws[i].hist.lastCheck;
    && ws[i].step == i + 1 && HasLooked(ws[i]) && k <= i
    && (k > 0 ==> LookOf(ws[i], ws[k - 1]))
  }

  lemma LookThereNext(ws: seq<World>, ss: seq<Step>, c: Config, i: nat)
    requires IsRun(ws, ss, c) && i < |ss| && LookThere(ws, i)
    ensures LookThere(ws, i + 1)
  {
    SafeRun(ws, ss, c, i);
    assert RunStep(ws, ss, c, i);
    HasLookedNext(ws[i], ss[i], c);
    EffectKeepsStep(ws[i], ss[i], c);
    if ss[i] == Loop(ReadReady) {
      LookTaken(ws[i], c);
    } else {
      NoLookYet(ws[i], ss[i], c);
      if ws[i].hist.lastCheck > 0 { LookKept(ws[i], ss[i], ws[ws[i].hist.lastCheck - 1], c); }
    }
  }

  lemma {:induction false} LookWasThere(ws: seq<World>, ss: seq<Step>, c: Config, i: nat)
    requires IsRun(ws, ss, c) && i < |ws|
    ensures LookThere(ws, i)
  {
    if i == 0 {
    } else {
      LookWasThere(ws, ss, c, i - 1);
      LookThereNext(ws, ss, c, i - 1);
    }
  }

  lemma NoLookYet(w: World, s: Step, c: Config)
    requires Enabled(w, s) && s != Loop(ReadReady)
    ensures Apply(w, s, c).hist.lastCheck == w.hist.lastCheck
  {
    if !s.Loop? { StepRecorded(w, s, c); }
  }

  // ---- what the pool needs at rest ---------------------------------------------------------

  /** The statistics as they are now ask for no instance. */
  predicate Replenished(w: World, c: Config) {
    StatsNow(w, c).ReplenishmentNeeded() == 0
  }

  lemma ReplenishedIs(w: World, c: Config)
    requires Safe(w)
    ensures Replenished(w, c) <==> |w.store.ready| >= c.target || InPool(w) >= c.capacity
  {
    NoWarming(w);
  }

  /** Main theorem: at rest the pool needs nothing if and only if what it lost since the
      latest look, less what was added, is no more than that look had to spare: pops
      against the target, deletions of assigned instances against the capacity. The
      look is that of the state ws[lastCheck - 1]. */
  lemma RestMeansReplenished(ws: seq<World>, ss: seq<Step>, c: Config, i: nat)
    requires IsRun(ws, ss, c) && i < |ws| && AtRest(ws[i])
    ensures var h := ws[i].hist;
            && 0 < h.lastCheck <= i
            && var look := ws[h.lastCheck - 1];
               Replenished(ws[i], c) <==>
                 || |PopsSince(h)| - |PushesSince(h)| <= |look.store.ready| - c.target
                 || |DropsSince(h)| - |PushesSince(h)| <= InPool(look) - c.capacity
  {
    WakeRun(ws, ss, c, i);
    SafeRun(ws, ss, c, i);
    LookRun(ws, ss, c, i);
    LookWasThere(ws, ss, c, i);
    ReplenishedIs(ws[i], c);
  }

  /** So it needs nothing when every Acquire that popped since the look has completed and
      no assigned instance was deleted since. Otherwise it lacks at most one instance
      for each such Acquire and each such deletion. Acquires that failed before that
      look do no harm. */
  lemma ShortfallAtRest(ws: seq<World>, ss: seq<Step>, c: Config, i: nat)
    requires IsRun(ws, ss, c) && i < |ws| && AtRest(ws[i])
    ensures var h := ws[i].hist;
            var p := |PopsSince(h)|;
            && (|ws[i].store.ready| + p >= c.target || InPool(ws[i]) + p + |DropsSince(h)| >= c.capacity)
            && var completed := forall a | a in h.popped && a > h.lastCheck :: a in h.finished;
               completed && DropsSince(h) == {} ==> Replenished(ws[i], c)
  {
    WakeRun(ws, ss, c, i);
    SafeRun(ws, ss, c, i);
    LookRun(ws, ss, c, i);
    ReplenishedIs(ws[i], c);
    ListAtRest(ws, ss, c, i);
    var h := ws[i].hist;
    if forall a | a in h.popped && a > h.lastCheck :: a in h.finished { SinceNone(h.popped, h.lastCheck); }
  }

  // ---- what nobody notices ---------------------------------------------------------------

  /** Same loop, same channel, same latest look. */
  predicate SameLoop(w: World, v: World) {
    && v.threads == w.threads && v.locks == w.locks && v.token == w.token
    && v.hist.lastCheck == w.hist.lastCheck && v.hist.seen == w.hist.seen && v.hist.settled == w.hist.settled
  }

  /** An Acquire that loses its instance to a TTL failure is noticed by nobody: any
      run whose next acquire finds a live instance goes on to a state with one listed
      instance less, one port more, and the loop and its channel as they were. */
  lemma FailedAcquireUnnoticed(ws: seq<World>, ss: seq<Step>, c: Config, t: nat, now: int)
    returns (vs: seq<World>, ts: seq<Step>)
    requires IsRun(ws, ss, c) && New(ws[|ss|], t) && HeadFree(ws[|ss|])
    ensures IsRun(vs, ts, c) && ws <= vs
    ensures var w, v := ws[|ss|], vs[|ts|];
            && SameLoop(w, v)
            && v.store.ready == w.store.ready[1..] && v.store.records == w.store.records - {w.store.ready[0]}
            && v.store.available == w.store.available + {w.store.records[w.store.ready[0]].port}
  {
    var rs, v := FailedOutcome(ws[|ss|], t, now, c);
    vs := LeadsRun(ws, ss, rs, v, c);
    ts := ss + rs;
  }

  lemma FailedOutcome(w: World, t: nat, now: int, c: Config) returns (ss: seq<Step>, v: World)
    requires New(w, t) && HeadFree(w)
    ensures Leads(w, ss, v, c) && SameLoop(w, v)
    ensures v.store.ready == w.store.ready[1..] && v.store.records == w.store.records - {w.store.ready[0]}
    ensures v.store.available == w.store.available + {w.store.records[w.store.ready[0]].port}
  {
    v := FailedAcquireAlone(w, t, now, c);
    ss := FailingSteps(t, now);
    assert v.store.records == w.store.records - {w.store.ready[0]};
  }

  /** An assigned instance is gone and nothing else has changed for the loop. Resting at
      full capacity below its target, it then rests although an instance is needed. */
  ghost predicate LosesAssigned(w: World, v: World, id: string, c: Config) {
    && SameLoop(w, v) && v.hist.popped == w.hist.popped
    && v.store.ready == w.store.ready && v.store.records == w.store.records - {id}
    && InPool(v) == InPool(w) - 1
    && (AtRest(w) && InPool(w) == c.capacity && |w.store.ready| < c.target ==> AtRest(v) && !Replenished(v, c))
  }

  /** Neither is a Release: any run goes on with the release of an assigned instance that
      nobody works on. */
  lemma ReleaseUnnoticed(ws: seq<World>, ss: seq<Step>, c: Config, t: nat, id: string)
    returns (vs: seq<World>, ts: seq<Step>)
    requires IsRun(ws, ss, c) && New(ws[|ss|], t) && Free(ws[|ss|], id)
    requires id in ws[|ss|].store.records && ws[|ss|].store.records[id].state == Assigned
    ensures IsRun(vs, ts, c) && ws <= vs && LosesAssigned(ws[|ss|], vs[|ts|], id, c)
  {
    var rs, v := ReleaseOfRun(ws, ss, c, t, id);
    vs := LeadsRun(ws, ss, rs, v, c);
    ts := ss + rs;
  }

  lemma ReleaseOfRun(ws: seq<World>, ss: seq<Step>, c: Config, t: nat, id: string) returns (rs: seq<Step>, v: World)
    requires IsRun(ws, ss, c) && New(ws[|ss|], t) && Free(ws[|ss|], id)
    requires id in ws[|ss|].store.records && ws[|ss|].store.records[id].state == Assigned
    ensures Leads(ws[|ss|], rs, v, c) && LosesAssigned(ws[|ss|], v, id, c)
  {
    SafeRun(ws, ss, c, |ss|);
    rs, v := ReleaseOutcome(ws[|ss|], t, id, c);
  }

  lemma ReleaseOutcome(w: World, t: nat, id: string, c: Config) returns (ss: seq<Step>, v: World)
    requires Safe(w) && New(w, t) && Free(w, id)
    requires id in w.store.records && w.store.records[id].state == Assigned
    ensures Leads(w, ss, v, c) && LosesAssigned(w, v, id, c)
  {
    assert RecordOk(w, id) && (Assigned, id) in w.store.index;
    v := ReleaseCallAlone(w, t, id, c);
    ss := [Release(t, RelStep.Begin(id))] + ReleaseSteps(t);
    ReleasedCount(w.store, id);
    NoWarming(w);
    OneShort(w, v, c);
  }

  lemma OneShort(w: World, v: World, c: Config)
    requires SameLoop(w, v) && v.store.ready == w.store.ready && InPool(v) == InPool(w) - 1
    requires Members(v.store, Warming) == {}
    ensures AtRest(w) && InPool(w) == c.capacity && |w.store.ready| < c.target ==> AtRest(v) && !Replenished(v, c)
  {
  }

  lemma ReleasedCount(s: StoreState, id: string)
    requires id in s.records && s.records[id].state == Assigned && (Assigned, id) in s.index
    ensures |Members(ReleasedStore(s, id, s.records[id].port), Assigned)| == |Members(s, Assigned)| - 1
    ensures Members(ReleasedStore(s, id, s.records[id].port), Warming) == Members(s, Warming)
    ensures ReleasedStore(s, id, s.records[id].port).ready == s.ready
    ensures ReleasedStore(s, id, s.records[id].port).records == s.records - {id}
  {
    RemIndexMembers(s, Assigned, id);
    var v := ReleasedStore(s, id, s.records[id].port);
    assert v.index == RemIndex(s, Assigned, id).index;
    assert forall st :: Members(v, st) == Members(RemIndex(s, Assigned, id), st);
    assert id in Members(s, Assigned);
  }

  // ---- two runs that end so ----------------------------------------------------------------

  function One(i: Instance): Config {
    Config({i.port}, 1, 1, 0)
  }

  predicate NewInstance(i: Instance) {
    i.state == Ready && !i.Expires() && i.assignedAt.None? && '.' !in i.hostname
  }

  /** Nothing is in flight and the loop is about to check. */
  predicate Idle(w: World) {
    w.threads == map[LOOP := Checking] && w.locks == map[] && forall a | a in w.hist.popped :: a < w.step
  }

  lemma FirstProvision(i: Instance) returns (ss: seq<Step>, v: World)
    requires NewInstance(i)
    ensures Leads(Initial(One(i)), ss, v, One(i)) && Idle(v) && !v.token
    ensures v.store == AddToPool(WithPort(Initial(One(i)).store, i.port), i) && v.hist.popped == {}
  {
    ss := ProvisionSteps(1, i.port, i);
    v := ProvisionAlone(Initial(One(i)), 1, i.port, i, One(i));
  }

  /** The loop rests, and everything popped was popped before its latest look. */
  ghost predicate Rested(w: World) {
    && AtRest(w) && w.threads.Keys == {LOOP} && w.locks == map[]
    && (forall a | a in w.hist.popped :: a < w.hist.lastCheck)
  }

  /** A check that finds one instance at capacity one. */
  lemma FullCheck(w: World, i: Instance) returns (v: World)
    requires Idle(w) && InPool(w) == 1 && Members(w.store, Warming) == {}
    ensures Leads(w, CheckSteps(), v, One(i))
    ensures v.store == w.store && v.locks == map[] && v.token == w.token && v.threads == map[LOOP := Waiting]
    ensures v.hist.settled && v.hist.lastCheck == w.step && v.hist.popped == w.hist.popped && v.step > w.step
  {
    v := CheckAlone(w, One(i));
    assert Need(One(i), |w.store.ready|, |Members(w.store, Assigned)|, 0) == 0;
    assert w.threads[LOOP := Waiting] == map[LOOP := Waiting];
  }

  lemma FirstStore(i: Instance)
    requires i.state == Ready
    ensures var s := AddToPool(WithPort(Initial(One(i)).store, i.port), i);
            && s.ready == [i.id] && s.records == map[i.id := i]
            && Members(s, Assigned) == {} && Members(s, Warming) == {}
  {
    var s := AddToPool(WithPort(Initial(One(i)).store, i.port), i);
    assert s.index == {(Ready, i.id)};
  }

  lemma FirstRest(i: Instance) returns (ws: seq<World>, ss: seq<Step>)
    requires NewInstance(i)
    ensures IsRun(ws, ss, One(i)) && Rested(ws[|ss|])
    ensures ws[|ss|].store.ready == [i.id] && ws[|ss|].store.records == map[i.id := i]
  {
    var rs, u := FirstProvision(i);
    FirstStore(i);
    var v := FullCheck(u, i);
    LeadsOn(Initial(One(i)), rs, u, CheckSteps(), v, One(i));
    ss := rs + CheckSteps();
    ws := RunFromStart(ss, v, One(i));
  }

  lemma EmptyNeeds(ws: seq<World>, ss: seq<Step>, i: Instance, n: nat)
    requires IsRun(ws, ss, One(i)) && n < |ws|
    requires ws[n].locks == map[] && ws[n].store.records == map[] && ws[n].store.ready == []
    ensures !Replenished(ws[n], One(i))
  {
    SafeRun(ws, ss, One(i), n);
    RestIsExact(ws[n]);
    CountsMean(ws[n].store);
    assert InState(ws[n].store, Assigned) == {};
    ReplenishedIs(ws[n], One(i));
  }

  /** After a failed Acquire: the loop is at rest and nothing is in flight, the pool is
      empty and an instance is needed. */
  lemma RestBelowTarget(i: Instance) returns (ws: seq<World>, ss: seq<Step>)
    requires NewInstance(i)
    ensures IsRun(ws, ss, One(i))
    ensures var w := ws[|ss|]; AtRest(w) && w.threads.Keys == {LOOP} && w.locks == map[] && !Replenished(w, One(i))
  {
    var vs, ts := FirstRest(i);
    ws, ss := FailedAcquireUnnoticed(vs, ts, One(i), 1, 0);
    EmptyNeeds(ws, ss, i, |ss|);
  }

  /** The one instance is with a client and the loop is about to check. */
  ghost predicate OneOut(w: World, i: Instance) {
    && InPool(w) == 1 && Members(w.store, Warming) == {} && w.store.ready == []
    && w.store.records.Keys == {i.id} && w.store.records[i.id].state == Assigned
  }

  lemma ServedOut(i: Instance)
    requires i.state == Ready
    ensures var s := AfterClient(Initial(One(i)).store, i, 0);
            && s.ready == [] && s.records.Keys == {i.id} && s.records[i.id].state == Assigned
            && |Members(s, Assigned)| == 1 && Members(s, Warming) == {}
  {
    var s := Initial(One(i)).store;
    ServedStore(s, i, 0);
    ServedMembers(s, i, 0);
    assert Members(s, Assigned) == {} && Members(s, Warming) == {};
  }

  lemma FirstServed(i: Instance) returns (ss: seq<Step>, v: World)
    requires NewInstance(i)
    ensures Leads(Initial(One(i)), ss, v, One(i)) && Idle(v) && v.token && OneOut(v, i)
  {
    var rs, u := FirstProvision(i);
    v := ClientServed(u, Initial(One(i)).store, 1, i, One(i));
    LeadsOn(Initial(One(i)), rs, u, ClientSteps(1, i.userIp), v, One(i));
    ss := rs + ClientSteps(1, i.userIp);
    ServedOut(i);
  }

  /** The check that the Acquire asked for. */
  lemma TokenTaken(w: World, i: Instance) returns (v: World)
    requires w.threads == map[LOOP := Waiting] && w.token
    ensures v == w.(threads := map[LOOP := Checking], token := false, step := w.step + 1)
    ensures Leads(w, [Loop(TakeToken)], v, One(i))
  {
    v := LeadsOne(w, Loop(TakeToken), One(i));
    assert w.threads[LOOP := Checking] == map[LOOP := Checking];
  }

  lemma RestWithClient(w: World, i: Instance) returns (ss: seq<Step>, v: World)
    requires Idle(w) && w.token && OneOut(w, i)
    ensures Leads(w, ss, v, One(i)) && Rested(v) && v.store == w.store
  {
    var w1 := FullCheck(w, i);
    var w2 := TokenTaken(w1, i);
    v := FullCheck(w2, i);
    LeadsThrice(w, CheckSteps(), w1, [Loop(TakeToken)], w2, CheckSteps(), v, One(i));
    ss := CheckSteps() + [Loop(TakeToken)] + CheckSteps();
  }

  lemma ClientRest(i: Instance) returns (ws: seq<World>, ss: seq<Step>)
    requires NewInstance(i)
    ensures IsRun(ws, ss, One(i)) && Rested(ws[|ss|]) && OneOut(ws[|ss|], i)
  {
    var rs, u := FirstServed(i);
    var ts, v := RestWithClient(u, i);
    LeadsOn(Initial(One(i)), rs, u, ts, v, One(i));
    ss := rs + ts;
    ws := RunFromStart(ss, v, One(i));
  }

  /** After a Release: nothing was popped since the loop's latest look, the loop is at
      rest and nothing is in flight, and yet an instance is needed. */
  lemma RestAfterRelease(i: Instance) returns (ws: seq<World>, ss: seq<Step>)
    requires NewInstance(i)
    ensures IsRun(ws, ss, One(i))
    ensures var w := ws[|ss|];
            && AtRest(w) && w.threads.Keys == {LOOP} && w.locks == map[] && PopsSince(w.hist) == {}
            && !Replenished(w, One(i))
  {
    var vs, ts := ClientRest(i);
    ws, ss := ReleaseUnnoticed(vs, ts, One(i), 1, i.id);
    SinceNone(ws[|ss|].hist.popped, ws[|ss|].hist.lastCheck);
  }
}
