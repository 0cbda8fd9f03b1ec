/** Operations run alone. The single commands of the state machine, one after the
    other with nothing in between, do what the sequential methods do; this ties the
    interleaving model to the methods of Store and Pool. */
module ProtocolAlone {
  import opened Domain
  import opened StoreSpec
  import opened Protocol

  /** The steps lead from w to v. */
  ghost predicate Leads(w: World, ss: seq<Step>, v: World, c: Config)
    decreases |ss|
  {
    if ss == [] then v == w
    else Enabled(w, ss[0]) && Leads(Apply(w, ss[0], c), ss[1..], v, c)
  }

  lemma {:induction false} LeadsOn(w: World, ss: seq<Step>, u: World, ts: seq<Step>, v: World, c: Config)
    requires Leads(w, ss, u, c) && Leads(u, ts, v, c)
    ensures Leads(w, ss + ts, v, c)
    decreases |ss|
  {
    if ss == [] {
      assert ss + ts == ts;
    } else {
      assert (ss + ts)[0] == ss[0] && (ss + ts)[1..] == ss[1..] + ts;
      LeadsOn(Apply(w, ss[0], c), ss[1..], u, ts, v, c);
    }
  }

  lemma LeadsOne(w: World, s: Step, c: Config) returns (v: World)
    requires Enabled(w, s)
    ensures v == Apply(w, s, c) && Leads(w, [s], v, c)
  {
    v := Apply(w, s, c);
    assert [s][1..] == [];
  }

  lemma LeadsTwice(w: World, s: Step, r: Step, c: Config) returns (v: World)
    requires Enabled(w, s) && Enabled(Apply(w, s, c), r)
    ensures v == Apply(Apply(w, s, c), r, c) && Leads(w, [s, r], v, c)
  {
    var u := LeadsOne(w, s, c);
    v := LeadsOne(u, r, c);
    LeadsOn(w, [s], u, [r], v, c);
    assert [s] + [r] == [s, r];
  }

  lemma LeadsThrice(w: World, ss: seq<Step>, w2: World, rs: seq<Step>, w4: World, ts: seq<Step>, v: World, c: Config)
    requires Leads(w, ss, w2, c) && Leads(w2, rs, w4, c) && Leads(w4, ts, v, c)
    ensures Leads(w, ss + rs + ts, v, c)
  {
    LeadsOn(w, ss, w2, rs, w4, c);
    LeadsOn(w, ss + rs, w4, ts, v, c);
  }

  lemma RunOn(ws: seq<World>, ss: seq<Step>, s: Step, c: Config)
    requires IsRun(ws, ss, c) && Enabled(ws[|ss|], s)
    ensures IsRun(ws + [Apply(ws[|ss|], s, c)], ss + [s], c)
  {
    forall i | 0 <= i < |ss| ensures RunStep(ws + [Apply(ws[|ss|], s, c)], ss + [s], c, i) {
      assert RunStep(ws, ss, c, i);
    }
  }

  lemma PrefixTrans(a: seq<World>, b: seq<World>, d: seq<World>)
    requires a <= b <= d
    ensures a <= d
  {
  }

  /** One more step of a run that is to go on with ts. */
  lemma RunStepOn(ws: seq<World>, ss: seq<Step>, ts: seq<Step>, c: Config) returns (xs: seq<World>, us: seq<Step>)
    requires IsRun(ws, ss, c) && ts != [] && Enabled(ws[|ss|], ts[0])
    ensures IsRun(xs, us, c) && xs[|us|] == Apply(ws[|ss|], ts[0], c) && ws <= xs
    ensures us + ts[1..] == ss + ts && |us| + |ts[1..]| == |ss| + |ts|
  {
    xs, us := ws + [Apply(ws[|ss|], ts[0], c)], ss + [ts[0]];
    RunOn(ws, ss, ts[0], c);
  }

  /** A run goes on from its last state. */
  lemma {:induction false} LeadsRun(ws: seq<World>, ss: seq<Step>, ts: seq<Step>, v: World, c: Config)
    returns (vs: seq<World>)
    requires IsRun(ws, ss, c) && Leads(ws[|ss|], ts, v, c)
    ensures IsRun(vs, ss + ts, c) && vs[|ss| + |ts|] == v && ws <= vs
    decreases |ts|
  {
    if ts == [] {
      vs := ws;
      assert ss + ts == ss;
    } else {
      var xs, us := RunStepOn(ws, ss, ts, c);
      vs := LeadsRun(xs, us, ts[1..], v, c);
      PrefixTrans(ws, xs, vs);
    }
  }

  lemma RunFromStart(ss: seq<Step>, v: World, c: Config) returns (ws: seq<World>)
    requires Leads(Initial(c), ss, v, c)
    ensures IsRun(ws, ss, c) && ws[|ss|] == v
  {
    ws := LeadsRun([Initial(c)], [], ss, v, c);
    assert [] + ss == ss;
  }

  lemma ThreadTwice(m: map<nat, Pc>, t: nat, a: Pc, b: Pc)
    ensures m[t := a][t := b] == m[t := b]
    ensures m[t := a] - {t} == m - {t}
  {
  }

  /** A thread and a lock that come and go leave the maps as they were. */
  lemma ComeAndGo(m: map<nat, Pc>, t: nat, a: Pc, locks: map<string, nat>, id: string)
    requires t !in m && id !in locks
    ensures m[t := a] - {t} == m && locks[id := t] - {id} == locks
  {
  }

  function WithPort(s: StoreState, port: int): StoreState {
    s.(available := s.available - {port}, inUse := s.inUse + {port})
  }

  // ---- provisionInstance -------------------------------------------------------

  function AllocateSteps(t: nat, port: int): seq<Step> {
    [Provision(t, Queue), Provision(t, Spop(port))]
  }

  function SetSteps(t: nat, i: Instance): seq<Step> {
    [Provision(t, Track), Provision(t, SetNew(i))]
  }

  function ListSteps(t: nat): seq<Step> {
    [Provision(t, IndexNew), Provision(t, PushNew)]
  }

  function ProvisionSteps(t: nat, port: int, i: Instance): seq<Step> {
    AllocateSteps(t, port) + SetSteps(t, i) + ListSteps(t)
  }

  lemma ProvisionGetsPort(w: World, t: nat, port: int, c: Config) returns (v: World)
    requires New(w, t) && port in w.store.available
    ensures v == w.(store := w.store.(available := w.store.available - {port}),
                    threads := w.threads[t := PortPopped(port)], step := w.step + 2)
    ensures Leads(w, AllocateSteps(t, port), v, c)
  {
    v := LeadsTwice(w, Provision(t, Queue), Provision(t, Spop(port)), c);
    ThreadTwice(w.threads, t, WantsPort, PortPopped(port));
  }

  lemma ProvisionSetsRecord(w: World, t: nat, port: int, i: Instance, c: Config) returns (v: World)
    requires t in w.threads && w.threads[t] == PortPopped(port) && Fresh(w, i, port) && Free(w, i.id)
    ensures v == w.(store := SetRecord(w.store.(inUse := w.store.inUse + {port}), i),
                    threads := w.threads[t := RecordSet(i)], locks := w.locks[i.id := t],
                    step := w.step + 2, hist := w.hist.(used := w.hist.used + {i.id}))
    ensures Leads(w, SetSteps(t, i), v, c)
  {
    v := LeadsTwice(w, Provision(t, Track), Provision(t, SetNew(i)), c);
    ThreadTwice(w.threads, t, PortTracked(port), RecordSet(i));
  }

  lemma ProvisionLists(w: World, t: nat, i: Instance, c: Config) returns (v: World)
    requires t in w.threads && t != LOOP && w.threads[t] == RecordSet(i)
    ensures v == w.(store := PushReady(AddIndex(w.store, Ready, i.id), i.id), threads := w.threads - {t},
                    locks := w.locks - {i.id}, step := w.step + 2,
                    hist := w.hist.(pushed := w.hist.pushed + {w.step + 1}))
    ensures Leads(w, ListSteps(t), v, c)
  {
    v := LeadsTwice(w, Provision(t, IndexNew), Provision(t, PushNew), c);
    ThreadTwice(w.threads, t, RecordIndexed(i), RecordIndexed(i));
  }

  lemma ProvisionStores(w: World, t: nat, port: int, i: Instance, c: Config) returns (v: World)
    requires New(w, t) && port in w.store.available && Fresh(w, i, port) && Free(w, i.id)
    ensures v == w.(store := SetRecord(WithPort(w.store, port), i), threads := w.threads[t := RecordSet(i)],
                    locks := w.locks[i.id := t], step := w.step + 4, hist := w.hist.(used := w.hist.used + {i.id}))
    ensures Leads(w, AllocateSteps(t, port) + SetSteps(t, i), v, c)
  {
    var u := ProvisionGetsPort(w, t, port, c);
    v := ProvisionSetsRecord(u, t, port, i, c);
    LeadsOn(w, AllocateSteps(t, port), u, SetSteps(t, i), v, c);
    ThreadTwice(w.threads, t, PortPopped(port), RecordSet(i));
  }

  /** A provision run alone is AllocatePort followed by AddToPool. */
  lemma ProvisionAlone(w: World, t: nat, port: int, i: Instance, c: Config) returns (v: World)
    requires New(w, t) && port in w.store.available && Fresh(w, i, port) && Free(w, i.id)
    ensures v == w.(store := AddToPool(WithPort(w.store, port), i), step := w.step + 6,
                    hist := w.hist.(used := w.hist.used + {i.id}, pushed := w.hist.pushed + {w.step + 5}))
    ensures Leads(w, ProvisionSteps(t, port, i), v, c)
  {
    var u := ProvisionStores(w, t, port, i, c);
    v := ProvisionLists(u, t, i, c);
    LeadsOn(w, AllocateSteps(t, port) + SetSteps(t, i), u, ListSteps(t), v, c);
    ComeAndGo(w.threads, t, RecordSet(i), w.locks, i.id);
  }

  function AbortSteps(t: nat): seq<Step> {
    [Provision(t, Track), Provision(t, Fails)]
  }

  function GiveBackSteps(t: nat): seq<Step> {
    [Provision(t, Untrack), Provision(t, Return)]
  }

  lemma ProvisionAborts(w: World, t: nat, port: int, c: Config) returns (v: World)
    requires t in w.threads && w.threads[t] == PortPopped(port)
    ensures v == w.(store := w.store.(inUse := w.store.inUse + {port}), threads := w.threads[t := PortAborted(port)],
                    step := w.step + 2)
    ensures Leads(w, AbortSteps(t), v, c)
  {
    v := LeadsTwice(w, Provision(t, Track), Provision(t, Fails), c);
    ThreadTwice(w.threads, t, PortTracked(port), PortAborted(port));
  }

  lemma ProvisionGivesBack(w: World, t: nat, port: int, c: Config) returns (v: World)
    requires t in w.threads && t != LOOP && w.threads[t] == PortAborted(port)
    ensures v == w.(store := ReleasePort(w.store, port), threads := w.threads - {t}, step := w.step + 2)
    ensures Leads(w, GiveBackSteps(t), v, c)
  {
    v := LeadsTwice(w, Provision(t, Untrack), Provision(t, Return), c);
    ThreadTwice(w.threads, t, PortUntracked(port), PortUntracked(port));
  }

  /** A provision whose container fails, run alone, leaves no trace. */
  lemma FailedProvisionAlone(w: World, t: nat, port: int, c: Config) returns (v: World)
    requires New(w, t) && port in w.store.available && port !in w.store.inUse
    ensures v == w.(step := w.step + 6)
    ensures Leads(w, AllocateSteps(t, port) + AbortSteps(t) + GiveBackSteps(t), v, c)
  {
    var u := TakenAborted(w, t, port, c);
    v := ProvisionGivesBack(u, t, port, c);
    LeadsOn(w, AllocateSteps(t, port) + AbortSteps(t), u, GiveBackSteps(t), v, c);
    ReleaseUndoesAllocate(w.store, port);
    ComeAndGo(w.threads, t, PortAborted(port), map[], "");
  }

  lemma TakenAborted(w: World, t: nat, port: int, c: Config) returns (v: World)
    requires New(w, t) && port in w.store.available
    ensures v == w.(store := WithPort(w.store, port), threads := w.threads[t := PortAborted(port)], step := w.step + 4)
    ensures Leads(w, AllocateSteps(t, port) + AbortSteps(t), v, c)
  {
    var u := ProvisionGetsPort(w, t, port, c);
    v := ProvisionAborts(u, t, port, c);
    LeadsOn(w, AllocateSteps(t, port), u, AbortSteps(t), v, c);
    ThreadTwice(w.threads, t, PortPopped(port), PortAborted(port));
  }

  // ---- Release -------------------------------------------------------------------

  function UntrackSteps(t: nat): seq<Step> {
    [Release(t, Get), Release(t, UntrackPort)]
  }

  function ReturnSteps(t: nat): seq<Step> {
    [Release(t, ReturnPort), Release(t, DelGet)]
  }

  function EraseSteps(t: nat): seq<Step> {
    [Release(t, DelUnindex), Release(t, Erase)]
  }

  function ReleaseSteps(t: nat): seq<Step> {
    UntrackSteps(t) + ReturnSteps(t) + EraseSteps(t)
  }

  lemma ReleaseUntracks(w: World, t: nat, id: string, inAcquire: bool, c: Config) returns (v: World)
    requires t in w.threads && w.threads[t] == RelWanted(id, inAcquire) && id in w.store.records
    ensures var i := w.store.records[id];
            v == w.(store := w.store.(inUse := w.store.inUse - {i.port}),
                    threads := w.threads[t := RelUntracked(i, inAcquire)], step := w.step + 2)
    ensures Leads(w, UntrackSteps(t), v, c)
  {
    var i := w.store.records[id];
    v := LeadsTwice(w, Release(t, Get), Release(t, UntrackPort), c);
    ThreadTwice(w.threads, t, RelRead(i, inAcquire), RelUntracked(i, inAcquire));
  }

  lemma ReleaseReturns(w: World, t: nat, i: Instance, inAcquire: bool, c: Config) returns (v: World)
    requires t in w.threads && w.threads[t] == RelUntracked(i, inAcquire) && i.id in w.store.records
    ensures var pc := DelRead(i.id, w.store.records[i.id].state, inAcquire);
            v == w.(store := w.store.(available := w.store.available + {i.port}),
                    threads := w.threads[t := pc], step := w.step + 2)
    ensures Leads(w, ReturnSteps(t), v, c)
  {
    v := LeadsTwice(w, Release(t, ReturnPort), Release(t, DelGet), c);
    var pc := DelRead(i.id, w.store.records[i.id].state, inAcquire);
    ThreadTwice(w.threads, t, RelReturned(i, inAcquire), pc);
  }

  lemma EraseEnds(w: World, t: nat, id: string, inAcquire: bool, c: Config)
    requires t in w.threads && t != LOOP && w.threads[t] == DelUnindexed(id, inAcquire)
    ensures Apply(w, Release(t, Erase), c)
            == w.(store := DelRecord(w.store, id), threads := w.threads - {t}, locks := w.locks - {id},
                  step := w.step + 1)
  {
  }

  lemma ReleaseErases(w: World, t: nat, id: string, st: InstanceState, inAcquire: bool, c: Config)
    returns (v: World)
    requires t in w.threads && t != LOOP && w.threads[t] == DelRead(id, st, inAcquire)
    ensures v == w.(store := DelRecord(RemIndex(w.store, st, id), id), threads := w.threads - {t},
                    locks := w.locks - {id}, step := w.step + 2, hist := AfterUnindex(w, st))
    ensures Leads(w, EraseSteps(t), v, c)
  {
    EraseEnds(Apply(w, Release(t, DelUnindex), c), t, id, inAcquire, c);
    v := LeadsTwice(w, Release(t, DelUnindex), Release(t, Erase), c);
    ThreadTwice(w.threads, t, DelUnindexed(id, inAcquire), DelUnindexed(id, inAcquire));
  }

  /** The history after a Release run alone from its first GET on. */
  function AfterRelease(w: World, st: InstanceState): History {
    AfterUnindex(w.(step := w.step + 4), st)
  }

  lemma ReleaseFrees(w: World, t: nat, id: string, inAcquire: bool, c: Config) returns (v: World)
    requires t in w.threads && w.threads[t] == RelWanted(id, inAcquire)
    requires id in w.store.records && w.store.records[id].id == id
    ensures var i := w.store.records[id];
            v == w.(store := ReleasePort(w.store, i.port), threads := w.threads[t := DelRead(id, i.state, inAcquire)],
                    step := w.step + 4)
    ensures Leads(w, UntrackSteps(t) + ReturnSteps(t), v, c)
  {
    var i := w.store.records[id];
    var u := ReleaseUntracks(w, t, id, inAcquire, c);
    v := ReleaseReturns(u, t, i, inAcquire, c);
    LeadsOn(w, UntrackSteps(t), u, ReturnSteps(t), v, c);
    ThreadTwice(w.threads, t, RelUntracked(i, inAcquire), DelRead(id, i.state, inAcquire));
  }

  /** A Release run alone is ReleasePort followed by DeleteInstance. */
  lemma ReleaseAlone(w: World, t: nat, id: string, inAcquire: bool, c: Config) returns (v: World)
    requires t in w.threads && t != LOOP && w.threads[t] == RelWanted(id, inAcquire)
    requires id in w.store.records && w.store.records[id].id == id
    ensures v == w.(store := ReleasedStore(w.store, id, w.store.records[id].port), threads := w.threads - {t},
                    locks := w.locks - {id}, step := w.step + 6, hist := AfterRelease(w, w.store.records[id].state))
    ensures Leads(w, ReleaseSteps(t), v, c)
  {
    var st := w.store.records[id].state;
    var u := ReleaseFrees(w, t, id, inAcquire, c);
    v := ReleaseErases(u, t, id, st, inAcquire, c);
    LeadsOn(w, UntrackSteps(t) + ReturnSteps(t), u, EraseSteps(t), v, c);
    ThreadTwice(w.threads, t, DelRead(id, st, inAcquire), DelRead(id, st, inAcquire));
  }

  /** The same from the call on. */
  lemma ReleaseCallAlone(w: World, t: nat, id: string, c: Config) returns (v: World)
    requires New(w, t) && Free(w, id) && id in w.store.records && w.store.records[id].id == id
    ensures v == w.(store := ReleasedStore(w.store, id, w.store.records[id].port), step := w.step + 7,
                    hist := AfterRelease(w.(step := w.step + 1), w.store.records[id].state))
    ensures Leads(w, [Release(t, Begin(id))] + ReleaseSteps(t), v, c)
  {
    var u := BeginAlone(w, t, id, c);
    v := ReleaseAlone(u, t, id, false, c);
    LeadsOn(w, [Release(t, Begin(id))], u, ReleaseSteps(t), v, c);
    ComeAndGo(w.threads, t, RelWanted(id, false), w.locks, id);
  }

  lemma BeginAlone(w: World, t: nat, id: string, c: Config) returns (v: World)
    requires New(w, t) && Free(w, id)
    ensures v == w.(threads := w.threads[t := RelWanted(id, false)], locks := w.locks[id := t], step := w.step + 1)
    ensures Leads(w, [Release(t, Begin(id))], v, c)
  {
    v := LeadsOne(w, Release(t, Begin(id)), c);
  }

  /** A Release of an id without a record ends after its first GET. */
  lemma ReleaseOfNothing(w: World, t: nat, id: string, c: Config) returns (v: World)
    requires New(w, t) && Free(w, id) && id !in w.store.records
    ensures v == w.(step := w.step + 2) && Leads(w, [Release(t, Begin(id)), Release(t, Get)], v, c)
  {
    v := LeadsTwice(w, Release(t, Begin(id)), Release(t, Get), c);
    ComeAndGo(w.threads, t, RelWanted(id, false), w.locks, id);
  }

  // ---- Acquire ---------------------------------------------------------------------

  /** The next acquire finds a live instance that nobody works on. */
  predicate HeadFree(w: World) {
    && w.store.ready != [] && w.store.ready[0] in w.store.records && Free(w, w.store.ready[0])
    && w.store.records[w.store.ready[0]].id == w.store.ready[0]
  }

  function AfterPop(w: World): History
    requires w.store.ready != []
  {
    w.hist.(handed := w.hist.handed + [w.store.ready[0]], popped := w.hist.popped + {w.step})
  }

  function PopFailSteps(t: nat, now: int): seq<Step> {
    [Acquire(t, AcqStep.Pop(now)), Acquire(t, TtlFails)]
  }

  function FailingSteps(t: nat, now: int): seq<Step> {
    PopFailSteps(t, now) + ReleaseSteps(t)
  }

  lemma PopFails(w: World, t: nat, now: int, c: Config) returns (v: World)
    requires New(w, t) && HeadFree(w)
    ensures var id := w.store.ready[0];
            v == w.(store := AcquireScript(w.store, now).store, threads := w.threads[t := RelWanted(id, true)],
                    locks := w.locks[id := t], step := w.step + 2, hist := AfterPop(w))
    ensures Leads(w, PopFailSteps(t, now), v, c)
  {
    var id := w.store.ready[0];
    var i := AcquireScript(w.store, now).taken.value;
    v := LeadsTwice(w, Acquire(t, AcqStep.Pop(now)), Acquire(t, TtlFails), c);
    ThreadTwice(w.threads, t, TtlPending(i, w.step), RelWanted(id, true));
  }

  /** An Acquire whose SetInstanceTTL fails, run alone, is the script followed by a
      Release; the loop and its channel notice nothing. */
  lemma FailedAcquireAlone(w: World, t: nat, now: int, c: Config) returns (v: World)
    requires New(w, t) && HeadFree(w)
    ensures var id := w.store.ready[0];
            v == w.(store := ReleasedStore(AcquireScript(w.store, now).store, id, w.store.records[id].port),
                    step := w.step + 8, hist := AfterPop(w).(dropped := w.hist.dropped + {w.step + 6}))
    ensures Leads(w, FailingSteps(t, now), v, c)
  {
    var w2 := PopFails(w, t, now, c);
    v := ReleaseAlone(w2, t, w.store.ready[0], true, c);
    ComeAndGo(w.threads, t, RelWanted(w.store.ready[0], true), w.locks, w.store.ready[0]);
    LeadsOn(w, PopFailSteps(t, now), w2, ReleaseSteps(t), v, c);
  }

  /** An Acquire that finds the list empty or headed by an orphan is the script alone. */
  lemma ExhaustedAlone(w: World, t: nat, now: int, c: Config) returns (v: World)
    requires New(w, t) && (w.store.ready == [] || w.store.ready[0] !in w.store.records)
    ensures var list := w.store.ready;
            v == w.(store := w.store.(ready := if list == [] then [] else list[1..] + list[..1]), step := w.step + 1)
    ensures Leads(w, [Acquire(t, AcqStep.Pop(now))], v, c)
  {
    v := LeadsOne(w, Acquire(t, AcqStep.Pop(now)), c);
    if w.store.ready != [] { assert w.store.ready[..1] == [w.store.ready[0]]; }
  }

  lemma PopReads(w: World, t: nat, i: Instance, now: int, c: Config) returns (v: World)
    requires New(w, t) && HeadFree(w) && AcquireScript(w.store, now).taken == Some(i)
    ensures v == w.(store := AcquireScript(w.store, now).store, threads := w.threads[t := TtlRead(i, i, w.step)],
                    locks := w.locks[w.store.ready[0] := t], step := w.step + 2, hist := AfterPop(w))
    ensures Leads(w, TakingSteps(t, now), v, c)
  {
    v := LeadsTwice(w, Acquire(t, AcqStep.Pop(now)), Acquire(t, TtlGet), c);
    ThreadTwice(w.threads, t, TtlPending(i, w.step), TtlRead(i, i, w.step));
  }

  lemma TtlThenRoute(w: World, t: nat, i: Instance, pop: nat, now: int, later: int, c: Config) returns (v: World)
    requires t in w.threads && w.threads[t] == TtlRead(i, i, pop)
    ensures var pc := Routed(i.WithExpiry(later + c.defaultTtl), pop);
            v == w.(store := SetRecord(w.store, i.WithExpiry(now + c.defaultTtl)), threads := w.threads[t := pc],
                    step := w.step + 2)
    ensures Leads(w, [Acquire(t, TtlWrite(now, later)), Acquire(t, RouteAdded)], v, c)
  {
    var j := i.WithExpiry(later + c.defaultTtl);
    v := LeadsTwice(w, Acquire(t, TtlWrite(now, later)), Acquire(t, RouteAdded), c);
    ThreadTwice(w.threads, t, TtlDone(j, pop), Routed(j, pop));
  }

  lemma TriggerSent(w: World, t: nat, i: Instance, pop: nat, c: Config) returns (v: World)
    requires t in w.threads && w.threads[t] == Routed(i, pop)
    ensures v == w.(threads := w.threads[t := Acquired(i)], token := true, step := w.step + 1,
                    hist := w.hist.(finished := w.hist.finished + {pop}))
    ensures Leads(w, [Acquire(t, SendToken)], v, c)
  {
    v := LeadsOne(w, Acquire(t, SendToken), c);
  }

  lemma ServeTaken(w: World, t: nat, i: Instance, pop: nat, now: int, later: int, c: Config) returns (v: World)
    requires t in w.threads && w.threads[t] == TtlRead(i, i, pop)
    ensures v == w.(store := SetRecord(w.store, i.WithExpiry(now + c.defaultTtl)),
                    threads := w.threads[t := Acquired(i.WithExpiry(later + c.defaultTtl))], token := true,
                    step := w.step + 3, hist := w.hist.(finished := w.hist.finished + {pop}))
    ensures Leads(w, ServingSteps(t, now, later), v, c)
  {
    var j := i.WithExpiry(later + c.defaultTtl);
    var u := TtlThenRoute(w, t, i, pop, now, later, c);
    v := TriggerSent(u, t, j, pop, c);
    LeadsOn(w, [Acquire(t, TtlWrite(now, later)), Acquire(t, RouteAdded)], u, [Acquire(t, SendToken)], v, c);
    ThreadTwice(w.threads, t, Routed(j, pop), Acquired(j));
  }

  /** The record the script returned is the one SetInstanceTTL reads. */
  lemma TtlOfTaken(s: StoreState, i: Instance, now: int, ttl: int, ttlNow: int)
    requires AcquireScript(s, now).taken == Some(i) && s.records[s.ready[0]].id == s.ready[0]
    ensures var v := AcquireScript(s, now).store;
            SetRecord(v, i.WithExpiry(ttlNow + ttl)) == SetTtl(v, s.ready[0], ttl, ttlNow)
  {
  }

  function TakingSteps(t: nat, now: int): seq<Step> {
    [Acquire(t, AcqStep.Pop(now)), Acquire(t, TtlGet)]
  }

  function ServingSteps(t: nat, ttlNow: int, later: int): seq<Step> {
    [Acquire(t, TtlWrite(ttlNow, later)), Acquire(t, RouteAdded)] + [Acquire(t, SendToken)]
  }

  /** A successful Acquire run alone is the script followed by SetInstanceTTL; the
      caller holds the record with its own clock reading, and the trigger is set. */
  lemma AcquireAlone(w: World, t: nat, i: Instance, now: int, ttlNow: int, later: int, c: Config)
    returns (v: World)
    requires New(w, t) && HeadFree(w) && AcquireScript(w.store, now).taken == Some(i)
    ensures v.store == SetTtl(AcquireScript(w.store, now).store, w.store.ready[0], c.defaultTtl, ttlNow)
    ensures v.threads == w.threads[t := Acquired(i.WithExpiry(later + c.defaultTtl))]
    ensures v.locks == w.locks[w.store.ready[0] := t] && v.token && v.step == w.step + 5
    ensures v.hist == AfterPop(w).(finished := w.hist.finished + {w.step})
    ensures Leads(w, TakingSteps(t, now) + ServingSteps(t, ttlNow, later), v, c)
  {
    TtlOfTaken(w.store, i, now, c.defaultTtl, ttlNow);
    var u := PopReads(w, t, i, now, c);
    v := ServeTaken(u, t, i, w.step, ttlNow, later, c);
    ThreadTwice(w.threads, t, TtlRead(i, i, w.step), Acquired(i.WithExpiry(later + c.defaultTtl)));
    LeadsOn(w, TakingSteps(t, now), u, ServingSteps(t, ttlNow, later), v, c);
  }

  function RefusedSteps(t: nat, ttlNow: int, later: int): seq<Step> {
    [Acquire(t, TtlWrite(ttlNow, later)), Acquire(t, RouteFails)]
  }

  lemma RouteRefused(w: World, t: nat, i: Instance, pop: nat, now: int, later: int, c: Config) returns (v: World)
    requires t in w.threads && w.threads[t] == TtlRead(i, i, pop)
    ensures v == w.(store := SetRecord(w.store, i.WithExpiry(now + c.defaultTtl)),
                    threads := w.threads[t := RelWanted(i.id, true)], step := w.step + 2)
    ensures Leads(w, RefusedSteps(t, now, later), v, c)
  {
    v := LeadsTwice(w, Acquire(t, TtlWrite(now, later)), Acquire(t, RouteFails), c);
    ThreadTwice(w.threads, t, TtlDone(i.WithExpiry(later + c.defaultTtl), pop), RelWanted(i.id, true));
  }

  lemma TakenRefused(w: World, t: nat, i: Instance, now: int, ttlNow: int, later: int, c: Config)
    returns (v: World)
    requires New(w, t) && HeadFree(w) && AcquireScript(w.store, now).taken == Some(i)
    ensures var id := w.store.ready[0];
            v == w.(store := SetTtl(AcquireScript(w.store, now).store, id, c.defaultTtl, ttlNow),
                    threads := w.threads[t := RelWanted(id, true)], locks := w.locks[id := t], step := w.step + 4,
                    hist := AfterPop(w))
    ensures Leads(w, TakingSteps(t, now) + RefusedSteps(t, ttlNow, later), v, c)
  {
    TtlOfTaken(w.store, i, now, c.defaultTtl, ttlNow);
    var u := PopReads(w, t, i, now, c);
    v := RouteRefused(u, t, i, w.step, ttlNow, later, c);
    ThreadTwice(w.threads, t, TtlRead(i, i, w.step), RelWanted(w.store.ready[0], true));
    LeadsOn(w, TakingSteps(t, now), u, RefusedSteps(t, ttlNow, later), v, c);
  }

  /** The Release after a failed step of Acquire ends thread and lock. */
  lemma CompensationEnds(u: World, threads: map<nat, Pc>, locks: map<string, nat>, t: nat, id: string, c: Config)
    returns (v: World)
    requires t !in threads && t != LOOP && u.threads == threads[t := RelWanted(id, true)]
    requires id !in locks && u.locks == locks[id := t]
    requires id in u.store.records && u.store.records[id].id == id && u.store.records[id].state == Assigned
    ensures v == u.(store := ReleasedStore(u.store, id, u.store.records[id].port), threads := threads, locks := locks,
                    step := u.step + 6, hist := u.hist.(dropped := u.hist.dropped + {u.step + 4}))
    ensures Leads(u, ReleaseSteps(t), v, c)
  {
    v := ReleaseAlone(u, t, id, true, c);
    ComeAndGo(threads, t, RelWanted(id, true), locks, id);
  }

  lemma TimedKeeps(s: StoreState, i: Instance, now: int, ttl: int, ttlNow: int)
    requires AcquireScript(s, now).taken == Some(i) && s.records[s.ready[0]].id == s.ready[0]
    ensures var v := SetTtl(AcquireScript(s, now).store, s.ready[0], ttl, ttlNow);
            s.ready[0] in v.records && v.records[s.ready[0]] == i.WithExpiry(ttlNow + ttl) && i.state == Assigned
  {
  }

  /** An Acquire whose route fails, run alone, is the script, SetInstanceTTL and a
      Release; no trigger is sent. */
  lemma RouteFailureAlone(w: World, t: nat, i: Instance, now: int, ttlNow: int, later: int, c: Config)
    returns (v: World)
    requires New(w, t) && HeadFree(w) && AcquireScript(w.store, now).taken == Some(i)
    ensures var id := w.store.ready[0];
            var timed := SetTtl(AcquireScript(w.store, now).store, id, c.defaultTtl, ttlNow);
            v == w.(store := ReleasedStore(timed, id, i.port), step := w.step + 10,
                    hist := AfterPop(w).(dropped := w.hist.dropped + {w.step + 8}))
    ensures Leads(w, TakingSteps(t, now) + RefusedSteps(t, ttlNow, later) + ReleaseSteps(t), v, c)
  {
    var id := w.store.ready[0];
    TimedKeeps(w.store, i, now, c.defaultTtl, ttlNow);
    var u := TakenRefused(w, t, i, now, ttlNow, later, c);
    v := CompensationEnds(u, w.threads, w.locks, t, id, c);
    LeadsOn(w, TakingSteps(t, now) + RefusedSteps(t, ttlNow, later), u, ReleaseSteps(t), v, c);
  }

  // ---- extensions ---------------------------------------------------------------------

  function SyncSteps(t: nat): seq<Step> {
    [Extend(t, SyncGet), Extend(t, SyncSet)]
  }

  /** An accepted extension, run alone, is ExtendInstanceTTLAtomic. */
  lemma ExtensionAlone(w: World, t: nat, id: string, minutes: int, maxSecs: int, nowUnix: int, c: Config)
    returns (v: World)
    requires New(w, t) && Free(w, id) && 1 <= minutes <= 60
    requires id in w.store.records ==> w.store.records[id].id == id
    requires ExtendDecision(w.store, id, 60 * minutes, maxSecs, nowUnix).Extended?
    ensures v == w.(store := ExtendAtomic(w.store, id, 60 * minutes, maxSecs, nowUnix), step := w.step + 3)
    ensures Leads(w, [Extend(t, Script(id, minutes, maxSecs, nowUnix))] + SyncSteps(t), v, c)
  {
    var unix := ExtendDecision(w.store, id, 60 * minutes, maxSecs, nowUnix).newUnix;
    var u := LeadsOne(w, Extend(t, Script(id, minutes, maxSecs, nowUnix)), c);
    v := SyncAlone(u, t, id, unix, c);
    LeadsOn(w, [Extend(t, Script(id, minutes, maxSecs, nowUnix))], u, SyncSteps(t), v, c);
    ComeAndGo(w.threads, t, ExtDone(id, unix), w.locks, id);
  }

  /** A refused one changes nothing. */
  lemma ExtensionRefused(w: World, t: nat, id: string, minutes: int, maxSecs: int, nowUnix: int, c: Config)
    returns (v: World)
    requires New(w, t) && Free(w, id) && 1 <= minutes <= 60
    requires !ExtendDecision(w.store, id, 60 * minutes, maxSecs, nowUnix).Extended?
    ensures v == w.(step := w.step + 1) && Leads(w, [Extend(t, Script(id, minutes, maxSecs, nowUnix))], v, c)
  {
    v := LeadsOne(w, Extend(t, Script(id, minutes, maxSecs, nowUnix)), c);
  }

  lemma SyncAlone(u: World, t: nat, id: string, unix: int, c: Config) returns (v: World)
    requires t in u.threads && t != LOOP && u.threads[t] == ExtDone(id, unix)
    requires id in u.store.records && u.store.records[id].id == id
    ensures v == u.(store := SyncExpiry(u.store, id, unix), threads := u.threads - {t}, locks := u.locks - {id},
                    step := u.step + 2)
    ensures Leads(u, SyncSteps(t), v, c)
  {
    v := LeadsTwice(u, Extend(t, SyncGet), Extend(t, SyncSet), c);
    ThreadTwice(u.threads, t, ExtRead(u.store.records[id], unix), ExtRead(u.store.records[id], unix));
  }

  function SavingSteps(t: nat, ip: string): seq<Step> {
    [Acquire(t, SaveBack(ip)), Acquire(t, SaveBackIndex)]
  }

  /** The handler's save-back run alone is SaveInstance. */
  lemma SaveBackAlone(w: World, t: nat, i: Instance, ip: string, c: Config) returns (v: World)
    requires t in w.threads && t != LOOP && w.threads[t] == Acquired(i)
    ensures v == w.(store := SaveInstance(w.store, i.(userIp := ip)), threads := w.threads - {t},
                    locks := w.locks - {i.id}, step := w.step + 2)
    ensures Leads(w, SavingSteps(t, ip), v, c)
  {
    var j := i.(userIp := ip);
    v := LeadsTwice(w, Acquire(t, SaveBack(ip)), Acquire(t, SaveBackIndex), c);
    ThreadTwice(w.threads, t, SavedBack(j), SavedBack(j));
  }

  /** Acquire and save-back run alone, for any list, clock readings and address. */
  lemma AcquireThenSave(w: World, t: nat, i: Instance, now: int, ttlNow: int, later: int, ip: string, c: Config)
    returns (v: World)
    requires New(w, t) && HeadFree(w) && AcquireScript(w.store, now).taken == Some(i)
    ensures var timed := SetTtl(AcquireScript(w.store, now).store, w.store.ready[0], c.defaultTtl, ttlNow);
            v.store == SaveInstance(timed, i.WithExpiry(later + c.defaultTtl).(userIp := ip))
    ensures v.threads == w.threads && v.locks == w.locks && v.token && v.step == w.step + 7
    ensures v.hist == AfterPop(w).(finished := w.hist.finished + {w.step})
    ensures Leads(w, TakingSteps(t, now) + ServingSteps(t, ttlNow, later) + SavingSteps(t, ip), v, c)
  {
    var u := AcquireAlone(w, t, i, now, ttlNow, later, c);
    v := SaveBackAlone(u, t, i.WithExpiry(later + c.defaultTtl), ip, c);
    LeadsOn(w, TakingSteps(t, now) + ServingSteps(t, ttlNow, later), u, SavingSteps(t, ip), v, c);
    ComeAndGo(w.threads, t, u.threads[t], w.locks, i.id);
  }

  // ---- a client is served ------------------------------------------------------------

  /** The store after one instance was added, acquired and saved back. */
  function AfterClient(s: StoreState, i: Instance, ttl: int): StoreState {
    var taken := AcquireScript(AddToPool(WithPort(s, i.port), i), 0);
    SaveInstance(SetTtl(taken.store, i.id, ttl, 0), i.(state := Assigned, assignedAt := Some(0)).WithExpiry(ttl))
  }

  lemma ServedStore(s: StoreState, i: Instance, ttl: int)
    requires s.ready == [] && i.state == Ready
    ensures var v := AfterClient(s, i, ttl);
            && v.ready == [] && v.available == s.available - {i.port}
            && v.records == s.records[i.id := i.(state := Assigned, assignedAt := Some(0)).WithExpiry(ttl)]
            && v.index == s.index - {(Ready, i.id)} + {(Assigned, i.id)}
  {
    var added := AddToPool(WithPort(s, i.port), i);
    assert added.ready == [i.id];
    var v := AfterClient(s, i, ttl);
    assert v.index == s.index - {(Ready, i.id)} + {(Assigned, i.id)};
  }

  lemma ServedMembers(s: StoreState, i: Instance, ttl: int)
    requires s.ready == [] && i.state == Ready
    ensures Members(AfterClient(s, i, ttl), Assigned) == Members(s, Assigned) + {i.id}
    ensures Members(AfterClient(s, i, ttl), Warming) == Members(s, Warming)
  {
    var u := RemIndex(s, Ready, i.id);
    var v := AddIndex(u, Assigned, i.id);
    ServedStore(s, i, ttl);
    RemIndexMembers(s, Ready, i.id);
    AddIndexMembers(u, Assigned, i.id);
    assert AfterClient(s, i, ttl).index == v.index;
    assert forall st :: Members(AfterClient(s, i, ttl), st) == Members(v, st);
  }

  lemma ClientTakes(s: StoreState, i: Instance)
    requires s.ready == [] && i.state == Ready
    ensures var a := AddToPool(WithPort(s, i.port), i);
            && a.ready == [i.id] && i.id in a.records && a.records[i.id] == i
            && AcquireScript(a, 0).taken == Some(i.(state := Assigned, assignedAt := Some(0)))
  {
  }

  function ClientSteps(a: nat, ip: string): seq<Step> {
    TakingSteps(a, 0) + ServingSteps(a, 0, 0) + SavingSteps(a, ip)
  }

  /** A client acquires the only listed instance. */
  lemma ClientServed(w: World, s: StoreState, a: nat, i: Instance, c: Config) returns (v: World)
    requires New(w, a) && w.locks == map[] && s.ready == [] && i.state == Ready
    requires w.store == AddToPool(WithPort(s, i.port), i)
    ensures Leads(w, ClientSteps(a, i.userIp), v, c)
    ensures v.store == AfterClient(s, i, c.defaultTtl) && v.threads == w.threads && v.locks == w.locks
    ensures v.token && v.step == w.step + 7 && v.hist == AfterPop(w).(finished := w.hist.finished + {w.step})
  {
    ClientTakes(s, i);
    v := AcquireThenSave(w, a, i.(state := Assigned, assignedAt := Some(0)), 0, 0, 0, i.userIp, c);
  }

  // ---- one check of the loop ---------------------------------------------------------

  function CheckSteps(): seq<Step> {
    [Loop(ReadReady), Loop(ReadAssigned)] + [Loop(Decide)]
  }

  lemma CheckReads(w: World, c: Config) returns (v: World)
    requires LOOP in w.threads && w.threads[LOOP] == Checking
    ensures v == w.(threads := w.threads[LOOP := SawAssigned(|w.store.ready|, |Members(w.store, Assigned)|)],
                    step := w.step + 2, hist := AfterLlen(w))
    ensures Leads(w, [Loop(ReadReady), Loop(ReadAssigned)], v, c)
  {
    v := LeadsTwice(w, Loop(ReadReady), Loop(ReadAssigned), c);
    ThreadTwice(w.threads, LOOP, SawReady(|w.store.ready|), SawAssigned(|w.store.ready|, |Members(w.store, Assigned)|));
  }

  /** The three reads run alone are one snapshot: the loop goes to rest if and only if
      nothing is needed now. */
  lemma CheckAlone(w: World, c: Config) returns (v: World)
    requires LOOP in w.threads && w.threads[LOOP] == Checking
    ensures var r, a, m := |w.store.ready|, |Members(w.store, Assigned)|, |Members(w.store, Warming)|;
            var full := PoolStats(r, a, m, c.target, c.capacity).ReplenishmentNeeded() == 0;
            v == w.(threads := w.threads[LOOP := if full then Waiting else WantsPort], step := w.step + 3,
                    hist := AfterLlen(w).(seen := (r, a, m), settled := full))
    ensures Leads(w, CheckSteps(), v, c)
  {
    var u := CheckReads(w, c);
    v := LeadsOne(u, Loop(Decide), c);
    LeadsOn(w, [Loop(ReadReady), Loop(ReadAssigned)], u, [Loop(Decide)], v, c);
    ThreadTwice(w.threads, LOOP, u.threads[LOOP], v.threads[LOOP]);
  }
}
