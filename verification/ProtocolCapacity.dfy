/** Capacity: what the non-atomic statistics of the replenish loop still guarantee. */
module ProtocolCapacity {
  import opened Domain
  import opened StoreSpec
  import opened Protocol
  import opened ProtocolSafety

  function AssignedCount(w: World): nat {
    |Members(w.store, Assigned)|
  }

  /** What capacity limits: the list length plus the size of state:assigned. */
  function InPool(w: World): nat {
    |w.store.ready| + AssignedCount(w)
  }

  predicate Pushes(s: Step) {
    s.Provision? && s.p.PushNew?
  }

  predicate PopsLive(w: World, s: Step) {
    s.Acquire? && s.a.Pop? && TakesId(w, s.a)
  }

  /** The SREM of state:assigned inside DeleteInstance. */
  predicate DropsAssigned(w: World, s: Step)
    requires Enabled(w, s)
  {
    s.Release? && s.r.DelUnindex? && w.threads[s.t].st == Assigned
  }

  // ---- conservation -----------------------------------------------------------

  lemma NoWarming(w: World)
    requires Safe(w)
    ensures Members(w.store, Warming) == {} && Members(w.store, Expired) == {}
  {
    forall e | e in w.store.index ensures e.0 == Ready || e.0 == Assigned {
      assert (e.0, e.1) in w.store.index;
      assert RecordOk(w, e.1);
    }
  }

  lemma ProvCounts(w: World, t: nat, p: ProvStep)
    requires Safe(w) && ProvEnabled(w, t, p)
    ensures var v := ProvEffect(w, t, p);
            && |v.store.ready| == |w.store.ready| + (if p.PushNew? then 1 else 0)
            && AssignedCount(v) == AssignedCount(w)
  {
    if p.IndexNew? { AddIndexMembers(w.store, Ready, w.threads[t].inst.id); }
  }

  lemma PopCounts(w: World, t: nat, a: AcqStep, c: Config)
    requires Safe(w) && a.Pop? && AcqEnabled(w, t, a) && TakesId(w, a)
    ensures var v := AcqEffect(w, t, a, c);
            && |v.store.ready| == |w.store.ready| - 1
            && AssignedCount(v) == AssignedCount(w) + 1
  {
    var id := w.store.ready[0];
    assert RecordOk(w, id);
    var s1 := w.store.(ready := w.store.ready[1..]);
    assert Members(s1, Assigned) == Members(w.store, Assigned);
    var s2 := RemIndex(s1, Ready, id);
    RemIndexMembers(s1, Ready, id);
    assert (Assigned, id) !in w.store.index;
    assert id !in Members(s2, Assigned);
    AddIndexMembers(s2, Assigned, id);
    assert AcqEffect(w, t, a, c).store.index == AddIndex(s2, Assigned, id).index;
    assert Members(AcqEffect(w, t, a, c).store, Assigned) == Members(AddIndex(s2, Assigned, id), Assigned);
  }

  lemma AcqCounts(w: World, t: nat, a: AcqStep, c: Config)
    requires Safe(w) && AcqEnabled(w, t, a) && !(a.Pop? && TakesId(w, a))
    ensures var v := AcqEffect(w, t, a, c);
            |v.store.ready| == |w.store.ready| && AssignedCount(v) == AssignedCount(w)
  {
    var v := AcqEffect(w, t, a, c);
    if a.SaveBackIndex? {
      var i := w.threads[t].inst;
      assert Worker(w, i.id) == Some(w.threads[t]);
      assert (Assigned, i.id) in w.store.index;
      assert v.store.index == w.store.index;
    }
  }

  lemma DropCounts(w: World, t: nat, r: RelStep)
    requires Safe(w) && r.DelUnindex? && RelEnabled(w, t, r)
    ensures AssignedCount(RelEffect(w, t, r)) == AssignedCount(w) - if w.threads[t].st == Assigned then 1 else 0
  {
    var pc := w.threads[t];
    assert Worker(w, pc.id) == Some(pc);
    assert (pc.st, pc.id) in w.store.index;
    assert pc.id in Members(w.store, pc.st);
    RemIndexMembers(w.store, pc.st, pc.id);
  }

  lemma RelCounts(w: World, t: nat, r: RelStep)
    requires Safe(w) && RelEnabled(w, t, r)
    ensures var v := RelEffect(w, t, r);
            && v.store.ready == w.store.ready
            && AssignedCount(v) == AssignedCount(w) - (if DropsAssigned(w, Release(t, r)) then 1 else 0)
  {
    if r.DelUnindex? { DropCounts(w, t, r); }
  }

  lemma ExtCounts(w: World, t: nat, e: ExtStep)
    requires ExtEnabled(w, t, e)
    ensures ExtEffect(w, t, e).store.ready == w.store.ready && ExtEffect(w, t, e).store.index == w.store.index
  {
  }

  /** Conservation law: only a completed provision adds to the pool, only the
      deletion of an assigned record removes from it; an acquire moves one
      entry from the list to the assigned set. */
  lemma PoolConserved(w: World, s: Step, c: Config)
    requires Safe(w) && Enabled(w, s)
    ensures var v := Effect(w, s, c);
            && |v.store.ready| == |w.store.ready| + (if Pushes(s) then 1 else 0) - (if PopsLive(w, s) then 1 else 0)
            && InPool(v) == InPool(w) + (if Pushes(s) then 1 else 0) - (if DropsAssigned(w, s) then 1 else 0)
  {
    match s
    case Provision(t, p) => ProvCounts(w, t, p);
    case Acquire(t, a) => if a.Pop? && TakesId(w, a) { PopCounts(w, t, a, c); } else { AcqCounts(w, t, a, c); }
    case Release(t, r) => RelCounts(w, t, r);
    case Extend(t, e) => ExtCounts(w, t, e);
    case Loop(_) =>
  }

  // ---- one replenisher, statistics read one command at a time ---------------------

  function Top(c: Config): nat {
    Max(0, c.capacity)
  }

  ghost predicate LoopBound(w: World, c: Config)
    requires LOOP in w.threads
  {
    match w.threads[LOOP]
    case SawReady(r) => |w.store.ready| <= r
    case SawAssigned(r, a) => InPool(w) <= r + a
    case _ => Provisioning(w.threads[LOOP]) ==> InPool(w) + 1 <= Top(c)
  }

  ghost predicate CapacityInv(w: World, c: Config) {
    && LOOP in w.threads
    && (forall t | t in w.threads && t != LOOP :: !Provisioning(w.threads[t]))
    && InPool(w) <= Top(c)
    && LoopBound(w, c)
  }

  predicate QueueTask(s: Step) {
    s.Provision? && s.p.Queue?
  }

  predicate Working(w: World, t: nat) {
    t in w.threads && Provisioning(w.threads[t])
  }

  /** Steps after which a thread no longer provisions. */
  predicate Ends(p: ProvStep) {
    p.PushNew? || p.SpopEmpty? || p.Return?
  }

  lemma ProvMoves(w: World, t: nat, p: ProvStep)
    requires ProvEnabled(w, t, p)
    ensures OnlyThread(w, ProvEffect(w, t, p), t)
    ensures Working(w, t) <==> !p.Queue?
    ensures Working(ProvEffect(w, t, p), t) <==> !Ends(p)
  {
  }

  ghost predicate OneThread(w: World, v: World, t: nat) {
    OnlyThread(w, v, t) && !Working(w, t) && !Working(v, t)
  }

  lemma AcqThread(w: World, t: nat, a: AcqStep, c: Config)
    requires AcqEnabled(w, t, a) && t != LOOP
    ensures OneThread(w, AcqEffect(w, t, a, c), t)
  {
  }

  lemma RelThread(w: World, t: nat, r: RelStep)
    requires RelEnabled(w, t, r) && t != LOOP
    ensures OneThread(w, RelEffect(w, t, r), t)
  {
  }

  lemma ExtThread(w: World, t: nat, e: ExtStep)
    requires ExtEnabled(w, t, e) && t != LOOP
    ensures ExtEffect(w, t, e) == w || OneThread(w, ExtEffect(w, t, e), t)
  {
  }

  lemma CallerMoves(w: World, s: Step, c: Config)
    requires LockInv(w) && Enabled(w, s) && !s.Provision? && !s.Loop?
    ensures s.t != LOOP
    ensures Effect(w, s, c) == w || OneThread(w, Effect(w, s, c), s.t)
  {
    match s
    case Acquire(t, a) => AcqThread(w, t, a, c);
    case Release(t, r) => RelThread(w, t, r);
    case Extend(t, e) => ExtThread(w, t, e);
  }

  lemma CallerCapacity(w: World, v: World, t: nat, c: Config)
    requires CapacityInv(w, c) && (v == w || OneThread(w, v, t)) && t != LOOP
    requires |v.store.ready| <= |w.store.ready| && InPool(v) <= InPool(w)
    ensures CapacityInv(v, c)
  {
  }

  lemma CapacityStep(w: World, s: Step, c: Config)
    requires Safe(w) && CapacityInv(w, c) && Enabled(w, s) && !QueueTask(s)
    ensures CapacityInv(Effect(w, s, c), c)
  {
    if s.Provision? {
      ProvCapacity(w, s.t, s.p, c);
    } else if s.Loop? {
      LoopCapacity(w, s.l, c);
    } else {
      PoolConserved(w, s, c);
      CallerMoves(w, s, c);
      CallerCapacity(w, Effect(w, s, c), s.t, c);
    }
  }

  /** The loop's provision goes on: the slot it was granted stays reserved. */
  lemma ProvGoesOn(w: World, p: ProvStep, c: Config)
    requires Safe(w) && CapacityInv(w, c) && ProvEnabled(w, LOOP, p) && !Ends(p)
    ensures CapacityInv(ProvEffect(w, LOOP, p), c)
  {
    ProvCounts(w, LOOP, p);
    ProvMoves(w, LOOP, p);
  }

  /** It is over: the slot is filled or given back. */
  lemma ProvEnds(w: World, p: ProvStep, c: Config)
    requires Safe(w) && CapacityInv(w, c) && ProvEnabled(w, LOOP, p) && Ends(p)
    ensures CapacityInv(ProvEffect(w, LOOP, p), c)
  {
    ProvCounts(w, LOOP, p);
    ProvMoves(w, LOOP, p);
  }

  lemma ProvCapacity(w: World, t: nat, p: ProvStep, c: Config)
    requires Safe(w) && CapacityInv(w, c) && ProvEnabled(w, t, p) && !p.Queue?
    ensures CapacityInv(ProvEffect(w, t, p), c)
  {
    ProvMoves(w, t, p);
    assert t == LOOP;
    if Ends(p) { ProvEnds(w, p, c); } else { ProvGoesOn(w, p, c); }
  }

  lemma LoopCapacity(w: World, l: LoopStep, c: Config)
    requires Safe(w) && CapacityInv(w, c) && LoopEnabled(w, l)
    ensures CapacityInv(LoopEffect(w, l, c), c)
  {
  }

  lemma CapacityInitially(c: Config)
    ensures CapacityInv(Initial(c), c)
  {
    assert Members(Initial(c).store, Assigned) == {};
  }

  lemma CapacityApply(w: World, s: Step, c: Config)
    requires Safe(w) && CapacityInv(w, c) && Enabled(w, s) && !QueueTask(s)
    ensures CapacityInv(Apply(w, s, c), c)
  {
    CapacityStep(w, s, c);
  }

  ghost predicate LoopProvisionsOnly(ss: seq<Step>) {
    forall i | 0 <= i < |ss| :: !QueueTask(ss[i])
  }

  lemma CapacityNext(ws: seq<World>, ss: seq<Step>, c: Config, i: nat)
    requires IsRun(ws, ss, c) && i < |ss| && CapacityInv(ws[i], c) && !QueueTask(ss[i])
    ensures CapacityInv(ws[i + 1], c)
  {
    SafeRun(ws, ss, c, i);
    assert RunStep(ws, ss, c, i);
    CapacityApply(ws[i], ss[i], c);
  }

  lemma {:induction false} CapacityRun(ws: seq<World>, ss: seq<Step>, c: Config, i: nat)
    requires IsRun(ws, ss, c) && LoopProvisionsOnly(ss) && i < |ws|
    ensures CapacityInv(ws[i], c)
  {
    if i == 0 {
      CapacityInitially(c);
    } else {
      CapacityRun(ws, ss, c, i - 1);
      CapacityNext(ws, ss, c, i - 1);
    }
  }

  /** Main theorem: with the loop as the only provisioner, its three separate
      reads never let the pool exceed MaxPoolSize, whatever acquires, releases
      and extensions happen between them. */
  lemma CapacityRespected(ws: seq<World>, ss: seq<Step>, c: Config, i: nat)
    requires IsRun(ws, ss, c) && LoopProvisionsOnly(ss) && i < |ws|
    ensures InPool(ws[i]) <= Top(c)
  {
    CapacityRun(ws, ss, c, i);
  }

  // ---- how many provisions a run makes ----------------------------------------------

  function Pushed(ss: seq<Step>): nat {
    if ss == [] then 0 else Pushed(ss[..|ss| - 1]) + (if Pushes(ss[|ss| - 1]) then 1 else 0)
  }

  /** The assigned instances whose deletion has begun in the first n steps. */
  ghost function Dropped(ws: seq<World>, ss: seq<Step>, c: Config, n: nat): nat
    requires IsRun(ws, ss, c) && n <= |ss|
  {
    if n == 0 then 0
    else
      assert RunStep(ws, ss, c, n - 1);
      Dropped(ws, ss, c, n - 1) + if DropsAssigned(ws[n - 1], ss[n - 1]) then 1 else 0
  }

  /** The pool holds exactly what was provisioned and not yet released. */
  lemma {:induction false} PoolLedger(ws: seq<World>, ss: seq<Step>, c: Config, n: nat)
    requires IsRun(ws, ss, c) && n <= |ss|
    ensures InPool(ws[n]) + Dropped(ws, ss, c, n) == Pushed(ss[..n])
  {
    if n == 0 {
      assert Members(ws[0].store, Assigned) == {};
    } else {
      PoolLedger(ws, ss, c, n - 1);
      SafeRun(ws, ss, c, n - 1);
      assert RunStep(ws, ss, c, n - 1);
      PoolConserved(ws[n - 1], ss[n - 1], c);
      assert InPool(ws[n]) == InPool(Effect(ws[n - 1], ss[n - 1], c));
      assert ss[..n][..n - 1] == ss[..n - 1];
    }
  }

  function StatsNow(w: World, c: Config): PoolStats {
    PoolStats(|w.store.ready|, AssignedCount(w), |Members(w.store, Warming)|, c.target, c.capacity)
  }

  /** From any state of the run on, the loop provisions at most AvailableCapacity
      times, and once more for each assigned instance whose deletion has begun;
      interleaved acquires cost nothing. */
  lemma ProvisionsBounded(ws: seq<World>, ss: seq<Step>, c: Config, i: nat)
    requires IsRun(ws, ss, c) && LoopProvisionsOnly(ss) && i <= |ss|
    ensures Pushed(ss) - Pushed(ss[..i])
              <= StatsNow(ws[i], c).AvailableCapacity() + Dropped(ws, ss, c, |ss|) - Dropped(ws, ss, c, i)
  {
    PoolLedger(ws, ss, c, |ss|);
    PoolLedger(ws, ss, c, i);
    assert ss[..|ss|] == ss;
    CapacityRespected(ws, ss, c, |ss|);
    SafeRun(ws, ss, c, i);
    NoWarming(ws[i]);
  }
}
