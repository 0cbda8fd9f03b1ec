/** Capacity with several concurrent callers of TriggerReplenish, such as the replenish
    loops of several replicas. Each caller reads the statistics one command at a time;
    the state machine's own loop stands still. */
module ProtocolCallers {
  import opened Domain
  import opened StoreSpec
  import opened Protocol
  import opened ProtocolSafety
  import opened ProtocolCapacity

  /** What a caller has read so far: LLEN, or LLEN and SCARD of assigned. The third read,
      of the warming set that is always empty, goes with the decision. */
  datatype Reading = SawList(ready: nat) | SawBoth(ready: nat, inUseCount: nat)

  datatype Callers = Callers(
    w: World,
    readers: map<nat, Reading>,
    since: map<nat, set<nat>>)   // history: for each reader the callers that provisioned at or after its LLEN

  datatype CallerStep =
    | Llen(t: nat)
    | Scard(t: nat)
    | Launch(t: nat)              // something is needed: provisionInstance starts
    | Rest(t: nat)               // nothing is needed
    | Other(s: Step)             // a command of any operation in flight, or of a new acquire, release or extension

  function InFlight(w: World): set<nat> {
    set t | t in w.threads && Provisioning(w.threads[t])
  }

  predicate Asks(q: Callers, t: nat, c: Config)
    requires t in q.readers && q.readers[t].SawBoth?
  {
    Need(c, q.readers[t].ready, q.readers[t].inUseCount, |Members(q.w.store, Warming)|) > 0
  }

  predicate CanStep(q: Callers, cs: CallerStep, c: Config, callers: set<nat>) {
    match cs
    case Llen(t) => t in callers && t !in q.w.threads && t !in q.readers
    case Scard(t) => t in q.readers && q.readers[t].SawList?
    case Launch(t) => t in q.readers && q.readers[t].SawBoth? && Asks(q, t, c) && New(q.w, t)
    case Rest(t) => t in q.readers && q.readers[t].SawBoth? && !Asks(q, t, c)
    case Other(s) => Enabled(q.w, s) && !s.Loop? && !QueueTask(s) && (s.Provision? || s.t !in callers)
  }

  /** Caller t has begun to provision and v is the state after that. */
  function Launched(q: Callers, t: nat, v: World): Callers {
    Callers(v, q.readers - {t}, map x | x in q.since && x != t :: q.since[x] + {t})
  }

  function AfterStep(q: Callers, cs: CallerStep, c: Config, callers: set<nat>): Callers
    requires CanStep(q, cs, c, callers)
  {
    match cs
    case Llen(t) =>
      Callers(q.w, q.readers[t := SawList(|q.w.store.ready|)], q.since[t := InFlight(q.w)])
    case Scard(t) => q.(readers := q.readers[t := SawBoth(q.readers[t].ready, AssignedCount(q.w))])
    case Launch(t) => Launched(q, t, Apply(q.w, Provision(t, Queue), c))
    case Rest(t) => q.(readers := q.readers - {t}, since := q.since - {t})
    case Other(s) => q.(w := Apply(q.w, s, c))
  }

  /** No caller is reading. */
  function Quiet(w: World): Callers {
    Callers(w, map[], map[])
  }

  /** The steps lead from q to p. */
  ghost predicate CallersLead(q: Callers, ss: seq<CallerStep>, p: Callers, c: Config, callers: set<nat>)
    decreases |ss|
  {
    if ss == [] then p == q
    else CanStep(q, ss[0], c, callers) && CallersLead(AfterStep(q, ss[0], c, callers), ss[1..], p, c, callers)
  }

  /** Ready, assigned and in flight. */
  function Total(w: World): nat {
    InPool(w) + |InFlight(w)|
  }

  /** What a reader knows of ready + assigned, its SCARD done now if it is still due. */
  function Saw(w: World, r: Reading): nat {
    match r
    case SawList(ready) => ready + AssignedCount(w)
    case SawBoth(ready, inUseCount) => ready + inUseCount
  }

  /** A reader may be behind by one for each caller that provisioned since its LLEN. A
      caller that provisioned more often than that has checked anew in the meantime, and
      that check bounds the total. */
  predicate Covered(q: Callers, t: nat, c: Config)
    requires t in q.readers && t in q.since
  {
    || Total(q.w) <= Saw(q.w, q.readers[t]) + |q.since[t]|
    || Total(q.w) <= c.capacity - 1 + |q.since[t]|
  }

  ghost predicate ReadersOk(q: Callers, callers: set<nat>) {
    && q.since.Keys == q.readers.Keys <= callers
    && q.readers.Keys !! q.w.threads.Keys
    && (forall t | t in q.since :: InFlight(q.w) <= q.since[t] <= callers - {t})
    // a reader in another's history began its LLEN later and has the shorter history
    && (forall t, u | t in q.since && u in q.since && u in q.since[t] :: q.since[u] <= q.since[t])
  }

  ghost predicate CallersInv(q: Callers, c: Config, callers: set<nat>) {
    && Safe(q.w)
    && LOOP !in InFlight(q.w) && InFlight(q.w) <= callers
    && ReadersOk(q, callers)
    && (forall t | t in q.readers :: Covered(q, t, c))
    && Total(q.w) <= Top(c) + |callers| - 1
  }

  lemma SubsetCard(a: set<nat>, b: set<nat>)
    requires a <= b
    ensures |a| <= |b|
    ensures a < b ==> |a| < |b|
  {
    assert b == a + (b - a);
    assert a < b ==> b - a != {};
  }

  lemma OneMoves(w: World, v: World, t: nat)
    requires OnlyThread(w, v, t)
    ensures InFlight(v) == if Working(v, t) then InFlight(w) + {t} else InFlight(w) - {t}
    ensures t in InFlight(w) <==> Working(w, t)
  {
  }

  // ---- the other steps -------------------------------------------------------------

  /** No step but a caller's Launch raises the total, or the total less assigned. */
  ghost predicate Lowers(w: World, v: World) {
    && InFlight(v) <= InFlight(w)
    && Total(v) <= Total(w)
    && Total(v) - AssignedCount(v) <= Total(w) - AssignedCount(w)
  }

  lemma ProvLowers(w: World, t: nat, p: ProvStep)
    requires Safe(w) && ProvEnabled(w, t, p) && !p.Queue?
    ensures Lowers(w, ProvEffect(w, t, p))
    ensures ProvEffect(w, t, p).threads.Keys <= w.threads.Keys
  {
    ProvCounts(w, t, p);
    ProvMoves(w, t, p);
    OneMoves(w, ProvEffect(w, t, p), t);
  }

  lemma ClientLowers(w: World, s: Step, c: Config)
    requires Safe(w) && Enabled(w, s) && !s.Provision? && !s.Loop?
    ensures Lowers(w, Effect(w, s, c))
    ensures Effect(w, s, c).threads.Keys <= w.threads.Keys + {s.t}
  {
    PoolConserved(w, s, c);
    CallerMoves(w, s, c);
    if Effect(w, s, c) != w { OneMoves(w, Effect(w, s, c), s.t); }
  }

  lemma OtherLowers(w: World, s: Step, c: Config)
    requires Safe(w) && Enabled(w, s) && !s.Loop? && !QueueTask(s)
    ensures Lowers(w, Apply(w, s, c))
    ensures Apply(w, s, c).threads.Keys <= w.threads.Keys + (if s.Provision? then {} else {s.t})
  {
    if s.Provision? { ProvLowers(w, s.t, s.p); } else { ClientLowers(w, s, c); }
    assert InFlight(Apply(w, s, c)) == InFlight(Effect(w, s, c));
  }

  lemma LowersKeeps(q: Callers, v: World, c: Config, callers: set<nat>)
    requires CallersInv(q, c, callers) && Safe(v) && Lowers(q.w, v)
    requires q.readers.Keys !! v.threads.Keys
    ensures CallersInv(q.(w := v), c, callers)
  {
    forall t | t in q.readers ensures Covered(q.(w := v), t, c) {
      assert Covered(q, t, c);
    }
  }

  // ---- the callers' own steps ---------------------------------------------------------

  lemma LlenKeeps(q: Callers, t: nat, c: Config, callers: set<nat>)
    requires CallersInv(q, c, callers) && CanStep(q, Llen(t), c, callers)
    ensures CallersInv(AfterStep(q, Llen(t), c, callers), c, callers)
  {
    var p := AfterStep(q, Llen(t), c, callers);
    forall x | x in p.readers ensures Covered(p, x, c) {
      if x != t { assert Covered(q, x, c); }
    }
  }

  lemma ScardKeeps(q: Callers, t: nat, c: Config, callers: set<nat>)
    requires CallersInv(q, c, callers) && CanStep(q, Scard(t), c, callers)
    ensures CallersInv(AfterStep(q, Scard(t), c, callers), c, callers)
  {
    var p := AfterStep(q, Scard(t), c, callers);
    forall x | x in p.readers ensures Covered(p, x, c) {
      assert Covered(q, x, c);
    }
  }

  lemma RestKeeps(q: Callers, t: nat, c: Config, callers: set<nat>)
    requires CallersInv(q, c, callers) && CanStep(q, Rest(t), c, callers)
    ensures CallersInv(AfterStep(q, Rest(t), c, callers), c, callers)
  {
    var p := AfterStep(q, Rest(t), c, callers);
    forall x | x in p.readers ensures Covered(p, x, c) {
      assert Covered(q, x, c);
    }
  }

  /** A caller that decides to provision had few callers provisioning since its LLEN. */
  lemma LaunchBound(q: Callers, t: nat, c: Config, callers: set<nat>)
    requires CallersInv(q, c, callers) && CanStep(q, Launch(t), c, callers)
    ensures Total(q.w) <= c.capacity - 1 + |q.since[t]|
    ensures Total(q.w) + 1 <= Top(c) + |callers| - 1
  {
    assert Covered(q, t, c);
    SubsetCard(q.since[t], callers - {t});
  }

  lemma LaunchMoves(w: World, t: nat, c: Config)
    requires Safe(w) && New(w, t)
    ensures var v := Apply(w, Provision(t, Queue), c);
            && Safe(v) && v.store == w.store && v.threads.Keys == w.threads.Keys + {t}
            && InFlight(v) == InFlight(w) + {t} && Total(v) == Total(w) + 1
  {
    var v := Apply(w, Provision(t, Queue), c);
    SafeStep(w, Provision(t, Queue), c);
    OneMoves(w, v, t);
  }

  /** The key step: a reader that has not seen t provision counts it now. A reader x that
      has seen t provision knows that t's check is younger than its own LLEN, so t's
      shorter history bounds the total. */
  lemma LaunchCovers(q: Callers, t: nat, x: nat, v: World, c: Config, callers: set<nat>)
    requires ReadersOk(q, callers) && t in q.readers && x in q.readers && x != t && Covered(q, x, c)
    requires Total(q.w) <= c.capacity - 1 + |q.since[t]|
    requires v.store == q.w.store && Total(v) == Total(q.w) + 1
    ensures Covered(Launched(q, t, v), x, c)
  {
    if t in q.since[x] {
      assert q.since[x] + {t} == q.since[x];
      assert q.since[t] < q.since[x];
      SubsetCard(q.since[t], q.since[x]);
    } else {
      assert |q.since[x] + {t}| == |q.since[x]| + 1;
    }
  }

  lemma LaunchReaders(q: Callers, t: nat, v: World, callers: set<nat>)
    requires ReadersOk(q, callers) && t in q.readers
    requires v.threads.Keys == q.w.threads.Keys + {t} && InFlight(v) == InFlight(q.w) + {t}
    ensures ReadersOk(Launched(q, t, v), callers)
  {
  }

  lemma LaunchKeeps(q: Callers, t: nat, c: Config, callers: set<nat>)
    requires CallersInv(q, c, callers) && CanStep(q, Launch(t), c, callers)
    ensures CallersInv(AfterStep(q, Launch(t), c, callers), c, callers)
  {
    var v := Apply(q.w, Provision(t, Queue), c);
    LaunchBound(q, t, c, callers);
    LaunchMoves(q.w, t, c);
    LaunchReaders(q, t, v, callers);
    forall x | x in Launched(q, t, v).readers ensures Covered(Launched(q, t, v), x, c) {
      assert Covered(q, x, c);
      LaunchCovers(q, t, x, v, c, callers);
    }
  }

  lemma CallersStep(q: Callers, cs: CallerStep, c: Config, callers: set<nat>)
    requires CallersInv(q, c, callers) && CanStep(q, cs, c, callers)
    ensures CallersInv(AfterStep(q, cs, c, callers), c, callers)
  {
    match cs
    case Llen(t) => LlenKeeps(q, t, c, callers);
    case Scard(t) => ScardKeeps(q, t, c, callers);
    case Launch(t) => LaunchKeeps(q, t, c, callers);
    case Rest(t) => RestKeeps(q, t, c, callers);
    case Other(s) =>
      SafeStep(q.w, s, c);
      OtherLowers(q.w, s, c);
      LowersKeeps(q, Apply(q.w, s, c), c, callers);
  }

  lemma {:induction false} CallersKeep(q: Callers, ss: seq<CallerStep>, p: Callers, c: Config, callers: set<nat>)
    requires CallersInv(q, c, callers) && CallersLead(q, ss, p, c, callers)
    ensures CallersInv(p, c, callers)
    decreases |ss|
  {
    if ss == [] {
    } else {
      CallersStep(q, ss[0], c, callers);
      CallersKeep(AfterStep(q, ss[0], c, callers), ss[1..], p, c, callers);
    }
  }

  lemma CallersInitially(c: Config, callers: set<nat>)
    requires callers != {}
    ensures CallersInv(Quiet(Initial(c)), c, callers)
  {
    SafeInitially(c);
    assert Members(Initial(c).store, Assigned) == {};
    assert InFlight(Initial(c)) == {};
  }

  /** Main theorem: with k concurrent callers, each reading the statistics in separate
      commands that anything may come between, ready + assigned + provisions in flight
      stay within MaxPoolSize + k - 1. */
  lemma CallersBounded(ss: seq<CallerStep>, p: Callers, c: Config, callers: set<nat>)
    requires callers != {} && CallersLead(Quiet(Initial(c)), ss, p, c, callers)
    ensures Total(p.w) <= Top(c) + |callers| - 1
  {
    CallersInitially(c, callers);
    CallersKeep(Quiet(Initial(c)), ss, p, c, callers);
  }
}
