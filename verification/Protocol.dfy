/** The pool protocol at the grain of single Valkey commands: any number of
    queue provisioners, acquirers, releasers and extenders and one replenish loop
    interleave freely over the shared store. Operations on one instance id are
    serialised by `locks`; operations on different ids are not ordered. */
module Protocol {
  import opened Domain
  import opened StoreSpec

  datatype Config = Config(range: set<int>, target: int, capacity: int, defaultTtl: int)

  /** What an in-flight operation does next, with its local variables. */
  datatype Pc =
    // the replenish loop: select, then LLEN, SCARD assigned, SCARD warming
    | Waiting
    | Checking
    | SawReady(ready: nat)
    | SawAssigned(ready: nat, inUseCount: nat)
    // provisionInstance: SPOP, SADD in_use, start and health check, SET, SADD, RPUSH
    | WantsPort
    | PortPopped(port: int)
    | PortTracked(port: int)
    | PortAborted(port: int)             // failed; the deferred SREM in_use is next
    | PortUntracked(port: int)           // the deferred SADD available is next
    | RecordSet(inst: Instance)
    | RecordIndexed(inst: Instance)
    // Acquire after the script: GET, SET, AddRoute, token, then the handler's SET, SADD
    | TtlPending(inst: Instance, popAt: nat)
    | TtlRead(inst: Instance, copy: Instance, popAt: nat)
    | TtlDone(inst: Instance, popAt: nat)
    | Routed(inst: Instance, popAt: nat)
    | Acquired(inst: Instance)
    | SavedBack(inst: Instance)
    // Release: GET, SREM in_use, SADD available, then DeleteInstance: GET, SREM, DEL
    | RelWanted(id: string, inAcquire: bool)
    | RelRead(inst: Instance, inAcquire: bool)
    | RelUntracked(inst: Instance, inAcquire: bool)
    | RelReturned(inst: Instance, inAcquire: bool)
    | DelRead(id: string, st: InstanceState, inAcquire: bool)
    | DelUnindexed(id: string, inAcquire: bool)
    // ExtendInstanceTTLAtomic after the script: GET, SET
    | ExtDone(id: string, unix: int)
    | ExtRead(copy: Instance, unix: int)

  const LOOP: nat := 0

  /** What has happened so far; a step reads only the ids that are taken. */
  datatype History = History(
    used: set<string>,           // ids ever created
    handed: seq<string>,         // ids returned by the acquire script, in order
    pushed: set<nat>,            // steps at which an id was appended to the ready list
    popped: set<nat>,            // steps at which the script returned an id
    dropped: set<nat>,           // steps at which a Release took an id out of state:assigned
    finished: set<nat>,          // of these, the ones whose Acquire reached its end
    lastCheck: nat,              // step of the loop's latest LLEN
    pool: nat,                   // list length plus size of state:assigned at that step
    seen: (nat, nat, nat),       // ready, assigned, warming of the latest completed check
    settled: bool)               // the latest TriggerReplenish of the loop returned nil

  datatype World = World(
    store: StoreState,
    threads: map<nat, Pc>,
    locks: map<string, nat>,
    token: bool,                 // the one-slot trigger channel
    step: nat,                   // number of the next step
    hist: History)

  datatype ProvStep = Queue | Spop(port: int) | SpopEmpty | Track | Fails | SetNew(inst: Instance) | IndexNew | PushNew
                    | Untrack | Return
  datatype AcqStep = Pop(now: int) | TtlGet | TtlWrite(now: int, later: int) | TtlFails | RouteAdded | RouteFails
                   | SendToken | SaveBack(ip: string) | SaveBackIndex
  datatype RelStep = Begin(id: string) | Get | UntrackPort | ReturnPort | DelGet | DelUnindex | Erase
  datatype ExtStep = Script(id: string, minutes: int, maxSecs: int, nowUnix: int) | SyncGet | SyncSet
  datatype LoopStep = TakeToken | Tick | ReadReady | ReadAssigned | Decide

  datatype Step =
    | Provision(t: nat, p: ProvStep)
    | Acquire(t: nat, a: AcqStep)
    | Release(t: nat, r: RelStep)
    | Extend(t: nat, e: ExtStep)
    | Loop(l: LoopStep)

  /** The instance id an operation is working on, if any. */
  function Holds(pc: Pc): Option<string> {
    match pc
    case RecordSet(i) => Some(i.id)
    case RecordIndexed(i) => Some(i.id)
    case TtlPending(i, _) => Some(i.id)
    case TtlRead(i, _, _) => Some(i.id)
    case TtlDone(i, _) => Some(i.id)
    case Routed(i, _) => Some(i.id)
    case Acquired(i) => Some(i.id)
    case SavedBack(i) => Some(i.id)
    case RelWanted(id, _) => Some(id)
    case RelRead(i, _) => Some(i.id)
    case RelUntracked(i, _) => Some(i.id)
    case RelReturned(i, _) => Some(i.id)
    case DelRead(id, _, _) => Some(id)
    case DelUnindexed(id, _) => Some(id)
    case ExtDone(id, _) => Some(id)
    case ExtRead(i, _) => Some(i.id)
    case _ => None
  }

  predicate Provisioning(pc: Pc) {
    pc.WantsPort? || pc.PortPopped? || pc.PortTracked? || pc.PortAborted? || pc.PortUntracked?
    || pc.RecordSet? || pc.RecordIndexed?
  }

  predicate InsideAcquire(pc: Pc) {
    pc.TtlPending? || pc.TtlRead?
    || ((pc.RelWanted? || pc.RelRead? || pc.RelUntracked? || pc.RelReturned? || pc.DelRead? || pc.DelUnindexed?)
        && pc.inAcquire)
  }

  /** The port an operation itself owns. */
  function ThreadPort(pc: Pc): Option<int> {
    match pc
    case PortPopped(p) => Some(p)
    case PortTracked(p) => Some(p)
    case PortAborted(p) => Some(p)
    case PortUntracked(p) => Some(p)
    case RelUntracked(i, _) => Some(i.port)
    case _ => None
  }

  // ---- steps -------------------------------------------------------------

  function Start(w: World, t: nat, pc: Pc): World {
    w.(threads := w.threads[t := pc],
       locks := if Holds(pc).Some? then w.locks[Holds(pc).value := t] else w.locks)
  }

  function Move(w: World, t: nat, pc: Pc): World {
    w.(threads := w.threads[t := pc])
  }

  /** The operation of thread t is over; the loop re-checks after a success and
      goes back to its select after an error. */
  function Stop(w: World, t: nat, ok: bool): World
    requires t in w.threads
  {
    w.(threads := if t == LOOP then w.threads[LOOP := if ok then Checking else Waiting] else w.threads - {t},
       locks := if Holds(w.threads[t]).Some? then w.locks - {Holds(w.threads[t]).value} else w.locks)
  }

  function With(w: World, s: StoreState): World {
    w.(store := s)
  }

  /** Hostnames are "demo-" and a UUID: new, and without a dot. */
  predicate FreshHost(records: map<string, Instance>, hostname: string) {
    '.' !in hostname && forall k | k in records :: records[k].hostname != hostname
  }

  predicate Fresh(w: World, i: Instance, port: int) {
    && i.id !in w.hist.used && FreshHost(w.store.records, i.hostname)
    && i.port == port && i.state == Ready && !i.Expires() && i.assignedAt.None?
  }

  predicate Free(w: World, id: string) {
    id !in w.locks
  }

  predicate New(w: World, t: nat) {
    t !in w.threads && t != LOOP
  }

  predicate ProvEnabled(w: World, t: nat, p: ProvStep) {
    if p.Queue? then New(w, t) else
    t in w.threads &&
    match p
    case Queue => true
    case Spop(port) => w.threads[t].WantsPort? && port in w.store.available
    case SpopEmpty => w.threads[t].WantsPort? && w.store.available == {}
    case Track => w.threads[t].PortPopped?
    case Fails => w.threads[t].PortTracked?
    case SetNew(i) => w.threads[t].PortTracked? && Fresh(w, i, w.threads[t].port) && Free(w, i.id)
    case IndexNew => w.threads[t].RecordSet?
    case PushNew => w.threads[t].RecordIndexed?
    case Untrack => w.threads[t].PortAborted?
    case Return => w.threads[t].PortUntracked?
  }

  /** provisionInstance. A failure is possible at any time before the record is
      set; the port then goes back through the deferred ReleasePort. */
  function ProvEffect(w: World, t: nat, p: ProvStep): World
    requires ProvEnabled(w, t, p)
  {
    match p
    case Queue => Start(w, t, WantsPort)
    case Spop(port) => Move(With(w, w.store.(available := w.store.available - {port})), t, PortPopped(port))
    case SpopEmpty => Stop(w, t, false)
    case Track =>
      var port := w.threads[t].port;
      Move(With(w, w.store.(inUse := w.store.inUse + {port})), t, PortTracked(port))
    case Fails => Move(w, t, PortAborted(w.threads[t].port))
    case SetNew(i) =>
      var taken := w.hist.(used := w.hist.used + {i.id});
      Start(With(w, SetRecord(w.store, i)).(hist := taken), t, RecordSet(i))
    case IndexNew =>
      var i := w.threads[t].inst;
      Move(With(w, AddIndex(w.store, Ready, i.id)), t, RecordIndexed(i))
    case PushNew =>
      var listed := w.hist.(pushed := w.hist.pushed + {w.step});
      Stop(With(w, PushReady(w.store, w.threads[t].inst.id)).(hist := listed), t, true)
    case Untrack =>
      var port := w.threads[t].port;
      Move(With(w, w.store.(inUse := w.store.inUse - {port})), t, PortUntracked(port))
    case Return => Stop(With(w, w.store.(available := w.store.available + {w.threads[t].port})), t, false)
  }

  predicate AcqEnabled(w: World, t: nat, a: AcqStep) {
    if a.Pop? then
      New(w, t) && (w.store.ready != [] && w.store.ready[0] in w.store.records ==> Free(w, w.store.ready[0]))
    else
    t in w.threads &&
    match a
    case Pop(_) => true
    case TtlGet => w.threads[t].TtlPending? && w.threads[t].inst.id in w.store.records
    case TtlWrite(_, _) => w.threads[t].TtlRead?
    case TtlFails => w.threads[t].TtlPending? || w.threads[t].TtlRead?
    case RouteAdded => w.threads[t].TtlDone?
    case RouteFails => w.threads[t].TtlDone?
    case SendToken => w.threads[t].Routed?
    case SaveBack(_) => w.threads[t].Acquired?
    case SaveBackIndex => w.threads[t].SavedBack?
  }

  /** Acquire followed by the save-back of acquireDemo; a TTL or route failure
      continues as a Release of the same id. */
  function AcqEffect(w: World, t: nat, a: AcqStep, c: Config): World
    requires AcqEnabled(w, t, a)
  {
    match a
    case Pop(now) =>
      var r := AcquireScript(w.store, now);
      if r.taken.None? then With(w, r.store)
      else
        var handedOut := w.hist.(handed := w.hist.handed + [r.taken.value.id], popped := w.hist.popped + {w.step});
        Start(With(w, r.store).(hist := handedOut), t, TtlPending(r.taken.value, w.step))
    case TtlGet =>
      var i := w.threads[t].inst;
      Move(w, t, TtlRead(i, w.store.records[i.id], w.threads[t].popAt))
    case TtlWrite(now, later) =>
      var pc := w.threads[t];
      Move(With(w, SetRecord(w.store, pc.copy.WithExpiry(now + c.defaultTtl))), t,
           TtlDone(pc.inst.WithExpiry(later + c.defaultTtl), pc.popAt))
    case TtlFails => Move(w, t, RelWanted(w.threads[t].inst.id, true))
    case RouteAdded => Move(w, t, Routed(w.threads[t].inst, w.threads[t].popAt))
    case RouteFails => Move(w, t, RelWanted(w.threads[t].inst.id, true))
    case SendToken =>
      var done := w.hist.(finished := w.hist.finished + {w.threads[t].popAt});
      Move(w.(token := true, hist := done), t, Acquired(w.threads[t].inst))
    case SaveBack(ip) =>
      var i := w.threads[t].inst.(userIp := ip);
      Move(With(w, SetRecord(w.store, i)), t, SavedBack(i))
    case SaveBackIndex =>
      var i := w.threads[t].inst;
      Stop(With(w, AddIndex(w.store, i.state, i.id)), t, true)
  }

  predicate RelEnabled(w: World, t: nat, r: RelStep) {
    if r.Begin? then New(w, t) && Free(w, r.id) else
    t in w.threads &&
    match r
    case Begin(_) => true
    case Get => w.threads[t].RelWanted?
    case UntrackPort => w.threads[t].RelRead?
    case ReturnPort => w.threads[t].RelUntracked?
    case DelGet => w.threads[t].RelReturned?
    case DelUnindex => w.threads[t].DelRead?
    case Erase => w.threads[t].DelUnindexed?
  }

  function AfterUnindex(w: World, st: InstanceState): History {
    if st == Assigned then w.hist.(dropped := w.hist.dropped + {w.step}) else w.hist
  }

  function RelEffect(w: World, t: nat, r: RelStep): World
    requires RelEnabled(w, t, r)
  {
    match r
    case Begin(id) => Start(w, t, RelWanted(id, false))
    case Get =>
      var pc := w.threads[t];
      if pc.id in w.store.records then Move(w, t, RelRead(w.store.records[pc.id], pc.inAcquire)) else Stop(w, t, false)
    case UntrackPort =>
      var i := w.threads[t].inst;
      Move(With(w, w.store.(inUse := w.store.inUse - {i.port})), t, RelUntracked(i, w.threads[t].inAcquire))
    case ReturnPort =>
      var i := w.threads[t].inst;
      Move(With(w, w.store.(available := w.store.available + {i.port})), t, RelReturned(i, w.threads[t].inAcquire))
    case DelGet =>
      var i := w.threads[t].inst;
      if i.id in w.store.records then Move(w, t, DelRead(i.id, w.store.records[i.id].state, w.threads[t].inAcquire))
      else Stop(w, t, true)
    case DelUnindex =>
      var pc := w.threads[t];
      Move(With(w, RemIndex(w.store, pc.st, pc.id)).(hist := AfterUnindex(w, pc.st)), t,
           DelUnindexed(pc.id, pc.inAcquire))
    case Erase => Stop(With(w, DelRecord(w.store, w.threads[t].id)), t, true)
  }

  predicate ExtEnabled(w: World, t: nat, e: ExtStep) {
    if e.Script? then New(w, t) && Free(w, e.id) && 1 <= e.minutes <= 60 else
    t in w.threads && (if e.SyncGet? then w.threads[t].ExtDone? else w.threads[t].ExtRead?)
  }

  function ExtEffect(w: World, t: nat, e: ExtStep): World
    requires ExtEnabled(w, t, e)
  {
    match e
    case Script(id, minutes, maxSecs, nowUnix) =>
      var r := ExtendDecision(w.store, id, 60 * minutes, maxSecs, nowUnix);
      if r.Extended? then
        Start(With(w, ExtendScript(w.store, id, 60 * minutes, maxSecs, nowUnix)), t, ExtDone(id, r.newUnix))
      else w
    case SyncGet =>
      var pc := w.threads[t];
      if pc.id in w.store.records then Move(w, t, ExtRead(w.store.records[pc.id], pc.unix)) else Stop(w, t, true)
    case SyncSet =>
      var pc := w.threads[t];
      Stop(With(w, SetRecord(w.store, pc.copy.WithExpiry(pc.unix * SECOND))), t, true)
  }

  predicate LoopEnabled(w: World, l: LoopStep) {
    LOOP in w.threads &&
    match l
    case TakeToken => w.threads[LOOP].Waiting? && w.token
    case Tick => w.threads[LOOP].Waiting?
    case ReadReady => w.threads[LOOP].Checking?
    case ReadAssigned => w.threads[LOOP].SawReady?
    case Decide => w.threads[LOOP].SawAssigned?
  }

  function AfterLlen(w: World): History {
    w.hist.(lastCheck := w.step, pool := |w.store.ready| + |Members(w.store, Assigned)|, settled := false)
  }

  /** replenishLoop and the three reads of GetPoolStats inside TriggerReplenish.
      The cleanup that follows a tick is a sequence of Release operations. */
  function LoopEffect(w: World, l: LoopStep, c: Config): World
    requires LoopEnabled(w, l)
  {
    match l
    case TakeToken => Move(w.(token := false), LOOP, Checking)
    case Tick => Move(w, LOOP, Checking)
    case ReadReady => Move(w.(hist := AfterLlen(w)), LOOP, SawReady(|w.store.ready|))
    case ReadAssigned => Move(w, LOOP, SawAssigned(w.threads[LOOP].ready, |Members(w.store, Assigned)|))
    case Decide =>
      var pc := w.threads[LOOP];
      var m := |Members(w.store, Warming)|;
      var full := Need(c, pc.ready, pc.inUseCount, m) <= 0;
      var looked := w.hist.(seen := (pc.ready, pc.inUseCount, m), settled := full);
      Move(w.(hist := looked), LOOP, if full then Waiting else WantsPort)
  }

  function Need(c: Config, r: nat, a: nat, m: nat): int {
    PoolStats(r, a, m, c.target, c.capacity).ReplenishmentNeeded()
  }

  predicate Enabled(w: World, s: Step) {
    match s
    case Provision(t, p) => ProvEnabled(w, t, p)
    case Acquire(t, a) => AcqEnabled(w, t, a)
    case Release(t, r) => RelEnabled(w, t, r)
    case Extend(t, e) => ExtEnabled(w, t, e)
    case Loop(l) => LoopEnabled(w, l)
  }

  function Effect(w: World, s: Step, c: Config): World
    requires Enabled(w, s)
  {
    match s
    case Provision(t, p) => ProvEffect(w, t, p)
    case Acquire(t, a) => AcqEffect(w, t, a, c)
    case Release(t, r) => RelEffect(w, t, r)
    case Extend(t, e) => ExtEffect(w, t, e)
    case Loop(l) => LoopEffect(w, l, c)
  }

  function Apply(w: World, s: Step, c: Config): World
    requires Enabled(w, s)
  {
    Effect(w, s, c).(step := w.step + 1)
  }

  function Initial(c: Config): World {
    World(EMPTY.(available := c.range), map[LOOP := Checking], map[], false, 1,
          History({}, [], {}, {}, {}, {}, 0, 0, (0, 0, 0), false))
  }

  /** Only thread t moves. */
  ghost predicate OnlyThread(w: World, v: World, t: nat) {
    forall u | u != t :: (u in v.threads <==> u in w.threads) && (u in w.threads ==> v.threads[u] == w.threads[u])
  }

  ghost predicate RunStep(ws: seq<World>, ss: seq<Step>, c: Config, i: nat)
    requires |ws| == |ss| + 1 && i < |ss|
  {
    Enabled(ws[i], ss[i]) && ws[i + 1] == Apply(ws[i], ss[i], c)
  }

  /** A run: states and the steps between them. */
  ghost predicate IsRun(ws: seq<World>, ss: seq<Step>, c: Config) {
    && |ws| == |ss| + 1
    && ws[0] == Initial(c)
    && forall i :: 0 <= i < |ss| ==> RunStep(ws, ss, c, i)
  }
}
