/** What every step of the protocol keeps: locks, copies, indexes, the ready list. */
module ProtocolSafety {
  import opened Domain
  import opened StoreSpec
  import opened Protocol

  predicate LoopPc(pc: Pc) {
    pc.Waiting? || pc.Checking? || pc.SawReady? || pc.SawAssigned?
  }

  /** Only the loop checks and waits, and it does nothing else but provision. */
  predicate PlaceOk(t: nat, pc: Pc) {
    if t == LOOP then LoopPc(pc) || Provisioning(pc) else !LoopPc(pc)
  }

  ghost predicate LockInv(w: World) {
    && LOOP in w.threads
    && (forall t | t in w.threads :: PlaceOk(t, w.threads[t]))
    && (forall id | id in w.locks :: w.locks[id] in w.threads && Holds(w.threads[w.locks[id]]) == Some(id))
    && (forall t | t in w.threads && Holds(w.threads[t]).Some? ::
          Holds(w.threads[t]).value in w.locks && w.locks[Holds(w.threads[t]).value] == t)
  }

  /** The operation working on `id`, if any. */
  function Worker(w: World, id: string): Option<Pc> {
    if id in w.locks && w.locks[id] in w.threads then Some(w.threads[w.locks[id]]) else None
  }

  predicate Unindexed(w: World, id: string) {
    var k := Worker(w, id);
    k.Some? && (k.value.RecordSet? || k.value.DelUnindexed?)
  }

  predicate Unlisted(w: World, id: string) {
    var k := Worker(w, id);
    k.Some? && (k.value.RecordSet? || k.value.RecordIndexed?)
  }

  predicate BeingAcquired(w: World, id: string) {
    var k := Worker(w, id);
    k.Some? && InsideAcquire(k.value)
  }

  predicate PortReturned(w: World, id: string) {
    var k := Worker(w, id);
    k.Some? && (k.value.RelUntracked? || k.value.RelReturned? || k.value.DelRead? || k.value.DelUnindexed?)
  }

  predicate SameInstance(i: Instance, r: map<string, Instance>) {
    i.id in r && r[i.id].id == i.id && r[i.id].port == i.port && r[i.id].hostname == i.hostname
  }

  predicate AssignedCopy(i: Instance, r: map<string, Instance>) {
    SameInstance(i, r) && i.state == Assigned && r[i.id].state == Assigned
  }

  predicate CopyOk(pc: Pc, r: map<string, Instance>) {
    match pc
    case RecordSet(i) => SameInstance(i, r) && r[i.id].state == Ready
    case RecordIndexed(i) => SameInstance(i, r) && r[i.id].state == Ready
    case TtlPending(i, _) => AssignedCopy(i, r)
    case TtlRead(i, copy, _) => AssignedCopy(i, r) && copy == r[i.id]
    case TtlDone(i, _) => AssignedCopy(i, r) && i.Expires()
    case Routed(i, _) => AssignedCopy(i, r) && i.Expires()
    case Acquired(i) => AssignedCopy(i, r) && i.Expires()
    case SavedBack(i) => AssignedCopy(i, r) && i.Expires()
    case RelRead(i, _) => SameInstance(i, r)
    case RelUntracked(i, _) => SameInstance(i, r)
    case RelReturned(i, _) => SameInstance(i, r)
    case DelRead(id, st, _) => id in r && r[id].state == st
    case DelUnindexed(id, _) => id in r
    case ExtDone(id, _) => id in r
    case ExtRead(copy, _) => copy.id in r && r[copy.id] == copy
    case _ => true
  }

  ghost predicate CopyInv(w: World) {
    forall t | t in w.threads :: CopyOk(w.threads[t], w.store.records)
  }

  /** Every state set is exact, except for the one id each of an insertion
      between SET and SADD and a deletion between SREM and DEL. */
  ghost predicate IndexInv(w: World) {
    forall st, id :: (st, id) in w.store.index <==>
      id in w.store.records && w.store.records[id].state == st && !Unindexed(w, id)
  }

  ghost predicate RecordOk(w: World, id: string)
    requires id in w.store.records
  {
    var i := w.store.records[id];
    && i.id == id
    && id in w.hist.used
    && (i.state == Ready || i.state == Assigned)
    && (i.state == Ready ==> id !in w.hist.handed && (Unlisted(w, id) <==> id !in w.store.ready))
    && (i.state == Assigned ==> id in w.hist.handed && id !in w.store.ready && !Unlisted(w, id)
                                && (i.Expires() || BeingAcquired(w, id)))
  }

  ghost predicate RecordInv(w: World) {
    forall id | id in w.store.records :: RecordOk(w, id)
  }

  ghost predicate ListInv(w: World) {
    && NoDup(w.store.ready)
    && NoDup(w.hist.handed)
    && (forall id | id in w.store.ready :: id in w.hist.used && id !in w.hist.handed)
    && (forall id | id in w.hist.handed :: id in w.hist.used)
  }

  ghost predicate Safe(w: World) {
    LockInv(w) && CopyInv(w) && IndexInv(w) && RecordInv(w) && ListInv(w)
  }

  // ---- locality: a step touches one thread and at most one id ---------------

  ghost predicate Frame(w: World, v: World, t: nat, id: string) {
    && OnlyThread(w, v, t)
    && (forall k | k != id :: (k in v.locks <==> k in w.locks) && (k in w.locks ==> v.locks[k] == w.locks[k]))
    && (forall k | k != id :: (k in v.store.records <==> k in w.store.records)
                              && (k in w.store.records ==> v.store.records[k] == w.store.records[k]))
    && (forall st, k | k != id :: (st, k) in v.store.index <==> (st, k) in w.store.index)
    && (forall k | k != id :: (k in v.store.ready <==> k in w.store.ready)
                              && (k in v.hist.handed <==> k in w.hist.handed)
                              && (k in v.hist.used <==> k in w.hist.used))
  }

  predicate HoldsOnly(pc: Pc, id: string) {
    Holds(pc).Some? ==> Holds(pc).value == id
  }

  /** Thread t works on `id` or on nothing, and nobody else works on `id`. */
  ghost predicate Exclusive(w: World, t: nat, id: string) {
    && (id in w.locks ==> w.locks[id] == t)
    && (t in w.threads ==> HoldsOnly(w.threads[t], id))
  }

  ghost predicate Local(v: World, t: nat, id: string) {
    LocalThread(v, t, id) && LocalData(v, id)
  }

  ghost predicate LocalThread(v: World, t: nat, id: string) {
    && LOOP in v.threads
    && (t in v.threads ==>
          && CopyOk(v.threads[t], v.store.records)
          && HoldsOnly(v.threads[t], id)
          && PlaceOk(t, v.threads[t]))
    && (id in v.locks <==> t in v.threads && Holds(v.threads[t]) == Some(id))
    && (id in v.locks ==> v.locks[id] == t)
  }

  ghost predicate LocalData(v: World, id: string) {
    && (forall st :: (st, id) in v.store.index <==>
          id in v.store.records && v.store.records[id].state == st && !Unindexed(v, id))
    && (id in v.store.records ==> RecordOk(v, id))
  }

  ghost predicate Core(w: World) {
    LockInv(w) && CopyInv(w) && IndexInv(w) && RecordInv(w)
  }

  lemma WorkerElsewhere(w: World, v: World, t: nat, id: string, k: string)
    requires LockInv(w) && Frame(w, v, t, id) && Exclusive(w, t, id) && k != id
    ensures Worker(v, k) == Worker(w, k)
  {
  }

  lemma CopyElsewhere(pc: Pc, r: map<string, Instance>, q: map<string, Instance>, id: string)
    requires Holds(pc) != Some(id) && CopyOk(pc, r)
    requires forall k | k != id :: (k in q <==> k in r) && (k in r ==> q[k] == r[k])
    ensures CopyOk(pc, q)
  {
  }

  lemma LocalityLocks(w: World, v: World, t: nat, id: string)
    requires LockInv(w) && Frame(w, v, t, id) && Exclusive(w, t, id) && Local(v, t, id)
    ensures LockInv(v)
  {
  }

  lemma Locality(w: World, v: World, t: nat, id: string)
    requires Core(w) && Frame(w, v, t, id) && Exclusive(w, t, id) && Local(v, t, id)
    ensures Core(v)
  {
    LocalityLocks(w, v, t, id);
    forall u | u in v.threads ensures CopyOk(v.threads[u], v.store.records) {
      if u != t {
        CopyElsewhere(w.threads[u], w.store.records, v.store.records, id);
      }
    }
    forall st, k
      ensures (st, k) in v.store.index <==>
                k in v.store.records && v.store.records[k].state == st && !Unindexed(v, k)
    {
      if k != id { WorkerElsewhere(w, v, t, id, k); }
    }
    forall k | k in v.store.records ensures RecordOk(v, k) {
      if k != id { WorkerElsewhere(w, v, t, id, k); assert RecordOk(w, k); }
    }
  }

  /** A step that moves no id: only ports, the list order or the loop change. */
  ghost predicate Neutral(w: World, v: World, t: nat) {
    && OnlyThread(w, v, t)
    && (t in w.threads ==> Holds(w.threads[t]).None?)
    && (t in v.threads ==>
          && Holds(v.threads[t]).None?
          && CopyOk(v.threads[t], v.store.records)
          && PlaceOk(t, v.threads[t]))
    && LOOP in v.threads
    && v.locks == w.locks && v.store.records == w.store.records && v.store.index == w.store.index
    && v.hist.used == w.hist.used && v.hist.handed == w.hist.handed
    && (forall k :: k in v.store.ready <==> k in w.store.ready)
  }

  lemma Neutrality(w: World, v: World, t: nat)
    requires Core(w) && Neutral(w, v, t)
    ensures Core(v)
  {
    assert LockInv(v);
    forall k ensures Worker(v, k) == Worker(w, k) {}
    forall k | k in v.store.records ensures RecordOk(v, k) { assert RecordOk(w, k); }
  }

  predicate MovesId(p: ProvStep) {
    p.SetNew? || p.IndexNew? || p.PushNew?
  }

  predicate MovesPort(p: ProvStep) {
    p.Spop? || p.Track? || p.Untrack? || p.Return?
  }

  lemma PortNeutral(w: World, t: nat, p: ProvStep)
    requires Core(w) && ProvEnabled(w, t, p) && MovesPort(p)
    ensures Neutral(w, ProvEffect(w, t, p), t)
  {
  }

  lemma QueueNeutral(w: World, t: nat, p: ProvStep)
    requires Core(w) && ProvEnabled(w, t, p) && (p.Queue? || p.SpopEmpty? || p.Fails?)
    ensures Neutral(w, ProvEffect(w, t, p), t)
  {
  }

  lemma ProvNeutral(w: World, t: nat, p: ProvStep)
    requires Core(w) && ProvEnabled(w, t, p) && !MovesId(p)
    ensures Neutral(w, ProvEffect(w, t, p), t)
  {
    if MovesPort(p) { PortNeutral(w, t, p); } else { QueueNeutral(w, t, p); }
  }

  lemma PreLocal(w: World, t: nat, id: string)
    requires Core(w) && Exclusive(w, t, id)
    ensures Local(w, t, id)
  {
  }

  function ProvSubject(w: World, t: nat, p: ProvStep): string
    requires ProvEnabled(w, t, p) && MovesId(p)
  {
    if p.SetNew? then p.inst.id else w.threads[t].inst.id
  }

  lemma ProvFrame(w: World, t: nat, p: ProvStep)
    requires ProvEnabled(w, t, p) && MovesId(p)
    ensures Frame(w, ProvEffect(w, t, p), t, ProvSubject(w, t, p))
  {
  }

  lemma ProvLocal(w: World, t: nat, p: ProvStep)
    requires ProvEnabled(w, t, p) && MovesId(p)
    requires Local(w, t, ProvSubject(w, t, p))
    requires p.SetNew? ==>
               forall k :: (k in w.store.records || k in w.store.ready || k in w.hist.handed) ==> k in w.hist.used
    ensures Local(ProvEffect(w, t, p), t, ProvSubject(w, t, p))
  {
    var v := ProvEffect(w, t, p);
    var id := ProvSubject(w, t, p);
    assert Worker(w, id) == if p.SetNew? then None else Some(w.threads[t]);
    assert Worker(v, id) == if p.PushNew? then None else Some(v.threads[t]);
  }

  predicate TakesId(w: World, a: AcqStep) {
    a.Pop? ==> w.store.ready != [] && w.store.ready[0] in w.store.records
  }

  function AcqSubject(w: World, t: nat, a: AcqStep): string
    requires AcqEnabled(w, t, a) && TakesId(w, a)
  {
    if a.Pop? then w.store.ready[0] else Holds(w.threads[t]).value
  }

  lemma PopFrame(w: World, t: nat, a: AcqStep, c: Config)
    requires a.Pop? && AcqEnabled(w, t, a) && TakesId(w, a)
    requires Local(w, t, w.store.ready[0])
    ensures Frame(w, AcqEffect(w, t, a, c), t, w.store.ready[0])
  {
  }

  /** Steps that write nothing to the store. */
  predicate Silent(a: AcqStep) {
    a.TtlGet? || a.TtlFails? || a.RouteAdded? || a.RouteFails? || a.SendToken?
  }

  lemma SilentFrame(w: World, t: nat, a: AcqStep, c: Config)
    requires Silent(a) && AcqEnabled(w, t, a)
    ensures Frame(w, AcqEffect(w, t, a, c), t, AcqSubject(w, t, a))
  {
  }

  lemma WriteFrame(w: World, t: nat, a: AcqStep, c: Config)
    requires !a.Pop? && !Silent(a) && AcqEnabled(w, t, a)
    requires Local(w, t, AcqSubject(w, t, a))
    ensures Frame(w, AcqEffect(w, t, a, c), t, AcqSubject(w, t, a))
  {
  }

  lemma AcqFrame(w: World, t: nat, a: AcqStep, c: Config)
    requires AcqEnabled(w, t, a) && TakesId(w, a)
    requires Local(w, t, AcqSubject(w, t, a))
    ensures Frame(w, AcqEffect(w, t, a, c), t, AcqSubject(w, t, a))
  {
    if a.Pop? { PopFrame(w, t, a, c); } else if Silent(a) { SilentFrame(w, t, a, c); } else { WriteFrame(w, t, a, c); }
  }

  lemma PopLocal(w: World, t: nat, a: AcqStep, c: Config)
    requires a.Pop? && AcqEnabled(w, t, a) && TakesId(w, a)
    requires Local(w, t, w.store.ready[0])
    requires w.store.ready[0] !in w.store.ready[1..]
    ensures Local(AcqEffect(w, t, a, c), t, w.store.ready[0])
  {
  }

  lemma TtlLocal(w: World, t: nat, a: AcqStep, c: Config)
    requires (a.TtlGet? || a.TtlWrite?) && AcqEnabled(w, t, a)
    requires Local(w, t, AcqSubject(w, t, a))
    ensures Local(AcqEffect(w, t, a, c), t, AcqSubject(w, t, a))
  {
    var v := AcqEffect(w, t, a, c);
    var id := AcqSubject(w, t, a);
    assert Worker(w, id) == Some(w.threads[t]) && Worker(v, id) == Some(v.threads[t]);
  }

  lemma FailLocal(w: World, t: nat, a: AcqStep, c: Config)
    requires (a.TtlFails? || a.RouteFails?) && AcqEnabled(w, t, a)
    requires Local(w, t, AcqSubject(w, t, a))
    ensures Local(AcqEffect(w, t, a, c), t, AcqSubject(w, t, a))
  {
    var v := AcqEffect(w, t, a, c);
    var id := AcqSubject(w, t, a);
    assert Worker(w, id) == Some(w.threads[t]) && Worker(v, id) == Some(v.threads[t]);
  }

  lemma RouteLocal(w: World, t: nat, a: AcqStep, c: Config)
    requires (a.RouteAdded? || a.SendToken?) && AcqEnabled(w, t, a)
    requires Local(w, t, AcqSubject(w, t, a))
    ensures Local(AcqEffect(w, t, a, c), t, AcqSubject(w, t, a))
  {
    var v := AcqEffect(w, t, a, c);
    var id := AcqSubject(w, t, a);
    assert Worker(w, id) == Some(w.threads[t]) && Worker(v, id) == Some(v.threads[t]);
  }

  lemma SaveLocal(w: World, t: nat, a: AcqStep, c: Config)
    requires (a.SaveBack? || a.SaveBackIndex?) && AcqEnabled(w, t, a)
    requires Local(w, t, AcqSubject(w, t, a))
    ensures Local(AcqEffect(w, t, a, c), t, AcqSubject(w, t, a))
  {
    var v := AcqEffect(w, t, a, c);
    var id := AcqSubject(w, t, a);
    assert Worker(w, id) == Some(w.threads[t]);
    assert Worker(v, id) == if a.SaveBackIndex? then None else Some(v.threads[t]);
  }

  lemma AcqLocal(w: World, t: nat, a: AcqStep, c: Config)
    requires AcqEnabled(w, t, a) && TakesId(w, a) && NoDup(w.store.ready)
    requires Local(w, t, AcqSubject(w, t, a))
    ensures Local(AcqEffect(w, t, a, c), t, AcqSubject(w, t, a))
  {
    if a.Pop? { NoDupTail(w.store.ready); PopLocal(w, t, a, c); }
    else if a.TtlGet? || a.TtlWrite? { TtlLocal(w, t, a, c); }
    else if a.TtlFails? || a.RouteFails? { FailLocal(w, t, a, c); }
    else if a.RouteAdded? || a.SendToken? { RouteLocal(w, t, a, c); }
    else { SaveLocal(w, t, a, c); }
  }

  function RelSubject(w: World, t: nat, r: RelStep): string
    requires RelEnabled(w, t, r)
  {
    if r.Begin? then r.id else Holds(w.threads[t]).value
  }

  predicate ReadsRecord(r: RelStep) {
    r.Begin? || r.Get?
  }

  predicate FreesPort(r: RelStep) {
    r.UntrackPort? || r.ReturnPort?
  }

  lemma ReadFrame(w: World, t: nat, r: RelStep)
    requires ReadsRecord(r) && RelEnabled(w, t, r)
    ensures Frame(w, RelEffect(w, t, r), t, RelSubject(w, t, r))
  {
  }

  lemma BeginLocal(w: World, t: nat, r: RelStep)
    requires r.Begin? && RelEnabled(w, t, r)
    requires Local(w, t, r.id)
    ensures Local(RelEffect(w, t, r), t, r.id)
  {
    assert Worker(w, r.id) == None;
    assert Worker(RelEffect(w, t, r), r.id) == Some(RelWanted(r.id, false));
  }

  lemma GetLocal(w: World, t: nat, r: RelStep)
    requires r.Get? && RelEnabled(w, t, r)
    requires Local(w, t, RelSubject(w, t, r))
    ensures Local(RelEffect(w, t, r), t, RelSubject(w, t, r))
  {
    var v := RelEffect(w, t, r);
    var id := RelSubject(w, t, r);
    assert Worker(w, id) == Some(w.threads[t]);
    assert Worker(v, id) == if id in w.store.records then Some(v.threads[t]) else None;
  }

  lemma FreeFrame(w: World, t: nat, r: RelStep)
    requires FreesPort(r) && RelEnabled(w, t, r)
    ensures Frame(w, RelEffect(w, t, r), t, RelSubject(w, t, r))
  {
  }

  lemma FreeLocal(w: World, t: nat, r: RelStep)
    requires FreesPort(r) && RelEnabled(w, t, r)
    requires Local(w, t, RelSubject(w, t, r))
    ensures Local(RelEffect(w, t, r), t, RelSubject(w, t, r))
  {
    var v := RelEffect(w, t, r);
    var id := RelSubject(w, t, r);
    assert Worker(w, id) == Some(w.threads[t]) && Worker(v, id) == Some(v.threads[t]);
  }

  lemma DelFrame(w: World, t: nat, r: RelStep)
    requires !ReadsRecord(r) && !FreesPort(r) && RelEnabled(w, t, r)
    ensures Frame(w, RelEffect(w, t, r), t, RelSubject(w, t, r))
  {
  }

  lemma DelLocal(w: World, t: nat, r: RelStep)
    requires (r.DelGet? || r.DelUnindex?) && RelEnabled(w, t, r)
    requires Local(w, t, RelSubject(w, t, r))
    ensures Local(RelEffect(w, t, r), t, RelSubject(w, t, r))
  {
    var v := RelEffect(w, t, r);
    var id := RelSubject(w, t, r);
    assert Worker(w, id) == Some(w.threads[t]) && Worker(v, id) == Some(v.threads[t]);
  }

  lemma EraseLocal(w: World, t: nat, r: RelStep)
    requires r.Erase? && RelEnabled(w, t, r)
    requires Local(w, t, RelSubject(w, t, r))
    ensures Local(RelEffect(w, t, r), t, RelSubject(w, t, r))
  {
    var id := RelSubject(w, t, r);
    assert Worker(w, id) == Some(w.threads[t]);
    assert id !in RelEffect(w, t, r).store.records;
  }

  lemma RelLocal(w: World, t: nat, r: RelStep)
    requires RelEnabled(w, t, r)
    requires Local(w, t, RelSubject(w, t, r))
    ensures Frame(w, RelEffect(w, t, r), t, RelSubject(w, t, r))
    ensures Local(RelEffect(w, t, r), t, RelSubject(w, t, r))
  {
    match r
    case Begin(_) => ReadFrame(w, t, r); BeginLocal(w, t, r);
    case Get => ReadFrame(w, t, r); GetLocal(w, t, r);
    case UntrackPort => FreeFrame(w, t, r); FreeLocal(w, t, r);
    case ReturnPort => FreeFrame(w, t, r); FreeLocal(w, t, r);
    case Erase => DelFrame(w, t, r); EraseLocal(w, t, r);
    case _ => DelFrame(w, t, r); DelLocal(w, t, r);
  }

  function ExtSubject(w: World, t: nat, e: ExtStep): string
    requires ExtEnabled(w, t, e)
  {
    if e.Script? then e.id else Holds(w.threads[t]).value
  }

  lemma ScriptLocal(w: World, t: nat, e: ExtStep)
    requires e.Script? && ExtEnabled(w, t, e) && ExtEffect(w, t, e) != w
    requires Local(w, t, e.id)
    ensures Frame(w, ExtEffect(w, t, e), t, e.id)
    ensures Local(ExtEffect(w, t, e), t, e.id)
  {
    var v := ExtEffect(w, t, e);
    var u := ExtendDecision(w.store, e.id, 60 * e.minutes, e.maxSecs, e.nowUnix).newUnix;
    assert v.store.records == w.store.records[e.id := w.store.records[e.id].(expiresAtUnix := u)];
    assert v.threads == w.threads[t := ExtDone(e.id, u)] && v.locks == w.locks[e.id := t];
  }

  lemma SyncGetLocal(w: World, t: nat, e: ExtStep)
    requires e.SyncGet? && ExtEnabled(w, t, e)
    requires Local(w, t, ExtSubject(w, t, e))
    ensures Frame(w, ExtEffect(w, t, e), t, ExtSubject(w, t, e))
    ensures Local(ExtEffect(w, t, e), t, ExtSubject(w, t, e))
  {
    var v := ExtEffect(w, t, e);
    var id := ExtSubject(w, t, e);
    assert Worker(w, id) == Some(w.threads[t]);
    assert Worker(v, id) == if id in w.store.records then Some(v.threads[t]) else None;
  }

  lemma SyncSetLocal(w: World, t: nat, e: ExtStep)
    requires e.SyncSet? && ExtEnabled(w, t, e)
    requires Local(w, t, ExtSubject(w, t, e))
    ensures Frame(w, ExtEffect(w, t, e), t, ExtSubject(w, t, e))
    ensures Local(ExtEffect(w, t, e), t, ExtSubject(w, t, e))
  {
    var id := ExtSubject(w, t, e);
    assert Worker(w, id) == Some(w.threads[t]) && Worker(ExtEffect(w, t, e), id) == None;
  }

  lemma ExtLocal(w: World, t: nat, e: ExtStep)
    requires ExtEnabled(w, t, e) && ExtEffect(w, t, e) != w
    requires Local(w, t, ExtSubject(w, t, e))
    ensures Frame(w, ExtEffect(w, t, e), t, ExtSubject(w, t, e))
    ensures Local(ExtEffect(w, t, e), t, ExtSubject(w, t, e))
  {
    match e
    case Script(_, _, _, _) => ScriptLocal(w, t, e);
    case SyncGet => SyncGetLocal(w, t, e);
    case SyncSet => SyncSetLocal(w, t, e);
  }

  lemma LoopNeutral(w: World, l: LoopStep, c: Config)
    requires Core(w) && LoopEnabled(w, l)
    ensures Neutral(w, LoopEffect(w, l, c), LOOP)
  {
  }

  // ---- the lists -------------------------------------------------------------

  lemma NoDupAppend(s: seq<string>, x: string)
    requires NoDup(s) && x !in s
    ensures NoDup(s + [x])
  {
  }

  ghost predicate SameLists(w: World, v: World) {
    v.store.ready == w.store.ready && v.hist.handed == w.hist.handed && w.hist.used <= v.hist.used
  }

  lemma ProvLists(w: World, t: nat, p: ProvStep)
    requires ProvEnabled(w, t, p) && !p.PushNew?
    ensures SameLists(w, ProvEffect(w, t, p))
  {
  }

  lemma AcqLists(w: World, t: nat, a: AcqStep, c: Config)
    requires AcqEnabled(w, t, a) && !a.Pop?
    ensures SameLists(w, AcqEffect(w, t, a, c))
  {
  }

  lemma OtherLists(w: World, s: Step, c: Config)
    requires Enabled(w, s) && (s.Release? || s.Extend? || s.Loop?)
    ensures SameLists(w, Effect(w, s, c))
  {
  }

  lemma PopLists(w: World, t: nat, a: AcqStep, c: Config)
    requires Safe(w) && a.Pop? && AcqEnabled(w, t, a)
    ensures ListInv(AcqEffect(w, t, a, c))
    ensures !TakesId(w, a) ==> Neutral(w, AcqEffect(w, t, a, c), t)
  {
    var v := AcqEffect(w, t, a, c);
    if w.store.ready != [] {
      var x := w.store.ready[0];
      NoDupTail(w.store.ready);
      assert w.store.ready == [x] + w.store.ready[1..];
      if x in w.store.records {
        assert RecordOk(w, x);
        NoDupAppend(w.hist.handed, x);
        assert v.hist.handed == w.hist.handed + [x] && v.store.ready == w.store.ready[1..];
      } else {
        NoDupAppend(w.store.ready[1..], x);
        assert v.store.ready == w.store.ready[1..] + [x];
      }
    }
  }

  lemma PushLists(w: World, t: nat, p: ProvStep)
    requires Safe(w) && p.PushNew? && ProvEnabled(w, t, p)
    ensures ListInv(ProvEffect(w, t, p))
  {
    var id := w.threads[t].inst.id;
    assert Worker(w, id) == Some(w.threads[t]);
    assert RecordOk(w, id);
    NoDupAppend(w.store.ready, id);
  }

  lemma ListStep(w: World, s: Step, c: Config)
    requires Safe(w) && Enabled(w, s)
    ensures ListInv(Effect(w, s, c))
  {
    match s
    case Provision(t, p) => if p.PushNew? { PushLists(w, t, p); } else { ProvLists(w, t, p); }
    case Acquire(t, a) => if a.Pop? { PopLists(w, t, a, c); } else { AcqLists(w, t, a, c); }
    case _ => OtherLists(w, s, c);
  }

  // ---- every step keeps everything --------------------------------------------

  lemma ProvStepCore(w: World, t: nat, p: ProvStep)
    requires Safe(w) && ProvEnabled(w, t, p)
    ensures Core(ProvEffect(w, t, p))
  {
    var v := ProvEffect(w, t, p);
    if MovesId(p) {
      var id := ProvSubject(w, t, p);
      PreLocal(w, t, id);
      ProvFrame(w, t, p);
      ProvLocal(w, t, p);
      Locality(w, v, t, id);
    } else {
      ProvNeutral(w, t, p);
      Neutrality(w, v, t);
    }
  }

  lemma AcqStepCore(w: World, t: nat, a: AcqStep, c: Config)
    requires Safe(w) && AcqEnabled(w, t, a)
    ensures Core(AcqEffect(w, t, a, c))
  {
    var v := AcqEffect(w, t, a, c);
    if a.Pop? { PopLists(w, t, a, c); }
    if TakesId(w, a) {
      var id := AcqSubject(w, t, a);
      PreLocal(w, t, id);
      AcqFrame(w, t, a, c);
      AcqLocal(w, t, a, c);
      Locality(w, v, t, id);
    } else {
      Neutrality(w, v, t);
    }
  }

  lemma RelMoves(w: World, t: nat, r: RelStep)
    requires Safe(w) && RelEnabled(w, t, r)
    ensures var id := RelSubject(w, t, r);
            var v := RelEffect(w, t, r);
            Exclusive(w, t, id) && Local(w, t, id) && Frame(w, v, t, id) && Local(v, t, id)
  {
    PreLocal(w, t, RelSubject(w, t, r));
    RelLocal(w, t, r);
  }

  lemma RelStepCore(w: World, t: nat, r: RelStep)
    requires Safe(w) && RelEnabled(w, t, r)
    ensures Core(RelEffect(w, t, r))
  {
    RelMoves(w, t, r);
    Locality(w, RelEffect(w, t, r), t, RelSubject(w, t, r));
  }

  lemma ExtStepCore(w: World, t: nat, e: ExtStep)
    requires Safe(w) && ExtEnabled(w, t, e)
    ensures Core(ExtEffect(w, t, e))
  {
    var v := ExtEffect(w, t, e);
    if v != w {
      var id := ExtSubject(w, t, e);
      PreLocal(w, t, id);
      ExtLocal(w, t, e);
      Locality(w, v, t, id);
    }
  }

  lemma CoreStep(w: World, s: Step, c: Config)
    requires Safe(w) && Enabled(w, s)
    ensures Core(Effect(w, s, c))
  {
    match s
    case Provision(t, p) => ProvStepCore(w, t, p);
    case Acquire(t, a) => AcqStepCore(w, t, a, c);
    case Release(t, r) => RelStepCore(w, t, r);
    case Extend(t, e) => ExtStepCore(w, t, e);
    case Loop(l) => LoopNeutral(w, l, c); Neutrality(w, LoopEffect(w, l, c), LOOP);
  }

  lemma Ticked(w: World, v: World)
    requires Safe(w) && v == w.(step := v.step)
    ensures Safe(v)
  {
    assert forall k :: Worker(v, k) == Worker(w, k);
    forall k | k in v.store.records ensures RecordOk(v, k) { assert RecordOk(w, k); }
  }

  lemma SafeEffect(w: World, s: Step, c: Config)
    requires Safe(w) && Enabled(w, s)
    ensures Safe(Effect(w, s, c))
  {
    CoreStep(w, s, c);
    ListStep(w, s, c);
  }

  /** Every step of every operation, in any interleaving, keeps the invariant. */
  lemma SafeStep(w: World, s: Step, c: Config)
    requires Safe(w) && Enabled(w, s)
    ensures Safe(Apply(w, s, c))
  {
    SafeEffect(w, s, c);
    Ticked(Effect(w, s, c), Apply(w, s, c));
  }

  lemma SafeInitially(c: Config)
    ensures Safe(Initial(c))
  {
  }

  lemma {:induction false} SafeRun(ws: seq<World>, ss: seq<Step>, c: Config, i: nat)
    requires IsRun(ws, ss, c) && i < |ws|
    ensures Safe(ws[i])
  {
    if i == 0 {
      SafeInitially(c);
    } else {
      SafeRun(ws, ss, c, i - 1);
      assert RunStep(ws, ss, c, i - 1);
      SafeStep(ws[i - 1], ss[i - 1], c);
    }
  }

  /** With no id being worked on, state sets and list are exact. */
  lemma RestIsExact(w: World)
    requires Safe(w) && w.locks == map[]
    ensures Coherent(w.store) && ListExact(w.store)
  {
    forall id ensures Worker(w, id) == None {}
    forall id | id in w.store.records ensures RecordOk(w, id) {}
  }
}
