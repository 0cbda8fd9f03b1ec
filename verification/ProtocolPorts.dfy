/** Port conservation: in every interleaving the configured range is partitioned
    into available, tracked and in-transit ports, and each port that is not
    available has exactly one owner. */
module ProtocolPorts {
  import opened Domain
  import opened StoreSpec
  import opened Protocol
  import opened ProtocolSafety

  /** The port thread t owns itself. */
  function PortOf(w: World, t: nat): Option<int> {
    if t in w.threads then ThreadPort(w.threads[t]) else None
  }

  /** Thread t's own port is recorded in ports:in_use. */
  predicate Tracks(w: World, t: nat) {
    t in w.threads && (w.threads[t].PortTracked? || w.threads[t].PortAborted?)
  }

  /** The port a stored record owns: its own, until its Release has taken it over. */
  function RecordPort(w: World, id: string): Option<int> {
    if id in w.store.records && !PortReturned(w, id) then Some(w.store.records[id].port) else None
  }

  /** Ports between the two commands of AllocatePort or of ReleasePort. */
  function Transit(w: World): set<int> {
    set t | t in w.threads && PortOf(w, t).Some? && !Tracks(w, t) :: PortOf(w, t).value
  }

  ghost predicate Owned(w: World, p: int) {
    (exists t :: PortOf(w, t) == Some(p)) || (exists id :: RecordPort(w, id) == Some(p))
  }

  ghost predicate PortsOk(w: World, c: Config) {
    // a partition of the range
    && w.store.available + w.store.inUse + Transit(w) == c.range
    && w.store.available !! w.store.inUse !! Transit(w)
    // every port that is not available has an owner, and only one
    && (forall p :: p in c.range && p !in w.store.available <==> Owned(w, p))
    && (forall t, u | t != u && PortOf(w, t).Some? :: PortOf(w, t) != PortOf(w, u))
    && (forall i, j | i != j && RecordPort(w, i).Some? :: RecordPort(w, i) != RecordPort(w, j))
    && (forall t, i | PortOf(w, t).Some? :: PortOf(w, t) != RecordPort(w, i))
    // tracked ports are those of records and of provisioners past SADD
    && (forall i | RecordPort(w, i).Some? :: RecordPort(w, i).value in w.store.inUse)
    && (forall t | PortOf(w, t).Some? :: PortOf(w, t).value in w.store.inUse <==> Tracks(w, t))
  }

  // ---- the proof carries one ownership map ---------------------------------------

  datatype Owner = Nobody | Thread(t: nat) | Record(id: string)

  ghost predicate SetsOk(w: World, c: Config, owner: map<int, Owner>) {
    && owner.Keys == c.range
    && w.store.available <= c.range && w.store.inUse <= c.range
    && (forall p | p in owner :: p in w.store.available <==> owner[p] == Nobody)
    && (forall p | p in owner ::
          p in w.store.inUse <==> owner[p].Record? || (owner[p].Thread? && Tracks(w, owner[p].t)))
  }

  ghost predicate ThreadsOk(w: World, owner: map<int, Owner>) {
    && (forall t | PortOf(w, t).Some? :: PortOf(w, t).value in owner && owner[PortOf(w, t).value] == Thread(t))
    && (forall p | p in owner && owner[p].Thread? :: PortOf(w, owner[p].t) == Some(p))
  }

  ghost predicate RecordsOk(w: World, owner: map<int, Owner>) {
    && (forall i | RecordPort(w, i).Some? ::
          RecordPort(w, i).value in owner && owner[RecordPort(w, i).value] == Record(i))
    && (forall p | p in owner && owner[p].Record? :: RecordPort(w, owner[p].id) == Some(p))
  }

  ghost predicate OwnerOk(w: World, c: Config, owner: map<int, Owner>) {
    SetsOk(w, c, owner) && ThreadsOk(w, owner) && RecordsOk(w, owner)
  }

  lemma OwnerMeansPorts(w: World, c: Config, owner: map<int, Owner>)
    requires OwnerOk(w, c, owner)
    ensures PortsOk(w, c)
  {
    forall p ensures p in c.range && p !in w.store.available <==> Owned(w, p) {
      if p in owner && owner[p].Thread? { assert PortOf(w, owner[p].t) == Some(p); }
      if p in owner && owner[p].Record? { assert RecordPort(w, owner[p].id) == Some(p); }
    }
    forall p ensures p in Transit(w) <==> p in owner && owner[p].Thread? && !Tracks(w, owner[p].t) {
      if p in owner && owner[p].Thread? && !Tracks(w, owner[p].t) {
        var t := owner[p].t;
        assert PortOf(w, t) == Some(p) && t in w.threads;
      }
      if p in Transit(w) {
        var t :| t in w.threads && PortOf(w, t) == Some(p) && !Tracks(w, t);
        assert owner[p] == Thread(t);
      }
    }
    assert forall p :: p in w.store.available + w.store.inUse + Transit(w) <==> p in owner;
    assert forall p :: p in w.store.available ==> p !in w.store.inUse && p !in Transit(w);
    assert forall p :: p in w.store.inUse ==> p !in Transit(w);
  }

  /** Ownership changes hands at exactly five commands. */
  ghost function Handover(w: World, s: Step, owner: map<int, Owner>): map<int, Owner>
    requires Enabled(w, s)
  {
    match s
    case Provision(t, Spop(p)) => owner[p := Thread(t)]
    case Provision(t, SetNew(i)) => owner[i.port := Record(i.id)]
    case Provision(t, Return) => owner[w.threads[t].port := Nobody]
    case Release(t, UntrackPort) => owner[w.threads[t].inst.port := Thread(t)]
    case Release(t, ReturnPort) => owner[w.threads[t].inst.port := Nobody]
    case _ => owner
  }

  /** Nothing about ports changes away from thread t and id. */
  ghost predicate Elsewhere(w: World, v: World, t: nat, id: string) {
    && (forall u | u != t :: PortOf(v, u) == PortOf(w, u) && Tracks(v, u) == Tracks(w, u))
    && (forall k | k != id :: RecordPort(v, k) == RecordPort(w, k))
  }

  ghost predicate SamePorts(w: World, v: World, t: nat, id: string) {
    && v.store.available == w.store.available && v.store.inUse == w.store.inUse
    && PortOf(v, t) == PortOf(w, t) && Tracks(v, t) == Tracks(w, t) && RecordPort(v, id) == RecordPort(w, id)
  }

  lemma FrameElsewhere(w: World, v: World, t: nat, id: string)
    requires LockInv(w) && Frame(w, v, t, id) && Exclusive(w, t, id)
    ensures Elsewhere(w, v, t, id)
  {
    forall k | k != id ensures RecordPort(v, k) == RecordPort(w, k) {
      WorkerElsewhere(w, v, t, id, k);
    }
  }

  lemma SameOwners(w: World, v: World, c: Config, owner: map<int, Owner>, t: nat, id: string)
    requires OwnerOk(w, c, owner) && Elsewhere(w, v, t, id) && SamePorts(w, v, t, id)
    ensures OwnerOk(v, c, owner)
  {
    forall u ensures PortOf(v, u) == PortOf(w, u) && Tracks(v, u) == Tracks(w, u) {}
    forall k ensures RecordPort(v, k) == RecordPort(w, k) {}
  }

  lemma TransferThreads(w: World, v: World, owner: map<int, Owner>, t: nat, id: string, p: int, o: Owner)
    requires ThreadsOk(w, owner) && Elsewhere(w, v, t, id)
    requires p in owner && owner[p] in {Nobody, Thread(t), Record(id)} && o in {Nobody, Thread(t), Record(id)}
    requires PortOf(w, t) in {None, Some(p)}
    requires PortOf(v, t) == (if o == Thread(t) then Some(p) else None)
    ensures ThreadsOk(v, owner[p := o])
  {
  }

  lemma TransferRecords(w: World, v: World, owner: map<int, Owner>, t: nat, id: string, p: int, o: Owner)
    requires RecordsOk(w, owner) && Elsewhere(w, v, t, id)
    requires p in owner && owner[p] in {Nobody, Thread(t), Record(id)} && o in {Nobody, Thread(t), Record(id)}
    requires RecordPort(v, id) ==
               if o == Record(id) then Some(p) else if RecordPort(w, id) == Some(p) then None else RecordPort(w, id)
    requires o == Record(id) ==> RecordPort(w, id) == None
    ensures RecordsOk(v, owner[p := o])
  {
  }

  /** Port p passes to owner o by a step of thread t on id. */
  lemma Transfer(w: World, v: World, c: Config, owner: map<int, Owner>, t: nat, id: string, p: int, o: Owner)
    requires OwnerOk(w, c, owner) && Elsewhere(w, v, t, id)
    requires p in owner && owner[p] in {Nobody, Thread(t), Record(id)} && o in {Nobody, Thread(t), Record(id)}
    requires v.store.available == if o == Nobody then w.store.available + {p} else w.store.available - {p}
    requires v.store.inUse ==
               if o.Record? || (o.Thread? && Tracks(v, t)) then w.store.inUse + {p} else w.store.inUse - {p}
    requires PortOf(w, t) in {None, Some(p)}
    requires PortOf(v, t) == (if o == Thread(t) then Some(p) else None)
    requires RecordPort(v, id) ==
               if o == Record(id) then Some(p) else if RecordPort(w, id) == Some(p) then None else RecordPort(w, id)
    requires o == Record(id) ==> RecordPort(w, id) == None
    ensures OwnerOk(v, c, owner[p := o])
  {
    TransferThreads(w, v, owner, t, id, p, o);
    TransferRecords(w, v, owner, t, id, p, o);
    assert p in c.range;
  }

  /** A step of thread t on id that leaves their ports alone. */
  lemma PlainOwners(w: World, v: World, c: Config, owner: map<int, Owner>, t: nat, id: string)
    requires LockInv(w) && Frame(w, v, t, id) && Exclusive(w, t, id)
    requires OwnerOk(w, c, owner) && SamePorts(w, v, t, id)
    ensures OwnerOk(v, c, owner)
  {
    FrameElsewhere(w, v, t, id);
    SameOwners(w, v, c, owner, t, id);
  }

  lemma NeutralElsewhere(w: World, v: World, t: nat, id: string)
    requires LockInv(w) && Neutral(w, v, t)
    ensures Elsewhere(w, v, t, id) && RecordPort(v, id) == RecordPort(w, id)
  {
    forall k ensures RecordPort(v, k) == RecordPort(w, k) {
      assert Worker(v, k) == Worker(w, k);
    }
  }

  lemma RecordPlain(w: World, t: nat, p: ProvStep)
    requires LockInv(w) && ProvEnabled(w, t, p) && (p.IndexNew? || p.PushNew?)
    ensures SamePorts(w, ProvEffect(w, t, p), t, w.threads[t].inst.id)
  {
    var id := w.threads[t].inst.id;
    assert Worker(w, id) == Some(w.threads[t]);
    assert Worker(ProvEffect(w, t, p), id) == if p.PushNew? then None else Some(RecordIndexed(w.threads[t].inst));
  }

  lemma QueuePlain(w: World, t: nat, p: ProvStep)
    requires Safe(w) && ProvEnabled(w, t, p) && (p.Queue? || p.SpopEmpty? || p.Fails?)
    ensures var v := ProvEffect(w, t, p); Elsewhere(w, v, t, "") && SamePorts(w, v, t, "")
  {
    QueueNeutral(w, t, p);
    NeutralElsewhere(w, ProvEffect(w, t, p), t, "");
  }

  lemma ProvOwners(w: World, t: nat, p: ProvStep, c: Config, owner: map<int, Owner>)
    requires Safe(w) && OwnerOk(w, c, owner) && ProvEnabled(w, t, p)
    ensures OwnerOk(ProvEffect(w, t, p), c, Handover(w, Provision(t, p), owner))
  {
    var v := ProvEffect(w, t, p);
    if p.SetNew? {
      NewRecordOwner(w, t, p, c, owner);
    } else if MovesPort(p) {
      PortMoves(w, t, p, c, owner);
    } else if MovesId(p) {
      RecordPlain(w, t, p);
      ProvFrame(w, t, p);
      PlainOwners(w, v, c, owner, t, ProvSubject(w, t, p));
    } else {
      QueuePlain(w, t, p);
      SameOwners(w, v, c, owner, t, "");
    }
  }

  lemma NewRecordFacts(w: World, t: nat, p: ProvStep)
    requires ProvEnabled(w, t, p) && p.SetNew? && p.inst.id !in w.store.records
    ensures PortOf(w, t) == Some(p.inst.port) && Tracks(w, t) && PortOf(ProvEffect(w, t, p), t) == None
    ensures RecordPort(w, p.inst.id) == None && RecordPort(ProvEffect(w, t, p), p.inst.id) == Some(p.inst.port)
  {
    assert Worker(ProvEffect(w, t, p), p.inst.id) == Some(RecordSet(p.inst));
  }

  lemma TrackedPort(w: World, c: Config, owner: map<int, Owner>, t: nat, port: int)
    requires OwnerOk(w, c, owner) && PortOf(w, t) == Some(port) && Tracks(w, t)
    ensures port in owner && owner[port] == Thread(t)
    ensures w.store.available - {port} == w.store.available && w.store.inUse + {port} == w.store.inUse
  {
  }

  lemma NewRecordOwner(w: World, t: nat, p: ProvStep, c: Config, owner: map<int, Owner>)
    requires Safe(w) && OwnerOk(w, c, owner) && ProvEnabled(w, t, p) && p.SetNew?
    ensures OwnerOk(ProvEffect(w, t, p), c, Handover(w, Provision(t, p), owner))
  {
    NewIdAbsent(w, p.inst.id);
    NewRecordFacts(w, t, p);
    ProvFrame(w, t, p);
    FrameElsewhere(w, ProvEffect(w, t, p), t, p.inst.id);
    TrackedPort(w, c, owner, t, p.inst.port);
    Transfer(w, ProvEffect(w, t, p), c, owner, t, p.inst.id, p.inst.port, Record(p.inst.id));
  }

  lemma NewIdAbsent(w: World, id: string)
    requires Safe(w) && id !in w.hist.used
    ensures id !in w.store.records
  {
    assert id in w.store.records ==> RecordOk(w, id);
  }

  lemma PortMoveFacts(w: World, t: nat, p: ProvStep)
    requires ProvEnabled(w, t, p) && MovesPort(p)
    ensures var v := ProvEffect(w, t, p);
            var port := if p.Spop? then p.port else w.threads[t].port;
            && PortOf(w, t) == (if p.Spop? then None else Some(port))
            && PortOf(v, t) == (if p.Return? then None else Some(port))
            && Tracks(v, t) == p.Track? && Tracks(w, t) == p.Untrack?
  {
  }

  lemma PortTaken(w: World, t: nat, p: ProvStep, c: Config, owner: map<int, Owner>)
    requires OwnerOk(w, c, owner) && ProvEnabled(w, t, p) && MovesPort(p) && !p.Return?
    requires var v := ProvEffect(w, t, p); Elsewhere(w, v, t, "") && RecordPort(v, "") == RecordPort(w, "")
    ensures OwnerOk(ProvEffect(w, t, p), c, Handover(w, Provision(t, p), owner))
  {
    PortMoveFacts(w, t, p);
    var port := if p.Spop? then p.port else w.threads[t].port;
    Transfer(w, ProvEffect(w, t, p), c, owner, t, "", port, Thread(t));
    assert !p.Spop? ==> owner[port := Thread(t)] == owner;
  }

  lemma PortGiven(w: World, t: nat, p: ProvStep, c: Config, owner: map<int, Owner>)
    requires OwnerOk(w, c, owner) && ProvEnabled(w, t, p) && p.Return?
    requires var v := ProvEffect(w, t, p); Elsewhere(w, v, t, "") && RecordPort(v, "") == RecordPort(w, "")
    ensures OwnerOk(ProvEffect(w, t, p), c, Handover(w, Provision(t, p), owner))
  {
    PortMoveFacts(w, t, p);
    Transfer(w, ProvEffect(w, t, p), c, owner, t, "", w.threads[t].port, Nobody);
  }

  lemma PortMoves(w: World, t: nat, p: ProvStep, c: Config, owner: map<int, Owner>)
    requires Safe(w) && OwnerOk(w, c, owner) && ProvEnabled(w, t, p) && MovesPort(p)
    ensures OwnerOk(ProvEffect(w, t, p), c, Handover(w, Provision(t, p), owner))
  {
    PortNeutral(w, t, p);
    NeutralElsewhere(w, ProvEffect(w, t, p), t, "");
    if p.Return? { PortGiven(w, t, p, c, owner); } else { PortTaken(w, t, p, c, owner); }
  }

  lemma PopPlain(w: World, t: nat, a: AcqStep, c: Config)
    requires a.Pop? && AcqEnabled(w, t, a) && TakesId(w, a) && Local(w, t, w.store.ready[0])
    ensures SamePorts(w, AcqEffect(w, t, a, c), t, w.store.ready[0])
  {
    var v := AcqEffect(w, t, a, c);
    assert Worker(v, w.store.ready[0]) == Some(v.threads[t]);
  }

  lemma GoOnPlain(w: World, t: nat, a: AcqStep, c: Config)
    requires (a.TtlGet? || a.RouteAdded? || a.SendToken?) && AcqEnabled(w, t, a) && Local(w, t, AcqSubject(w, t, a))
    ensures SamePorts(w, AcqEffect(w, t, a, c), t, AcqSubject(w, t, a))
  {
    var v := AcqEffect(w, t, a, c);
    var id := AcqSubject(w, t, a);
    assert Worker(w, id) == Some(w.threads[t]) && Worker(v, id) == Some(v.threads[t]);
  }

  lemma FailPlain(w: World, t: nat, a: AcqStep, c: Config)
    requires (a.TtlFails? || a.RouteFails?) && AcqEnabled(w, t, a) && Local(w, t, AcqSubject(w, t, a))
    ensures SamePorts(w, AcqEffect(w, t, a, c), t, AcqSubject(w, t, a))
  {
    var v := AcqEffect(w, t, a, c);
    var id := AcqSubject(w, t, a);
    assert Worker(w, id) == Some(w.threads[t]) && Worker(v, id) == Some(v.threads[t]);
  }

  lemma TtlPlain(w: World, t: nat, a: AcqStep, c: Config)
    requires a.TtlWrite? && AcqEnabled(w, t, a) && Local(w, t, AcqSubject(w, t, a))
    ensures SamePorts(w, AcqEffect(w, t, a, c), t, AcqSubject(w, t, a))
  {
    var v := AcqEffect(w, t, a, c);
    var id := AcqSubject(w, t, a);
    assert Worker(w, id) == Some(w.threads[t]) && Worker(v, id) == Some(v.threads[t]);
  }

  lemma SavePlain(w: World, t: nat, a: AcqStep, c: Config)
    requires (a.SaveBack? || a.SaveBackIndex?) && AcqEnabled(w, t, a) && Local(w, t, AcqSubject(w, t, a))
    ensures SamePorts(w, AcqEffect(w, t, a, c), t, AcqSubject(w, t, a))
  {
    var v := AcqEffect(w, t, a, c);
    var id := AcqSubject(w, t, a);
    assert Worker(w, id) == Some(w.threads[t]);
    assert Worker(v, id) == if a.SaveBackIndex? then None else Some(v.threads[t]);
  }

  lemma AcqPlain(w: World, t: nat, a: AcqStep, c: Config)
    requires AcqEnabled(w, t, a) && TakesId(w, a) && Local(w, t, AcqSubject(w, t, a))
    ensures SamePorts(w, AcqEffect(w, t, a, c), t, AcqSubject(w, t, a))
  {
    if a.Pop? { PopPlain(w, t, a, c); }
    else if a.TtlGet? || a.RouteAdded? || a.SendToken? { GoOnPlain(w, t, a, c); }
    else if a.TtlFails? || a.RouteFails? { FailPlain(w, t, a, c); }
    else if a.TtlWrite? { TtlPlain(w, t, a, c); }
    else { SavePlain(w, t, a, c); }
  }

  lemma AcqOwners(w: World, t: nat, a: AcqStep, c: Config, owner: map<int, Owner>)
    requires Safe(w) && OwnerOk(w, c, owner) && AcqEnabled(w, t, a)
    ensures OwnerOk(AcqEffect(w, t, a, c), c, owner)
  {
    var v := AcqEffect(w, t, a, c);
    if TakesId(w, a) {
      var id := AcqSubject(w, t, a);
      PreLocal(w, t, id);
      AcqFrame(w, t, a, c);
      AcqPlain(w, t, a, c);
      PlainOwners(w, v, c, owner, t, id);
    } else {
      PopLists(w, t, a, c);
      NeutralElsewhere(w, v, t, "");
      SameOwners(w, v, c, owner, t, "");
    }
  }

  lemma ReadPlain(w: World, t: nat, r: RelStep)
    requires RelEnabled(w, t, r) && ReadsRecord(r) && Local(w, t, RelSubject(w, t, r))
    ensures SamePorts(w, RelEffect(w, t, r), t, RelSubject(w, t, r))
  {
    var v := RelEffect(w, t, r);
    var id := RelSubject(w, t, r);
    assert Worker(w, id) == if r.Begin? then None else Some(w.threads[t]);
    assert Worker(v, id) == if t in v.threads then Some(v.threads[t]) else None;
  }

  lemma DelPlain(w: World, t: nat, r: RelStep)
    requires RelEnabled(w, t, r) && !ReadsRecord(r) && !FreesPort(r) && Local(w, t, RelSubject(w, t, r))
    ensures SamePorts(w, RelEffect(w, t, r), t, RelSubject(w, t, r))
  {
    var v := RelEffect(w, t, r);
    var id := RelSubject(w, t, r);
    assert Worker(w, id) == Some(w.threads[t]);
    assert Worker(v, id) == if t in v.threads then Some(v.threads[t]) else None;
  }

  lemma RelPortFacts(w: World, t: nat, r: RelStep)
    requires RelEnabled(w, t, r) && FreesPort(r) && Local(w, t, RelSubject(w, t, r))
    ensures var v := RelEffect(w, t, r);
            var id := RelSubject(w, t, r);
            var port := w.threads[t].inst.port;
            && PortOf(w, t) == (if r.UntrackPort? then None else Some(port))
            && PortOf(v, t) == (if r.UntrackPort? then Some(port) else None)
            && !Tracks(v, t) && !Tracks(w, t)
            && RecordPort(w, id) == (if r.UntrackPort? then Some(port) else None)
            && RecordPort(v, id) == None
  {
    var v := RelEffect(w, t, r);
    var id := RelSubject(w, t, r);
    assert Worker(w, id) == Some(w.threads[t]) && Worker(v, id) == Some(v.threads[t]);
  }

  lemma RelPortOwner(w: World, t: nat, r: RelStep, c: Config, owner: map<int, Owner>)
    requires OwnerOk(w, c, owner) && RelEnabled(w, t, r) && FreesPort(r)
    requires var id := RelSubject(w, t, r); Local(w, t, id) && Elsewhere(w, RelEffect(w, t, r), t, id)
    ensures OwnerOk(RelEffect(w, t, r), c, Handover(w, Release(t, r), owner))
  {
    RelPortFacts(w, t, r);
    var o := if r.ReturnPort? then Nobody else Thread(t);
    Transfer(w, RelEffect(w, t, r), c, owner, t, RelSubject(w, t, r), w.threads[t].inst.port, o);
  }

  lemma RelPlainOwner(w: World, t: nat, r: RelStep, c: Config, owner: map<int, Owner>)
    requires Safe(w) && OwnerOk(w, c, owner) && RelEnabled(w, t, r) && !FreesPort(r)
    ensures OwnerOk(RelEffect(w, t, r), c, owner)
  {
    RelMoves(w, t, r);
    if ReadsRecord(r) { ReadPlain(w, t, r); } else { DelPlain(w, t, r); }
    PlainOwners(w, RelEffect(w, t, r), c, owner, t, RelSubject(w, t, r));
  }

  lemma RelOwners(w: World, t: nat, r: RelStep, c: Config, owner: map<int, Owner>)
    requires Safe(w) && OwnerOk(w, c, owner) && RelEnabled(w, t, r)
    ensures OwnerOk(RelEffect(w, t, r), c, Handover(w, Release(t, r), owner))
  {
    if FreesPort(r) {
      RelMoves(w, t, r);
      FrameElsewhere(w, RelEffect(w, t, r), t, RelSubject(w, t, r));
      RelPortOwner(w, t, r, c, owner);
    } else {
      RelPlainOwner(w, t, r, c, owner);
    }
  }

  lemma ScriptPlain(w: World, t: nat, e: ExtStep)
    requires e.Script? && ExtEnabled(w, t, e) && ExtEffect(w, t, e) != w && Local(w, t, e.id)
    ensures SamePorts(w, ExtEffect(w, t, e), t, e.id)
  {
    assert Worker(w, e.id) == None && Worker(ExtEffect(w, t, e), e.id) == Some(ExtEffect(w, t, e).threads[t]);
  }

  lemma SyncPlain(w: World, t: nat, e: ExtStep)
    requires !e.Script? && ExtEnabled(w, t, e) && Local(w, t, ExtSubject(w, t, e))
    ensures SamePorts(w, ExtEffect(w, t, e), t, ExtSubject(w, t, e))
  {
    var v := ExtEffect(w, t, e);
    var id := ExtSubject(w, t, e);
    assert Worker(w, id) == Some(w.threads[t]);
    assert Worker(v, id) == if t in v.threads then Some(v.threads[t]) else None;
  }

  lemma ExtOwners(w: World, t: nat, e: ExtStep, c: Config, owner: map<int, Owner>)
    requires Safe(w) && OwnerOk(w, c, owner) && ExtEnabled(w, t, e)
    ensures OwnerOk(ExtEffect(w, t, e), c, owner)
  {
    var v := ExtEffect(w, t, e);
    if v != w {
      var id := ExtSubject(w, t, e);
      PreLocal(w, t, id);
      ExtLocal(w, t, e);
      if e.Script? { ScriptPlain(w, t, e); } else { SyncPlain(w, t, e); }
      PlainOwners(w, v, c, owner, t, id);
    }
  }

  lemma LoopOwners(w: World, l: LoopStep, c: Config, owner: map<int, Owner>)
    requires Safe(w) && OwnerOk(w, c, owner) && LoopEnabled(w, l)
    ensures OwnerOk(LoopEffect(w, l, c), c, owner)
  {
    LoopNeutral(w, l, c);
    NeutralElsewhere(w, LoopEffect(w, l, c), LOOP, "");
    SameOwners(w, LoopEffect(w, l, c), c, owner, LOOP, "");
  }

  lemma OwnersStep(w: World, s: Step, c: Config, owner: map<int, Owner>)
    requires Safe(w) && OwnerOk(w, c, owner) && Enabled(w, s)
    ensures OwnerOk(Effect(w, s, c), c, Handover(w, s, owner))
  {
    match s
    case Provision(t, p) => ProvOwners(w, t, p, c, owner);
    case Acquire(t, a) => AcqOwners(w, t, a, c, owner);
    case Release(t, r) => RelOwners(w, t, r, c, owner);
    case Extend(t, e) => ExtOwners(w, t, e, c, owner);
    case Loop(l) => LoopOwners(w, l, c, owner);
  }

  lemma OwnersTicked(w: World, v: World, c: Config, owner: map<int, Owner>)
    requires OwnerOk(w, c, owner) && v == w.(step := v.step)
    ensures OwnerOk(v, c, owner)
  {
    forall k ensures RecordPort(v, k) == RecordPort(w, k) {}
    forall u ensures PortOf(v, u) == PortOf(w, u) && Tracks(v, u) == Tracks(w, u) {}
  }

  lemma {:induction false} OwnersOfRun(ws: seq<World>, ss: seq<Step>, c: Config, i: nat)
    returns (owner: map<int, Owner>)
    requires IsRun(ws, ss, c) && i < |ws|
    ensures OwnerOk(ws[i], c, owner)
  {
    if i == 0 {
      owner := map p | p in c.range :: Nobody;
    } else {
      var before := OwnersOfRun(ws, ss, c, i - 1);
      SafeRun(ws, ss, c, i - 1);
      assert RunStep(ws, ss, c, i - 1);
      owner := Handover(ws[i - 1], ss[i - 1], before);
      OwnersStep(ws[i - 1], ss[i - 1], c, before);
      OwnersTicked(Effect(ws[i - 1], ss[i - 1], c), ws[i], c, owner);
    }
  }

  /** Main theorem: every reachable state partitions the port range, and every
      port in use has exactly one owner. */
  lemma PortsConserved(ws: seq<World>, ss: seq<Step>, c: Config, i: nat)
    requires IsRun(ws, ss, c) && i < |ws|
    ensures PortsOk(ws[i], c)
  {
    var owner := OwnersOfRun(ws, ss, c, i);
    OwnerMeansPorts(ws[i], c, owner);
  }

  /** InitializePorts on a store in use, as after a restart: it keeps available, used
      and in-transit ports a partition if and only if a port is still available. With
      none left every port of the range is owned, and all are offered again. */
  lemma RefillSafe(ws: seq<World>, ss: seq<Step>, c: Config, i: nat)
    requires IsRun(ws, ss, c) && i < |ws|
    ensures PortsOk(ws[i].(store := Refill(ws[i].store, c.range)), c) <==> ws[i].store.available != {} || c.range == {}
  {
    var w := ws[i];
    var v := w.(store := Refill(w.store, c.range));
    PortsConserved(ws, ss, c, i);
    if w.store.available != {} || c.range == {} {
      assert v == w;
    } else {
      assert forall t :: PortOf(v, t) == PortOf(w, t) && Tracks(v, t) == Tracks(w, t);
      assert Transit(v) == Transit(w);
      assert PortsOk(v, c) ==> c.range == {};
    }
  }

  lemma SameThreads(w: World, v: World)
    requires v == w.(store := w.store.(available := v.store.available, inUse := v.store.inUse))
    ensures Transit(v) == Transit(w) && forall p :: Owned(v, p) == Owned(w, p)
  {
    assert forall t :: PortOf(v, t) == PortOf(w, t) && Tracks(v, t) == Tracks(w, t);
    forall id ensures RecordPort(v, id) == RecordPort(w, id) {
      assert Worker(v, id) == Worker(w, id);
    }
    forall p ensures Owned(v, p) == Owned(w, p) {
      if t :| PortOf(w, t) == Some(p) { assert PortOf(v, t) == Some(p); }
      if id :| RecordPort(w, id) == Some(p) { assert RecordPort(v, id) == Some(p); }
      if t :| PortOf(v, t) == Some(p) { assert PortOf(w, t) == Some(p); }
      if id :| RecordPort(v, id) == Some(p) { assert RecordPort(w, id) == Some(p); }
    }
  }

  /** The port commands of a Release that comes a second time, from an overlapping
      Release or a cleanup task delivered again, in any reachable state. SREM is
      harmless if and only if the port is not in use; SADD, and both together, if and
      only if the port is still available. It matters who owns the port now, be it a
      record or a provision that has not stored its record yet. */
  lemma StalePortCommands(ws: seq<World>, ss: seq<Step>, c: Config, i: nat, port: int)
    requires IsRun(ws, ss, c) && i < |ws|
    ensures var w := ws[i];
            && (PortsOk(w.(store := w.store.(inUse := w.store.inUse - {port})), c) <==> port !in w.store.inUse)
            && (PortsOk(w.(store := w.store.(available := w.store.available + {port})), c)
                <==> port in w.store.available)
            && (PortsOk(w.(store := ReleasePort(w.store, port)), c) <==> port in w.store.available)
  {
    var w := ws[i];
    PortsConserved(ws, ss, c, i);
    Untracking(w, c, port);
    Offering(w, c, port);
  }

  lemma Untracking(w: World, c: Config, port: int)
    requires PortsOk(w, c)
    ensures PortsOk(w.(store := w.store.(inUse := w.store.inUse - {port})), c) <==> port !in w.store.inUse
  {
    var v := w.(store := w.store.(inUse := w.store.inUse - {port}));
    if port in w.store.inUse {
      SameThreads(w, v);
      assert port in c.range && port !in v.store.available + v.store.inUse + Transit(v);
    } else {
      assert v.store.inUse == w.store.inUse;
      assert v == w;
    }
  }

  lemma Offering(w: World, c: Config, port: int)
    requires PortsOk(w, c)
    ensures PortsOk(w.(store := w.store.(available := w.store.available + {port})), c) <==> port in w.store.available
    ensures PortsOk(w.(store := ReleasePort(w.store, port)), c) <==> port in w.store.available
  {
    var v := w.(store := w.store.(available := w.store.available + {port}));
    var u := w.(store := ReleasePort(w.store, port));
    if port in w.store.available {
      assert v.store.available == w.store.available && u.store.inUse == w.store.inUse;
      assert v == w && u == w;
    } else {
      SameThreads(w, v);
      SameThreads(w, u);
      assert Owned(w, port) <==> port in c.range;
      assert port in v.store.available && port in u.store.available;
    }
  }

  /** A whole second Release of an id whose record is gone. */
  lemma SecondRelease(ws: seq<World>, ss: seq<Step>, c: Config, i: nat, id: string, port: int)
    requires IsRun(ws, ss, c) && i < |ws| && id !in ws[i].store.records
    ensures PortsOk(ws[i].(store := ReleasedStore(ws[i].store, id, port)), c) <==> port in ws[i].store.available
  {
    StalePortCommands(ws, ss, c, i, port);
    assert ReleasedStore(ws[i].store, id, port) == ReleasePort(ws[i].store, port);
  }
}
