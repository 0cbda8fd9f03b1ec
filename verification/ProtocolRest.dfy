/** What the protocol leaves when nothing is in flight: the state the sequential
    operations start from. */
module ProtocolRest {
  import opened Domain
  import opened Protocol
  import opened ProtocolSafety
  import opened ProtocolPorts
  import opened Caddy
  import opened Cleanup

  /** Hostnames have no dots and belong to one record each. */
  ghost predicate HostsOk(r: map<string, Instance>) {
    && (forall j | j in r :: '.' !in r[j].hostname)
    && (forall j, k | j in r && k in r && j != k :: r[j].hostname != r[k].hostname)
  }

  ghost predicate HostsKept(r: map<string, Instance>, q: map<string, Instance>) {
    forall k | k in q :: k in r && q[k].hostname == r[k].hostname
  }

  lemma AcqHosts(w: World, t: nat, a: AcqStep, c: Config)
    requires CopyInv(w) && RecordInv(w) && AcqEnabled(w, t, a)
    ensures HostsKept(w.store.records, AcqEffect(w, t, a, c).store.records)
  {
    if a.Pop? {
      assert w.store.ready != [] && w.store.ready[0] in w.store.records ==> RecordOk(w, w.store.ready[0]);
    } else {
      assert CopyOk(w.threads[t], w.store.records);
    }
  }

  lemma RelHosts(w: World, t: nat, r: RelStep)
    requires RelEnabled(w, t, r)
    ensures HostsKept(w.store.records, RelEffect(w, t, r).store.records)
  {
  }

  lemma ExtHosts(w: World, t: nat, e: ExtStep)
    requires CopyInv(w) && RecordInv(w) && ExtEnabled(w, t, e)
    ensures HostsKept(w.store.records, ExtEffect(w, t, e).store.records)
  {
    if e.Script? {
      assert e.id in w.store.records ==> RecordOk(w, e.id);
    } else {
      assert CopyOk(w.threads[t], w.store.records);
    }
  }

  lemma ProvHosts(w: World, t: nat, p: ProvStep)
    requires Safe(w) && HostsOk(w.store.records) && ProvEnabled(w, t, p)
    ensures HostsOk(ProvEffect(w, t, p).store.records)
  {
    if p.SetNew? { NewIdAbsent(w, p.inst.id); }
  }

  lemma HostsStep(w: World, s: Step, c: Config)
    requires Safe(w) && HostsOk(w.store.records) && Enabled(w, s)
    ensures HostsOk(Effect(w, s, c).store.records)
  {
    match s
    case Provision(t, p) => ProvHosts(w, t, p);
    case Acquire(t, a) => AcqHosts(w, t, a, c);
    case Release(t, r) => RelHosts(w, t, r);
    case Extend(t, e) => ExtHosts(w, t, e);
    case Loop(_) =>
  }

  lemma {:induction false} HostsRun(ws: seq<World>, ss: seq<Step>, c: Config, i: nat)
    requires IsRun(ws, ss, c) && i < |ws|
    ensures HostsOk(ws[i].store.records)
  {
    if i == 0 {
    } else {
      HostsRun(ws, ss, c, i - 1);
      SafeRun(ws, ss, c, i - 1);
      assert RunStep(ws, ss, c, i - 1);
      HostsStep(ws[i - 1], ss[i - 1], c);
    }
  }

  /** With no id being worked on: exact indexes, a tracked port and a route id of its
      own for every record, and only ready ids listed. */
  lemma RestIsSeparate(ws: seq<World>, ss: seq<Step>, c: Config, i: nat)
    requires IsRun(ws, ss, c) && i < |ws| && ws[i].locks == map[]
    ensures Separate(ws[i].store) && ws[i].store.available !! ws[i].store.inUse
  {
    var w := ws[i];
    SafeRun(ws, ss, c, i);
    PortsConserved(ws, ss, c, i);
    HostsRun(ws, ss, c, i);
    RestIsExact(w);
    forall id ensures Worker(w, id) == None {}
    forall id | id in w.store.records ensures RecordPort(w, id) == Some(w.store.records[id].port) {}
    forall j, k | j in w.store.records && k in w.store.records && j != k
      ensures RouteId(w.store.records[j].hostname) != RouteId(w.store.records[k].hostname)
    {
      RouteIdCollision(w.store.records[j].hostname, w.store.records[k].hostname);
    }
  }
}
