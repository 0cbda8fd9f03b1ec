/** What clients of the pool can rely on over whole runs. */
module ProtocolRuns {
  import opened Domain
  import opened StoreSpec
  import opened Protocol
  import opened ProtocolSafety
  import opened ProtocolCapacity
  import opened ReadyQueue

  // ---- hand-outs ---------------------------------------------------------------

  lemma HandedGrowsByPops(w: World, s: Step, c: Config)
    requires Safe(w) && Enabled(w, s)
    ensures Effect(w, s, c).hist.handed == w.hist.handed + if PopsLive(w, s) then [w.store.ready[0]] else []
  {
    match s
    case Provision(t, p) => if !p.PushNew? { ProvLists(w, t, p); }
    case Acquire(t, a) =>
      if PopsLive(w, s) { assert RecordOk(w, w.store.ready[0]); }
      else if !a.Pop? { AcqLists(w, t, a, c); }
    case _ => OtherLists(w, s, c);
  }

  lemma HandedStep(w: World, s: Step, c: Config, id: string)
    requires Safe(w) && Enabled(w, s) && id in w.hist.handed
    ensures id in Apply(w, s, c).hist.handed
  {
    HandedGrowsByPops(w, s, c);
    assert Apply(w, s, c).hist == Effect(w, s, c).hist;
  }

  /** An id once handed out stays on record. */
  lemma {:induction false} HandedKept(ws: seq<World>, ss: seq<Step>, c: Config, i: nat, j: nat, id: string)
    requires IsRun(ws, ss, c) && i <= j < |ws| && id in ws[i].hist.handed
    ensures id in ws[j].hist.handed
  {
    if i == j {
    } else {
      HandedKept(ws, ss, c, i, j - 1, id);
      SafeRun(ws, ss, c, j - 1);
      assert RunStep(ws, ss, c, j - 1);
      HandedStep(ws[j - 1], ss[j - 1], c, id);
    }
  }

  /** No instance is handed out twice, in any run of acquires, additions,
      releases and extensions. */
  lemma NoDoubleAssignment(ws: seq<World>, ss: seq<Step>, c: Config, i: nat, j: nat)
    requires IsRun(ws, ss, c) && i < j < |ss|
    requires PopsLive(ws[i], ss[i]) && PopsLive(ws[j], ss[j])
    ensures ws[i].store.ready[0] != ws[j].store.ready[0]
  {
    SafeRun(ws, ss, c, i);
    assert RunStep(ws, ss, c, i);
    HandedGrowsByPops(ws[i], ss[i], c);
    var id := ws[i].store.ready[0];
    assert ws[i + 1].hist.handed[|ws[i].hist.handed|] == id;
    HandedKept(ws, ss, c, i + 1, j, id);
    SafeRun(ws, ss, c, j);
  }

  /** A record never goes back from assigned to ready. */
  lemma AssignedForGood(ws: seq<World>, ss: seq<Step>, c: Config, i: nat, j: nat, id: string)
    requires IsRun(ws, ss, c) && i <= j < |ws|
    requires id in ws[i].store.records && id in ws[j].store.records
    requires ws[i].store.records[id].state == Assigned
    ensures ws[j].store.records[id].state == Assigned
  {
    SafeRun(ws, ss, c, i);
    SafeRun(ws, ss, c, j);
    assert RecordOk(ws[i], id) && RecordOk(ws[j], id);
    HandedKept(ws, ss, c, i, j, id);
  }

  /** Every assigned record outside an Acquire carries an expiry: none is ever
      left behind for the expiry scan to miss. */
  lemma NoZombies(ws: seq<World>, ss: seq<Step>, c: Config, i: nat, id: string)
    requires IsRun(ws, ss, c) && i < |ws|
    requires id in ws[i].store.records && ws[i].store.records[id].state == Assigned && !BeingAcquired(ws[i], id)
    ensures ws[i].store.records[id].Expires()
  {
    SafeRun(ws, ss, c, i);
    assert RecordOk(ws[i], id);
  }

  // ---- indexes and statistics ----------------------------------------------------

  /** For an id nobody is working on, membership in a state set and the state of
      the record are the same thing, whatever happens to other ids meanwhile. */
  lemma IndexExact(ws: seq<World>, ss: seq<Step>, c: Config, i: nat, id: string, st: InstanceState)
    requires IsRun(ws, ss, c) && i < |ws| && id !in ws[i].locks
    ensures id in Members(ws[i].store, st) <==> id in InState(ws[i].store, st)
  {
    SafeRun(ws, ss, c, i);
    assert id in Members(ws[i].store, st) <==> (st, id) in ws[i].store.index;
  }

  /** With no operation in flight the statistics are the truth: Assigned counts
      the assigned records, and Ready counts the ready records plus the ids whose
      record was released while still listed. */
  lemma StatsExactAtRest(ws: seq<World>, ss: seq<Step>, c: Config, i: nat)
    requires IsRun(ws, ss, c) && i < |ws| && ws[i].locks == map[]
    ensures var s := ws[i].store;
            && Members(s, Assigned) == InState(s, Assigned)
            && |s.ready| == |InState(s, Ready)| + |Orphans(s)|
            && |Members(s, Warming)| == 0
  {
    SafeRun(ws, ss, c, i);
    RestIsExact(ws[i]);
    NoWarming(ws[i]);
    CountsMean(ws[i].store);
  }

  // ---- the ready list as a queue, under full interleaving ---------------------------

  predicate Erases(s: Step) {
    s.Release? && s.r.Erase?
  }

  /** The queue only sees three kinds of steps. */
  ghost predicate QueueMove(w: World, v: World, s: Step)
    requires Enabled(w, s)
  {
    if Pushes(s) then LiveQueue(v.store) == LiveQueue(w.store) + [w.threads[s.t].inst.id]
    else if PopsLive(w, s) then LiveQueue(w.store) == [w.store.ready[0]] + LiveQueue(v.store)
    else if Erases(s) then LiveQueue(v.store) == Filter(LiveQueue(w.store), v.store.records)
    else LiveQueue(v.store) == LiveQueue(w.store)
  }

  lemma KeysKept(w: World, s: Step, c: Config)
    requires Safe(w) && Enabled(w, s) && !Erases(s)
    ensures forall id | id in w.store.ready :: id in Effect(w, s, c).store.records <==> id in w.store.records
  {
    match s
    case Provision(t, p) => ProvKeys(w, t, p);
    case Acquire(t, a) => AcqKeys(w, t, a, c);
    case Release(t, r) => RelKeys(w, t, r);
    case Extend(t, e) => ExtKeys(w, t, e);
    case Loop(_) =>
  }

  lemma ProvKeys(w: World, t: nat, p: ProvStep)
    requires Safe(w) && ProvEnabled(w, t, p)
    ensures forall id | id in w.store.ready :: id in ProvEffect(w, t, p).store.records <==> id in w.store.records
  {
  }

  lemma SilentKeys(w: World, t: nat, a: AcqStep, c: Config)
    requires Silent(a) && AcqEnabled(w, t, a)
    ensures AcqEffect(w, t, a, c).store == w.store
  {
  }

  lemma AcqKeys(w: World, t: nat, a: AcqStep, c: Config)
    requires Safe(w) && AcqEnabled(w, t, a)
    ensures AcqEffect(w, t, a, c).store.records.Keys == w.store.records.Keys
  {
    if Silent(a) { SilentKeys(w, t, a, c); }
  }

  lemma RelKeys(w: World, t: nat, r: RelStep)
    requires RelEnabled(w, t, r) && !r.Erase?
    ensures RelEffect(w, t, r).store.records == w.store.records
  {
  }

  lemma ExtKeys(w: World, t: nat, e: ExtStep)
    requires Safe(w) && ExtEnabled(w, t, e)
    ensures ExtEffect(w, t, e).store.records.Keys == w.store.records.Keys
  {
  }

  /** Main theorem: however the commands of different operations interleave, the
      live queue changes only by enqueueing at the end (RPUSH), dequeueing at the
      front (the acquire script) and dropping a released id; it never reorders. */
  lemma QueueRefined(w: World, s: Step, c: Config)
    requires Safe(w) && Enabled(w, s)
    ensures QueueMove(w, Effect(w, s, c), s)
  {
    var v := Effect(w, s, c);
    if PopsLive(w, s) {
      AcquireDequeues(w.store, s.a.now);
    } else if s.Acquire? && s.a.Pop? {
      AcquireDequeues(w.store, s.a.now);
    } else if Erases(s) {
      DeleteDequeues(w.store.ready, w.store.records, w.threads[s.t].id);
    } else {
      KeysKept(w, s, c);
      FilterSame(w.store.ready, v.store.records, w.store.records);
      if Pushes(s) { PushEnqueues(w, s.t, s.p); } else { Unlisting(w, s, c); }
    }
  }

  lemma PushEnqueues(w: World, t: nat, p: ProvStep)
    requires Safe(w) && p.PushNew? && ProvEnabled(w, t, p)
    ensures LiveQueue(ProvEffect(w, t, p).store) == LiveQueue(w.store) + [w.threads[t].inst.id]
  {
    var id := w.threads[t].inst.id;
    FilterAppend(w.store.ready, [id], w.store.records);
    assert [id][1..] == [] && id in w.store.records;
    assert Filter([id], w.store.records) == [id];
  }

  lemma Unlisting(w: World, s: Step, c: Config)
    requires Enabled(w, s) && !Pushes(s) && !(s.Acquire? && s.a.Pop?)
    ensures Effect(w, s, c).store.ready == w.store.ready
  {
    match s
    case Provision(t, p) => ProvLists(w, t, p);
    case Acquire(t, a) => AcqLists(w, t, a, c);
    case _ => OtherLists(w, s, c);
  }
}
