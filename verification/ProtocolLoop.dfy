/** The replenish loop run alone: a pass of TriggerReplenish as single commands. */
module ProtocolLoop {
  import opened Domain
  import opened StoreSpec
  import opened Protocol
  import opened ProtocolAlone

  // ---- one provision of the loop -------------------------------------------------

  function LoopProvisionSteps(i: Instance): seq<Step> {
    [Provision(LOOP, Spop(i.port))] + SetSteps(LOOP, i) + ListSteps(LOOP)
  }

  lemma LoopTakesPort(w: World, port: int, c: Config) returns (v: World)
    requires LOOP in w.threads && w.threads[LOOP] == WantsPort && port in w.store.available
    ensures v == w.(store := w.store.(available := w.store.available - {port}),
                    threads := w.threads[LOOP := PortPopped(port)], step := w.step + 1)
    ensures Leads(w, [Provision(LOOP, Spop(port))], v, c)
  {
    v := LeadsOne(w, Provision(LOOP, Spop(port)), c);
  }

  lemma LoopLists(w: World, i: Instance, c: Config) returns (v: World)
    requires LOOP in w.threads && w.threads[LOOP] == RecordSet(i)
    ensures v == w.(store := PushReady(AddIndex(w.store, Ready, i.id), i.id), threads := w.threads[LOOP := Checking],
                    locks := w.locks - {i.id}, step := w.step + 2,
                    hist := w.hist.(pushed := w.hist.pushed + {w.step + 1}))
    ensures Leads(w, ListSteps(LOOP), v, c)
  {
    v := LeadsTwice(w, Provision(LOOP, IndexNew), Provision(LOOP, PushNew), c);
    ThreadTwice(w.threads, LOOP, RecordIndexed(i), Checking);
  }

  lemma LockTwice(locks: map<string, nat>, id: string, t: nat)
    requires id !in locks
    ensures locks[id := t] - {id} == locks
  {
  }

  /** A successful provision of the loop is AllocatePort followed by AddToPool, after
      which the loop checks again. */
  lemma LoopProvides(w: World, i: Instance, c: Config) returns (v: World)
    requires LOOP in w.threads && w.threads[LOOP] == WantsPort && i.port in w.store.available
    requires Fresh(w, i, i.port) && Free(w, i.id)
    ensures v == w.(store := AddToPool(WithPort(w.store, i.port), i), threads := w.threads[LOOP := Checking],
                    step := w.step + 5,
                    hist := w.hist.(used := w.hist.used + {i.id}, pushed := w.hist.pushed + {w.step + 4}))
    ensures Leads(w, LoopProvisionSteps(i), v, c)
  {
    var u := LoopTakesPort(w, i.port, c);
    var x := ProvisionSetsRecord(u, LOOP, i.port, i, c);
    v := LoopLists(x, i, c);
    LeadsThrice(w, [Provision(LOOP, Spop(i.port))], u, SetSteps(LOOP, i), x, ListSteps(LOOP), v, c);
    ThreadTwice(w.threads, LOOP, PortPopped(i.port), RecordSet(i));
    ThreadTwice(w.threads, LOOP, RecordSet(i), Checking);
    LockTwice(w.locks, i.id, LOOP);
  }

  /** A failed one gives the port back, and the loop goes to rest. */
  lemma LoopFails(w: World, port: int, c: Config) returns (v: World)
    requires LOOP in w.threads && w.threads[LOOP] == WantsPort && port in w.store.available && port !in w.store.inUse
    ensures v == w.(threads := w.threads[LOOP := Waiting], step := w.step + 5)
    ensures Leads(w, [Provision(LOOP, Spop(port))] + AbortSteps(LOOP) + GiveBackSteps(LOOP), v, c)
  {
    var u := LoopTakesPort(w, port, c);
    var x := ProvisionAborts(u, LOOP, port, c);
    v := LoopGivesBack(x, port, c);
    LeadsThrice(w, [Provision(LOOP, Spop(port))], u, AbortSteps(LOOP), x, GiveBackSteps(LOOP), v, c);
    ReleaseUndoesAllocate(w.store, port);
    ThreadTwice(w.threads, LOOP, PortPopped(port), PortAborted(port));
    ThreadTwice(w.threads, LOOP, PortAborted(port), Waiting);
  }

  lemma LoopGivesBack(w: World, port: int, c: Config) returns (v: World)
    requires LOOP in w.threads && w.threads[LOOP] == PortAborted(port)
    ensures v == w.(store := ReleasePort(w.store, port), threads := w.threads[LOOP := Waiting], step := w.step + 2)
    ensures Leads(w, GiveBackSteps(LOOP), v, c)
  {
    v := LeadsTwice(w, Provision(LOOP, Untrack), Provision(LOOP, Return), c);
    ThreadTwice(w.threads, LOOP, PortUntracked(port), Waiting);
  }

  /** Without a port there is nothing to give back. */
  lemma LoopFindsNoPort(w: World, c: Config) returns (v: World)
    requires LOOP in w.threads && w.threads[LOOP] == WantsPort && w.store.available == {}
    ensures v == w.(threads := w.threads[LOOP := Waiting], step := w.step + 1)
    ensures Leads(w, [Provision(LOOP, SpopEmpty)], v, c)
  {
    v := LeadsOne(w, Provision(LOOP, SpopEmpty), c);
  }

  // ---- a whole pass ----------------------------------------------------------------

  function PassSteps(added: seq<Instance>): seq<Step> {
    if added == [] then CheckSteps() else CheckSteps() + LoopProvisionSteps(added[0]) + PassSteps(added[1..])
  }

  function AllAdded(s: StoreState, added: seq<Instance>): StoreState
    decreases |added|
  {
    if added == [] then s else AllAdded(AddToPool(WithPort(s, added[0].port), added[0]), added[1..])
  }

  /** The instances have ids, hostnames and ports of their own. */
  ghost predicate AllFresh(w: World, added: seq<Instance>) {
    && (forall i | i in added :: Fresh(w, i, i.port) && Free(w, i.id) && i.port in w.store.available)
    && (forall j, k | 0 <= j < k < |added| :: Apart(added[j], added[k]))
  }

  predicate Apart(i: Instance, j: Instance) {
    i.id != j.id && i.hostname != j.hostname && i.port != j.port
  }

  function NeedOf(s: StoreState, c: Config): int {
    Need(c, |s.ready|, |Members(s, Assigned)|, |Members(s, Warming)|)
  }

  lemma NeedFalls(s: StoreState, i: Instance, c: Config)
    requires NeedOf(s, c) > 0
    ensures NeedOf(AddToPool(WithPort(s, i.port), i), c) == NeedOf(s, c) - 1
  {
    var t := SetRecord(WithPort(s, i.port), i.(state := Ready));
    AddIndexMembers(t, Ready, i.id);
    var v := AddToPool(WithPort(s, i.port), i);
    assert v.index == AddIndex(t, Ready, i.id).index;
    assert forall st :: Members(v, st) == Members(AddIndex(t, Ready, i.id), st);
    assert forall st :: Members(t, st) == Members(s, st);
  }

  lemma FreshAfter(w: World, v: World, added: seq<Instance>)
    requires added != [] && AllFresh(w, added)
    requires v.store == AddToPool(WithPort(w.store, added[0].port), added[0]) && v.locks == w.locks
    requires v.hist.used == w.hist.used + {added[0].id}
    ensures AllFresh(v, added[1..])
  {
    forall i | i in added[1..] ensures Fresh(v, i, i.port) && Free(v, i.id) && i.port in v.store.available {
      var k :| 1 <= k < |added| && added[k] == i;
      assert Apart(added[0], added[k]);
      assert added[k] in added;
    }
  }

  /** Main theorem: a pass of the loop that nothing interrupts adds exactly as many
      instances as ReplenishmentNeeded says, and then rests with nothing needed. */
  lemma {:induction false} PassAlone(w: World, added: seq<Instance>, c: Config) returns (v: World)
    requires LOOP in w.threads && w.threads[LOOP] == Checking
    requires |added| == NeedOf(w.store, c) && AllFresh(w, added)
    ensures Leads(w, PassSteps(added), v, c)
    ensures v.store == AllAdded(w.store, added) && v.threads == w.threads[LOOP := Waiting] && v.locks == w.locks
    ensures v.token == w.token && NeedOf(v.store, c) == 0 && v.hist.settled
    decreases |added|
  {
    var u := CheckAlone(w, c);
    if added == [] {
      v := u;
    } else {
      var x := LoopProvides(u, added[0], c);
      ThreadTwice(w.threads, LOOP, WantsPort, Checking);
      NeedFalls(w.store, added[0], c);
      FreshAfter(w, x, added);
      v := PassAlone(x, added[1..], c);
      ThreadTwice(w.threads, LOOP, Checking, Waiting);
      LeadsThrice(w, CheckSteps(), u, LoopProvisionSteps(added[0]), x, PassSteps(added[1..]), v, c);
    }
  }

  function IdsOf(added: seq<Instance>): seq<string> {
    seq(|added|, j requires 0 <= j < |added| => added[j].id)
  }

  function PortsOf(added: seq<Instance>): set<int> {
    set i | i in added :: i.port
  }

  function EntriesOf(added: seq<Instance>): set<(InstanceState, string)> {
    set i | i in added :: (Ready, i.id)
  }

  lemma SplitFirst(added: seq<Instance>)
    requires added != []
    ensures IdsOf(added) == [added[0].id] + IdsOf(added[1..])
    ensures PortsOf(added) == {added[0].port} + PortsOf(added[1..])
    ensures EntriesOf(added) == {(Ready, added[0].id)} + EntriesOf(added[1..])
  {
    assert added == [added[0]] + added[1..];
  }

  /** What the pass leaves in the store: one list entry, one index entry and one tracked
      port for each instance, in this order. */
  lemma {:induction false} AllAddedLists(s: StoreState, added: seq<Instance>)
    ensures var v := AllAdded(s, added);
            && v.ready == s.ready + IdsOf(added) && v.index == s.index + EntriesOf(added)
            && v.available == s.available - PortsOf(added) && v.inUse == s.inUse + PortsOf(added)
    decreases |added|
  {
    if added == [] {
    } else {
      SplitFirst(added);
      AllAddedLists(AddToPool(WithPort(s, added[0].port), added[0]), added[1..]);
    }
  }

  lemma RestApart(s: StoreState, added: seq<Instance>)
    requires added != [] && forall i | i in added :: i.state == Ready && i.id !in s.records
    requires forall j, k | 0 <= j < k < |added| :: Apart(added[j], added[k])
    ensures var t := AddToPool(WithPort(s, added[0].port), added[0]);
            && t.records == s.records[added[0].id := added[0]]
            && forall i | i in added[1..] :: i.state == Ready && i.id !in t.records
  {
    forall i | i in added[1..] ensures i.id != added[0].id {
      var k :| 1 <= k < |added| && added[k] == i;
      assert Apart(added[0], added[k]);
    }
  }

  /** And one record each; the other records stay. */
  lemma {:induction false} AllAddedRecords(s: StoreState, added: seq<Instance>)
    requires forall i | i in added :: i.state == Ready && i.id !in s.records
    requires forall j, k | 0 <= j < k < |added| :: Apart(added[j], added[k])
    ensures var v := AllAdded(s, added);
            && (forall id :: id in v.records <==> id in s.records || id in IdsOf(added))
            && (forall id | id in s.records :: v.records[id] == s.records[id])
            && (forall i | i in added :: i.id in v.records && v.records[i.id] == i)
    decreases |added|
  {
    if added == [] {
    } else {
      var t := AddToPool(WithPort(s, added[0].port), added[0]);
      RestApart(s, added);
      AllAddedRecords(t, added[1..]);
      SplitFirst(added);
      forall i | i in added ensures i.id in AllAdded(s, added).records && AllAdded(s, added).records[i.id] == i {
        if i != added[0] { assert i in added[1..]; }
      }
    }
  }

  /** The same from rest, on a trigger: the token is taken, once. */
  lemma TriggeredPassAlone(w: World, added: seq<Instance>, c: Config) returns (v: World)
    requires LOOP in w.threads && w.threads[LOOP] == Waiting && w.token
    requires |added| == NeedOf(w.store, c) && AllFresh(w, added)
    ensures Leads(w, [Loop(TakeToken)] + PassSteps(added), v, c)
    ensures v.store == AllAdded(w.store, added) && v.threads == w.threads && v.locks == w.locks
    ensures !v.token && NeedOf(v.store, c) == 0
  {
    var u := LeadsOne(w, Loop(TakeToken), c);
    v := PassAlone(u, added, c);
    LeadsOn(w, [Loop(TakeToken)], u, PassSteps(added), v, c);
    ThreadTwice(w.threads, LOOP, Checking, Waiting);
    assert w.threads[LOOP := Waiting] == w.threads;
  }

  /** And on a tick, whether or not a token is pending; the token stays. */
  lemma TickedPassAlone(w: World, added: seq<Instance>, c: Config) returns (v: World)
    requires LOOP in w.threads && w.threads[LOOP] == Waiting
    requires |added| == NeedOf(w.store, c) && AllFresh(w, added)
    ensures Leads(w, [Loop(Tick)] + PassSteps(added), v, c)
    ensures v.store == AllAdded(w.store, added) && v.threads == w.threads && v.locks == w.locks
    ensures v.token == w.token && NeedOf(v.store, c) == 0
  {
    var u := LeadsOne(w, Loop(Tick), c);
    v := PassAlone(u, added, c);
    LeadsOn(w, [Loop(Tick)], u, PassSteps(added), v, c);
    ThreadTwice(w.threads, LOOP, Checking, Waiting);
    assert w.threads[LOOP := Waiting] == w.threads;
  }
}
