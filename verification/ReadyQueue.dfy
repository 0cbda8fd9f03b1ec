/** pool:ready refines a FIFO queue of live instances. Ids whose record is gone
    (orphans) stay in the list until the acquire script rotates past them. */
module ReadyQueue {
  import opened Domain
  import opened StoreSpec

  function Filter(ids: seq<string>, r: map<string, Instance>): seq<string> {
    if ids == [] then []
    else (if ids[0] in r then [ids[0]] else []) + Filter(ids[1..], r)
  }

  /** The abstract queue: the listed ids that have a record, in list order. */
  function LiveQueue(s: StoreState): seq<string> {
    Filter(s.ready, s.records)
  }

  lemma {:induction false} FilterAppend(a: seq<string>, b: seq<string>, r: map<string, Instance>)
    ensures Filter(a + b, r) == Filter(a, r) + Filter(b, r)
  {
    if a == [] {
      assert a + b == b;
    } else {
      FilterAppend(a[1..], b, r);
      assert (a + b)[1..] == a[1..] + b;
      var head := if a[0] in r then [a[0]] else [];
      assert head + (Filter(a[1..], r) + Filter(b, r)) == head + Filter(a[1..], r) + Filter(b, r);
    }
  }

  lemma {:induction false} FilterSame(a: seq<string>, r: map<string, Instance>, q: map<string, Instance>)
    requires forall id | id in a :: id in r <==> id in q
    ensures Filter(a, r) == Filter(a, q)
  {
    if a == [] {
    } else {
      FilterSame(a[1..], r, q);
    }
  }

  lemma {:induction false} FilterNone(a: seq<string>, r: map<string, Instance>)
    requires forall id | id in a :: id !in r
    ensures Filter(a, r) == []
  {
    if a == [] {
    } else {
      FilterNone(a[1..], r);
    }
  }

  /** AddToPool enqueues. */
  lemma AddEnqueues(s: StoreState, i: Instance)
    requires i.id !in s.ready
    ensures LiveQueue(AddToPool(s, i)) == LiveQueue(s) + [i.id]
  {
    var v := AddToPool(s, i);
    FilterAppend(s.ready, [i.id], v.records);
    FilterSame(s.ready, v.records, s.records);
    assert [i.id][1..] == [];
    assert Filter([i.id], v.records) == [i.id];
  }

  /** A successful acquire dequeues the front; an unsuccessful one changes
      neither the queue nor any record, index or port. Exhaustion is reported
      exactly when the list is empty or headed by an orphan. */
  lemma AcquireDequeues(s: StoreState, now: int)
    ensures AcquireScript(s, now).taken == None <==> s.ready == [] || s.ready[0] !in s.records
    ensures var p := AcquireScript(s, now);
            if p.taken.Some? then LiveQueue(s) == [s.ready[0]] + LiveQueue(p.store)
            else LiveQueue(p.store) == LiveQueue(s) && p.store == s.(ready := p.store.ready)
  {
    var p := AcquireScript(s, now);
    if s.ready != [] {
      if s.ready[0] in s.records {
        FilterSame(s.ready[1..], s.records, p.store.records);
      } else {
        FilterAppend(s.ready[1..], [s.ready[0]], s.records);
        FilterNone([s.ready[0]], s.records);
      }
    }
  }

  /** Deleting a record removes it from the queue and keeps the order of the rest. */
  lemma {:induction false} DeleteDequeues(ids: seq<string>, r: map<string, Instance>, id: string)
    ensures Filter(ids, r - {id}) == Filter(Filter(ids, r), r - {id})
    ensures id !in Filter(ids, r - {id})
  {
    if ids == [] {
    } else {
      DeleteDequeues(ids[1..], r, id);
      var head := if ids[0] in r then [ids[0]] else [];
      FilterAppend(head, Filter(ids[1..], r), r - {id});
      if ids[0] in r {
        assert [ids[0]][1..] == [];
        assert Filter(head, r - {id}) == if ids[0] == id then [] else [ids[0]];
      }
    }
  }

  // ---- the price of orphans ---------------------------------------------------------

  /** The state after a number of acquires at the given times. */
  function AfterAcquires(s: StoreState, times: seq<int>): StoreState
    decreases |times|
  {
    if times == [] then s else AfterAcquires(AcquireScript(s, times[0]).store, times[1..])
  }

  function Outcomes(s: StoreState, times: seq<int>): seq<Option<Instance>>
    decreases |times|
  {
    if times == [] then []
    else [AcquireScript(s, times[0]).taken] + Outcomes(AcquireScript(s, times[0]).store, times[1..])
  }

  /** Behind |a| orphans, the first |a| acquires all report exhaustion and move the
      orphans to the back. */
  lemma {:induction false} OrphansRotate(s: StoreState, a: seq<string>, b: seq<string>, times: seq<int>)
    requires s.ready == a + b && |times| == |a|
    requires forall id | id in a :: id !in s.records
    ensures AfterAcquires(s, times) == s.(ready := b + a)
    ensures forall o | o in Outcomes(s, times) :: o == None
    decreases |a|
  {
    if a == [] {
      assert a + b == b == b + a;
    } else {
      var s1 := AcquireScript(s, times[0]).store;
      assert s1.ready == a[1..] + (b + [a[0]]);
      OrphansRotate(s1, a[1..], b + [a[0]], times[1..]);
      assert b + [a[0]] + a[1..] == b + a;
    }
  }

  lemma ConsTail(x: string, b: seq<string>, a: seq<string>)
    ensures ([x] + b + a)[0] == x && ([x] + b + a)[1..] == b + a
  {
  }

  /** From a ++ [x] ++ b with only orphans in a, exactly |a| acquires fail, the
      next one returns x, and the list is then b ++ a. */
  lemma AcquireReachesLive(s: StoreState, a: seq<string>, x: string, b: seq<string>, times: seq<int>, now: int)
    requires s.ready == a + [x] + b && |times| == |a| && x in s.records
    requires forall id | id in a :: id !in s.records
    ensures forall o | o in Outcomes(s, times) :: o == None
    ensures var p := AcquireScript(AfterAcquires(s, times), now);
            && p.taken == Some(s.records[x].(state := Assigned, assignedAt := Some(now)))
            && p.store.ready == b + a
  {
    assert a + [x] + b == a + ([x] + b);
    OrphansRotate(s, a, [x] + b, times);
    var t := AfterAcquires(s, times);
    ConsTail(x, b, a);
  }

  /** ErrPoolExhausted does not mean that nothing is ready: add two instances to an
      empty store and release the first one before anybody acquires it. */
  lemma ExhaustedWithLiveInstance(g: Instance, i: Instance, now: int)
    requires g.id != i.id
    ensures var s := DeleteInstance(AddToPool(AddToPool(EMPTY, g), i), g.id);
            Coherent(s) && AcquireScript(s, now).taken == None && LiveQueue(s) == [i.id]
  {
    var s1 := AddToPool(EMPTY, g);
    var s2 := AddToPool(s1, i);
    AddEnqueues(EMPTY, g);
    AddEnqueues(s1, i);
    assert s1.ready == [g.id] && s2.ready == [g.id, i.id];
    var r := DeleteInstance(s2, g.id).records;
    assert [g.id, i.id][1..] == [i.id] && [i.id][1..] == [];
    assert Filter([i.id], r) == [i.id];
  }
}
