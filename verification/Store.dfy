/** ValkeyRepository: the shared state updated in place. A parameter `answers`
    says how many commands of a method succeed before the store fails; scripts
    are single commands. */
module Store {
  import opened Domain
  import opened StoreSpec

  function PortRange(first: int, last: int): (r: set<int>)
    ensures forall p :: p in r <==> first <= p <= last
    decreases last - first
  {
    if first > last then {} else PortRange(first, last - 1) + {last}
  }

  class ValkeyStore {
    const portStart: int
    const portEnd: int
    var records: map<string, Instance>
    var ready: seq<string>
    var index: set<(InstanceState, string)>
    var available: set<int>
    var inUse: set<int>

    function View(): StoreState
      reads this
    {
      StoreState(records, ready, index, available, inUse)
    }

    constructor (portStart: int, portEnd: int)
      ensures View() == EMPTY && this.portStart == portStart && this.portEnd == portEnd
    {
      this.portStart, this.portEnd := portStart, portEnd;
      records, ready, index, available, inUse := map[], [], {}, {}, {};
    }

    /** SCARD, then one SADD of the whole range; an SADD of no member is an error. */
    method InitializePorts(answers: nat) returns (ok: bool)
      modifies this
      ensures View() == if answers >= 2 then Refill(old(View()), PortRange(portStart, portEnd)) else old(View())
      ensures ok <==> if old(available) != {} then answers >= 1 else answers >= 2 && portStart <= portEnd
      ensures available == if answers >= 2 && old(available) == {} then PortRange(portStart, portEnd)
                           else old(available)
      ensures unchanged(this`records, this`ready, this`index, this`inUse)
    {
      if answers == 0 { return false; }
      if |available| > 0 {
        return true;
      }
      var members: set<int> := {};
      var port := portStart;
      while port <= portEnd
        invariant portStart <= port
        invariant port <= Max(portStart, portEnd + 1)
        invariant members == PortRange(portStart, port - 1)
        invariant View() == old(View())
      {
        members := members + {port};
        port := port + 1;
      }
      if answers == 1 || |members| == 0 { return false; }
      available := available + members;
      return true;
    }

    method SaveInstance(i: Instance, answers: nat) returns (ok: bool)
      modifies this
      ensures View() == SaveAfter(old(View()), i, answers) && (ok <==> answers >= 2)
      ensures records == if answers >= 1 then old(records)[i.id := i] else old(records)
      ensures index == if answers >= 2 then old(index) + {(i.state, i.id)} else old(index)
      ensures unchanged(this`ready, this`available, this`inUse)
    {
      if answers == 0 { return false; }
      records := records[i.id := i];
      if answers == 1 { return false; }
      index := index + {(i.state, i.id)};
      return true;
    }

    method DeleteInstance(id: string, answers: nat) returns (ok: bool)
      modifies this
      ensures View() == DeleteAfter(old(View()), id, answers)
      ensures ok <==> answers >= 3 || (answers >= 1 && id !in old(records))
      ensures records == if answers >= 3 then old(records) - {id} else old(records)
      ensures index == if answers >= 2 && id in old(records) then old(index) - {(old(records)[id].state, id)}
                       else old(index)
      ensures unchanged(this`ready, this`available, this`inUse)
    {
      if answers == 0 { return false; }
      if id !in records { return true; }
      var state := records[id].state;
      if answers == 1 { return false; }
      index := index - {(state, id)};
      if answers == 2 { return false; }
      records := records - {id};
      return true;
    }

    method UpdateInstanceState(id: string, state: InstanceState, now: int) returns (found: bool)
      modifies this
      ensures View() == UpdateStateScript(old(View()), id, state, now) && (found <==> id in old(records))
      ensures found && old(records)[id].state != state ==>
                var i := old(records)[id];
                && index == old(index) - {(i.state, id)} + {(state, id)}
                && records.Keys == old(records).Keys && records - {id} == old(records) - {id}
                && records[id] == i.(state := state, assignedAt := records[id].assignedAt)
                && (records[id].assignedAt == Some(now) || records[id].assignedAt == i.assignedAt)
                && (records[id].assignedAt != i.assignedAt ==> state == Assigned && i.assignedAt == None)
                && (state == Assigned ==> records[id].assignedAt.Some?)
      ensures !found || old(records)[id].state == state ==> records == old(records) && index == old(index)
      ensures unchanged(this`ready, this`available, this`inUse)
    {
      if id !in records { return false; }
      var i := records[id];
      if i.state == state { return true; }
      index := index - {(i.state, id)};
      var at := if state == Assigned && i.assignedAt == None then Some(now) else i.assignedAt;
      records := records[id := i.(state := state, assignedAt := at)];
      index := index + {(state, id)};
      return true;
    }

    method AcquireFromPool(now: int) returns (taken: Option<Instance>)
      modifies this
      ensures View() == AcquireScript(old(View()), now).store && taken == AcquireScript(old(View()), now).taken
      ensures taken.Some? <==> old(ready) != [] && old(ready)[0] in old(records)
      ensures old(ready) == [] ==> ready == []
      ensures old(ready) != [] ==> ready == old(ready)[1..] + if taken.Some? then [] else [old(ready)[0]]
      ensures taken.None? ==> records == old(records) && index == old(index)
      ensures taken.Some? ==>
                var id := old(ready)[0];
                var i := old(records)[id];
                && taken.value == i.(state := Assigned, assignedAt := Some(now))
                && records == old(records)[id := taken.value]
                && index == old(index) - {(i.state, id)} + {(Assigned, id)}
      ensures unchanged(this`available, this`inUse)
    {
      if ready == [] { return None; }
      var id := ready[0];
      ready := ready[1..];
      if id !in records {
        ready := ready + [id];
        return None;
      }
      var i := records[id];
      index := index - {(i.state, id)};
      i := i.(state := Assigned, assignedAt := Some(now));
      records := records[id := i];
      index := index + {(Assigned, id)};
      return Some(i);
    }

    method AddToPool(i: Instance, answers: nat) returns (ok: bool)
      modifies this
      ensures View() == AddAfter(old(View()), i, answers) && (ok <==> answers >= 3)
      ensures records == if answers >= 1 then old(records)[i.id := i.(state := Ready)] else old(records)
      ensures index == if answers >= 2 then old(index) + {(Ready, i.id)} else old(index)
      ensures ready == if answers >= 3 then old(ready) + [i.id] else old(ready)
      ensures unchanged(this`available, this`inUse)
    {
      ok := SaveInstance(i.(state := Ready), answers);
      if !ok || answers == 2 { return false; }
      ready := ready + [i.id];
    }

    /** SMEMBERS in no particular order, then one GET per member. A member without
        a record is skipped; a command that fails fails the call. */
    method ListByState(state: InstanceState, answers: nat) returns (found: Option<seq<Instance>>)
      ensures found.Some? <==> answers > |Members(View(), state)|
      ensures found.Some? ==> forall i :: i in found.value <==> i in Listed(View(), state)
      ensures found.Some? ==>
                forall i :: i in found.value <==> exists id :: (state, id) in index && id in records && i == records[id]
      ensures found.Some? && Coherent(View()) ==> NoRepeats(found.value)
    {
      if answers == 0 { return None; }
      var all := Members(View(), state);
      var ids, list, left := all, [], answers - 1;
      while ids != {}
        invariant ids <= all && left == answers - 1 - (|all| - |ids|) && left >= 0
        invariant forall i :: i in list <==> exists id :: id in all - ids && id in records && i == records[id]
        invariant Coherent(View()) ==> (forall j | 0 <= j < |list| :: list[j].id in all - ids) && NoRepeats(list)
      {
        if left == 0 { return None; }
        var id :| id in ids;
        left := left - 1;
        ghost var before := list;
        if id in records {
          list := list + [records[id]];
        }
        forall i ensures i in list <==> exists x :: x in all - (ids - {id}) && x in records && i == records[x] {
          if i in list && i !in before { assert i == records[id]; }
        }
        ids := ids - {id};
      }
      return Some(list);
    }

    /** The assigned instances that are expired at the given time. */
    method ListExpired(now: int, answers: nat) returns (expired: Option<seq<Instance>>)
      ensures expired.Some? <==> answers > |Members(View(), Assigned)|
      ensures expired.Some? ==> forall i :: i in expired.value <==> i in Listed(View(), Assigned) && i.IsExpired(now)
      ensures expired.Some? && Coherent(View()) ==> NoRepeats(expired.value)
    {
      var inUseNow := ListByState(Assigned, answers);
      if inUseNow.None? { return None; }
      var all, list := inUseNow.value, [];
      for n := 0 to |all|
        invariant forall i :: i in list <==> i in all[..n] && i.IsExpired(now)
        invariant Coherent(View()) ==> NoRepeats(list)
      {
        if all[n].IsExpired(now) {
          if Coherent(View()) {
            forall j | 0 <= j < |list| ensures list[j].id != all[n].id {
              assert list[j] in all[..n];
            }
          }
          list := list + [all[n]];
        }
        assert all[..n + 1] == all[..n] + [all[n]];
      }
      assert all[..|all|] == all;
      return Some(list);
    }

    method SetInstanceTtl(id: string, ttl: int, now: int, answers: nat) returns (ok: bool)
      modifies this
      ensures ok <==> answers >= 2 && id in old(records)
      ensures View() == if ok then SetTtl(old(View()), id, ttl, now) else old(View())
      ensures records == if ok then old(records)[id := old(records)[id].(expiresAt := Some(now + ttl),
                                                                         expiresAtUnix := Unix(now + ttl))]
                         else old(records)
      ensures unchanged(this`ready, this`index, this`available, this`inUse)
    {
      if answers == 0 || id !in records { return false; }
      var i := records[id].WithExpiry(now + ttl);
      if answers == 1 { return false; }
      records := records[id := i];
      return true;
    }

    /** Script and sync with nothing in between; a failing sync is ignored. */
    method ExtendInstanceTtlAtomic(id: string, extension: int, maxTtl: int, now: int, syncs: bool)
      returns (reply: ExtendReply)
      modifies this
      ensures reply == NotFound <==> id !in old(records)
      ensures reply == NoExpiry <==> id in old(records) && old(records)[id].expiresAtUnix == 0
      ensures id in old(records) && old(records)[id].expiresAtUnix != 0 ==>
                var i := old(records)[id];
                var left := if i.expiresAtUnix > Unix(now) then i.expiresAtUnix - Unix(now) else 0;
                var unix := i.expiresAtUnix + Unix(extension);
                if left + Unix(extension) <= Unix(maxTtl) then
                  && reply == Extended(unix)
                  && records == old(records)[id := i.(
                       expiresAt := if syncs then Some(unix * SECOND) else i.expiresAt, expiresAtUnix := unix)]
                else reply == ExceedsMax(left)
      ensures !reply.Extended? ==> records == old(records)
      ensures unchanged(this`ready, this`index, this`available, this`inUse)
      ensures reply == ExtendDecision(old(View()), id, Unix(extension), Unix(maxTtl), Unix(now))
      ensures View() == if syncs then ExtendAtomic(old(View()), id, Unix(extension), Unix(maxTtl), Unix(now))
                        else ExtendScript(old(View()), id, Unix(extension), Unix(maxTtl), Unix(now))
    {
      reply := ExtendDecision(View(), id, Unix(extension), Unix(maxTtl), Unix(now));
      if reply.Extended? {
        records := records[id := records[id].(expiresAtUnix := reply.newUnix)];
        if syncs {
          records := records[id := records[id].WithExpiry(reply.newUnix * SECOND)];
        }
      }
    }

    method AllocatePort(answers: nat) returns (port: Option<int>)
      modifies this
      ensures port.Some? ==> port.value in old(available)
      ensures port.None? <==> answers <= 1 || old(available) == {}
      ensures port.Some? ==>
                View() == old(View()).(available := old(available) - {port.value}, inUse := old(inUse) + {port.value})
      ensures View() == old(View()).(available := available, inUse := inUse)
      ensures unchanged(this`records, this`ready, this`index)
      ensures port.None? ==> inUse == old(inUse)
      ensures (answers != 1 && port.None?) || old(available) == {} ==> available == old(available)
      ensures answers == 1 && old(available) != {} ==>
                exists p :: p in old(available) && available == old(available) - {p}
    {
      if answers == 0 { return None; }
      if available == {} { return None; }
      var p := PickPort(available);
      available := available - {p};
      if answers == 1 { return None; }
      inUse := inUse + {p};
      return Some(p);
    }

    /** SPOP takes an arbitrary member. */
    static method PickPort(ports: set<int>) returns (port: int)
      requires ports != {}
      ensures port in ports
    {
      HasMember(ports);
      port :| port in ports;
    }

    method ReleasePort(port: int, answers: nat) returns (ok: bool)
      modifies this
      ensures View() == ReleasePortAfter(old(View()), port, answers) && (ok <==> answers >= 2)
      ensures inUse == if answers >= 1 then old(inUse) - {port} else old(inUse)
      ensures available == if answers >= 2 then old(available) + {port} else old(available)
      ensures unchanged(this`records, this`ready, this`index)
    {
      if answers == 0 { return false; }
      inUse := inUse - {port};
      if answers == 1 { return false; }
      available := available + {port};
      return true;
    }

    /** On exact sets and an exact list the numbers count instances: the list
        length also counts orphans. */
    method GetPoolStats(target: int, capacity: int) returns (stats: PoolStats)
      ensures stats == StatsOf(View(), target, capacity)
      ensures stats.readyCount == |ready| && stats.target == target && stats.capacity == capacity
      ensures Coherent(View()) ==> stats.assignedCount == |InState(View(), Assigned)|
      ensures Coherent(View()) ==> stats.warmingCount == |InState(View(), Warming)|
      ensures ListExact(View()) ==> stats.readyCount == |InState(View(), Ready)| + |Orphans(View())|
    {
      CountsMean(View());
      return PoolStats(|ready|, |Members(View(), Assigned)|, |Members(View(), Warming)|, target, capacity);
    }
  }

  function StatsOf(s: StoreState, target: int, capacity: int): PoolStats {
    PoolStats(|s.ready|, |Members(s, Assigned)|, |Members(s, Warming)|, target, capacity)
  }

  // ---- index coherence at method granularity ---------------------------------------

  /** Saving keeps the sets exact if and only if the id is new or its state is
      unchanged: SaveInstance never removes an id from an old state set. */
  lemma SaveCoherent(s: StoreState, i: Instance)
    requires Coherent(s)
    ensures Coherent(SaveInstance(s, i)) <==> (i.id in s.records ==> s.records[i.id].state == i.state)
  {
    var v := SaveInstance(s, i);
    if i.id in s.records && s.records[i.id].state != i.state {
      assert (s.records[i.id].state, i.id) in v.index;
    }
  }

  lemma UpdateCoherent(s: StoreState, id: string, st: InstanceState, now: int)
    requires Coherent(s)
    ensures Coherent(UpdateStateScript(s, id, st, now))
  {
  }

  lemma AcquireCoherent(s: StoreState, now: int)
    requires Coherent(s)
    ensures Coherent(AcquireScript(s, now).store)
  {
  }

  lemma ExpiryCoherent(s: StoreState, id: string, ttl: int, now: int, maxSecs: int)
    requires Coherent(s)
    ensures Coherent(SetTtl(s, id, ttl, now))
    ensures Coherent(ExtendAtomic(s, id, ttl, maxSecs, now))
  {
  }

  /** All other methods keep them exact without any condition. */
  lemma MethodsCoherent(s: StoreState, id: string, st: InstanceState, n: int, u: int, maxSecs: int)
    requires Coherent(s)
    ensures Coherent(DeleteInstance(s, id))
    ensures Coherent(UpdateStateScript(s, id, st, n))
    ensures Coherent(AcquireScript(s, n).store)
    ensures Coherent(SetTtl(s, id, n, u))
    ensures Coherent(ExtendAtomic(s, id, n, maxSecs, u))
    ensures Coherent(ReleasePort(s, n))
  {
    UpdateCoherent(s, id, st, n);
    AcquireCoherent(s, n);
    ExpiryCoherent(s, id, n, u, maxSecs);
  }

  /** On exact sets ListByState finds exactly the records in the state. */
  lemma ListedExact(s: StoreState, st: InstanceState)
    requires Coherent(s)
    ensures forall i :: i in Listed(s, st) <==> i.id in s.records && i == s.records[i.id] && i.state == st
  {
    CountsMean(s);
    forall id ensures id in Members(s, st) <==> id in InState(s, st) {}
  }

  /** A failed DeleteInstance is incoherent exactly between its SREM and its DEL,
      and a failed SaveInstance of a new id exactly between its SET and its SADD. */
  lemma PartialMethods(s: StoreState, id: string, i: Instance, n: nat)
    requires Coherent(s) && id in s.records && i.id !in s.records
    ensures Coherent(DeleteAfter(s, id, n)) <==> n != 2
    ensures Coherent(SaveAfter(s, i, n)) <==> n != 1
  {
    assert (s.records[id].state, id) in s.index;
    assert (i.state, i.id) !in s.index;
  }

  // ---- two operations on one id at the same time ---------------------------------

  /** Two releases of one id overlap, with one provision in between: a live instance
      ends up with a port that is on offer. ProtocolPorts.SecondRelease says when a
      second release is harmless. */
  lemma PortOfferedTwice(s: StoreState, i: Instance, j: Instance)
    requires Coherent(s) && i.id in s.records && i == s.records[i.id] && j.id !in s.records && j.port == i.port
    ensures var released := ReleasedStore(s, i.id, i.port);
            var taken := released.(available := released.available - {i.port}, inUse := released.inUse + {i.port});
            var v := ReleasedStore(AddToPool(taken, j), i.id, i.port);
            i.port in released.available && j.id in v.records && j.port in v.available && j.port !in v.inUse
  {
  }

  /** The store commands of a Release that has read the record: SREM and SADD of the
      port, then GET, SREM and DEL of the record. */
  function ReleaseCommand(s: StoreState, i: Instance, n: nat): StoreState {
    match n
    case 0 => s.(inUse := s.inUse - {i.port})
    case 1 => s.(available := s.available + {i.port})
    case 3 => RemIndex(s, i.state, i.id)
    case 4 => DelRecord(s, i.id)
    case _ => s
  }

  function ReleaseCommands(s: StoreState, i: Instance, first: nat, last: nat): StoreState
    requires first <= last
    decreases last - first
  {
    if first == last then s else ReleaseCommands(ReleaseCommand(s, i, first), i, first + 1, last)
  }

  lemma {:induction false} CommandsDo(s: StoreState, i: Instance, first: nat, last: nat)
    requires first <= last <= 5
    ensures ReleaseCommands(s, i, first, last)
            == StoreState(
                 if first <= 4 < last then s.records - {i.id} else s.records,
                 s.ready,
                 if first <= 3 < last then s.index - {(i.state, i.id)} else s.index,
                 if first <= 1 < last then s.available + {i.port} else s.available,
                 if first <= 0 < last then s.inUse - {i.port} else s.inUse)
    decreases last - first
  {
    if first == last {
    } else {
      CommandsDo(ReleaseCommand(s, i, first), i, first + 1, last);
    }
  }

  /** With nothing in between they are the whole Release. */
  lemma CommandsAreRelease(s: StoreState, i: Instance)
    requires i.id in s.records && s.records[i.id].state == i.state
    ensures ReleaseCommands(s, i, 0, 5) == ReleasedStore(s, i.id, i.port)
  {
    CommandsDo(s, i, 0, 5);
  }

  /** A save of the record among the commands of its Release: p of them come before
      the SET, q before the SADD. */
  function SaveAmid(s: StoreState, i: Instance, j: Instance, p: nat, q: nat): StoreState
    requires p <= q <= 5
  {
    var read := SetRecord(ReleaseCommands(s, i, 0, p), j);
    ReleaseCommands(AddIndex(ReleaseCommands(read, i, p, q), j.state, j.id), i, q, 5)
  }

  /** A TTL write among them: SET only. */
  function TtlAmid(s: StoreState, i: Instance, j: Instance, p: nat): StoreState
    requires p <= 5
  {
    ReleaseCommands(SetRecord(ReleaseCommands(s, i, 0, p), j), i, p, 5)
  }

  /** j is a caller's copy of the record i: it differs at most in address and expiry. */
  predicate CopyOf(j: Instance, i: Instance) {
    j.id == i.id && j.state == i.state && j.port == i.port
  }

  /** Each record's port is its own. */
  ghost predicate PortsDistinct(s: StoreState) {
    forall j, k | j in s.records && k in s.records && j != k :: s.records[j].port != s.records[k].port
  }

  lemma SaveAmidIs(s: StoreState, i: Instance, j: Instance, p: nat, q: nat)
    requires CopyOf(j, i) && p <= q <= 5 && (i.state, i.id) in s.index
    ensures var v := SaveAmid(s, i, j, p, q);
            && v.records == (if p <= 4 then s.records - {i.id} else s.records[i.id := j])
            && v.index == (if q <= 3 then s.index - {(i.state, i.id)} else s.index)
            && v.ready == s.ready && v.available == s.available + {i.port} && v.inUse == s.inUse - {i.port}
  {
    var first := ReleaseCommands(s, i, 0, p);
    var read := SetRecord(first, j);
    var mid := ReleaseCommands(read, i, p, q);
    CommandsDo(s, i, 0, p);
    CommandsDo(read, i, p, q);
    CommandsDo(AddIndex(mid, j.state, j.id), i, q, 5);
    var v := SaveAmid(s, i, j, p, q);
    assert v.records == if p <= 4 then s.records - {i.id} else s.records[i.id := j];
    assert v.index == if q <= 3 then s.index - {(i.state, i.id)} else s.index;
  }

  /** A save that overlaps a Release, at the grain of single commands. It is harmless,
      that is, the outcome is that of the Release alone, if and only if its SADD comes
      before the Release's SREM of the state set. A later SADD leaves an id without a
      record in the state set, unless the SET too comes after the DEL: then the record
      is back while its port is on offer. */
  lemma ReleaseDuringSave(s: StoreState, i: Instance, j: Instance, p: nat, q: nat)
    requires Coherent(s) && PortsTracked(s) && PortsDistinct(s)
    requires i.id in s.records && i == s.records[i.id] && CopyOf(j, i) && p <= q <= 5
    ensures SaveAmid(s, i, j, p, q) == ReleasedStore(s, i.id, i.port) <==> q <= 3
    ensures Coherent(SaveAmid(s, i, j, p, q)) <==> q <= 3 || p == 5
    ensures PortsTracked(SaveAmid(s, i, j, p, q)) <==> p <= 4
  {
    var v := SaveAmid(s, i, j, p, q);
    SaveAmidIs(s, i, j, p, q);
    assert (i.state, i.id) in s.index;
    if q > 3 {
      assert (i.state, i.id) in v.index && (i.state, i.id) !in ReleasedStore(s, i.id, i.port).index;
    }
    if p == 5 {
      assert v.records[i.id].port in v.available;
    }
  }

  /** SetInstanceTTL overlapping a Release: harmless if and only if its SET comes
      before the DEL. After it the record is back, in no state set and with its port on
      offer. */
  lemma ReleaseDuringTtlWrite(s: StoreState, i: Instance, j: Instance, p: nat)
    requires Coherent(s) && PortsTracked(s) && PortsDistinct(s)
    requires i.id in s.records && i == s.records[i.id] && CopyOf(j, i) && p <= 5
    ensures TtlAmid(s, i, j, p) == ReleasedStore(s, i.id, i.port) <==> p <= 4
    ensures Coherent(TtlAmid(s, i, j, p)) <==> p <= 4
    ensures PortsTracked(TtlAmid(s, i, j, p)) <==> p <= 4
    ensures p == 5 ==> forall st :: i.id !in Members(TtlAmid(s, i, j, p), st)
  {
    var v := TtlAmid(s, i, j, p);
    CommandsDo(s, i, 0, p);
    CommandsDo(SetRecord(ReleaseCommands(s, i, 0, p), j), i, p, 5);
    assert v.records == if p <= 4 then s.records - {i.id} else s.records[i.id := j];
    assert v.index == s.index - {(i.state, i.id)};
    assert (i.state, i.id) in s.index;
    if p == 5 {
      assert v.records[i.id].port in v.available;
      assert forall st :: (st, i.id) !in v.index;
    }
  }
}
