/** The shared Valkey state as a value, with one function per command or Lua
    script of internal/store/valkey.go. The class in Store.dfy updates its
    fields in place and is proved against these functions; the interleaving
    models take them as their atomic steps. */
module StoreSpec {
  import opened Domain

  /** `index` holds the members of all `state:*` sets: (s, id) is in `index`
      exactly when id is a member of the set named "state:" + s. */
  datatype StoreState = StoreState(
    records: map<string, Instance>,
    ready: seq<string>,
    index: set<(InstanceState, string)>,
    available: set<int>,
    inUse: set<int>)

  const EMPTY: StoreState := StoreState(map[], [], {}, {}, {})

  function Members(s: StoreState, st: InstanceState): set<string> {
    set e | e in s.index && e.0 == st :: e.1
  }

  /** The records that ListByState finds: those of the members of the state set. */
  function Listed(s: StoreState, state: InstanceState): set<Instance> {
    set id | id in Members(s, state) && id in s.records :: s.records[id]
  }

  ghost predicate NoRepeats(list: seq<Instance>) {
    forall j, k :: 0 <= j < k < |list| ==> list[j].id != list[k].id
  }

  // ---- single commands -------------------------------------------------

  function SetRecord(s: StoreState, i: Instance): StoreState {
    s.(records := s.records[i.id := i])
  }

  function DelRecord(s: StoreState, id: string): StoreState {
    s.(records := s.records - {id})
  }

  function AddIndex(s: StoreState, st: InstanceState, id: string): StoreState {
    s.(index := s.index + {(st, id)})
  }

  function RemIndex(s: StoreState, st: InstanceState, id: string): StoreState {
    s.(index := s.index - {(st, id)})
  }

  function PushReady(s: StoreState, id: string): StoreState {
    s.(ready := s.ready + [id])
  }

  // ---- repository methods ----------------------------------------------

  function SaveInstance(s: StoreState, i: Instance): StoreState {
    AddIndex(SetRecord(s, i), i.state, i.id)
  }

  function AddToPool(s: StoreState, i: Instance): StoreState {
    PushReady(SaveInstance(s, i.(state := Ready)), i.id)
  }

  function DeleteInstance(s: StoreState, id: string): StoreState {
    if id !in s.records then s
    else DelRecord(RemIndex(s, s.records[id].state, id), id)
  }

  function ReleasePort(s: StoreState, port: int): StoreState {
    s.(inUse := s.inUse - {port}, available := s.available + {port})
  }

  /** The store commands of Release: the port first, then the record. */
  function ReleasedStore(s: StoreState, id: string, port: int): StoreState {
    DeleteInstance(ReleasePort(s, port), id)
  }

  /** SetInstanceTTL at time `now`; a missing record is an error without effect. */
  function SetTtl(s: StoreState, id: string, ttl: int, now: int): StoreState {
    if id !in s.records then s
    else s.(records := s.records[id := s.records[id].WithExpiry(now + ttl)])
  }

  /** InitializePorts looks at the available set alone. */
  function Refill(s: StoreState, range: set<int>): StoreState {
    if s.available == {} then s.(available := range) else s
  }

  // ---- the same methods when the store stops answering after n commands ------

  function SaveAfter(s: StoreState, i: Instance, n: nat): StoreState {
    if n == 0 then s else if n == 1 then SetRecord(s, i) else SaveInstance(s, i)
  }

  function AddAfter(s: StoreState, i: Instance, n: nat): StoreState {
    if n <= 2 then SaveAfter(s, i.(state := Ready), n) else AddToPool(s, i)
  }

  /** The commands of DeleteInstance are GET, SREM, DEL. */
  function DeleteAfter(s: StoreState, id: string, n: nat): StoreState {
    if n <= 1 || id !in s.records then s
    else if n == 2 then RemIndex(s, s.records[id].state, id)
    else DeleteInstance(s, id)
  }

  function ReleasePortAfter(s: StoreState, port: int, n: nat): StoreState {
    if n == 0 then s
    else if n == 1 then s.(inUse := s.inUse - {port})
    else ReleasePort(s, port)
  }

  /** At method granularity every state set is exact. */
  ghost predicate Coherent(s: StoreState) {
    && (forall id | id in s.records :: s.records[id].id == id)
    && (forall st, id :: (st, id) in s.index <==> id in s.records && s.records[id].state == st)
  }

  /** The port of every record is in use and not on offer. */
  ghost predicate PortsTracked(s: StoreState) {
    forall id | id in s.records :: s.records[id].port in s.inUse && s.records[id].port !in s.available
  }

  // ---- Lua scripts -----------------------------------------------------

  datatype Pop = Pop(store: StoreState, taken: Option<Instance>)

  /** acquireFromPoolScript: an orphan id goes back to the end of the list. */
  function AcquireScript(s: StoreState, now: int): Pop {
    if s.ready == [] then Pop(s, None)
    else
      var id := s.ready[0];
      var popped := s.(ready := s.ready[1..]);
      if id !in s.records then Pop(PushReady(popped, id), None)
      else
        var i := s.records[id].(state := Assigned, assignedAt := Some(now));
        var unindexed := RemIndex(popped, s.records[id].state, id);
        Pop(AddIndex(unindexed.(records := unindexed.records[id := i]), Assigned, id), Some(i))
  }

  /** updateInstanceStateScript. */
  function UpdateStateScript(s: StoreState, id: string, st: InstanceState, now: int): StoreState {
    if id !in s.records || s.records[id].state == st then s
    else
      var i := s.records[id];
      var at := if st == Assigned && i.assignedAt.None? then Some(now) else i.assignedAt;
      var unindexed := RemIndex(s, i.state, id);
      AddIndex(unindexed.(records := unindexed.records[id := i.(state := st, assignedAt := at)]), st, id)
  }

  datatype ExtendReply = NotFound | NoExpiry | ExceedsMax(remaining: int) | Extended(newUnix: int)

  /** The decision of extendInstanceTTLAtomicScript, in whole seconds. */
  function ExtendDecision(s: StoreState, id: string, ext: int, maxSecs: int, nowUnix: int): ExtendReply {
    if id !in s.records then NotFound
    else if s.records[id].expiresAtUnix == 0 then NoExpiry
    else
      var exp := s.records[id].expiresAtUnix;
      var remaining := Max(0, exp - nowUnix);
      if remaining + ext > maxSecs then ExceedsMax(remaining) else Extended(exp + ext)
  }

  /** Only expires_at_unix is written by the script. */
  function ExtendScript(s: StoreState, id: string, ext: int, maxSecs: int, nowUnix: int): StoreState {
    var r := ExtendDecision(s, id, ext, maxSecs, nowUnix);
    if r.Extended? then s.(records := s.records[id := s.records[id].(expiresAtUnix := r.newUnix)]) else s
  }

  /** syncExpiresAtField with the expiry the script returned. */
  function SyncExpiry(s: StoreState, id: string, unix: int): StoreState {
    if id !in s.records then s
    else s.(records := s.records[id := s.records[id].WithExpiry(unix * SECOND)])
  }

  /** ExtendInstanceTTLAtomic with nothing between script and sync. */
  function ExtendAtomic(s: StoreState, id: string, ext: int, maxSecs: int, nowUnix: int): StoreState {
    var r := ExtendDecision(s, id, ext, maxSecs, nowUnix);
    if r.Extended? then SyncExpiry(ExtendScript(s, id, ext, maxSecs, nowUnix), id, r.newUnix) else s
  }

  lemma ReleaseUndoesAllocate(s: StoreState, port: int)
    requires port in s.available && port !in s.inUse
    ensures ReleasePort(s.(available := s.available - {port}, inUse := s.inUse + {port}), port) == s
  {
    var t := ReleasePort(s.(available := s.available - {port}, inUse := s.inUse + {port}), port);
    assert t.available == s.available && t.inUse == s.inUse;
  }

  lemma HasMember(ports: set<int>)
    ensures ports == {} || exists p :: p in ports
  {
    if forall p :: p !in ports { assert ports == {}; }
  }

  // ---- what the counts of GetPoolStats count --------------------------------

  /** The ids of the records in a state. */
  function InState(s: StoreState, st: InstanceState): set<string> {
    set id | id in s.records && s.records[id].state == st
  }

  /** Listed ids whose record is gone. */
  function Orphans(s: StoreState): set<string> {
    set id | id in s.ready && id !in s.records
  }

  ghost predicate NoDup(s: seq<string>) {
    forall i, j :: 0 <= i < j < |s| ==> s[i] != s[j]
  }

  /** The list holds every ready record once, and no record in another state. */
  ghost predicate ListExact(s: StoreState) {
    && NoDup(s.ready)
    && (forall id | id in s.records :: id in s.ready <==> s.records[id].state == Ready)
  }

  lemma NoDupTail(s: seq<string>)
    requires NoDup(s) && s != []
    ensures NoDup(s[1..]) && s[0] !in s[1..]
  {
  }

  lemma {:induction false} ListCard(s: seq<string>)
    requires NoDup(s)
    ensures |s| == |set x | x in s|
  {
    if s == [] {
      assert (set x | x in s) == {};
    } else {
      NoDupTail(s);
      ListCard(s[1..]);
      assert s == [s[0]] + s[1..];
      assert (set x | x in s) == {s[0]} + (set x | x in s[1..]);
    }
  }

  lemma CountsMean(s: StoreState)
    ensures Coherent(s) ==> forall st :: Members(s, st) == InState(s, st)
    ensures ListExact(s) ==> |s.ready| == |InState(s, Ready)| + |Orphans(s)|
  {
    if Coherent(s) {
      forall st ensures Members(s, st) == InState(s, st) {
        forall id ensures id in Members(s, st) <==> id in InState(s, st) {
          assert id in Members(s, st) <==> (st, id) in s.index;
        }
      }
    }
    if ListExact(s) {
      ListCard(s.ready);
      assert (set x | x in s.ready) == InState(s, Ready) + Orphans(s);
      assert InState(s, Ready) !! Orphans(s);
    }
  }

  // ---- cardinality of a state set ---------------------------------------

  lemma AddIndexMembers(s: StoreState, st: InstanceState, id: string)
    ensures Members(AddIndex(s, st, id), st) == Members(s, st) + {id}
    ensures forall other | other != st :: Members(AddIndex(s, st, id), other) == Members(s, other)
  {
    var t := AddIndex(s, st, id);
    forall x ensures x in Members(t, st) <==> x in Members(s, st) + {id} {
      assert x in Members(t, st) <==> (st, x) in t.index;
      assert x in Members(s, st) <==> (st, x) in s.index;
    }
    forall other | other != st ensures Members(t, other) == Members(s, other) {
      forall x ensures x in Members(t, other) <==> x in Members(s, other) {
        assert x in Members(t, other) <==> (other, x) in t.index;
        assert x in Members(s, other) <==> (other, x) in s.index;
      }
    }
  }

  lemma RemIndexMembers(s: StoreState, st: InstanceState, id: string)
    ensures Members(RemIndex(s, st, id), st) == Members(s, st) - {id}
    ensures forall other | other != st :: Members(RemIndex(s, st, id), other) == Members(s, other)
  {
    var t := RemIndex(s, st, id);
    forall x ensures x in Members(t, st) <==> x in Members(s, st) - {id} {
      assert x in Members(t, st) <==> (st, x) in t.index;
      assert x in Members(s, st) <==> (st, x) in s.index;
    }
    forall other | other != st ensures Members(t, other) == Members(s, other) {
      forall x ensures x in Members(t, other) <==> x in Members(s, other) {
        assert x in Members(t, other) <==> (other, x) in t.index;
        assert x in Members(s, other) <==> (other, x) in s.index;
      }
    }
  }
}
