# Verified model of the warm-pool provisioning protocol

The service keeps a pool of ready demo shops. Its state lives in Valkey: instance
records, the `pool:ready` list, one `state:*` set per lifecycle state, the sets of
available and used ports, and rate-limit counters. Provisioners, acquirers,
releasers, TTL extensions and a background replenish loop work on that state at the
same time, some through atomic Lua scripts and some through several separate
commands. This project models that state and those operations and proves what they
keep, over all inputs and over all interleavings.

| file | content |
|---|---|
| `Domain.dfy` | instance records, expiry, pool arithmetic |
| `StoreSpec.dfy` | the store as a value; one function per command, script or method |
| `Store.dfy` | the repository as a class updated in place; index coherence per method |
| `ReadyQueue.dfy` | the ready list as a FIFO queue of live instances |
| `Protocol.dfy` | the state machine: every command of every operation is one step |
| `ProtocolSafety.dfy` | locks, local copies, indexes, ready list: what every step keeps |
| `ProtocolPorts.dfy` | port conservation and unique ownership |
| `ProtocolAlone.dfy` | operations run alone: the single commands do what the sequential methods do |
| `ProtocolLoop.dfy` | a pass of the replenish loop run alone |
| `ProtocolCapacity.dfy` | conservation law of the pool, capacity, number of provisions |
| `ProtocolCallers.dfy` | capacity with several concurrent callers of TriggerReplenish, each reading command by command |
| `ProtocolCallersTight.dfy` | runs that reach that bound |
| `ProtocolWakeup.dfy` | the one-slot trigger channel |
| `ProtocolRest.dfy` | the state between operations: exact indexes, separate ports and routes |
| `ProtocolAtRest.dfy` | what the pool needs while the loop rests, and what the loop does not notice |
| `ProtocolRuns.dfy` | no double assignment, no zombies, exact statistics, queue refinement |
| `Ttl.dfy` | expiry with nothing serialised, not even operations on one id |
| `TtlOverlap.dfy` | which of several overlapping extensions survive |
| `RateLimit.dfy` | the limiter against the history of requests |
| `Tables.dfy` | table prefixes, LIKE, dropping tables |
| `Caddy.dfy` | route encoding, decoding and ids |
| `Cleanup.dfy` | Release and CleanupHandler as functions of the deployment; the expiry scan |
| `Pool.dfy` | PoolManager, queue handler and acquireDemo as classes with faults |

How to read it:

- Each Valkey command, and each Lua script as a whole, is atomic. `Protocol` assumes
  that commands succeed, that container, proxy and TTL calls may fail at any time, and
  that at most one multi-step operation works on an instance id at a time (`locks`);
  operations on different ids interleave freely. The serialisation is a hypothesis:
  the code does not enforce it. `Ttl` does without it.
- In the classes, a parameter `answers` says how many commands of a method the store
  answers before it fails, and records such as `Calls` or `ProvisionCalls` say how the
  outside calls turn out; they range over all outcomes. Clock readings are parameters.
- `state:*` sets are one set of (state, id) pairs; an `expires_at_unix` of 0 stands for
  the absent field. Time is in nanoseconds where the source uses `time.Time`, in
  seconds where it uses Unix time. An expiring key is gone once its full lifetime has
  passed.
- Ids, container ids and hostnames of new instances are fresh, as UUIDs are; a hostname
  has no dot.

## Where the code differs from what it promises

Each of these is a proved statement about the code as it is, with the exact condition
where there is one.

- `ErrPoolExhausted` is reported although instances are ready when the head of the list
  is an id whose record was released (`AcquireDequeues`, `ExhaustedWithLiveInstance`);
  each such orphan costs one failed acquire (`AcquireReachesLive`).
- Overlapping extensions can lose one: a sync write puts the expiry its own script saw
  over what was accepted since (`ExtensionLost`). They all survive exactly when no
  extension was accepted between a script and its sync, going back from the latest sync
  to land (`ExtensionsSurvive`). An accepted extension can leave an instance expired
  (`AcceptedYetExpired`).
- Operations that overlap on one id are unsafe. A second Release offers a port that
  belongs to somebody else by now, unless it is still available (`SecondRelease`,
  `PortOfferedTwice`). A save that overlaps a Release is harmless exactly when its SADD
  comes before the Release's SREM of the state set (`ReleaseDuringSave`), a TTL write
  exactly when its SET comes before the DEL (`ReleaseDuringTtlWrite`); otherwise an index
  entry without a record or a record without its port is left.
- A Release that fails between removing the index entry and deleting the record leaves a
  record that no expiry scan finds (`FailedReleaseAndNextScan`); one that cannot free the
  port deletes the record all the same and loses the port (`FailedReleaseLosesPort`).
- The limiter is stricter than "n per hour": each allowed request renews the whole
  counter (`LimiterMeansChains`, `StricterThanWindow`).
- A failed provision is not always undone: AllocatePort failing between its two commands
  loses the port, and AddToPool failing after its first command leaves a record whose
  port is free again (`FailedProvisionUndone`, `ProvisionKeepsPorts`).
- InitializePorts offers all ports again, used ones included, whenever none is available
  (`RefillSafe`).
- An Acquire that loses its instance to a TTL or route failure triggers no
  replenishment, and neither does a Release (`OnlySuccessTriggers`,
  `FailedAcquireUnnoticed`, `ReleaseUnnoticed`). The loop can then rest with nothing in
  flight while an instance is needed (`RestBelowTarget`, `RestAfterRelease`). It rests
  with nothing needed exactly when, since its latest look, additions made up for the pops
  as far as the target and for the deletions of assigned instances as far as the capacity
  ask for it (`RestMeansReplenished`).
- An Acquire whose compensating Release fails as well can leave a zombie, an assigned
  record without an expiry (`FailedAcquireLeaves`).
- The instance id in a decoded route is the hostname, not the id that went in
  (`RoundTrip`); hostnames that differ in dots versus dashes share a route id
  (`RouteIdCollision`).
- The underscore of a table prefix is a LIKE wildcard (`PatternSelects`,
  `UnderscoreIsWildcard`).

## Model

| member | source | states |
|---|---|---|
| Domain.ExpiresIffEventuallyExpired | internal/domain/instance.go:43-52 | a record is collected at some time iff it has an expiry, and once expired stays expired |
| Domain.ExpiredFromWhen | internal/domain/instance.go:43-52 | an expiry in whole seconds takes effect at the first instant of the following second, the other one right after its instant |
| Domain.RemainingVersusExpired | internal/domain/instance.go:55-72 | the time left is n iff the expiry is exactly n ahead; remaining time and expiry disagree only inside the last second |
| Domain.ExpirySet | internal/store/valkey.go:475-496 | the two expiry fields name one instant to the second; the instance is not expired up to it and is expired from one second after it |
| Domain.PoolStats.AvailableCapacity | internal/domain/pool.go:21-27 | the largest number that keeps the pool within capacity, never negative |
| Domain.PoolStats.ReplenishmentNeeded | internal/domain/pool.go:30-40 | the largest number that overshoots neither target nor capacity |
| Store.ValkeyStore.InitializePorts | internal/store/valkey.go:239-259 | fills the available set with exactly the range when it is empty, else changes nothing; an error iff a command it needs fails or the range is empty |
| Store.ValkeyStore.SaveInstance | internal/store/valkey.go:262-280 | new state after 0, 1 or 2 answered commands, success iff both |
| Store.ValkeyStore.DeleteInstance | internal/store/valkey.go:302-325 | new state after any number of answered commands; an absent record is a success |
| Store.ValkeyStore.UpdateInstanceState | internal/store/valkey.go:25-66 | the script's new state and whether the record exists |
| Store.ValkeyStore.AcquireFromPool | internal/store/valkey.go:74-114 | the script's new state and result, including the orphan rotation |
| Store.ValkeyStore.AddToPool | internal/store/valkey.go:397-414 | new state after any number of answered commands; an interrupted call leaves the record behind |
| Store.ValkeyStore.ListByState | internal/store/valkey.go:426-454 | exactly the records of the set's members, each once on a coherent store; an error iff a command fails |
| Store.ListedExact | internal/store/valkey.go:426-454 | on exact sets these are exactly the records in the state |
| Store.ValkeyStore.ListExpired | internal/store/valkey.go:457-472 | on every store exactly the listed assigned records expired at the given time, each once on a coherent one; an error iff a command fails |
| Store.ValkeyStore.SetInstanceTtl | internal/store/valkey.go:475-496 | sets both expiry fields to now + ttl, or changes nothing on an error |
| Store.ValkeyStore.ExtendInstanceTtlAtomic | internal/store/valkey.go:669-732 | not found iff there is no record, no expiry iff the record has none; else accepted iff the time left plus the extension is within the maximum, with the new expiry, or refused with the time left; the record after script and sync or after the script alone, and nothing else changed |
| Store.ValkeyStore.AllocatePort | internal/store/valkey.go:543-564 | moves one available port to in use; failing between the commands loses exactly one port |
| Store.ValkeyStore.ReleasePort | internal/store/valkey.go:567-581 | new port sets after any number of answered commands |
| Store.ValkeyStore.GetPoolStats | internal/store/valkey.go:755-780 | on exact sets Assigned is the number of assigned records and Warming of warming ones; on an exact list Ready is the number of ready records plus orphans |
| Store.SaveCoherent | internal/store/valkey.go:262-280 | saving keeps the state sets exact iff the id is new or its state unchanged |
| Store.MethodsCoherent | internal/store/valkey.go:302-496 | all other methods keep them exact |
| Store.PartialMethods | internal/store/valkey.go:262-325 | an interrupted save or delete is incoherent exactly between its two writes |
| Store.PortOfferedTwice | internal/pool/impl.go:165-170 | with one provision in between, a live instance's port is on offer |
| Store.CommandsAreRelease | internal/pool/impl.go:165-173 | the five store commands of a Release, one after the other, are ReleasePort and DeleteInstance |
| Store.ReleaseDuringSave | internal/store/valkey.go:262-280 | for every placement of a save's SET and SADD among these commands: the outcome is the Release's alone iff SADD precedes the SREM of the state set; when sets and ports stay exact otherwise |
| Store.ReleaseDuringTtlWrite | internal/store/valkey.go:475-496 | for every placement of a TTL write's SET among them: harmless iff it precedes the DEL, else a record in no state set with its port on offer |
| ReadyQueue.AddEnqueues | internal/store/valkey.go:397-414 | AddToPool appends to the queue of live instances |
| ReadyQueue.AcquireDequeues | internal/store/valkey.go:74-114 | a successful acquire takes the front; a failed one changes only the list order; exhaustion iff the list is empty or headed by an orphan |
| ReadyQueue.DeleteDequeues | internal/store/valkey.go:302-325 | deleting a record removes it from the queue and keeps the order of the rest |
| ReadyQueue.OrphansRotate | internal/store/valkey.go:80-93 | acquires over a prefix of orphans all fail and move it to the back |
| ReadyQueue.AcquireReachesLive | internal/store/valkey.go:74-114 | behind n orphans exactly n acquires fail, the next returns the live instance, and the list is rotated |
| ReadyQueue.ExhaustedWithLiveInstance | internal/store/valkey.go:86-93 | two additions and one release lead to a coherent store that reports exhaustion with a live instance queued |
| ProtocolSafety.SafeStep | internal/store/valkey.go:262-414 | every step of every operation keeps locks, local copies, state sets, records and lists consistent |
| ProtocolSafety.SafeRun | internal/pool/impl.go:81-432 | the same over every run from an empty store |
| ProtocolSafety.Locality | internal/pool/impl.go:137-180 | a step that touches one thread and one id cannot break the invariant for any other |
| ProtocolPorts.OwnersStep | internal/store/valkey.go:543-581 | every step keeps one owner per port; ownership changes at exactly five commands |
| ProtocolPorts.PortsConserved | internal/pool/impl.go:303-432 | in every reachable state available, used and in-transit ports partition the range and every other port has exactly one owner |
| ProtocolPorts.RefillSafe | internal/store/valkey.go:241-255 | in every reachable state a refill keeps the ports a partition with unique owners iff a port is still available or the range is empty |
| ProtocolPorts.StalePortCommands | internal/store/valkey.go:567-581 | in every reachable state a stale SREM of a port is harmless iff the port is not in use, a stale SADD or both iff it is available |
| ProtocolPorts.SecondRelease | internal/pool/impl.go:165-173 | a second Release, or a redelivered cleanup, of an id whose record is gone is harmless iff the port is still available |
| ProtocolRest.HostsStep | internal/pool/impl.go:500-504 | every step keeps the hostnames of all records dot-free and distinct |
| ProtocolRest.RestIsSeparate | internal/pool/impl.go:137-180 | with no id being worked on: exact indexes, one tracked port and one route id per record, only ready ids listed |
| ProtocolAlone.ProvisionAlone | internal/pool/impl.go:303-432 | the six commands of a provision, run alone, are AllocatePort and AddToPool |
| ProtocolAlone.FailedProvisionAlone | internal/pool/impl.go:303-321 | a provision whose container fails, run alone, leaves the store as it was |
| ProtocolAlone.ReleaseAlone | internal/pool/impl.go:165-170 | the six commands of a Release, run alone, are ReleasePort and DeleteInstance |
| ProtocolAlone.ReleaseOfNothing | internal/pool/impl.go:137-141 | a Release of an id without a record, run alone, changes nothing |
| ProtocolAlone.ClientServed | internal/api/handler.go:239-294 | a client that takes the only listed instance leaves it assigned, expiring and saved |
| ProtocolAlone.AcquireAlone | internal/pool/impl.go:81-131 | the commands of a successful Acquire, run alone, are the script, SetInstanceTTL and the trigger |
| ProtocolAlone.AcquireThenSave | internal/api/handler.go:239-294 | an Acquire and its save-back, run alone on any list, are the script, SetInstanceTTL and SaveInstance of the caller's copy |
| ProtocolAlone.SaveBackAlone | internal/api/handler.go:286-294 | the handler's two commands, run alone, are SaveInstance |
| ProtocolAlone.FailedAcquireAlone | internal/pool/impl.go:89-98 | an Acquire that fails on its TTL, run alone, is the script and a Release, and changes neither loop nor channel |
| ProtocolAlone.ExhaustedAlone | internal/store/valkey.go:80-93 | an Acquire on an empty list changes nothing, one on a list headed by an orphan moves the orphan to the end |
| ProtocolAlone.RouteFailureAlone | internal/pool/impl.go:105-117 | an Acquire that fails on its route, run alone, is the script, SetInstanceTTL and a Release, without a trigger |
| ProtocolAlone.ExtensionAlone | internal/store/valkey.go:669-752 | an accepted extension, run alone, is script and sync of ExtendInstanceTTLAtomic |
| ProtocolAlone.ExtensionRefused | internal/store/valkey.go:669-718 | a refused extension, run alone, changes nothing |
| ProtocolAlone.CheckAlone | internal/pool/impl.go:242-250 | the three reads of the loop, run alone, are one snapshot; the loop rests iff nothing is needed |
| ProtocolLoop.LoopProvides | internal/pool/impl.go:240-260 | a provision of the loop, run alone, is AllocatePort and AddToPool, and the loop checks again |
| ProtocolLoop.LoopFails | internal/pool/impl.go:240-260 | a provision of the loop whose container fails leaves the store as it was, and the loop rests |
| ProtocolLoop.PassAlone | internal/pool/impl.go:240-260 | a pass of the loop run alone makes exactly ReplenishmentNeeded provisions and rests with nothing needed |
| ProtocolLoop.AllAddedLists | internal/store/valkey.go:397-414 | the pass appends the new ids in order, indexes each as ready and tracks each port |
| ProtocolLoop.AllAddedRecords | internal/store/valkey.go:397-414 | it sets the record of each new instance and no other |
| ProtocolLoop.TriggeredPassAlone | internal/pool/impl.go:275-291 | from rest, a pending token is taken once and the pass follows |
| ProtocolLoop.TickedPassAlone | internal/pool/impl.go:275-299 | on a tick the pass follows and a pending token stays |
| ProtocolCapacity.PoolConserved | internal/store/valkey.go:755-780 | only a completed provision adds to ready + assigned and only deleting an assigned record removes from it |
| ProtocolCapacity.PoolLedger | internal/pool/impl.go:240-260 | ready + assigned equals provisions minus releases over every run |
| ProtocolCapacity.NoWarming | internal/store/valkey.go:772-777 | the warming and expired sets are always empty |
| ProtocolCapacity.CapacityStep | internal/pool/impl.go:240-260 | each step keeps the capacity invariant although the statistics are read in three commands |
| ProtocolCapacity.CapacityRespected | internal/pool/impl.go:240-260 | with the loop as only provisioner ready + assigned never exceeds MaxPoolSize |
| ProtocolCapacity.ProvisionsBounded | internal/pool/impl.go:240-260 | from any point of any run on the loop provisions at most AvailableCapacity times plus once per release of an assigned instance |
| ProtocolCallers.LaunchCovers | internal/pool/impl.go:240-260 | a caller that begins leaves every reader covered: by the callers that began since its LLEN, or by the younger check of the one that began again |
| ProtocolCallers.CallersStep | internal/pool/impl.go:240-260 | every step of a caller or of any other operation keeps readers covered and the total bounded |
| ProtocolCallers.CallersBounded | internal/store/valkey.go:755-780 | with k concurrent callers that read LLEN and SCARD in separate commands, ready + assigned + in flight stays within MaxPoolSize + k - 1 |
| ProtocolCallersTight.CallersBoundIsTight | internal/pool/impl.go:242-255 | for every number of callers, every capacity and every target from 1 up, and ports for all but one instance, some run reaches the bound |
| ProtocolWakeup.NoLostWakeup | internal/pool/impl.go:275-291 | for every completed Acquire a token is pending, or the loop is about to check, or has checked after its pop |
| ProtocolWakeup.ListAtRest | internal/pool/impl.go:264-299 | at rest the list is what the latest check saw, one more per addition and one less per pop since, and none of those pops has completed its Acquire |
| ProtocolWakeup.OnlySuccessTriggers | internal/pool/impl.go:125-131 | the channel fills only at the end of a successful Acquire |
| ProtocolAtRest.LookWasThere | internal/store/valkey.go:755-780 | the loop's recorded look, list length and pool, is that of the state in which its latest LLEN ran |
| ProtocolAtRest.RestMeansReplenished | internal/pool/impl.go:264-299 | at rest the statistics as they are now ask for nothing iff pops less additions since the look are within what it had beyond target, or deletions less additions within what it had beyond capacity |
| ProtocolAtRest.ShortfallAtRest | internal/pool/impl.go:264-299 | at rest nothing is needed when every Acquire popped since the look has completed and no assigned instance was deleted since; else at most one is lacking for each |
| ProtocolAtRest.FailedAcquireUnnoticed | internal/pool/impl.go:89-98 | every run whose next Acquire fails on its TTL goes on to a state with one ready instance less and the loop as it was |
| ProtocolAtRest.ReleaseUnnoticed | internal/pool/impl.go:137-180 | every run goes on with the Release of a free assigned instance to a state with one assigned less and the loop as it was; from full capacity below target it then rests needing one |
| ProtocolAtRest.RestBelowTarget | internal/pool/impl.go:89-98 | a run that rests with an instance needed after a failed Acquire |
| ProtocolAtRest.RestAfterRelease | internal/pool/impl.go:137-180 | a run that rests with an instance needed after a Release, nothing popped since the look |
| ProtocolRuns.NoDoubleAssignment | internal/store/valkey.go:74-114 | no id is returned twice in any run |
| ProtocolRuns.AssignedForGood | internal/pool/impl.go:81-134 | no record goes back from assigned to ready |
| ProtocolRuns.NoZombies | internal/pool/impl.go:88-103 | every assigned record outside an Acquire carries an expiry |
| ProtocolRuns.IndexExact | internal/store/valkey.go:262-325 | for an id nobody works on, the state sets agree with its record |
| ProtocolRuns.StatsExactAtRest | internal/store/valkey.go:755-780 | Assigned counts assigned records; Ready counts ready records plus orphans; Warming is 0 |
| ProtocolRuns.QueueRefined | internal/store/valkey.go:397-414 | under every interleaving the live queue only enqueues at the end, dequeues at the front or drops a released id |
| Ttl.TtlStep | internal/store/valkey.go:475-496 | every step keeps stored and pending expiries within now + MaxTTL |
| Ttl.MaxTtlRespected | internal/store/valkey.go:669-752 | no interleaving of TTL writes, extensions, syncs and save-backs exceeds now + MaxTTL |
| Ttl.ScriptBounded | internal/store/valkey.go:163-185 | the script keeps the bound even with a stale clock argument |
| Ttl.DefaultAboveMax | internal/store/valkey.go:475-496 | the record SetInstanceTTL stores is within the bound iff DefaultTTL is at most MaxTTL |
| Ttl.SequentialExtensionsAddUp | internal/store/valkey.go:669-752 | expiry = initial expiry + sum of accepted extensions; rejections change nothing; both fields agree |
| Ttl.AcceptedYetExpired | internal/store/valkey.go:163-185 | an accepted extension leaves the instance expired iff the old expiry plus the extension is past |
| Ttl.SetTtlAlone | internal/store/valkey.go:475-496 | the three steps of SetInstanceTTL, run alone, set both fields to now + DefaultTTL |
| Ttl.SaveBackAlone | internal/pool/impl.go:99-103 | the handler's save-back, run alone, saves the copy with DefaultTTL from the hand-over in both fields |
| Ttl.ScriptAlone | internal/store/valkey.go:669-700 | clock and script of an extension, run alone, decide and write in seconds of the given minutes and of MaxTTL |
| Ttl.ExtendAlone | internal/store/valkey.go:669-752 | with the two commands of the sync they are ExtendInstanceTTLAtomic |
| TtlOverlap.LatestSyncDecides | internal/store/valkey.go:669-752 | under any overlap the expiry is what the latest sync to land carried plus what was accepted since |
| TtlOverlap.ExtensionsSurvive | internal/store/valkey.go:669-752 | overlapping extensions never add up to more than was accepted, and to all of it iff none was accepted between a script and its sync, back from the latest landing |
| TtlOverlap.ExtensionLost | internal/store/valkey.go:720-752 | with room for two, both are accepted and the one whose sync lands first is lost |
| RateLimit.RateLimiter.CheckAndIncrement | internal/store/valkey.go:122-135 | allowed iff both live counts are below their limits; then both counters are one higher and last 3600 s and 86400 s from now, else nothing changes |
| RateLimit.CountersTrackHistory | internal/store/valkey.go:122-135 | the counters are determined by the times of the allowed requests |
| RateLimit.LimiterMeansChains | internal/store/valkey.go:638-655 | each live counter is the length of the longest recent chain of allowed requests with gaps below the window |
| RateLimit.DecisionIsChains | internal/store/valkey.go:122-135 | for every ordered history a request is allowed iff the longest recent chain of allowed requests is below the hourly limit for 3600 s and below the daily one for 86400 s; it then joins the allowed times, and no other address is affected |
| RateLimit.ChainsExist | internal/store/valkey.go:638-655 | the longest chain exists and is unique, so this decides every request |
| RateLimit.SlidingWindow | internal/store/valkey.go:638-655 | no interval shorter than the window holds more allowed requests than the limit |
| RateLimit.DeniedChangesNothing | internal/store/valkey.go:127-129 | a request changes the counters iff it is allowed, and never another address's |
| RateLimit.StricterThanWindow | internal/store/valkey.go:130-133 | a request is refused although the last hour holds fewer than the limit |
| Tables.GeneratedPrefixesValid | internal/pool/impl.go:508-511 | every generated prefix is d, the first eight digits and an underscore, and passes validation; equal prefixes iff equal first eight digits |
| Tables.PatternSelects | internal/database/prestashop.go:119-125 | the pattern selects exactly the names that agree on the first nine characters and have a tenth |
| Tables.DropIsolates | internal/database/prestashop.go:114-159 | among validly prefixed tables a drop removes those of its own prefix only |
| Tables.UnderscoreIsWildcard | internal/database/prestashop.go:125-125 | a table without the prefix is dropped with it |
| Tables.Database.DropPrefixedTables | internal/database/prestashop.go:114-159 | new set of tables and success for every outcome of the two statements |
| Caddy.CaddyRouteToRoute | internal/proxy/caddy.go:382-417 | no route iff host or handler is missing; else the host without its domain suffix, the upstream of the first proxy or none, the id without its prefix |
| Caddy.BuiltRoute | internal/proxy/caddy.go:344-379 | the built route matches hostname and base domain, or a dotted hostname as it is, is terminal, and its only proxy dials the upstream without its scheme |
| Caddy.InstanceRoute | internal/domain/instance.go:33-35 | the route of an instance matches the host of the URL given to the client and dials the instance's port on localhost |
| Caddy.RouteIdPointwise | internal/proxy/caddy.go:420-424 | a route id is demo-route- and the hostname, character by character, with a dash for every dot |
| Caddy.DecimalReads | internal/pool/impl.go:106-110 | the port is written in digits that read back as its number, without a leading zero |
| Caddy.RoundTrip | internal/proxy/caddy.go:344-379 | for every route: hostname and upstream survive iff their conditions hold; the id becomes the cleaned hostname |
| Caddy.AcquireRouteRoundTrip | internal/pool/impl.go:105-111 | the routes Acquire installs come back with hostname and upstream intact |
| Caddy.RouteIdCollision | internal/proxy/caddy.go:420-424 | route ids are equal iff the names agree up to dots and dashes; injective on dot-free names |
| Caddy.DottedHostsCollide | internal/proxy/caddy.go:420-424 | two different hostnames with one route id |
| Caddy.RoutesAreSeparate | internal/proxy/caddy.go:142-213 | adding and removing reach only the route of their own hostname |
| Cleanup.PathsAgree | internal/queue/handlers.go:66-129 | for a task that matches the record CleanupHandler and Release reach the same state for every pattern of faults |
| Cleanup.ReleasedParts | internal/pool/impl.go:137-180 | what a Release leaves of containers, routes, tables, ports, record and index, for every pattern of faults |
| Cleanup.CleanedParts | internal/queue/handlers.go:66-129 | the same for a cleanup task, whose empty fields are skipped |
| Cleanup.CleanAbsorbsAttempt | internal/queue/handlers.go:66-129 | a clean attempt after a partial one equals a clean attempt |
| Cleanup.RetriesConverge | internal/queue/handlers.go:66-129 | any number of partial attempts and one clean one equal one clean attempt |
| Cleanup.CleanupsCommute | internal/queue/handlers.go:66-129 | tasks with different ids and ports commute, whatever fails in either |
| Cleanup.WithoutOneMore | internal/pool/impl.go:490-495 | releasing one more expired instance extends the closed form of the scan |
| Cleanup.ReleasesAddUp | internal/pool/impl.go:490-495 | releases one after the other, in any order, take away exactly what each instance owns |
| Cleanup.ScanIsExact | internal/pool/impl.go:484-498 | one pass removes the records, ports, routes and containers of all expired instances and nothing else; other records, ports, routes, containers and the queue stay |
| Cleanup.ScanDropsTables | internal/pool/impl.go:146-157 | of all tables named by valid prefixes exactly those of expired instances whose drop worked go |
| Cleanup.FailedReleaseAndNextScan | internal/pool/impl.go:484-498 | after a failed Release the next scan finds the instance iff nothing was deleted, and never again iff the index entry but not the record was |
| Cleanup.RetriedReleaseIsClean | internal/pool/impl.go:484-498 | the retry then ends where a clean Release alone would have |
| Cleanup.FailedReleaseLosesPort | internal/pool/impl.go:165-173 | after a Release with faults the port is available or held by a record iff it was freed or the record stayed |
| Pool.PoolManager.Release | internal/pool/impl.go:137-180 | new deployment and result for every pattern of faults, the first GET included; an unknown id changes nothing |
| Pool.PoolManager.ProvisionInstance | internal/pool/impl.go:303-432 | success iff the port was allocated, a container was restored or else started, is healthy and was added; then its record has that container, the popped port, state ready and no expiry, and list, index, ports and containers have one entry more; new deployment for every failure point, the loss of a port between SPOP and SADD included |
| Pool.FailedProvisionUndone | internal/pool/impl.go:303-432 | a failed provision restores the deployment iff its compensating calls work and it failed at a point they cover |
| Pool.FailedProvisionLeaves | internal/pool/impl.go:303-432 | what a failed provision leaves of ports, containers, record and index, for every failure point |
| Pool.ProvisionKeepsPorts | internal/pool/impl.go:303-432 | after any provision every record's port is tracked iff AddToPool did not fail after setting the record with the port untracked since |
| Pool.ProvisionThenRelease | internal/pool/impl.go:137-180 | a clean Release after a provision restores records, index, ports and containers; the id stays in the list as an orphan |
| Pool.ProvisionAddsOne | internal/pool/impl.go:303-432 | a successful provision adds one record, list entry, index entry, port and container and nothing else |
| Pool.AddCoherent | internal/store/valkey.go:397-414 | adding a fresh ready instance keeps the state sets exact and adds one record |
| Pool.PoolManager.Acquire | internal/pool/impl.go:81-134 | result, new deployment and trigger for every failure point, a failing script included |
| Pool.AcquireAllOrNothing | internal/pool/impl.go:81-134 | which outcome occurs, in terms of the calls and the head of the list; an acquire serves an assigned, indexed, routed instance, expiring DefaultTTL after the respective clock reading in the caller's copy and in the record, or with working compensation leaves no trace of it |
| Pool.FailedAcquireLeaves | internal/pool/impl.go:89-117 | with any compensation: the record of a failed acquire stays iff Release did not delete it, and then has an expiry iff the route failed |
| Pool.SaveBackServes | internal/api/handler.go:286-294 | the handler's save, complete or cut short, keeps the instance served and its expiry |
| Pool.DemoServes | internal/api/handler.go:239-294 | the record of a served client is the returned copy, or what SetInstanceTTL stored if the save did nothing; it is not expired before DefaultTTL has passed and is from a second later on |
| Pool.PoolManager.TriggerReplenish | internal/pool/impl.go:240-260 | a clean pass makes exactly ReplenishmentNeeded provisions and ends with need 0, clean iff there are enough ports when all calls work; how far it got when the statistics or a provision fail |
| Pool.PoolManager.CleanupExpired | internal/pool/impl.go:484-498 | on every store and for all faults, one Release after the other of exactly the expired instances listed, or nothing when listing fails; the closed form of ScanIsExact when the store works |
| Pool.Handlers.CleanupHandler | internal/queue/handlers.go:66-129 | new deployment for every task and every pattern of faults |
| Pool.Api.AcquireDemo | internal/api/handler.go:208-308 | a limited request, or one whose limit check fails, reaches nothing; an allowed one is counted even when the pool is exhausted; success stores an assigned record with the user address that lives for DefaultTTL |
| Pool.Api.ExtendDemo | internal/api/handler.go:350-399 | the reply for every case: minutes outside 1 to 60, unknown id, maximum exceeded with the time left, failure; an accepted extension moves the expiry by exactly its minutes, within now + MaxTTL, and touches no other field, record or set |
| Pool.Api.ReleaseDemo | internal/api/handler.go:402-437 | the reply for every case; released iff the record was found by both reads and deleted |

## Left out

- NoLostWakeup: one loop that has been started; starting and stopping it again replaces the channels it waits on and is not modelled.
- Two multi-step operations on one id at the same time in the state machine, except for expiry; the code does not prevent them. What goes wrong then is shown on the store and on reachable states (`SecondRelease`, `ReleaseDuringSave`, `ReleaseDuringTtlWrite`).
- UpdateInstanceState and RemoveFromPool in the state machine: nothing in production calls them. UpdateInstanceState is covered at method granularity.
- The non-atomic CheckRateLimit, IncrementRateLimit and ExtendInstanceTTL, and the float threshold NeedsReplenishment: unused by the operations modelled.
- ProvisionOne has no capacity check; runs with queue provisions are part of the state machine but of no capacity claim.
- ListRoutes, Health, server creation and the HTTP exchange with Caddy: I/O. Routes are a map keyed by route id.
- SQL execution, UpdateDomain and ClearCaches: foreign. The database is its set of table names, compared with case.
- Containers, health probes and CRIU: outside calls that succeed or fail on a set of running containers.
- JSON and cjson encoding, number precision in Lua, and the Valkey client.
- HTTP routing, middleware, the status stream, metrics, logging, configuration and the message queue.
