# Juggernaut: a verified model of its state machines

Juggernaut runs one isolated MCP server pod per user and server type. Several
state machines must agree on which pod exists, who is using it and when it may
die. This project models them in Dafny and proves what they keep, for every
input and every run.

| file | what it models |
|---|---|
| `Strings.dfy`, `Fingerprints.dfy` | Go's string order, sorted key lists, the fingerprint of a user's secrets |
| `ChildSpec.dfy`, `Child.dfy`, `ChildRuns.dfy` | the stdio child manager: one function per mutex-guarded region, the object whose methods implement them, and all interleavings of these regions with exit watchers, dying processes, unlocked fetches and the clock |
| `Documents.dfy`, `Cluster.dfy`, `ClusterSafety.dfy`, `ClusterProgress.dfy`, `ClusterEnding.dfy`, `ClusterRuns.dfy`, `Egress.dfy` | the session lifecycle protocol, one API call per step, with failing calls, crashes and an informer cache that moves on version by version; what every run keeps, what a reconcile makes of a session, how sessions end, runs that show what can go wrong, and the adapter that publishes allowlist entries |
| `Routing.dfy`, `MemoryTable.dfy` | the routing table's vocabulary and the in-process table |
| `RedisKeys.dfy`, `RedisStore.dfy`, `RedisTable.dfy`, `RedisSessions.dfy`, `Refinement.dfy` | the Redis table: key names, stored representation, cache tier, session records with a time to live, and the proof that it answers like the in-process table |
| `LocalBackend.dfy`, `Manager.dfy`, `Handlers.dfy` | the laptop provisioner, the session manager, and the binding of client sessions to pod incarnations |
| `Traffic.dfy`, `RedisTraffic.dfy` | in-flight accounting in the in-process table, and in Redis, command by command |
| `Reaper.dfy`, `MemoryReaper.dfy`, `RedisReaper.dfy` | the reaper's decision, and its sweeps over either table |
| `Caps.dfy` | the pod caps under overlapping calls |
| `Allowlist.dfy` | the textual egress matcher against the structured rules |
| `Policy.dfy`, `ToolNames.dfy` | grants and tool visibility; namespaced tool names in eager and lazy mode |

Objects that the source changes in place are classes whose methods are proved
against functions of the old state. Protocols are functions from a state and an
event to the next state; an event that is not possible in a state changes
nothing or is excluded by an `Enabled` predicate.

## Environment

- The clock never goes back. It is an `int` of milliseconds, passed in.
- SHA-256 is injective: a digest is represented by its preimage. The truncated
  user hash is a function parameter with results of eight characters; it is
  assumed injective only on the subjects in play, and only where stated.
- A listing fetched from a child that is closed or has exited fails. A start
  either is refused, or fails to connect after some time, or yields a new session.
- A Kubernetes delete marks an object while a finalizer is present and removes
  it otherwise. Updates of a session and of the allowlist use optimistic
  concurrency, and an update that would change nothing is not sent. A reconcile
  reads sessions and the allowlist from a cache that shows stored versions in
  order, possibly late and possibly skipping some; pods and server types are
  read with any result. One reconcile runs per session name at a time.
  The cached read of the allowlist presumes that it lives in the namespace the
  controller's cache covers; elsewhere the read, and with it every publication and
  withdrawal, fails.
- A Redis command succeeds or fails as a whole. `RedisTable` runs one operation of a
  process at a time, except where an overtaken read is modelled; `RedisSessions` and
  `RedisTraffic` interleave the commands of all processes.
- `MemoryReaper` takes reaper and request handlers to share one in-process table. The
  controller never does: it shares the Redis table, which `RedisReaper` is about, and
  with in-process tables its reaper does not see the gateway's requests at all.
- The egress proxy enforces the stored allowlist.
- New client session ids do not occur in the table yet.
- The readiness poll of a cold start happens at most once per 500 ms tick.

## Findings

Properties that hold under weaker conditions than one might expect, or only
under conditions the code does not state:

- The crash budget, hold safety, listing provenance and credential currency of
  the child manager hold in all interleavings, without further conditions.
- A session that is being terminated can still get a pod or an allowlist entry,
  from a version of it that was stored before (`ClusterRuns.EndedSessionGetsAPod`).
  This is possible exactly while a version that makes the reconciler stir is left
  in the cache, on its way there, or in a running reconcile
  (`ClusterEnding.AbsorbingExactlyWhenQuiet`). Such a pod still belongs to a session
  that is there to be torn down (`ClusterSafety.NeverOrphans`), and the session cannot
  be reported ready any more (`ClusterEnding.ReadyIsNeverReportedLate`).
- A teardown withdraws only the allowlist entries its cached copy shows, and a
  withdrawal that finds none succeeds. So an entry can outlive its session
  (`ClusterRuns.EntryOutlivesItsSession`), exactly if the cache did not show it yet
  (`ClusterSafety.EntryOutlivesExactlyIfMissed`).
- The Redis table does not overwrite a stored token by an empty one, so a pod
  is read back as put exactly if it has a token or none is stored for its name
  (`RedisStore.ReadBack`). If just the read of the token fails, a pod without its token
  is returned and cached (`RedisTable.Redis.GetPod`).
- An index entry of the Redis table is shared by two keys exactly if it holds a
  second bar (`RedisStore.EntrySharedExactlyIf`), and parsed rightly exactly if the
  server type has none (`RedisTable.ParseEntry`). Colons in server types do no harm.
- A session id that begins with `by-pod:` would name an index of sessions, and no
  other two records share a key (`RedisKeys.SameTextExactlyIf`).
- A read of a pod that a delete of the same process overtakes puts the deleted pod into
  the cache, which then serves it (`RedisTable.Redis.GetPodOvertaken`). Pods whose read
  fails are missing from listings and counts without an error (`RedisTable.Redis.ListPods`).
- The index of session ids covers all unexpired sessions as long as no purge erases an
  outdated reading: a purge reads the index and deletes what it read in two commands, and a
  session put in between stays, uncovered, and escapes later purges too
  (`RedisSessions.PutDuringPurgeStays`). Coverage survives a purge exactly if its reading
  still has all live sessions of the pod (`RedisSessions.StepSound`). An undisturbed purge spares
  the sessions of other pods exactly if its index holds none (`RedisSessions.PurgeExactlyIf`).
- The in-flight counter of the in-process table is exact for a name exactly if its pod was not
  dropped under an outstanding request since the name was last free of requests.
- The one in Redis is exact exactly if it was not zeroed under an outstanding request since it was
  last zeroed under none: by a delete, by expiry, or by the command that replaces a negative
  result, which can come late and strike a request that began after all others had ended
  (`RedisTraffic.LateClampLosesARequest`). It stays exact under renewal within every hour and
  without such deletes exactly if no such command is owed
  (`RedisTraffic.StaysExactExactlyIf`). While it is not exact, a session in use can be
  reaped (`RedisReaper.LateClampIsReaped`).
- The hourly expiry is meant to keep a crashed gateway from pinning a pod. It does not: the reaper's
  own reads renew the counter (`RedisReaper.CrashedIsNotReaped`).
- A teardown deletes by name. So the teardown of a session that is gone can remove its successor,
  exactly in its last call for a session it read as terminating but not deleted
  (`ClusterEnding.TeardownEndsAnotherExactlyIf`, `ClusterRuns.TeardownRemovesASuccessor`).
- With `k` calls between count and put, each cap is exceeded by at most `k - 1`
  and by one for every deleted pod that a hold puts back. For every cap and `k` some
  run exceeds the cap by `k - 1`, per user, per type and in total
  (`Caps.CeilingIsReached`), and a pod put back exceeds it even in sequence
  (`Caps.RevivedPodExceeds`).
- The allowlist matcher is right for all hosts, with or without colons: the
  port is what follows the last colon.
- Eager and lazy mode agree on every name unconditionally. Injective renames
  are needed for something else: they hold exactly if every visible tool can be
  reached (`ToolNames.ReachedIffInjective`).
- Secrets share their fingerprint with other secrets exactly if there are any and
  they are not a single one without NULs (`Fingerprints.SharedExactlyIf`). Among secrets
  without NULs fingerprints are unique.

## Model

| member | source | states |
|---|---|---|
| `Strings.SortedIsUnique` | internal/wrapper/child.go:141-146 | a strictly sorted list is determined by its elements, so sorting removes the map's iteration order |
| `Fingerprints.Hash` | internal/wrapper/child.go:147-153 | the digest's input is the concatenation of NUL-terminated names and values in key order |
| `Fingerprints.Compute` | internal/wrapper/child.go:137-154 | whatever order the map is walked in, the result is one function of the map; it is empty for the empty map |
| `Fingerprints.EncodingIsInjective` | internal/wrapper/child.go:147-153 | the hashed text of NUL-free secrets can be parsed in one way only |
| `Fingerprints.Canonical` | internal/wrapper/child.go:137-154 | for NUL-free names and values, fingerprints are equal iff the secrets are |
| `Fingerprints.NulMoves` | internal/wrapper/child.go:147-153 | for all names and values, a NUL in a value hashes like the end of a longer name |
| `Fingerprints.SharedExactlyIf` | internal/wrapper/child.go:137-154 | a fingerprint is shared with other secrets iff there is a secret and not just one without NULs |
| `Fingerprints.NulCanCollide` | internal/wrapper/child.go:147-153 | two different secret maps, one with a NUL in a value, that hash alike |
| `Child.RestartLog.Compact` | internal/wrapper/child.go:172-187 | in-place compaction of the same array keeps exactly the times after the cutoff, in order |
| `Child.Child.RestartAllowedLocked` | internal/wrapper/child.go:172-187 | prunes the list to the window and allows a start iff at most maxRestarts times remain; defaults 5 and 10 minutes |
| `Child.Child.StartLocked` | internal/wrapper/child.go:189-236 | a refused start changes nothing, a failed connection is recorded, a start moves to the next generation with the request's token |
| `Child.Child.SessionLocked` | internal/wrapper/child.go:109-134 | reuses, rotates, defers or starts exactly as the specification of the locked region says, with result and whole new state |
| `Child.Child.Acquire` | internal/wrapper/child.go:67-76 | a hold is taken iff a session is returned |
| `Child.Child.End` | internal/wrapper/child.go:160-170 | the last hold stops a child whose restart was deferred; the counter does not go below zero |
| `Child.Child.WaitExit` | internal/wrapper/child.go:238-248 | an exit of the current generation is recorded and clears the session; an exit of an older one changes nothing |
| `Child.Child.StopLocked` | internal/wrapper/child.go:250-256 | closes the session and invalidates its generation |
| `Child.Child.StoreLists` | internal/wrapper/child.go:99-106 | stores a fetched listing only if the generation has not changed since the lookup |
| `ChildSpec.Defaults` | internal/wrapper/child.go:172-187 | zero stands for five restarts and ten minutes, anything else for itself |
| `ChildSpec.MatchingIsReused` | internal/wrapper/child.go:109-124 | a running child that has every credential the request brings is returned as it is, with no change at all |
| `ChildSpec.OthersAreReplaced` | internal/wrapper/child.go:109-134 | one that lacks some is returned only while in use, and to be restarted when idle; otherwise it is stopped and only a newly started session, with the request's credentials, is returned |
| `ChildSpec.StartedExactlyIf` | internal/wrapper/child.go:126-133 | without a session one is started iff at most maxRestarts recorded times are in the window and the process comes up; refused by the budget iff there are more |
| `ChildSpec.StoredIsServed` | internal/wrapper/child.go:80-107 | a listing stored for the current generation is served to its session, one for another generation is not stored, and none is served after a stop |
| `ChildSpec.AfterMeans` | internal/wrapper/child.go:172-187 | pruning keeps each time later than the cutoff as often as it was recorded, and no other |
| `ChildSpec.AfterAfter` | internal/wrapper/child.go:172-187 | pruning at an earlier cutoff first never changes what a later pruning keeps |
| `ChildRuns.SessionWorldFollowsCode` | internal/wrapper/child.go:109-134 | the bookkeeping of runs takes exactly the transition of the locked region, with the same result |
| `ChildRuns.StepFollowsCode` | internal/wrapper/child.go:59-277 | every event of a run that stands for a locked region takes exactly that region's transition |
| `ChildRuns.NothingIsExcluded` | internal/wrapper/child.go:59-277 | at any point of a run time can pass, the child can be closed or checked, asked for, begun on and released, a live process can die and the watcher of a dead or closed one report; a start may be refused, fail to connect or yield any new session |
| `ChildRuns.NoFetchIsExcluded` | internal/wrapper/child.go:80-107 | a listing can be looked up for any session, given up and stored at any point, and answered iff its session is neither dead nor closed |
| `ChildRuns.StepKeeps` | internal/wrapper/child.go:59-256 | every locked region, exit, fetch step and tick keeps the invariant on identity, holds, budget, recorded exits and listing provenance |
| `ChildRuns.ReachableInv` | internal/wrapper/child.go:59-277 | the invariant holds in every reachable state of every interleaving |
| `ChildRuns.CrashBudget` | internal/wrapper/child.go:172-236 | in the full history of any run, every interval one window long holds at most maxRestarts + 1 recorded exits and failed starts |
| `ChildRuns.PruningIsHarmless` | internal/wrapper/child.go:172-187 | in every reachable state the decision on the pruned list is the decision on the full history |
| `ChildRuns.OnlyCrashesAreRecorded` | internal/wrapper/child.go:238-256 | a generation's exit is recorded at most once, and never for a session that a rotation or a shutdown closed |
| `ChildRuns.HeldSessionStays` | internal/wrapper/child.go:109-170 | while a hold is open, its session stays the current, unclosed one in every run without its own exit, a shutdown or this release |
| `ChildRuns.HoldSafety` | internal/wrapper/child.go:67-76 | the same from a successful `Acquire` in any reachable state, under any later events |
| `ChildRuns.OnlyExitOrShutdownEndsAHold` | internal/wrapper/child.go:109-134 | in no reachable state has a rotation closed a session that somebody holds |
| `ChildRuns.CredentialsAreCurrent` | internal/wrapper/child.go:109-134 | with nothing in flight, the returned session was started with the request's non-empty token and secrets |
| `ChildRuns.MatchingRequestChangesNothing` | internal/wrapper/child.go:109-124 | in every reachable state, a request with the credentials the current session was started with gets that session, and nothing is closed, started or recorded |
| `ChildRuns.RefusedExactlyIf` | internal/wrapper/child.go:126-133 | in every reachable state without a session, a start is refused iff the full history of the window exceeds the budget |
| `ChildRuns.DeferredRestart` | internal/wrapper/child.go:160-170 | the last release of a child with a deferred restart stops it, and after any further events the next caller gets a new session with exactly its own credentials |
| `ChildRuns.DeferredOnlyWhileHeld` | internal/wrapper/child.go:119-124 | a deferred restart is pending only while holds exist, and the counter equals the open holds |
| `ChildRuns.ServedListingIsOwn` | internal/wrapper/child.go:80-107 | a cached listing served for a session was fetched from that session |
| `ClusterSafety.SessionMoves` | internal/controller/session_controller.go:49-156 | no step takes back that a session is ending, and each stored change is a new version |
| `ClusterSafety.StepKeeps` | internal/controller/session_controller.go:42-165 | each API call of a reconcile, each action of gateway, reaper, kubelet and garbage collector, and each delivery to the cache keeps the invariant |
| `ClusterSafety.NeverOrphans` | internal/controller/session_controller.go:49-117 | in every run, a pod not being deleted is owned by the existing session of its name, which has the finalizer, and is isolated for that session |
| `ClusterSafety.GuardEnds` | internal/controller/session_controller.go:49-71 | a session loses its finalizer only in the last step of its own teardown, after its withdrawal of entries |
| `ClusterSafety.WithdrawnExactlyIfShown` | internal/adapters/egress/proxy/adapter.go:71-105 | a successful withdrawal leaves no entry of the session iff the cached allowlist showed one or there was none |
| `ClusterSafety.NeverOrphanEntries` | internal/controller/session_controller.go:58-71 | in every run whose withdrawals see what they have to withdraw, each entry names an existing session with the finalizer |
| `ClusterSafety.EntryOutlivesExactlyIfMissed` | internal/controller/session_controller.go:58-71 | after the last two calls of a teardown the session is gone, and an entry is left iff the cached allowlist did not show it |
| `ClusterSafety.GarbageExactlyIf` | internal/controller/session_controller.go:169-189 | isolation objects are collected iff the session that owns them is gone or was replaced |
| `ClusterProgress.ReconcileReports` | internal/controller/session_controller.go:75-164 | with current reads and successful calls, a reconcile of a session that has the finalizer and is not ending isolates it and leaves it failed for a broken pod and for one missing under ready or idle, which gets no other; starting for a created or unready pod; ready for a serving one, with its entry published unless it was ready already; the allowlist changes in no other case |
| `ClusterProgress.WithoutTypeFails` | internal/controller/session_controller.go:76-79 | a missing server type fails the session and leaves its pod as it was |
| `ClusterProgress.CreatesMissing` | internal/controller/session_controller.go:88-117 | a session without a pod that is neither ready nor idle gets one of its own, isolated, and becomes starting; a pod that is already there stays |
| `ClusterProgress.PublishesServing` | internal/controller/session_controller.go:138-156 | a serving pod of a session that is not ready publishes exactly its entry and makes the session ready |
| `ClusterProgress.FailingCall` | internal/controller/session_controller.go:42-165 | a failing call changes neither session nor pod nor isolation; after failing to isolate or to create, failed is reported next, after failing to mark the phase a teardown goes on, and every other failure ends the reconcile |
| `ClusterProgress.AddsFinalizer` | internal/controller/session_controller.go:72-74 | the first reconcile of a session adds the finalizer and nothing else |
| `Cluster.ActorsWrite` | internal/controller/reaper.go:111-125 | an idle mark and a termination take effect iff they were made on the stored version, each on its one field; a delete marks a session with the finalizer and removes one without |
| `ClusterProgress.BecomesReady` | internal/controller/session_controller.go:72-156 | three such reconciles take a new session to its finalizer, to an isolated pod of its own, and to ready with its entry published |
| `ClusterRuns.EntryOutlivesItsSession` | internal/controller/session_controller.go:58-71 | a run, after an earlier write of the list, that leaves an entry of a session that no longer exists |
| `ClusterEnding.EndingIsAbsorbing` | internal/controller/session_controller.go:49-74 | once an ended session is quiet, no continuation creates a pod, publishes an entry or reports ready for it |
| `ClusterEnding.StaleReadActs` | internal/controller/session_controller.go:43-47 | if it is not quiet, some continuation does |
| `ClusterEnding.AbsorbingExactlyWhenQuiet` | internal/controller/session_controller.go:49-74 | some continuation acts for an ended session iff a version that makes the reconciler stir is in the cache, on its way there or being reconciled; a cache that shows the end suffices for none |
| `ClusterEnding.EffectsAreAll` | internal/controller/session_controller.go:42-165 | no event makes a session ready, a pod appear or an entry come in unless it counts as the reconciler acting for that session (deliveries to the cache of the allowlist change none of these) |
| `ClusterRuns.EndedSessionGetsAPod` | internal/controller/session_controller.go:43-117 | a run after which a deleted session has a pod that is not being deleted |
| `ClusterEnding.ReadyIsNeverReportedLate` | internal/controller/session_controller.go:138-156 | ready is reported only for a session that at that moment has the finalizer and is not ending, even from a stale read |
| `ClusterEnding.OneTeardown` | internal/controller/session_controller.go:49-71 | one error-free teardown with fresh reads deletes the pod, withdraws all entries, and removes the object or marks it deleted |
| `ClusterEnding.TwoReconcilesRemove` | internal/controller/session_controller.go:49-71 | two uninterrupted error-free reconciles of an ending session remove the object, its pod and its entries |
| `ClusterEnding.TwoFinishedTeardownsRemove` | internal/controller/session_controller.go:49-71 | whatever the other actors do in between, a teardown that reaches its last call leaves the session marked or gone, and a second one with a current read leaves it gone for good, without a live pod and, with attentive withdrawals, without an entry |
| `ClusterEnding.TeardownEndsAnotherExactlyIf` | internal/controller/session_controller.go:66-68 | a teardown whose session was replaced ends the successor iff it makes its last call for a session it read as terminating but not deleted |
| `ClusterEnding.GuardedIsNotReplaced` | internal/controller/session_controller.go:66-71 | a session with the finalizer is not replaced during its teardown |
| `ClusterRuns.TeardownRemovesASuccessor` | internal/controller/session_controller.go:66-68 | a run in which the teardown of a gone session removes its successor |
| `Egress.Adapter.OnReady` | internal/adapters/egress/proxy/adapter.go:66-105 | publishes exactly the entry of the pod's IP, or fails on an outdated read, or finds it in the cached list |
| `Egress.Adapter.OnCleanup` | internal/adapters/egress/proxy/adapter.go:71-105 | on success the session's entries are withdrawn, and no others, iff the cached list showed one, as the protocol's withdrawal does; nothing is written if the cached list is in the program's own form and shows none, and otherwise all other entries in that form; a failure changes nothing |
| `Egress.Adapter.Connect` | internal/netpol/allowlist.go:57-75 | a pod with a published entry reaches exactly what the rules it was derived from permit, one without reaches nothing |
| `Routing.NamesSeparate` | internal/core/ids.go:42-42 | pod names determine their key if the hash separates the subjects, whatever the server types look like |
| `Routing.TallyCounts` | internal/adapters/routing/memory/adapter.go:91-107 | counting over any listing counts the table |
| `Routing.CountListed` | internal/adapters/routing/memory/adapter.go:91-107 | the counting loop yields the number of live pods of the user, of the type, and of all pods |
| `Routing.CountsMean` | internal/adapters/routing/memory/adapter.go:91-107 | pods that are gone or terminating count for no user and no type, and all pods count in total |
| `MemoryTable.Memory.PutPod` | internal/adapters/routing/memory/adapter.go:59-65 | the pod is stored under its own key, nothing else changes |
| `MemoryTable.Memory.DeletePod` | internal/adapters/routing/memory/adapter.go:67-76 | removes the pod and, only if it was known, the activity and the counter of its name |
| `MemoryTable.Memory.ListPods` | internal/adapters/routing/memory/adapter.go:78-89 | lists every matching pod exactly once, in some order |
| `MemoryTable.Memory.CountPods` | internal/adapters/routing/memory/adapter.go:91-107 | the three counts of the table, leaving out pods that are gone or terminating from the first two |
| `MemoryTable.Memory.DeleteSessionsForPod` | internal/adapters/routing/memory/adapter.go:135-144 | exactly the sessions on other pod names remain |
| `RedisKeys.Build` | internal/adapters/routing/redis/adapter.go:117-126 | the builder yields the prefix and the parts with colons between them |
| `RedisKeys.SameTextExactlyIf` | internal/adapters/routing/redis/adapter.go:117-126 | two records of the eight families share a key iff they are the same, or one is of a session whose id is `by-pod:` and a pod name and the other that pod's index |
| `RedisStore.EntryIsInjective` | internal/adapters/routing/redis/adapter.go:228-260 | a `type` bar `subject` entry of a type without bar determines both, for any subject |
| `RedisStore.EntrySharedExactlyIf` | internal/adapters/routing/redis/adapter.go:192-226 | another key has the same entry iff the type or the subject holds a bar |
| `RedisStore.PutKeeps` | internal/adapters/routing/redis/adapter.go:192-215 | after a put the store represents the updated table: records, tokens, both kinds of index |
| `RedisStore.DeleteKeeps` | internal/adapters/routing/redis/adapter.go:217-226 | after a delete the store represents the reduced table |
| `RedisStore.DeleteLeavesNothing` | internal/adapters/routing/redis/adapter.go:217-226 | a delete leaves neither record nor token nor activity nor counter of the pod, known or not |
| `RedisStore.ReadBack` | internal/adapters/routing/redis/adapter.go:192-215 | a put pod is read back unchanged iff it has a token or none is stored for its name |
| `RedisTable.ParseEntry` | internal/adapters/routing/redis/adapter.go:241-248 | reads the entry of a key back to that key iff its server type has no bar, and rejects text without a bar |
| `RedisTable.Redis.Fetch` | internal/adapters/routing/redis/adapter.go:162-187 | rebuilds the represented pod from record and token; an unreachable store is an error, an unreadable token is not |
| `RedisTable.Redis.Cache` | internal/adapters/routing/redis/adapter.go:158-190 | after caching what was read, every cached pod is what the store holds iff the one read still is |
| `RedisTable.Redis.GetPod` | internal/adapters/routing/redis/adapter.go:158-190 | answers like a plain map although it may answer from the cache; every cached pod stays equal to what the store holds, unless just the token could not be read |
| `RedisTable.Redis.GetPodOvertaken` | internal/adapters/routing/redis/adapter.go:158-190 | if a delete comes between read and caching, the deleted pod is cached and, if it was ready, served |
| `RedisTable.Redis.PutPod` | internal/adapters/routing/redis/adapter.go:192-215 | the represented table gains the pod, or nothing changes if the store fails; cache and store stay coherent |
| `RedisTable.Redis.DeletePod` | internal/adapters/routing/redis/adapter.go:217-226 | the represented table loses the key, or keeps it if the store fails; cache and store stay coherent |
| `RedisTable.Redis.ListPods` | internal/adapters/routing/redis/adapter.go:228-260 | through the index sets, lists exactly once every matching pod that the cache serves or whose read succeeds, or fails with the read of the index |
| `RedisTable.Redis.CountPods` | internal/adapters/routing/redis/adapter.go:262-280 | the counts of the represented table without the pods that could not be read |
| `Refinement.Lockstep` | internal/adapters/routing/redis/adapter.go:158-280 | for every sequence of operations, with the store down for any of them, the Redis table and the in-process table give the same, right answers; a failed operation has no effect and happens only when the store is down |
| `RedisSessions.CoveredLater` | internal/adapters/routing/redis/adapter.go:300-308 | at every later time, every unexpired session is in its pod's unexpired index |
| `RedisSessions.SessionRecords.PutSession` | internal/adapters/routing/redis/adapter.go:300-308 | renews record and index so that the index covers all records and outlives them |
| `RedisSessions.PutIsFoundUntil` | internal/adapters/routing/redis/adapter.go:282-308 | in every run that neither puts nor deletes it again, a put session is found as it was put until maxAge has passed, and not after |
| `RedisSessions.ExpiryIsSharp` | internal/adapters/routing/redis/adapter.go:300-320 | right after a put its pod's index names the session for just as long; deleting an expired session has no effect |
| `RedisSessions.SessionRecords.DeleteSession` | internal/adapters/routing/redis/adapter.go:310-320 | removes one live session and keeps the rest covered |
| `RedisSessions.StepSound` | internal/adapters/routing/redis/adapter.go:282-332 | every command keeps all unexpired sessions covered, and the erasing command of a purge does iff its reading still has all live sessions of the pod |
| `RedisSessions.RunSound` | internal/adapters/routing/redis/adapter.go:300-332 | in every interleaving of the commands of all processes whose purges erase complete readings, every unexpired session is in its pod's index, which expires no earlier |
| `RedisSessions.PutsDuringPurge` | internal/adapters/routing/redis/adapter.go:300-332 | whatever is put between the two commands of a purge, all stays covered iff each id last put on the pod was among those read |
| `RedisSessions.PutDuringPurgeStays` | internal/adapters/routing/redis/adapter.go:322-332 | for every session, a run in which it is put during a purge, stays live and uncovered, and escapes the next purge |
| `RedisSessions.SessionRecords.DeleteSessionsForPod` | internal/adapters/routing/redis/adapter.go:322-332 | the whole new state; all stays covered, and no live session of the pod remains, iff none was put in between that was not read; undisturbed, and if no id ever changed pods, all others remain |
| `RedisSessions.PurgeExactlyIf` | internal/adapters/routing/redis/adapter.go:322-332 | a purge removes just the pod's own live sessions iff its index holds no other pod's live session |
| `RedisSessions.SharedIdIsPurged` | internal/adapters/routing/redis/adapter.go:322-332 | an id put under two pods loses its live session when the first pod is purged |
| `LocalBackend.Backend.Ensure` | internal/adapters/provision/local/adapter.go:96-130 | keeps a running entry, replaces a failed one, adds nothing if the start fails |
| `LocalBackend.Backend.WatchReady` | internal/adapters/provision/local/adapter.go:132-145 | the entry a watcher was started for becomes ready if it says so and failed otherwise, even if it was replaced or released; no other entry changes |
| `Manager.Manager.PollOnce` | internal/gateway/manager.go:96-122 | one poll ends in success iff the backend's entry is ready, with its endpoint; in failure iff it failed, and then it is forgotten on both sides; in a timeout or a cancellation only if it is neither |
| `Manager.Manager.Hold` | internal/gateway/manager.go:92-124 | at most budget / 500 ms + 2 polls, of which all but the last find nothing; the outcome is what the last one finds, so a pod that became ready in time is returned |
| `Manager.Manager.Locate` | internal/gateway/manager.go:58-84 | refuses by cap iff the pod is missing and a cap is reached; a failed spawn leaves the table as it was |
| `Manager.Manager.EnsurePod` | internal/gateway/manager.go:45-89 | which refusal comes when; a ready pod is returned as it is; a cold one succeeds with the backend's ready entry and endpoint, and fails only if the entry is not ready; table and provisioner hold the same keys and tokens before and after; only the asked key changes |
| `Manager.Manager.Release` | internal/gateway/manager.go:127-133 | removes the pod on both sides and exactly the sessions of its name |
| `Manager.Manager.ReleaseAll` | internal/gateway/manager.go:136-147 | does so for exactly the pods of the subject |
| `Handlers.EnsureKeepsBound` | internal/gateway/manager.go:92-133 | ensuring keeps every session bound to its incarnation, although a failed start deletes a pod without purging sessions |
| `Handlers.PurgeKeepsBound` | internal/gateway/manager.go:127-133 | deleting pods with the sessions of their names keeps the other sessions bound |
| `Handlers.Server.EndSession` | internal/gateway/handlers_mcp.go:25-37 | ends a session iff it is the caller's own; the pod stays |
| `Handlers.Server.Resolve` | internal/gateway/handlers_mcp.go:65-77 | finds the session iff it is the caller's own and of this server type, and then it was issued by the present incarnation |
| `Handlers.Server.Register` | internal/gateway/handlers_mcp.go:110-123 | storing a session keeps every session on a ready pod of its own user and type, in the incarnation that issued it |
| `Handlers.RegisteredMeans` | internal/gateway/handlers_mcp.go:110-123 | the id the pod answered with is stored for a known session that had none, or on a POST under a new id if no known session is named; in all other cases, and without an answered id, nothing changes |
| `Handlers.OneOwner` | internal/gateway/handlers_mcp.go:65-77 | a stored session is honoured for its own subject and server type, and for no other |
| `Handlers.Server.Forward` | internal/gateway/handlers_mcp.go:102-123 | the in-flight bracket is balanced, activity is recorded, and a session is registered iff the pod has just started one |
| `Handlers.Server.Ensure` | internal/gateway/handlers_mcp.go:60-64 | a pod that is new in the table is an incarnation no session was issued on |
| `Handlers.Server.AdapterMCP` | internal/gateway/handlers_mcp.go:20-137 | a DELETE ends the session iff it is the caller's own; an unknown type, a missing grant and missing secrets are refused in this order; on a pod that is ready already, a request is answered 404 iff it names a session that is not its own, and else forwarded iff the token was issued; a session id is honoured only by the incarnation that issued it; what is stored afterwards in every outcome |
| `Handlers.Server.ReleaseAll` | internal/gateway/manager.go:136-147 | releasing pods keeps every remaining session bound |
| `Traffic.CounterTracksRequests` | internal/adapters/routing/memory/adapter.go:163-171 | over every run the counter never exceeds the outstanding requests, equals them iff the name is not lost, and is exact once none remain |
| `Traffic.UndisturbedIsExact` | internal/adapters/routing/memory/adapter.go:67-76 | it is exact throughout if no pod is dropped under an outstanding request |
| `Traffic.Traffic.BeginRequest` | internal/router/router.go:264-269 | opening the bracket on the real table is the begin step of the accounting |
| `Traffic.Traffic.FinishRequest` | internal/gateway/handlers_mcp.go:102-104 | closing the bracket is the finish step |
| `Traffic.Traffic.DropPod` | internal/adapters/routing/memory/adapter.go:67-76 | deleting a pod is the drop step, which loses its name if requests are outstanding |
| `RedisTraffic.StepKeeps` | internal/adapters/routing/redis/adapter.go:355-380 | each command of each process keeps the invariant on value, time to live and owed clamps |
| `RedisTraffic.CounterTracksRequests` | internal/adapters/routing/redis/adapter.go:355-380 | in every run the counter is at most the outstanding and crashed requests, equals them iff it was not zeroed under an outstanding one, and is exact once none remain and no clamp is owed |
| `RedisTraffic.TendedIsExact` | internal/adapters/routing/redis/adapter.go:355-380 | it is exact throughout if under outstanding requests the name is not deleted and the counter is renewed within every hour |
| `RedisTraffic.StaysExactExactlyIf` | internal/adapters/routing/redis/adapter.go:371-376 | it stays exact in all such continuations iff it is exact now and no clamp is owed |
| `RedisTraffic.LateClampLosesARequest` | internal/adapters/routing/redis/adapter.go:371-376 | a run in which the clamp discards the increment of a request that began when none was left |
| `RedisTraffic.ReadCounterStays` | internal/adapters/routing/redis/adapter.go:353-380 | a counter read within every hour never expires |
| `RedisTraffic.UntouchedExpires` | internal/adapters/routing/redis/adapter.go:353-379 | a counter nobody touches is gone an hour after its renewal and not before |
| `RedisTraffic.RenewedMeans` | internal/adapters/routing/redis/adapter.go:378-379 | a refreshed counter counts as renewed for just under an hour |
| `RedisTraffic.ZeroedMeans` | internal/adapters/routing/redis/adapter.go:371-376 | an owed clamp stores zero for an hour and is paid; a delete leaves no counter |
| `RedisTraffic.Meter.Adjust` | internal/adapters/routing/redis/adapter.go:367-379 | a counting call is its commands with those of others in between; what it returns and the whole new state |
| `RedisTraffic.Meter.Read` | internal/adapters/routing/redis/adapter.go:359-379 | a read returns the stored number and renews the counter if there is one |
| `Reaper.Decide` | internal/controller/reaper.go:68-116 | terminates a session iff its type is gone, it failed, or it is running and over age or unused without a request; marks it idle iff it is ready, unused and protected |
| `Reaper.CondemnedMeans` | internal/controller/reaper.go:68-111 | terminated iff it is not ending and its type is gone, or it failed, or it runs and is over maxSessionAge + 15 minutes, or has no request and is over maxSessionAge or unused for longer than idleTimeout; the last use is the recorded one, else when it became ready, else its creation |
| `Reaper.AsksMeans` | internal/controller/reaper.go:70-86 | the counter is read only for running sessions of existing types that are not ending |
| `Reaper.TreatedMeans` | internal/controller/reaper.go:111-132 | an idle mark changes the phase and a termination what is desired, nothing else, and neither if the update fails |
| `Reaper.IdleMarkProtects` | internal/controller/reaper.go:111-114 | a running session of an existing type that a sweep marked idle is not condemned by a later one while its counter is not zero, up to maxSessionAge + HardGrace |
| `Reaper.TerminatedIsLeftAlone` | internal/controller/reaper.go:68-72 | a session whose termination was recorded is not visited again |
| `RedisReaper.InUseIsNotReaped` | internal/controller/reaper.go:83-111 | a running session of an existing type with an outstanding request is not terminated up to maxSessionAge + HardGrace, unless its counter was zeroed under an outstanding request |
| `RedisReaper.SparedAgain` | internal/controller/reaper.go:79-114 | a running session of an existing type with an outstanding request, spared by one sweep, still runs and is spared by the next up to maxSessionAge + HardGrace, unless its counter was zeroed under an outstanding request |
| `RedisReaper.VisitMeans` | internal/controller/reaper.go:86-132 | a terminating visit leaves no counter; any other, undisturbed, leaves the number and renews the counter for an hour iff it was read and there is one |
| `RedisReaper.TendedIsNotReaped` | internal/controller/reaper.go:83-111 | in every run that does not delete the name under its requests and renews its counter within every hour, a session in use is not terminated |
| `RedisReaper.LateClampIsReaped` | internal/controller/reaper.go:83-111 | a run after which a session with an outstanding request is terminated early |
| `RedisReaper.CrashedIsNotReaped` | internal/adapters/routing/redis/adapter.go:353-354 | a request of a crashed gateway protects its session however long the reaper sweeps, against what the expiry is meant for |
| `RedisReaper.Sweep` | internal/controller/reaper.go:54-118 | with commands of the gateways between and during the visits, each session is judged rightly on its counter as it was left, and what each visit leaves of the counters; which one field each verdict changes |
| `MemoryReaper.Judge` | internal/controller/reaper.go:86-115 | with traffic between its two reads of the table, decides on what they read; the whole new state |
| `MemoryReaper.Visit` | internal/controller/reaper.go:68-116 | the state the session was judged in and the whole new state, with traffic before, between and during |
| `MemoryReaper.InUseIsNotReaped` | internal/controller/reaper.go:83-111 | the same protection on a shared in-process table, unless its counter is lost |
| `MemoryReaper.SparedAgain` | internal/controller/reaper.go:79-114 | the same over two sweeps, unless its counter is lost |
| `MemoryReaper.Reap` | internal/controller/reaper.go:120-132 | termination, once recorded, drops exactly the sessions of the name and then, with traffic in between, the pod; if not recorded, nothing |
| `MemoryReaper.Sweep` | internal/controller/reaper.go:54-118 | with traffic between and during the visits, each session is judged rightly on what its visit read, exactly the reaped names lose their client sessions, and the remaining ones stay bound to their incarnations if no pod comes or goes otherwise; which one field each verdict changes |
| `MemoryReaper.ReapKeepsBound` | internal/controller/reaper.go:120-132 | termination keeps the remaining client sessions bound to their incarnations |
| `MemoryReaper.LostRequestIsNotProtected` | internal/adapters/routing/memory/adapter.go:67-76 | a run on the in-process table after which a session with an outstanding request is terminated early |
| `Caps.CapsUnderOverlap` | internal/gateway/manager.go:62-108 | with at most k calls between count and put, per-user, per-type and total counts stay within cap + k - 1 plus the deleted pods put back, in every run |
| `Caps.CapsInSequence` | internal/gateway/manager.go:62-76 | calls in sequence respect all caps, if these are not negative and no hold puts a deleted pod back |
| `Caps.RevivedMeans` | internal/gateway/manager.go:102-108 | none is counted as put back iff no hold puts back a pod that was deleted meanwhile |
| `Caps.CeilingMeans` | internal/gateway/manager.go:62-76 | the ceiling for k calls is cap + k - 1, and none at all for a cap below one |
| `Caps.CeilingIsReached` | internal/gateway/manager.go:62-76 | for every cap and k some run reaches cap + k - 1, for a user, for a type and in total |
| `Caps.RevivedPodExceeds` | internal/gateway/manager.go:102-108 | a run in sequence that exceeds the cap because a hold puts its deleted pod back |
| `Allowlist.DecimalIsInjective` | internal/netpol/allowlist.go:32-32 | different ports print differently |
| `Allowlist.RenderedIsInjective` | internal/netpol/allowlist.go:32-32 | `host:port` determines host and port, colons in hosts included |
| `Allowlist.EntryFor` | internal/netpol/allowlist.go:28-36 | the nested loops list every host with each of its ports, in order |
| `Allowlist.Allows` | internal/netpol/allowlist.go:57-75 | the search accepts iff some element matches the normalized request textually; an unknown address is refused |
| `Allowlist.MatcherIsTheRules` | internal/netpol/allowlist.go:57-75 | textual matching accepts iff some rule with that port has the host, or a wildcard whose star stands for one dot-free label |
| `Allowlist.PermitsMeans` | internal/netpol/allowlist.go:67-72 | a rule permits its own host, and `*.rest` one dot-free label, possibly empty, before `.rest` |
| `Allowlist.NormalMeans` | internal/netpol/allowlist.go:62-62 | one trailing dot is dropped and the rest lower-cased |
| `Allowlist.SameHostSameAnswer` | internal/netpol/allowlist.go:62-72 | hosts that differ in case and in one trailing dot only get the same answer |
| `Allowlist.Enforce` | internal/netpol/allowlist.go:28-75 | building and matching together decide the structured question |
| `Policy.SortedUnique` | internal/core/principal.go:82-94 | strictly sorted, with exactly the non-empty elements |
| `Policy.DeriveGrants` | internal/adapters/policy/groups/adapter.go:28-72 | the loops compute the grants that the set of applying groups determines |
| `Policy.OrderFree` | internal/adapters/policy/groups/adapter.go:28-72 | grants do not depend on order or repetition of configured or held groups |
| `Policy.PermutationFree` | internal/adapters/policy/groups/adapter.go:28-72 | in particular, permuting either list changes nothing |
| `Policy.HeldMeans` | internal/adapters/policy/groups/adapter.go:36-38 | a configured group counts iff the caller is in it or everybody is |
| `Policy.TypesAreGranted` | internal/adapters/policy/groups/adapter.go:36-58 | a type is granted iff it is configured, not empty, and a configured group that the caller is in, or everybody is in, lists it or `*` |
| `Policy.GrantsMean` | internal/adapters/policy/groups/adapter.go:28-72 | which groups, admin or not, the greatest cap among the base and all such groups, and lazy loading or not, with the memberships written out |
| `Policy.OutsiderGetsNothing` | internal/adapters/policy/groups/adapter.go:31-38 | a caller without the admin scope, in no configured group and with none for everybody, gets no type, no group, no admin and the base cap |
| `Policy.Monotone` | internal/adapters/policy/groups/adapter.go:28-72 | adding a group, configured or held, never removes a type or group, lowers the cap or drops admin |
| `Policy.DecideTool` | internal/adapters/policy/groups/adapter.go:101-132 | a tool is shown iff exposed and visible to a held group or an admin, under its renamed name |
| `Policy.ToolsShown` | internal/adapters/policy/groups/adapter.go:101-132 | a tool missing from an allow list or on a deny list is hidden, and so is one of groups the caller lacks unless the caller is admin; every other is shown under its renamed name |
| `Policy.ToolsStayVisible` | internal/adapters/policy/groups/adapter.go:101-132 | more grants never hide or rename a shown tool |
| `ToolNames.Cut` | internal/router/router.go:366-371 | splits at the first occurrence of the separator, or reports that there is none |
| `ToolNames.Resolve` | internal/router/router.go:366-371 | cutting an exposed name recovers server and tool if the separator cannot begin in the server name |
| `ToolNames.DefaultIsSeparable` | internal/config/load.go:219-221 | the default separator cannot begin in a configured server name |
| `ToolNames.ExposedIsInjective` | internal/router/router.go:158-173 | exposed names do not collide across servers |
| `ToolNames.ToolsFor` | internal/router/router.go:158-173 | the listed names are exactly those with a way back, to the tool listed last under each |
| `ToolNames.AddEagerTools` | internal/router/router.go:193-213 | the registered handlers are the routes |
| `ToolNames.AllTools` | internal/router/router.go:325-350 | the two lazy tables send every name along the routes |
| `ToolNames.EagerAndLazyAgree` | internal/router/router.go:397-409 | both modes send every name to the same server and tool, or both nowhere |
| `ToolNames.RoutesMean` | internal/router/router.go:158-173 | only visible tools are routed, each under its own name, and the name of each visible tool is routed |
| `ToolNames.ReachedIffInjective` | internal/router/router.go:158-173 | every visible tool is reached by its name iff no server shows two tools under one name |
| `ToolNames.SharedRenameHidesATool` | internal/router/router.go:158-173 | two tools renamed alike, one of which cannot be reached |

## Left out

- HTTP, SSE streaming, TLS, certificates and listeners: library calls and I/O.
- Cryptography: message authentication codes, seals and record tampering in Redis are absent; tokens are stored as they are.
- Identity providers, token exchange, the admin API and UI, CLI, metrics, tracing, redaction: network clients and thin wrappers.
- Rendering of pod specs and network policies: isolation is one owner per session; a failed application leaves it as it was.
- Configuration loading and validation: only the facts named above are used.
- Staleness of the Redis cache tier between several gateway processes: the refinement is for one process.
- Activity times in Redis, which have whole seconds: the reaper's reading of the last use is any value.
- Refinement of the in-flight counter: the two tables differ, and each has its own theorem.
- MemoryReaper.InUseIsNotReaped: about a table that no deployed reaper shares with a gateway; `RedisReaper.InUseIsNotReaped` is about the one it does.
- RedisStore.PutKeeps: for pods with a token and server types without a bar; `RedisStore.ReadBack` and `RedisStore.EntrySharedExactlyIf` say that it fails otherwise.
- RedisStore.DeleteKeeps: for server types without a bar, because with one the entry of another key is removed from the index (`RedisStore.EntrySharedExactlyIf`).
- RedisTable.Redis.PutPod: as `RedisStore.PutKeeps`.
- RedisTable.Redis.DeletePod: as `RedisStore.DeleteKeeps`.
- Refinement.Lockstep: as `RedisStore.PutKeeps` and `RedisStore.DeleteKeeps`; a lost token is left to `RedisTable.Redis.GetPod`.
- Agreement of table and provisioner for Kubernetes: a terminating session can outlive its table entry.
- Overlapping handlers in the binding of sessions to incarnations: `Manager` and `Handlers` run one call at a time, while readiness watchers run at any time.
- Processes, ports and files of the local provisioner: an entry is a phase, an endpoint and a token.
- The pod token secret and the pod certificate during reconcile: failing to obtain them ends the reconcile like any failing call.
- An unparsable allowlist document, which the egress adapter replaces by an empty one.
- `strings.ToLower` and case-insensitive prefixes: arbitrary function parameters.
- ChildSpec.Defaults: negative restart limits and windows are absent; both settings are natural numbers.
- Tool descriptions, search ranking and listing caches of the router.
