# KaadonLock lock life cycle and TTL-store acquisition, in Dafny

KaadonLock is a PHP mutual-exclusion lock. Every lock has the same shared life cycle in `BaseLock`:
`lock`, `unlock`, `unblockLock` and `close` drive one flag, `isLocked`. They also run an optional
task callback and an optional concurrent-check callback. The real work goes to four hooks
(`__lock`, `__unlock`, `__unblockLock`, `__close`), and each driver supplies its own. This project
models that life cycle and the three TTL-store drivers:

- `RedisLock` takes an absent key with `setnx` and reclaims a stale one with `getSet`.
- `MemcachedLock` and `Memcache` use `add` on both paths.

Every driver wraps its acquire attempt in a sleep-and-retry loop with a timeout. Each one releases
with a delete that is guarded by the expiry it cached locally.

## Layout

- `base_lock.dfy`, module `Base`, models `src/base/BaseLock.php`.
  - Class `BaseLock` holds `isLocked`, `isInHandler` and a ghost event history.
  - The driver is abstract: each hook method answers an arbitrary boolean (`ok := *`).
  - The task callback has no effect on the lock. The concurrent check answers an arbitrary boolean.
  - The pure functions `UnlockOp`, `LockOp`, `UnblockLockOp` and `CloseOp` give each operation's
    outcome for given hook answers. The class methods are proved to produce one of those outcomes.
  - `Valid()` says two things. First, `isLocked` equals the flag that the event history computes
    (`HeldAfter`). Second, the history obeys the protocol (`Disciplined`): no acquire hook runs
    while the lock is held, and no unlock hook runs while it is not.
  - From these follow the characterisation "held iff some successful acquire is unreleased" and
    the no-double-acquire theorem.
- `ttl_store.dfy`, module `TtlStore`, holds what the three drivers share:
  - the lock record `{expire, guid}` and the store, a `map<string, Record>`;
  - the client handle, a class `Client` whose methods are specified by pure store primitives;
  - one acquire attempt (`WritePhase`, and `Try`, a read and a write with nothing in between);
  - the polling loop (`PollFrom`), the expiry-guarded release (`Release`) and the handler close.
- `redis_lock.dfy`, `memcached_lock.dfy`, `memcache.dfy` hold one class per driver. Each class has
  the driver's fields and the four hooks as methods over its `Client`. The driver's `__lock`
  keeps its `while (true)` poll loop, and that loop is proved equal to `PollFrom`.

### Clock, callers' inputs and fuel

- The clock is an integer count of milliseconds, passed in as `nowMs`. PHP's `time()` is
  `nowMs / 1000`.
- An attempt takes no time. Each sleep advances the clock by `waitSleepTime` milliseconds.
- The source compares `microtime(true) - $time` with `waitTimeout / 1000`, in seconds. The model
  compares the elapsed milliseconds with `waitTimeout`, which is the same test.
- `waitTimeout == 0` waits for ever. Dafny needs the model's loop to end, so `__lock` takes a
  `retries` bound. A bounded run ends `Acquired`, `TimedOut` (the source's `return false`) or
  `OutOfFuel` (the bound ran out while the source would still be polling).
- The `uniqid` owner token and the client handle are constructor parameters.

### Behaviour of the code worth noting

- Stale reclaim on Redis is not a compare-and-swap. `getSet` writes unconditionally, and the
  attempt then checks whether it replaced the very value it had read. A losing racer has therefore
  already overwritten the winner's record (`RedisLock.StaleRace`).
- Memcache and Memcached do not compare-and-swap at all. Their reclaim is a second `add` on a key
  that was just seen to be present. That `add` fails unless the key vanished in between. In the
  model, which has no server-side expiry, the loop therefore never takes a key that is present
  when it starts (`TtlStore.AddPollAcquiresOnlyAbsent`). On a real server the `add` TTL drops the
  key at about its `expire` second, and the absent-key path then takes it.
- In the model, where an attempt takes no time, a record valid for another minute, with a 50 ms
  timeout and 20 ms sleeps, gives four attempts (at 0, 20, 40 and 60 ms) before the loop gives up
  (`RedisLock.ScenarioHeldTimesOut`). On a real server each `get` round trip also counts towards
  the timeout, so there can be fewer.
- The non-blocking attempt is not one pass of the blocking one, and `close()` on Memcached never
  quits or clears its connection. See Findings.

## Model

| member | source | states |
|---|---|---|
| `Base.UnlockOp` | src/base/BaseLock.php:92-99 | not locked: true, no hook; locked: the `__unlock` answer is the result, and the lock is let go exactly when it is true |
| `Base.LockOp` | src/base/BaseLock.php:60-85 | ALREADY_LOCKED iff locked, with no hook and the lock kept; FAIL iff `__lock` fails, not locked; SUCCESS iff acquired with no concurrent callback, whatever the unlock after the task; CONCURRENT_COMPLETE iff the check says handled, with no task and the lock kept; CONCURRENT_UNTREATED iff it says not handled; the task runs exactly when acquired and not already handled, and is followed by `__unlock` |
| `Base.UnblockLockOp` | src/base/BaseLock.php:107-122 | the already-locked error iff locked, with no hook; a failed `__unblockLock` returns false with nothing changed; success returns true, and the lock stays held unless a task ran and its unlock succeeded |
| `Base.CloseOp` | src/base/BaseLock.php:129-137 | the result is `(!locked or unlock ok) and (isInHandler or __close ok)`; `__close` is called exactly when the handler is the lock's own and the unlock (if any) succeeded |
| `Base.LockOpKeepsHistory` | src/base/BaseLock.php:60-85 | for every answer, `lock()` leaves the flag equal to what its events say, and calls no acquire hook while held and no unlock hook while not held |
| `Base.AcquiredOpKeepsHistory` | src/base/BaseLock.php:65-80 | for every answer, the part of `lock()` after a successful `__lock` leaves the flag equal to what its events say and calls no hook out of turn |
| `Base.UnblockLockOpKeepsHistory` | src/base/BaseLock.php:107-122 | the same for `unblockLock()` |
| `Base.CloseOpKeepsHistory` | src/base/BaseLock.php:129-137 | the same for `close()` |
| `Base.HeldIffUnreleasedAcquire` | src/base/BaseLock.php:31 | the flag computed from a history is true exactly when some successful acquire hook has not yet been followed by a successful `__unlock` |
| `Base.NoDoubleAcquire` | src/base/BaseLock.php:62 | in a history from an unlocked start, between a successful acquire and any later acquire-hook call there is a successful `__unlock` |
| `Base.BaseLock.constructor` | src/base/BaseLock.php:25-37 | a new lock is not locked, has an empty history and keeps the given name and `isInHandler` |
| `Base.BaseLock.HookLock` | src/base/BaseLock.php:143 | the abstract `__lock`: any answer, recorded; called only while not locked |
| `Base.BaseLock.HookUnlock` | src/base/BaseLock.php:149 | the abstract `__unlock`: any answer, recorded; called only while locked |
| `Base.BaseLock.HookUnblockLock` | src/base/BaseLock.php:155 | the abstract `__unblockLock`: any answer, recorded; called only while not locked |
| `Base.BaseLock.HookClose` | src/base/BaseLock.php:161 | the abstract `__close`: any answer, recorded |
| `Base.BaseLock.RunTask` | src/base/BaseLock.php:67 | the task callback runs, is recorded and changes nothing else |
| `Base.BaseLock.CheckConcurrent` | src/base/BaseLock.php:72 | the concurrent callback answers any boolean, recorded |
| `Base.BaseLock.TaskThenUnlockStep` | src/base/BaseLock.php:66-69 | the task runs, then `unlock()`, whose answer is ignored: the new flag, result and events are those of the function `TaskThenUnlock`, this step's one definition for the lemmas |
| `Base.BaseLock.Unlock` | src/base/BaseLock.php:92-99 | keeps `Valid()`; the new flag, result and events are those of `UnlockOp` for the hook's answer |
| `Base.BaseLock.Lock` | src/base/BaseLock.php:60-85 | keeps `Valid()`; the new flag, result code and events are those of `LockOp` for the answers given |
| `Base.BaseLock.AfterAcquire` | src/base/BaseLock.php:65-80 | keeps `Valid()`; after a successful `__lock`, the new flag, result code and events are those of the function `AcquiredOp`, this step's one definition for the lemmas: the concurrent check, then the task and the unlock unless the check says handled |
| `Base.BaseLock.UnblockLock` | src/base/BaseLock.php:107-122 | keeps `Valid()`; the outcome is that of `UnblockLockOp` |
| `Base.BaseLock.Close` | src/base/BaseLock.php:129-137 | keeps `Valid()`; the outcome is that of `CloseOp`, with the short-circuits of the source |
| `TtlStore.Client.constructor` | src/RedisLock.php:61-63 | a client over the given store contents |
| `TtlStore.Client.Get` | src/RedisLock.php:104 | `get` returns the record under the key, or nothing |
| `TtlStore.Client.SetNx` | src/RedisLock.php:111 | `setnx` writes and answers true exactly when the key is absent |
| `TtlStore.Client.Add` | src/MemcachedLock.php:100 | `add` writes and answers true exactly when the key is absent |
| `TtlStore.Client.GetSet` | src/RedisLock.php:119 | `getSet` writes unconditionally and returns the value it replaced |
| `TtlStore.Client.Delete` | src/RedisLock.php:143 | `del`/`delete` removes the key and answers whether it was there |
| `TtlStore.Client.Close` | src/RedisLock.php:187 | closing the connection leaves the store; its answer is outside the model |
| `TtlStore.WritePhase` | src/RedisLock.php:109-125 | whatever happened since the read: an unexpired record writes nothing and fails; create-if-absent succeeds iff the key is absent at write time; `getSet` always stores the new record and succeeds iff it replaced the value read; success always leaves the new record stored |
| `TtlStore.Try` | src/RedisLock.php:104-125 | an attempt succeeds iff the key is absent or (Redis only) its record is stale; a failed attempt writes nothing, a successful one stores exactly the new record |
| `TtlStore.FreshRace` | src/RedisLock.php:109-115 | two instances reading an absent key: only the first write succeeds and the store keeps its record |
| `TtlStore.PollFrom` | src/RedisLock.php:98-133 | the loop ends acquired exactly when, at its last attempt, the key is absent or (with `getSet`) its record is stale, so a held unexpired record is never taken; acquiring stores the record `{time() + lockExpire, guid}` of the last attempt and nothing else changes the store; giving up happens only with a non-zero timeout that has elapsed, and at the first attempt past the deadline |
| `TtlStore.AddPollAcquiresOnlyAbsent` | src/Memcache.php:91-124 | the add-based loop acquires exactly when the key is absent at the start; with no timeout and a present key it polls until the retry bound runs out |
| `TtlStore.PollClock` | src/RedisLock.php:98-133 | the last attempt is at most `retries` sleeps after the start; running out of retries means all of them were slept; an absent key is taken at the first attempt |
| `TtlStore.FuelEnough` | src/RedisLock.php:126-132 | with a timeout, a bound whose sleeps reach the deadline never ends `OutOfFuel`: the bounded run ends acquired or at the source's `return false` |
| `TtlStore.SwapPollEventuallyAcquires` | src/RedisLock.php:103-131 | with no timeout and positive sleeps, the Redis loop takes the key once the clock passes the record's expiry |
| `TtlStore.Release` | src/RedisLock.php:140-147 | while the cached record is still valid, the key is deleted, whoever holds it, and the answer says whether it was there; an expired or missing cached record leaves the store alone and answers true; so the release fails only when the cached record is valid and the key is already gone |
| `TtlStore.AcquireThenReleaseRestores` | src/RedisLock.php:98-147 | acquiring and then releasing before expiry removes the key and succeeds; from an absent key the store is restored exactly |
| `TtlStore.ReleaseIgnoresOwner` | src/RedisLock.php:142-143 | the release guard checks only the cached expiry, so another owner's record under the key is deleted too |
| `TtlStore.UnblockAsWritten` | src/RedisLock.php:154-177 | as written: an absent key is created; a present key, even one another instance holds, gives success with nothing written |
| `TtlStore.UnblockAsWrittenCounterexample` | src/RedisLock.php:169 | another owner's record valid for a minute: the as-written non-blocking attempt reports success while the store still names the other owner, and the loop's one-pass attempt fails |
| `TtlStore.CloseHandler` | src/Memcache.php:172-178 | afterwards the handler is null; the answer is true for a null handler and the connection's answer otherwise |
| `TtlStore.CloseTwice` | src/RedisLock.php:184-191 | a second close finds the handler null and answers true |
| `RedisLock.RedisLock.constructor` | src/RedisLock.php:52-91 | keeps the settings (defaults 3 s expiry, no timeout, 1 ms sleep), the handler, `isInHandler` and the token; no record yet |
| `RedisLock.RedisLock.Lock` | src/RedisLock.php:98-133 | the loop's result, new store and cached record are those of `PollFrom` with `setnx`/`getSet` |
| `RedisLock.RedisLock.Unlock` | src/RedisLock.php:140-147 | the new store and the answer are those of `Release` at `time()` |
| `RedisLock.RedisLock.UnblockLock` | src/RedisLock.php:154-177 | caches `{time() + lockExpire, guid}`; the new store and the answer are those of `UnblockAsWritten` |
| `RedisLock.RedisLock.Close` | src/RedisLock.php:184-191 | the handler is null afterwards; a null handler answers true; otherwise the connection's answer, as `CloseHandler` |
| `RedisLock.StaleRace` | src/RedisLock.php:117-123 | two instances reclaiming the same stale record: the first succeeds, the second fails after overwriting the winner's record with its own |
| `RedisLock.ScenarioFreshKey` | src/RedisLock.php:109-115 | no record for `job-42`, 3 s expiry: acquired on the first attempt, and the store holds `{time() + 3, guid}` |
| `RedisLock.ScenarioStaleReclaimed` | src/RedisLock.php:117-123 | a record stale by 10 s is reclaimed on the first attempt with no timeout |
| `RedisLock.ScenarioHeldTimesOut` | src/RedisLock.php:126-131 | with the model's zero-time attempts, a record valid for 60 s, 50 ms timeout, 20 ms sleeps: gives up at 60 ms with the store untouched |
| `MemcachedLock.MemcachedLock.constructor` | src/MemcachedLock.php:48-81 | keeps the settings (defaults no timeout, 1 ms sleep, 3 s expiry), the handler, `isInHandler` and the token |
| `MemcachedLock.MemcachedLock.Lock` | src/MemcachedLock.php:87-120 | the loop's result, new store and cached record are those of `PollFrom` with `add`/`add` |
| `MemcachedLock.MemcachedLock.Unlock` | src/MemcachedLock.php:126-133 | the new store and the answer are those of `Release` at `time()` |
| `MemcachedLock.MemcachedLock.UnblockLock` | src/MemcachedLock.php:139-162 | caches the new record; the new store and the answer are those of `UnblockAsWritten` |
| `MemcachedLock.MemcachedLock.Close` | src/MemcachedLock.php:168-174 | as written: the handler and the answer are those of the function `CloseAsWritten`, the close's one definition for the lemmas: a set handler is left set and the answer is true; a null handler would raise the PHP Error |
| `MemcachedLock.CloseAsWrittenLeaves` | src/MemcachedLock.php:170-173 | as written, closing, once or twice, never clears an open handler; the intended close clears it at once |
| `MemcachedLock.StaleRaceNobodyWins` | src/MemcachedLock.php:104-111 | two instances reclaiming the same stale record: neither `add` succeeds and the store is unchanged |
| `Memcache.Memcache.constructor` | src/Memcache.php:57-85 | keeps the settings (defaults no timeout, 1 ms sleep, 3 s expiry), the handler, `isInHandler` and the token |
| `Memcache.Memcache.Lock` | src/Memcache.php:91-124 | the loop's result, new store and cached record are those of `PollFrom` with `add`/`add` |
| `Memcache.Memcache.Unlock` | src/Memcache.php:130-137 | the new store and the answer are those of `Release` at `time()` |
| `Memcache.Memcache.UnblockLock` | src/Memcache.php:143-166 | caches the new record; the new store and the answer are those of `UnblockAsWritten` |
| `Memcache.Memcache.Close` | src/Memcache.php:172-178 | the handler is null afterwards; a null handler answers true; otherwise the connection's answer, as `CloseHandler` |

## Left out

- src/File.php, the local-file driver: the OS kernel does all of its locking. The abstract hooks
  of `Base.BaseLock` cover it.
- Connection setup in the constructors is network I/O and is not modelled: the extension checks,
  connect/pconnect, auth, select, key prefix, SASL and server options. The client handle and
  `isInHandler` are parameters instead.
- `__destruct` is PHP lifetime management. Only `close()` is modelled.
- `params` is not modelled: the lock logic never reads it. The `isLocked()` getter is the
  `isLocked` field.
- JSON encoding on Redis and PHP serialisation on Memcache(d) are treated as the identity on
  `Record`.
- The `LockConst` values are not part of this model. The result codes are an enum.
- Server-side expiry is not modelled: Redis `expire` and the TTL arguments to `add`. A key never
  disappears on its own. This is why the Memcache(d) loop never takes a present key in the model.
- Cross-instance interleavings are modelled only at the level of one read and one write
  (`WritePhase` and the race lemmas). Store operations are taken to be atomic.
- Exceptions from the clients (`RedisException`, connection loss) are not modelled.
- `RedisLock.RedisLock.Lock`, `RedisLock.RedisLock.UnblockLock`, `Memcache.Memcache.Lock`,
  `Memcache.Memcache.UnblockLock` require a set handler, and `RedisLock.RedisLock.Unlock` and
  `Memcache.Memcache.Unlock` require one when they would delete. After `close()` has cleared the
  handler, the source calls `get` or `delete` on null and PHP raises an Error. The model does not
  cover that use after close: nothing in `BaseLock` prevents it, and it is the caller's error.
  The Memcached driver's methods carry the same requires. There its handler is set at
  construction and never cleared, since its `close()` keeps it (see Findings), so the requires
  always holds.
- The wall clock is not modelled as floating-point seconds. An attempt takes no time, and all the
  `time()` reads inside one attempt see the same second.
- `Base.BaseLock` and the driver classes are not composed into one object. The drivers' methods
  are the concrete hooks, but `Base` keeps its hooks abstract, with arbitrary answers.
- `RedisLock.RedisLock.Lock`, `MemcachedLock.MemcachedLock.Lock`, `Memcache.Memcache.Lock`: with
  no timeout the source can poll for ever. The model stops after `retries` sleeps and reports
  `OutOfFuel`. With a timeout and enough retries for the sleeps to reach it, the bounded run
  never ends `OutOfFuel` (`TtlStore.FuelEnough`).
- `RedisLock.RedisLock.Lock`, `MemcachedLock.MemcachedLock.Lock`, `Memcache.Memcache.Lock`: with
  a positive timeout and `waitSleepTime == 0`, the source still gives up, because
  `microtime(true)` advances during each round trip to the server. In the model an attempt takes
  no time, so the clock stands still: the run answers `OutOfFuel` for every bound where the
  source answers false.
- `waitSleepTime` is taken as non-negative. A negative value makes PHP's `usleep` raise an error,
  and that error is not modelled.
- `RedisLock.RedisLock.UnblockLock`, `MemcachedLock.MemcachedLock.UnblockLock`,
  `Memcache.Memcache.UnblockLock`: the reclaim branch guarded by the comparison cannot be reached
  in the model. Each method states this with `assert false` instead of the reclaim call.
- The hardened compare-and-delete-by-owner release is not modelled. The model keeps the source's
  expiry-only guard (`TtlStore.ReleaseIgnoresOwner`).

## Findings

| source | as written | input that shows it | evidently intended | confidence | as-written member | corrected member |
|---|---|---|---|---|---|---|
| src/RedisLock.php:169 (likewise src/MemcachedLock.php:154, src/Memcache.php:158) | `$value < time()` compares the whole record, a PHP array, with an integer. PHP orders every array above every integer, so the test is always false, and `__unblockLock` falls through to `return true` whenever the key is present | store `{job-42: {expire: now + 60, guid: "other"}}`: `unblockLock()` returns true and sets `isLocked`, while the store still names the other holder | two changes: the stale test reads `$value['expire'] < time()`, and an unexpired record ends the attempt with `return false` instead of falling through to `return true` (src/RedisLock.php:167-176, src/MemcachedLock.php:152-161, src/Memcache.php:156-165); together they make the non-blocking attempt one pass of `__lock`'s attempt | high; not executed | `TtlStore.UnblockAsWrittenCounterexample` | `TtlStore.Try` |
| src/MemcachedLock.php:170 | `if (null !== $this->handler) return true;` is inverted. An open handler is never quit or cleared, and a null handler would have `quit()` called on it | a lock with its own handler: `close()` returns true and the connection stays open; calling it again changes nothing | `if (null === $this->handler) return true;`, as in src/Memcache.php:174, so that the handler is closed and cleared | high; not executed | `MemcachedLock.CloseAsWrittenLeaves` | `TtlStore.CloseHandler` |

The driver classes keep the behaviour as written, and each as-written member is proved to differ
from the intended one. The corrected behaviour is defined and proved in the pure layer:
- `TtlStore.Try` is the one-pass attempt that the polling loops use. Its contract states the
  intended property: success means the store now holds this instance's record.
- `TtlStore.CloseHandler` is the close that the Redis and Memcache drivers use. `TtlStore.CloseTwice`
  proves that a second close is harmless.
