/** What the three TTL-store drivers (src/RedisLock.php, src/MemcachedLock.php, src/Memcache.php)
    share: the lock record, the key/value store, the client handle, and the pure specification of
    one acquire attempt, of the polling loop of `__lock` and of the expiry-guarded release.

    The clock is an integer count of milliseconds.  `time()` is that count divided by 1000; an
    attempt takes no time, and each sleep of the polling loop advances the clock by the configured
    `waitSleepTime` milliseconds. */
module TtlStore {

  datatype Option<T> = None | Some(value: T)

  /** The lock record `{expire, guid}` stored under the lock name. */
  datatype Record = Record(expire: int, guid: string)

  /** The store's contents: lock name to lock record. */
  type Store = map<string, Record>

  /** `time()` (whole seconds) at clock reading `ms`. */
  function Seconds(ms: int): int {
    ms / 1000
  }

  function Lookup(s: Store, key: string): Option<Record> {
    if key in s then Some(s[key]) else None
  }

  /** The store after a write and whether the write succeeded. */
  datatype Write = Write(store: Store, ok: bool)

  /** The store after a swap and the value it replaced. */
  datatype Swap = Swap(store: Store, previous: Option<Record>)

  // ---------------------------------------------------------------------------------------------
  // Store primitives

  /** `setnx` (Redis) and `add` (Memcache, Memcached): write only if the key is absent. */
  function CreateIfAbsent(s: Store, key: string, v: Record): Write {
    if key in s then Write(s, false) else Write(s[key := v], true)
  }

  /** `getSet` (Redis): write unconditionally and return the value replaced. */
  function Exchange(s: Store, key: string, v: Record): Swap {
    Swap(s[key := v], Lookup(s, key))
  }

  /** `del` (Redis) and `delete` (Memcache, Memcached): remove the key; true if it was there. */
  function Remove(s: Store, key: string): Write {
    if key in s then Write(s - {key}, true) else Write(s, false)
  }

  /** The client handle (`\Redis`, `\Memcached`, `\Memcache`) over the store it talks to. */
  class Client {
    var data: Store

    constructor (data: Store)
      ensures this.data == data
    {
      this.data := data;
    }

    method Get(key: string) returns (v: Option<Record>)
      ensures v == Lookup(data, key)
    {
      v := Lookup(data, key);
    }

    method SetNx(key: string, v: Record) returns (ok: bool)
      modifies this
      ensures Write(data, ok) == CreateIfAbsent(old(data), key, v)
    {
      var w := CreateIfAbsent(data, key, v);
      data, ok := w.store, w.ok;
    }

    method Add(key: string, v: Record) returns (ok: bool)
      modifies this
      ensures Write(data, ok) == CreateIfAbsent(old(data), key, v)
    {
      var w := CreateIfAbsent(data, key, v);
      data, ok := w.store, w.ok;
    }

    method GetSet(key: string, v: Record) returns (previous: Option<Record>)
      modifies this
      ensures Swap(data, previous) == Exchange(old(data), key, v)
    {
      var w := Exchange(data, key, v);
      data, previous := w.store, w.previous;
    }

    method Delete(key: string) returns (ok: bool)
      modifies this
      ensures Write(data, ok) == Remove(old(data), key)
    {
      var w := Remove(data, key);
      data, ok := w.store, w.ok;
    }

    /** `close()` / `quit()`: the connection's answer is outside the model. */
    method Close() returns (ok: bool)
      ensures data == old(data)
    {
      ok := *;
    }
  }

  // ---------------------------------------------------------------------------------------------
  // One acquire attempt

  /** Redis reclaims a stale record with `getSet`; Memcache and Memcached with a second `add`. */
  datatype Protocol = SetNxGetSet | AddAdd

  /** The record read at the start of an attempt has expired at second `now`. */
  predicate Stale(v: Record, now: int) {
    v.expire < now
  }

  /** The write half of an attempt against store `s`, having read `seen` at the start of the
      attempt (the store may have changed in between) and computed the new record `lv`. */
  function WritePhase(p: Protocol, s: Store, key: string, seen: Option<Record>, lv: Record, now: int): (w: Write)
    // an unexpired record: nothing is written and the attempt fails
    ensures seen.Some? && !Stale(seen.value, now) ==> w == Write(s, false)
    // create-if-absent: succeeds exactly when the key is absent at the time of the write
    ensures (seen.None? || (p == AddAdd && Stale(seen.value, now))) ==>
              (w.ok <==> key !in s) && w.store == (if w.ok then s[key := lv] else s)
    // the swap always writes, and succeeds exactly when it replaced the very value read
    ensures p == SetNxGetSet && seen.Some? && Stale(seen.value, now) ==>
              w.store == s[key := lv] && (w.ok <==> key in s && s[key] == seen.value)
    // whatever the interleaving, success means the store now holds the new record
    ensures w.ok ==> key in w.store && w.store[key] == lv
  {
    match seen
    case None => CreateIfAbsent(s, key, lv)
    case Some(v) =>
      if !Stale(v, now) then Write(s, false)
      else match p
        case SetNxGetSet =>
          var sw := Exchange(s, key, lv);
          Write(sw.store, sw.previous == seen)
        case AddAdd => CreateIfAbsent(s, key, lv)
  }

  /** One attempt with nothing happening between its read and its write. */
  function Try(p: Protocol, s: Store, key: string, lv: Record, now: int): (w: Write)
    // Redis takes an absent or stale key; Memcache(d) only an absent one
    ensures w.ok <==> key !in s || (p == SetNxGetSet && Stale(s[key], now))
    // a failed attempt writes nothing; a successful one stores exactly the new record
    ensures w.store == if w.ok then s[key := lv] else s
  {
    WritePhase(p, s, key, Lookup(s, key), lv, now)
  }

  /** Two instances race for a name that is absent: both read "absent", both write; only the
      first write succeeds and the store keeps the winner's record (either protocol). */
  lemma FreshRace(p: Protocol, s: Store, key: string, a: Record, b: Record, now: int)
    requires key !in s
    ensures var wa := WritePhase(p, s, key, None, a, now);
            var wb := WritePhase(p, wa.store, key, None, b, now);
            wa.ok && !wb.ok && wb.store == s[key := a]
  {
  }

  // ---------------------------------------------------------------------------------------------
  // The non-blocking attempt of `__unblockLock`, as written

  /** PHP's `$value < time()` with `$value` the record read (a PHP array) and `time()` an integer:
      PHP orders every array above every integer, so the test is false for every record. */
  predicate ArrayBelowInt(v: Record, t: int) {
    false
  }

  /** `__unblockLock` as the drivers write it: one pass whose stale test compares the whole record
      with `time()` instead of its `expire` field, and which falls through to success when the
      record is not taken as stale. */
  function UnblockAsWritten(p: Protocol, s: Store, key: string, lv: Record, now: int): (w: Write)
    // an absent key is created, as by the polling loop
    ensures key !in s ==> w.ok && w.store == s[key := lv]
    // a present key, even one held by another instance and far from expiry, makes the attempt
    // succeed without writing anything
    ensures key in s ==> w == Write(s, true)
  {
    match Lookup(s, key)
    case None => CreateIfAbsent(s, key, lv)
    case Some(v) =>
      if ArrayBelowInt(v, now) then
        match p
        case SetNxGetSet =>
          var sw := Exchange(s, key, lv);
          Write(sw.store, sw.previous == Some(v))
        case AddAdd => CreateIfAbsent(s, key, lv)
      else Write(s, true)
  }

  /** The input that shows it: another owner's record valid for another minute.  The non-blocking
      attempt reports the lock taken while the store still names the other owner; the one-pass
      attempt of the polling loop (`Try`) correctly fails. */
  lemma UnblockAsWrittenCounterexample(p: Protocol, lv: Record)
    requires lv.guid != "other"
    ensures var s := map["job-42" := Record(1060, "other")];
            UnblockAsWritten(p, s, "job-42", lv, 1000).ok &&
            UnblockAsWritten(p, s, "job-42", lv, 1000).store["job-42"] != lv &&
            !Try(p, s, "job-42", lv, 1000).ok
  {
  }

  // ---------------------------------------------------------------------------------------------
  // The polling loop of `__lock`

  /** The driver's settings: `waitTimeout` in milliseconds (0 waits for ever), `waitSleepTime` in
      milliseconds, `lockExpire` in seconds. */
  datatype Config = Config(name: string, guid: string, lockExpire: int, waitTimeout: int, waitSleepTime: nat)

  /** The record an attempt at clock `nowMs` writes. */
  function NewLockValue(c: Config, nowMs: int): Record {
    Record(Seconds(nowMs) + c.lockExpire, c.guid)
  }

  /** The loop sleeps and retries while there is no timeout or it has not yet elapsed. */
  predicate KeepWaiting(c: Config, startMs: int, nowMs: int) {
    c.waitTimeout == 0 || nowMs - startMs < c.waitTimeout
  }

  /** How a bounded run of the loop ended: acquired, gave up at the deadline, or used up the
      number of retries the model explores. */
  datatype Poll = Acquired | TimedOut | OutOfFuel

  /** The store, the last record computed, the ending and the clock at the last attempt. */
  datatype Run = Run(store: Store, lockValue: Record, result: Poll, endMs: int)

  /** The loop started at `startMs`, now at `nowMs`, with `retries` more sleeps allowed. */
  function PollFrom(p: Protocol, c: Config, s: Store, startMs: int, nowMs: int, retries: nat): (r: Run)
    requires startMs <= nowMs
    decreases retries
    // the record kept is the one computed by the last attempt
    ensures r.lockValue == NewLockValue(c, r.endMs) && nowMs <= r.endMs
    // acquiring stores the record; any other ending leaves the store as it was
    ensures r.store == if r.result == Acquired then s[c.name := r.lockValue] else s
    // the loop ends acquired exactly when, at its last attempt, the key is absent or (Redis only)
    // its record is stale; a held, unexpired record is never taken
    ensures r.result == Acquired <==>
              c.name !in s || (p == SetNxGetSet && Stale(s[c.name], Seconds(r.endMs)))
    // giving up happens only with a timeout, and only once it has elapsed
    ensures r.result == TimedOut ==> c.waitTimeout != 0 && r.endMs - startMs >= c.waitTimeout
    // ... and at the first attempt past the deadline: the attempt before it was still waiting
    ensures r.result == TimedOut ==> r.endMs == nowMs || KeepWaiting(c, startMs, r.endMs - c.waitSleepTime)
    // the retries are used up only while still waiting
    ensures r.result == OutOfFuel ==> KeepWaiting(c, startMs, r.endMs)
  {
    var lv := NewLockValue(c, nowMs);
    var w := Try(p, s, c.name, lv, Seconds(nowMs));
    if w.ok then Run(w.store, lv, Acquired, nowMs)
    else if !KeepWaiting(c, startMs, nowMs) then Run(w.store, lv, TimedOut, nowMs)
    else if retries == 0 then Run(w.store, lv, OutOfFuel, nowMs)
    else PollFrom(p, c, w.store, startMs, nowMs + c.waitSleepTime, retries - 1)
  }

  /** Memcache(d) never reclaims a record that is present when the loop starts, however stale: it
      acquires exactly when the key is absent, and with no timeout it would wait for ever. */
  lemma {:induction false} AddPollAcquiresOnlyAbsent(c: Config, s: Store, startMs: int, nowMs: int, retries: nat)
    requires startMs <= nowMs
    ensures var r := PollFrom(AddAdd, c, s, startMs, nowMs, retries);
            (r.result == Acquired <==> c.name !in s) &&
            (c.name in s && c.waitTimeout == 0 ==> r.result == OutOfFuel)
    decreases retries
  {
    var lv := NewLockValue(c, nowMs);
    if c.name in s && KeepWaiting(c, startMs, nowMs) && retries > 0 {
      assert !Try(AddAdd, s, c.name, lv, Seconds(nowMs)).ok;
      AddPollAcquiresOnlyAbsent(c, s, startMs, nowMs + c.waitSleepTime, retries - 1);
    }
  }

  /** Redis with no timeout: a key that is absent, or whose record expires at second `e`, is taken
      once the clock passes `e`, provided the loop sleeps a positive time and may retry enough. */
  lemma {:induction false} SwapPollEventuallyAcquires(c: Config, s: Store, startMs: int, nowMs: int, retries: nat)
    requires startMs <= nowMs && c.waitTimeout == 0 && c.waitSleepTime > 0
    requires c.name in s ==> nowMs + retries * c.waitSleepTime >= (s[c.name].expire + 1) * 1000
    ensures PollFrom(SetNxGetSet, c, s, startMs, nowMs, retries).result == Acquired
    decreases retries
  {
    if !Try(SetNxGetSet, s, c.name, NewLockValue(c, nowMs), Seconds(nowMs)).ok && retries > 0 {
      assert (retries - 1) * c.waitSleepTime + c.waitSleepTime == retries * c.waitSleepTime;
      SwapPollEventuallyAcquires(c, s, startMs, nowMs + c.waitSleepTime, retries - 1);
    }
  }

  /** The clock of the last attempt: an absent key is taken at the first attempt, no run goes past
      `retries` sleeps, and running out of retries means all of them were slept. */
  lemma {:induction false} PollClock(p: Protocol, c: Config, s: Store, startMs: int, nowMs: int, retries: nat)
    requires startMs <= nowMs
    ensures var r := PollFrom(p, c, s, startMs, nowMs, retries);
            r.endMs <= nowMs + retries * c.waitSleepTime &&
            (r.result == OutOfFuel ==> r.endMs == nowMs + retries * c.waitSleepTime) &&
            (c.name !in s ==> r.result == Acquired && r.endMs == nowMs)
    decreases retries
  {
    var lv := NewLockValue(c, nowMs);
    if !Try(p, s, c.name, lv, Seconds(nowMs)).ok && KeepWaiting(c, startMs, nowMs) && retries > 0 {
      assert (retries - 1) * c.waitSleepTime + c.waitSleepTime == retries * c.waitSleepTime;
      PollClock(p, c, s, startMs, nowMs + c.waitSleepTime, retries - 1);
    }
  }

  /** With a timeout, a bound whose sleeps reach the deadline is enough: the bounded run ends
      acquired or at the source's `return false`, never by running out of retries. */
  lemma FuelEnough(p: Protocol, c: Config, s: Store, startMs: int, nowMs: int, retries: nat)
    requires startMs <= nowMs && c.waitTimeout > 0
    requires nowMs + retries * c.waitSleepTime - startMs >= c.waitTimeout
    ensures PollFrom(p, c, s, startMs, nowMs, retries).result != OutOfFuel
  {
    PollClock(p, c, s, startMs, nowMs, retries);
  }

  // ---------------------------------------------------------------------------------------------
  // Release

  /** `__unlock`: delete the key only while the locally cached record has not expired; otherwise
      report success and touch nothing. */
  function Release(s: Store, key: string, lockValue: Option<Record>, now: int): (w: Write)
    // at most the lock key is removed; nothing is ever written
    ensures w.store == s || w.store == s - {key}
    ensures w.store != s ==> w.ok
    // the only failure: the cached record is still valid but the key is already gone
    ensures !w.ok <==> lockValue.Some? && lockValue.value.expire > now && key !in s
    // while the cached record is still valid, the key is deleted, whoever holds it, and the answer
    // says whether it was there
    ensures lockValue.Some? && lockValue.value.expire > now ==> w.store == s - {key} && (w.ok <==> key in s)
    // once the cached record has expired (or none was ever made), the store is left alone
    ensures (lockValue.None? || lockValue.value.expire <= now) ==> w == Write(s, true)
  {
    if lockValue.Some? && lockValue.value.expire > now then Remove(s, key) else Write(s, true)
  }

  /** Acquire then release in time: the key is removed again and the release succeeds; a key that
      was absent before leaves the store exactly as it was. */
  lemma {:induction false} AcquireThenReleaseRestores(p: Protocol, c: Config, s: Store, startMs: int, nowMs: int,
                                                      retries: nat, releaseMs: int)
    requires startMs <= nowMs
    requires var r := PollFrom(p, c, s, startMs, nowMs, retries);
             r.result == Acquired && Seconds(releaseMs) < r.lockValue.expire
    ensures var r := PollFrom(p, c, s, startMs, nowMs, retries);
            Release(r.store, c.name, Some(r.lockValue), Seconds(releaseMs)) == Write(s - {c.name}, true)
    ensures c.name !in s ==> PollFrom(p, c, s, startMs, nowMs, retries).store - {c.name} == s
  {
    var r := PollFrom(p, c, s, startMs, nowMs, retries);
    assert r.store - {c.name} == s - {c.name};
    if c.name !in s {
      assert s - {c.name} == s;
    }
  }

  /** The release guard checks only the cached expiry, not the owner: a record written by another
      holder under the same key is deleted all the same. */
  lemma ReleaseIgnoresOwner(s: Store, key: string, mine: Record, now: int)
    requires key in s && s[key].guid != mine.guid && mine.expire > now
    ensures Release(s, key, Some(mine), now) == Write(s - {key}, true)
  {
  }

  /** `close()` on a handler that clears itself (Redis and Memcache): the handler is null
      afterwards; a null handler answers true; otherwise the connection's answer is returned. */
  function CloseHandler(handlerSet: bool, closeOk: bool): (r: (bool, bool))
    ensures !r.0
    ensures r.1 == (!handlerSet || closeOk)
  {
    if !handlerSet then (false, true) else (false, closeOk)
  }

  /** Closing twice: the second close finds the handler null and answers true. */
  lemma CloseTwice(handlerSet: bool, first: bool, second: bool)
    ensures CloseHandler(CloseHandler(handlerSet, first).0, second) == (false, true)
  {
  }
}
