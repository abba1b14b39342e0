/** The Redis driver (src/RedisLock.php): the four hooks of `BaseLock` over a Redis client, with
    `setnx` to take an absent key and `getSet` to reclaim a stale one. */
module RedisLock {
  import opened TtlStore

  class RedisLock {
    const name: string
    /** The per-instance owner token (`uniqid`). */
    const guid: string
    /** Seconds until a lock record counts as abandoned. */
    const lockExpire: int
    /** Milliseconds `__lock` waits before giving up; 0 waits for ever. */
    const waitTimeout: int
    /** Milliseconds slept between attempts. */
    const waitSleepTime: nat
    /** The client was supplied by the caller. */
    const isInHandler: bool
    /** The Redis client; null once closed. */
    var handler: Client?
    /** The record this instance last computed. */
    var lockValue: Option<Record>

    /** The connection setup is outside the model: the client is given, together with whether it
        was supplied by the caller. */
    constructor (name: string, handler: Client, isInHandler: bool, guid: string,
                 lockExpire: int := 3, waitTimeout: int := 0, waitSleepTime: nat := 1)
      ensures this.name == name && this.handler == handler && this.isInHandler == isInHandler
      ensures this.guid == guid && this.lockExpire == lockExpire
      ensures this.waitTimeout == waitTimeout && this.waitSleepTime == waitSleepTime
      ensures lockValue == None
    {
      this.name, this.guid, this.isInHandler := name, guid, isInHandler;
      this.lockExpire, this.waitTimeout, this.waitSleepTime := lockExpire, waitTimeout, waitSleepTime;
      this.handler := handler;
      lockValue := None;
    }

    function Settings(): Config {
      Config(name, guid, lockExpire, waitTimeout, waitSleepTime)
    }

    /** `__lock`: poll with `setnx` / `getSet` until acquired or the timeout has elapsed; at most
        `retries` sleeps are explored. */
    method Lock(nowMs: int, retries: nat) returns (r: Poll)
      requires handler != null
      modifies this`lockValue, handler
      ensures var run := PollFrom(SetNxGetSet, Settings(), old(handler.data), nowMs, nowMs, retries);
              r == run.result && handler.data == run.store && lockValue == Some(run.lockValue)
    {
      var now, n := nowMs, retries;
      while true
        invariant nowMs <= now
        invariant PollFrom(SetNxGetSet, Settings(), handler.data, nowMs, now, n)
               == PollFrom(SetNxGetSet, Settings(), old(handler.data), nowMs, nowMs, retries)
        decreases n
      {
        ghost var before := handler.data;
        var value := handler.Get(name);
        lockValue := Some(Record(Seconds(now) + lockExpire, guid));
        if value.None? {
          var ok := handler.SetNx(name, lockValue.value);
          if ok {
            return Acquired;
          }
        } else if value.value.expire < Seconds(now) {
          var previous := handler.GetSet(name, lockValue.value);
          if previous == value {
            return Acquired;
          }
        }
        assert handler.data == before;
        if waitTimeout == 0 || now - nowMs < waitTimeout {
          if n == 0 {
            return OutOfFuel;
          }
          now, n := now + waitSleepTime, n - 1;
        } else {
          return TimedOut;
        }
      }
    }

    /** `__unlock`: delete the key while the cached record has not expired. */
    method Unlock(nowMs: int) returns (ok: bool)
      requires lockValue.Some? && lockValue.value.expire > Seconds(nowMs) ==> handler != null
      modifies handler
      ensures handler != null ==> Write(handler.data, ok) == Release(old(handler.data), name, lockValue, Seconds(nowMs))
      ensures handler == null ==> ok
    {
      if lockValue.Some? && lockValue.value.expire > Seconds(nowMs) {
        ok := handler.Delete(name);
      } else {
        ok := true;
      }
    }

    /** `__unblockLock`: one pass, with the stale test as written (see `UnblockAsWritten`). */
    method UnblockLock(nowMs: int) returns (ok: bool)
      requires handler != null
      modifies this`lockValue, handler
      ensures lockValue == Some(NewLockValue(Settings(), nowMs))
      ensures Write(handler.data, ok) == UnblockAsWritten(SetNxGetSet, old(handler.data), name, lockValue.value, Seconds(nowMs))
    {
      var value := handler.Get(name);
      lockValue := Some(Record(Seconds(nowMs) + lockExpire, guid));
      if value.None? {
        ok := handler.SetNx(name, lockValue.value);
        if !ok {
          return false;
        }
      } else if ArrayBelowInt(value.value, Seconds(nowMs)) {
        // the `getSet` reclaim of the source sits here; `ArrayBelowInt` is false, so this branch is
        // unreachable, which the `assert false` states
        assert false;
      }
      return true;
    }

    /** `__close`: a null handler answers true; otherwise close it and clear the field. */
    method Close() returns (ok: bool)
      modifies this`handler
      ensures handler == null && (old(handler) == null ==> ok)
      // with the connection's answer `ok`, exactly `CloseHandler`
      ensures (handler != null, ok) == CloseHandler(old(handler) != null, ok)
    {
      if handler == null {
        return true;
      }
      ok := handler.Close();
      handler := null;
    }
  }

  /** Two instances race to reclaim the same stale record: both read it, the first `getSet` wins,
      the second fails but has already overwritten the winner's record with its own. */
  lemma StaleRace(s: Store, key: string, a: Record, b: Record, now: int)
    requires key in s && Stale(s[key], now) && a != s[key]
    ensures var seen := Lookup(s, key);
            var wa := WritePhase(SetNxGetSet, s, key, seen, a, now);
            var wb := WritePhase(SetNxGetSet, wa.store, key, seen, b, now);
            wa.ok && !wb.ok && wb.store == s[key := b]
  {
  }

  /** A fresh key `job-42` with a 3-second lock: acquired on the first attempt, and the store holds
      `{expire: now + 3, guid}`. */
  lemma ScenarioFreshKey(guid: string, nowMs: nat, retries: nat)
    ensures var r := PollFrom(SetNxGetSet, Config("job-42", guid, 3, 0, 1), map[], nowMs, nowMs, retries);
            r.result == Acquired && r.endMs == nowMs &&
            r.store == map["job-42" := Record(Seconds(nowMs) + 3, guid)]
  {
  }

  /** A record stale by ten seconds is reclaimed on the first attempt with an unbounded wait. */
  lemma ScenarioStaleReclaimed(guid: string, nowMs: nat, retries: nat)
    ensures var s := map["job-42" := Record(Seconds(nowMs) - 10, "other")];
            var r := PollFrom(SetNxGetSet, Config("job-42", guid, 3, 0, 1), s, nowMs, nowMs, retries);
            r.result == Acquired && r.endMs == nowMs && r.store["job-42"].guid == guid
  {
  }

  /** A record valid for another minute, a 50 ms timeout and 20 ms sleeps: four attempts, at 0, 20,
      40 and 60 ms, then the loop gives up with the store untouched. */
  lemma {:induction false} ScenarioHeldTimesOut(guid: string, nowMs: nat)
    ensures var s := map["job-42" := Record(Seconds(nowMs) + 60, "other")];
            var r := PollFrom(SetNxGetSet, Config("job-42", guid, 3, 50, 20), s, nowMs, nowMs, 10);
            r.result == TimedOut && r.endMs == nowMs + 60 && r.store == s
  {
    var s := map["job-42" := Record(Seconds(nowMs) + 60, "other")];
    var c := Config("job-42", guid, 3, 50, 20);
    assert PollFrom(SetNxGetSet, c, s, nowMs, nowMs, 10) == PollFrom(SetNxGetSet, c, s, nowMs, nowMs + 20, 9);
    assert PollFrom(SetNxGetSet, c, s, nowMs, nowMs + 20, 9) == PollFrom(SetNxGetSet, c, s, nowMs, nowMs + 40, 8);
    assert PollFrom(SetNxGetSet, c, s, nowMs, nowMs + 40, 8) == PollFrom(SetNxGetSet, c, s, nowMs, nowMs + 60, 7);
  }
}
