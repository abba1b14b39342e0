/** The Memcached driver (src/MemcachedLock.php): the four hooks of `BaseLock` over a Memcached
    client, with `add` both to take an absent key and to "reclaim" a stale one. */
module MemcachedLock {
  import opened TtlStore

  /** The answer of a call on the handler, or the PHP Error of calling a method on null. */
  datatype Answer = Answered(ok: bool) | NullHandlerError

  /** `__close` as written: the guard is inverted, so a set handler is neither quit nor cleared and
      the call answers true, while a null handler would have `quit()` called on it.  The first
      component is whether the handler is still set afterwards. */
  function CloseAsWritten(handlerSet: bool): (bool, Answer) {
    if handlerSet then (true, Answered(true)) else (false, NullHandlerError)
  }

  /** As written, closing never lets go of an open connection, however often it is repeated;
      the intended close (`CloseHandler`, the Memcache driver's) clears the handler at once. */
  lemma CloseAsWrittenLeaves(quitOk: bool)
    ensures CloseAsWritten(true) == (true, Answered(true))
    ensures CloseAsWritten(CloseAsWritten(true).0) == (true, Answered(true))
    ensures !CloseHandler(true, quitOk).0
  {
  }

  class MemcachedLock {
    const name: string
    /** The per-instance owner token (`uniqid`). */
    const guid: string
    /** Milliseconds `__lock` waits before giving up; 0 waits for ever. */
    const waitTimeout: int
    /** Milliseconds slept between attempts. */
    const waitSleepTime: nat
    /** Seconds until a lock record counts as abandoned. */
    const lockExpire: int
    /** The client was supplied by the caller. */
    const isInHandler: bool
    /** The Memcached client. */
    var handler: Client?
    /** The record this instance last computed. */
    var lockValue: Option<Record>

    /** The connection setup is outside the model: the client is given, together with whether it
        was supplied by the caller. */
    constructor (name: string, handler: Client, isInHandler: bool, guid: string,
                 waitTimeout: int := 0, waitSleepTime: nat := 1, lockExpire: int := 3)
      ensures this.name == name && this.handler == handler && this.isInHandler == isInHandler
      ensures this.guid == guid && this.lockExpire == lockExpire
      ensures this.waitTimeout == waitTimeout && this.waitSleepTime == waitSleepTime
      ensures lockValue == None
    {
      this.name, this.guid, this.isInHandler := name, guid, isInHandler;
      this.lockExpire, this.waitTimeout, this.waitSleepTime := lockExpire, waitTimeout, waitSleepTime;
      this.handler := handler;
      lockValue := None;
    }

    function Settings(): Config {
      Config(name, guid, lockExpire, waitTimeout, waitSleepTime)
    }

    /** `__lock`: poll with `add` until acquired or the timeout has elapsed; at most `retries`
        sleeps are explored. */
    method Lock(nowMs: int, retries: nat) returns (r: Poll)
      requires handler != null
      modifies this`lockValue, handler
      ensures var run := PollFrom(AddAdd, Settings(), old(handler.data), nowMs, nowMs, retries);
              r == run.result && handler.data == run.store && lockValue == Some(run.lockValue)
    {
      var now, n := nowMs, retries;
      while true
        invariant nowMs <= now
        invariant PollFrom(AddAdd, Settings(), handler.data, nowMs, now, n)
               == PollFrom(AddAdd, Settings(), old(handler.data), nowMs, nowMs, retries)
        decreases n
      {
        ghost var before := handler.data;
        var value := handler.Get(name);
        lockValue := Some(Record(Seconds(now) + lockExpire, guid));
        if value.None? {
          var ok := handler.Add(name, lockValue.value);
          if ok {
            return Acquired;
          }
        } else if value.value.expire < Seconds(now) {
          var ok := handler.Add(name, lockValue.value);
          if ok {
            return Acquired;
          }
        }
        assert handler.data == before;
        if waitTimeout == 0 || now - nowMs < waitTimeout {
          if n == 0 {
            return OutOfFuel;
          }
          now, n := now + waitSleepTime, n - 1;
        } else {
          return TimedOut;
        }
      }
    }

    /** `__unlock`: delete the key while the cached record has not expired. */
    method Unlock(nowMs: int) returns (ok: bool)
      requires lockValue.Some? && lockValue.value.expire > Seconds(nowMs) ==> handler != null
      modifies handler
      ensures handler != null ==> Write(handler.data, ok) == Release(old(handler.data), name, lockValue, Seconds(nowMs))
      ensures handler == null ==> ok
    {
      if lockValue.Some? && lockValue.value.expire > Seconds(nowMs) {
        ok := handler.Delete(name);
      } else {
        ok := true;
      }
    }

    /** `__unblockLock`: one pass, with the stale test as written (see `UnblockAsWritten`). */
    method UnblockLock(nowMs: int) returns (ok: bool)
      requires handler != null
      modifies this`lockValue, handler
      ensures lockValue == Some(NewLockValue(Settings(), nowMs))
      ensures Write(handler.data, ok) == UnblockAsWritten(AddAdd, old(handler.data), name, lockValue.value, Seconds(nowMs))
    {
      var value := handler.Get(name);
      lockValue := Some(Record(Seconds(nowMs) + lockExpire, guid));
      if value.None? {
        ok := handler.Add(name, lockValue.value);
        if !ok {
          return false;
        }
      } else if ArrayBelowInt(value.value, Seconds(nowMs)) {
        // the second `add` of the source sits here; `ArrayBelowInt` is false, so this branch is
        // unreachable, which the `assert false` states
        assert false;
      }
      return true;
    }

    /** `__close`, as written: this method is `CloseAsWritten` on the object's handler; that
        function is its one definition, for the lemmas to use. */
    method Close() returns (r: Answer)
      ensures (handler != null, r) == CloseAsWritten(handler != null)
    {
      if handler != null {
        return Answered(true);
      }
      // `$this->handler->quit()` with a null handler: PHP raises an Error
      return NullHandlerError;
    }
  }

  /** Two instances race to reclaim the same stale record: both read it, and neither `add`
      succeeds, since the key is still present. */
  lemma StaleRaceNobodyWins(s: Store, key: string, a: Record, b: Record, now: int)
    requires key in s && Stale(s[key], now)
    ensures var seen := Lookup(s, key);
            var wa := WritePhase(AddAdd, s, key, seen, a, now);
            var wb := WritePhase(AddAdd, wa.store, key, seen, b, now);
            !wa.ok && !wb.ok && wb.store == s
  {
  }
}
