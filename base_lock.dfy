/** The lock life cycle shared by every driver (src/base/BaseLock.php).

    `BaseLock` keeps one flag, `isLocked`, and drives it through `lock`, `unlock`, `unblockLock`
    and `close`.  The medium-specific work is done by four hooks (`__lock`, `__unlock`,
    `__unblockLock`, `__close`) that each driver supplies; here the driver is abstract and every hook
    answers an arbitrary boolean.  The task and concurrent-check callbacks are opaque: running the
    task has no effect on the lock, and the concurrent check answers an arbitrary boolean.

    Every hook call and callback run is recorded, with its answer, in a ghost event history.  The
    pure functions `UnlockOp`, `LockOp`, `UnblockLockOp` and `CloseOp` give the outcome of each public
    operation for a given set of answers; the class methods are proved to produce exactly one of
    those outcomes, and the history lemmas show that `isLocked` always says whether the last
    successful acquire hook is still unreleased. */
module Base {

  /** The result codes of `lock()` (the `LockConst` values). */
  datatype LockResult = AlreadyLocked | Fail | Success | ConcurrentComplete | ConcurrentUntreated

  /** The four driver hooks. */
  datatype Hook = LockHook | UnlockHook | UnblockLockHook | CloseHook

  /** What an operation did, in order: a hook call with its answer, a task run, a concurrent check
      with its answer. */
  datatype Event = Hooked(hook: Hook, ok: bool) | RanTask | CheckedConcurrent(handled: bool)

  /** A value returned normally, or the "already locked" exception. */
  datatype Raised<T> = Returned(value: T) | AlreadyLockedError

  /** The state after an operation, its result and the events it produced. */
  datatype Outcome<T> = Outcome(locked: bool, result: T, events: seq<Event>)

  // ---------------------------------------------------------------------------------------------
  // The event history

  /** A call of an acquiring hook (`__lock` or `__unblockLock`), whatever it answered. */
  predicate CallsAcquire(e: Event) {
    e.Hooked? && (e.hook == LockHook || e.hook == UnblockLockHook)
  }

  /** An acquiring hook that succeeded. */
  predicate Acquires(e: Event) {
    CallsAcquire(e) && e.ok
  }

  /** An `__unlock` that succeeded. */
  predicate Releases(e: Event) {
    e == Hooked(UnlockHook, true)
  }

  /** Whether the lock is held after event `e`, given whether it was held before. */
  function Next(held: bool, e: Event): bool {
    if Acquires(e) then true else if Releases(e) then false else held
  }

  /** The protocol's rule for one event: acquire only while not held, unlock only while held. */
  predicate Allowed(held: bool, e: Event) {
    (CallsAcquire(e) ==> !held) && (e.Hooked? && e.hook == UnlockHook ==> held)
  }

  /** Whether the lock is held after the history `t`, starting from `held`. */
  function HeldAfter(held: bool, t: seq<Event>): bool
    decreases |t|
  {
    if t == [] then held else Next(HeldAfter(held, t[..|t| - 1]), t[|t| - 1])
  }

  /** Every event of `t` obeys `Allowed`, starting from `held`. */
  predicate Disciplined(held: bool, t: seq<Event>)
    decreases |t|
  {
    t == [] || (Disciplined(held, t[..|t| - 1]) && Allowed(HeldAfter(held, t[..|t| - 1]), t[|t| - 1]))
  }

  /** An unreleased acquisition: event `i` of `t` acquired and no later event released. */
  ghost predicate AcquiredAndNotReleased(t: seq<Event>, i: int) {
    0 <= i < |t| && Acquires(t[i]) && forall j :: i < j < |t| ==> !Releases(t[j])
  }

  /** Holding, as computed by `HeldAfter`, is exactly "some acquisition is not yet released". */
  lemma {:induction false} HeldIffUnreleasedAcquire(t: seq<Event>)
    ensures HeldAfter(false, t) <==> exists i :: AcquiredAndNotReleased(t, i)
  {
    if t == [] {
    } else {
      var p, e := t[..|t| - 1], t[|t| - 1];
      assert t == p + [e];
      HeldIffUnreleasedAcquire(p);
      if Acquires(e) {
        assert AcquiredAndNotReleased(t, |t| - 1);
      } else if Releases(e) {
        forall i | 0 <= i < |t| ensures !AcquiredAndNotReleased(t, i) {
          if i < |t| - 1 { assert Releases(t[|t| - 1]); }
        }
      } else if HeldAfter(false, p) {
        var i :| AcquiredAndNotReleased(p, i);
        assert AcquiredAndNotReleased(t, i);
      } else {
        forall i | 0 <= i < |t| ensures !AcquiredAndNotReleased(t, i) {
          assert i < |t| - 1 ==> (AcquiredAndNotReleased(t, i) ==> AcquiredAndNotReleased(p, i));
        }
      }
    }
  }

  /** A disciplined history stays disciplined when cut short. */
  lemma {:induction false} DisciplinedPrefix(held: bool, t: seq<Event>, n: nat)
    requires Disciplined(held, t) && n <= |t|
    ensures Disciplined(held, t[..n])
    decreases |t|
  {
    if n < |t| {
      assert t[..|t| - 1][..n] == t[..n];
      DisciplinedPrefix(held, t[..|t| - 1], n);
    } else {
      assert t[..n] == t;
    }
  }

  /** Never a double acquire: in a disciplined history that starts unlocked, between an acquisition
      and any later call of an acquiring hook there is a successful release. */
  lemma {:induction false} NoDoubleAcquire(t: seq<Event>, i: int, j: int)
    requires Disciplined(false, t)
    requires 0 <= i < j < |t| && Acquires(t[i]) && CallsAcquire(t[j])
    ensures exists k :: i < k < j && Releases(t[k])
  {
    var p := t[..j];
    DisciplinedPrefix(false, t, j + 1);
    assert t[..j + 1][..j] == p;
    assert !HeldAfter(false, p);
    if forall k :: i < k < j ==> !Releases(t[k]) {
      assert AcquiredAndNotReleased(p, i);
      HeldIffUnreleasedAcquire(p);
      assert false;
    }
  }

  // ---------------------------------------------------------------------------------------------
  // The public operations for given hook and callback answers

  /** `unlock()`: no hook while unlocked; otherwise the `__unlock` answer is both the result and
      whether the lock is let go. */
  function UnlockOp(locked: bool, unlockOk: bool): (o: Outcome<bool>)
    ensures !locked ==> o == Outcome(false, true, [])
    ensures locked ==> o.events == [Hooked(UnlockHook, unlockOk)]
    ensures o.result <==> !locked || unlockOk
    ensures o.locked <==> !o.result
  {
    if !locked then Outcome(false, true, [])
    else Outcome(!unlockOk, unlockOk, [Hooked(UnlockHook, unlockOk)])
  }

  /** The task callback, when given, runs and is followed by `unlock()`; the unlock result is
      ignored. */
  function TaskThenUnlock(task: bool, unlockOk: bool): (o: Outcome<bool>)
  {
    if !task then Outcome(true, true, [])
    else
      var u := UnlockOp(true, unlockOk);
      Outcome(u.locked, true, [RanTask] + u.events)
  }

  /** `lock(callback, concurrentCallback)`, with `task` and `concurrentCheck` saying which callbacks
      were passed, and the answers of `__lock`, of the concurrent check and of `__unlock`. */
  function LockOp(locked: bool, task: bool, concurrentCheck: bool,
                  lockOk: bool, handled: bool, unlockOk: bool): (o: Outcome<LockResult>)
    // already locked: no hook is called and the lock stays held
    ensures o.result == AlreadyLocked <==> locked
    ensures locked ==> o.locked && o.events == []
    // the driver fails: nothing else happens and the lock is not held
    ensures o.result == Fail <==> !locked && !lockOk
    ensures o.result == Fail ==> !o.locked && o.events == [Hooked(LockHook, false)]
    // acquired, no concurrent check: SUCCESS, whatever the unlock after the task answers
    ensures o.result == Success <==> !locked && lockOk && !concurrentCheck
    ensures o.result == Success && !task ==> o.locked
    // the concurrent check says "already handled": no task, no unlock, the lock stays held
    ensures o.result == ConcurrentComplete <==> !locked && lockOk && concurrentCheck && handled
    ensures o.result == ConcurrentComplete ==> o.locked && RanTask !in o.events
    ensures o.result == ConcurrentComplete ==> o.events == [Hooked(LockHook, true), CheckedConcurrent(true)]
    ensures o.result == ConcurrentUntreated <==> !locked && lockOk && concurrentCheck && !handled
    // the task runs exactly when acquired and not already handled, and is followed by an unlock
    ensures RanTask in o.events <==> !locked && lockOk && task && !(concurrentCheck && handled)
    ensures RanTask in o.events ==>
              o.events[|o.events| - 1] == Hooked(UnlockHook, unlockOk) && o.locked == !unlockOk
    ensures !locked && lockOk && RanTask !in o.events ==> o.locked
  {
    if locked then Outcome(true, AlreadyLocked, [])
    else if !lockOk then Outcome(false, Fail, [Hooked(LockHook, false)])
    else
      var a := AcquiredOp(task, concurrentCheck, handled, unlockOk);
      Outcome(a.locked, a.result, [Hooked(LockHook, true)] + a.events)
  }

  /** What `lock()` does once `__lock` has succeeded: the concurrent check, if given, then the
      task and the unlock unless the check says the work was already done. */
  function AcquiredOp(task: bool, concurrentCheck: bool, handled: bool, unlockOk: bool): Outcome<LockResult>
  {
    if !concurrentCheck then
      var t := TaskThenUnlock(task, unlockOk);
      Outcome(t.locked, Success, t.events)
    else if handled then
      Outcome(true, ConcurrentComplete, [CheckedConcurrent(true)])
    else
      var t := TaskThenUnlock(task, unlockOk);
      Outcome(t.locked, ConcurrentUntreated, [CheckedConcurrent(false)] + t.events)
  }

  /** `unblockLock(callback)`: the usage error while locked; otherwise one `__unblockLock`, and on
      success the lock is taken and, with a task callback, the task runs and the lock is unlocked. */
  function UnblockLockOp(locked: bool, task: bool, unblockOk: bool, unlockOk: bool): (o: Outcome<Raised<bool>>)
    ensures o.result == AlreadyLockedError <==> locked
    ensures locked ==> o.locked && o.events == []
    ensures !locked && !unblockOk ==> o == Outcome(false, Returned(false), [Hooked(UnblockLockHook, false)])
    ensures !locked && unblockOk ==> o.result == Returned(true)
    ensures RanTask in o.events <==> !locked && unblockOk && task
    ensures !locked && unblockOk ==> o.locked == (!task || !unlockOk)
  {
    if locked then Outcome(true, AlreadyLockedError, [])
    else if !unblockOk then Outcome(false, Returned(false), [Hooked(UnblockLockHook, false)])
    else
      var t := TaskThenUnlock(task, unlockOk);
      Outcome(t.locked, Returned(true), [Hooked(UnblockLockHook, true)] + t.events)
  }

  /** `close()`: `(isLocked ? unlock() : true) && (isInHandler || __close())`. */
  function CloseOp(locked: bool, isInHandler: bool, unlockOk: bool, closeOk: bool): (o: Outcome<bool>)
    ensures o.result == ((!locked || unlockOk) && (isInHandler || closeOk))
    ensures o.locked == (locked && !unlockOk)
    // `__close` is called exactly when the unlock (if any) succeeded and the handler is our own
    ensures Hooked(CloseHook, closeOk) in o.events <==> !isInHandler && (!locked || unlockOk)
    ensures forall e :: e in o.events && e.Hooked? && e.hook == CloseHook ==> !isInHandler
  {
    var u := UnlockOp(locked, unlockOk);
    if !u.result || isInHandler then Outcome(u.locked, u.result, u.events)
    else Outcome(u.locked, closeOk, u.events + [Hooked(CloseHook, closeOk)])
  }

  // ---------------------------------------------------------------------------------------------
  // The operations keep the history consistent with the flag

  /** Extending a history by one event moves the flag by `Next` and checks `Allowed`. */
  lemma Snoc(held: bool, t: seq<Event>, e: Event)
    ensures HeldAfter(held, t + [e]) == Next(HeldAfter(held, t), e)
    ensures Disciplined(held, t + [e]) == (Disciplined(held, t) && Allowed(HeldAfter(held, t), e))
  {
    assert (t + [e])[..|t|] == t;
  }

  /** The flag and the protocol check of a joined history are those of its two parts in turn. */
  lemma {:induction false} Concat(held: bool, a: seq<Event>, b: seq<Event>)
    ensures HeldAfter(held, a + b) == HeldAfter(HeldAfter(held, a), b)
    ensures Disciplined(held, a + b) == (Disciplined(held, a) && Disciplined(HeldAfter(held, a), b))
    decreases |b|
  {
    if b == [] {
      assert a + b == a;
    } else {
      var c, e := b[..|b| - 1], b[|b| - 1];
      assert b == c + [e];
      assert a + b == (a + c) + [e];
      Concat(held, a, c);
      Snoc(held, a + c, e);
      Snoc(HeldAfter(held, a), c, e);
    }
  }

  lemma Single(held: bool, e: Event)
    ensures HeldAfter(held, [e]) == Next(held, e) && Disciplined(held, [e]) == Allowed(held, e)
  {
    Snoc(held, [], e);
    assert [] + [e] == [e];
  }

  /** The task run and unlock that follow an acquisition obey the protocol. */
  lemma TaskThenUnlockKeepsHistory(task: bool, unlockOk: bool)
    ensures var o := TaskThenUnlock(task, unlockOk);
            HeldAfter(true, o.events) == o.locked && Disciplined(true, o.events)
  {
    if task {
      Single(true, RanTask);
      Single(true, Hooked(UnlockHook, unlockOk));
      Concat(true, [RanTask], [Hooked(UnlockHook, unlockOk)]);
      assert [RanTask] + [Hooked(UnlockHook, unlockOk)] == TaskThenUnlock(task, unlockOk).events;
    }
  }

  /** After a successful `__lock`, the rest of `lock()` keeps the flag and the protocol. */
  lemma AcquiredOpKeepsHistory(task: bool, concurrentCheck: bool, handled: bool, unlockOk: bool)
    ensures var a := AcquiredOp(task, concurrentCheck, handled, unlockOk);
            HeldAfter(true, a.events) == a.locked && Disciplined(true, a.events)
  {
    TaskThenUnlockKeepsHistory(task, unlockOk);
    if concurrentCheck {
      var c := CheckedConcurrent(handled);
      Single(true, c);
      if !handled {
        Concat(true, [c], TaskThenUnlock(task, unlockOk).events);
      }
    }
  }

  /** Whatever the answers, `lock()` leaves the flag equal to what its events say, and calls no hook
      out of turn. */
  lemma {:induction false} LockOpKeepsHistory(locked: bool, task: bool, concurrentCheck: bool,
                                              lockOk: bool, handled: bool, unlockOk: bool)
    ensures var o := LockOp(locked, task, concurrentCheck, lockOk, handled, unlockOk);
            HeldAfter(locked, o.events) == o.locked && Disciplined(locked, o.events)
  {
    if !locked {
      var l := Hooked(LockHook, lockOk);
      Single(false, l);
      if lockOk {
        AcquiredOpKeepsHistory(task, concurrentCheck, handled, unlockOk);
        Concat(false, [l], AcquiredOp(task, concurrentCheck, handled, unlockOk).events);
      }
    }
  }

  lemma {:induction false} UnblockLockOpKeepsHistory(locked: bool, task: bool, unblockOk: bool, unlockOk: bool)
    ensures var o := UnblockLockOp(locked, task, unblockOk, unlockOk);
            HeldAfter(locked, o.events) == o.locked && Disciplined(locked, o.events)
  {
    if !locked {
      var u := Hooked(UnblockLockHook, unblockOk);
      Single(false, u);
      if unblockOk {
        TaskThenUnlockKeepsHistory(task, unlockOk);
        Concat(false, [u], TaskThenUnlock(task, unlockOk).events);
      }
    }
  }

  lemma {:induction false} CloseOpKeepsHistory(locked: bool, isInHandler: bool, unlockOk: bool, closeOk: bool)
    ensures var o := CloseOp(locked, isInHandler, unlockOk, closeOk);
            HeldAfter(locked, o.events) == o.locked && Disciplined(locked, o.events)
  {
    var ev := CloseOp(locked, isInHandler, unlockOk, closeOk).events;
    var u, c := Hooked(UnlockHook, unlockOk), Hooked(CloseHook, closeOk);
    if !locked {
      if !isInHandler {
        assert ev == [c];
        Single(false, c);
      }
    } else if !unlockOk || isInHandler {
      assert ev == [u];
      Single(true, u);
    } else {
      assert ev == [u] + [c];
      Single(true, u);
      Snoc(true, [u], c);
    }
  }

  // ---------------------------------------------------------------------------------------------
  // The lock object

  class BaseLock {
    /** The lock name (used by the drivers). */
    const name: string
    /** The handler was supplied by the caller, so `close()` leaves it open. */
    const isInHandler: bool
    /** Whether this instance holds the lock. */
    var isLocked: bool
    /** Every hook call and callback run so far, with its answer. */
    ghost var history: seq<Event>

    /** The flag is what the history says, and the history obeys the protocol. */
    ghost predicate Valid()
      reads this
    {
      isLocked == HeldAfter(false, history) && Disciplined(false, history)
    }

    constructor (name: string, isInHandler: bool)
      ensures Valid() && !isLocked && history == []
      ensures this.name == name && this.isInHandler == isInHandler
    {
      this.name := name;
      this.isInHandler := isInHandler;
      isLocked := false;
      history := [];
    }

    /** Appends one event; the new flag is the old one moved by `Next`. */
    method Record(e: Event)
      requires Valid() && Allowed(isLocked, e)
      modifies this`history
      ensures history == old(history) + [e]
      ensures HeldAfter(false, history) == Next(old(isLocked), e) && Disciplined(false, history)
    {
      history := history + [e];
      assert history[..|history| - 1] == old(history);
    }

    // The driver hooks: each answers an arbitrary boolean.

    method HookLock() returns (ok: bool)
      requires Valid() && !isLocked
      modifies this`history
      ensures history == old(history) + [Hooked(LockHook, ok)]
      ensures HeldAfter(false, history) == ok && Disciplined(false, history)
    {
      ok := *;
      Record(Hooked(LockHook, ok));
    }

    method HookUnlock() returns (ok: bool)
      requires Valid() && isLocked
      modifies this`history
      ensures history == old(history) + [Hooked(UnlockHook, ok)]
      ensures HeldAfter(false, history) == !ok && Disciplined(false, history)
    {
      ok := *;
      Record(Hooked(UnlockHook, ok));
    }

    method HookUnblockLock() returns (ok: bool)
      requires Valid() && !isLocked
      modifies this`history
      ensures history == old(history) + [Hooked(UnblockLockHook, ok)]
      ensures HeldAfter(false, history) == ok && Disciplined(false, history)
    {
      ok := *;
      Record(Hooked(UnblockLockHook, ok));
    }

    method HookClose() returns (ok: bool)
      requires Valid()
      modifies this`history
      ensures history == old(history) + [Hooked(CloseHook, ok)]
      ensures Valid()
    {
      ok := *;
      Record(Hooked(CloseHook, ok));
    }

    // The callbacks: the task has no effect on the lock; the concurrent check answers a boolean.

    method RunTask()
      requires Valid()
      modifies this`history
      ensures history == old(history) + [RanTask]
      ensures Valid()
    {
      Record(RanTask);
    }

    method CheckConcurrent() returns (handled: bool)
      requires Valid()
      modifies this`history
      ensures history == old(history) + [CheckedConcurrent(handled)]
      ensures Valid()
    {
      handled := *;
      Record(CheckedConcurrent(handled));
    }

    // The public operations

    /** `unlock()`; its answer is also the answer `__unlock` gave, when it was called. */
    method Unlock() returns (ok: bool)
      requires Valid()
      modifies this`isLocked, this`history
      ensures Valid()
      ensures var o := UnlockOp(old(isLocked), ok);
              history == old(history) + o.events && isLocked == o.locked && ok == o.result
    {
      if !isLocked {
        return true;
      }
      ok := HookUnlock();
      if ok {
        isLocked := false;
      }
    }

    /** The task run and the unlock that follow a successful acquisition. */
    method TaskThenUnlockStep(task: bool) returns (ghost unlockOk: bool)
      requires Valid() && isLocked
      modifies this`isLocked, this`history
      ensures Valid()
      ensures var o := TaskThenUnlock(task, unlockOk);
              history == old(history) + o.events && isLocked == o.locked
    {
      unlockOk := true;
      if task {
        RunTask();
        var released := Unlock();
        unlockOk := released;
        assert history == old(history) + ([RanTask] + [Hooked(UnlockHook, unlockOk)]);
      }
    }

    /** `lock(callback, concurrentCallback)`; `task` and `concurrentCheck` say which callbacks were
        passed, and the ghost results are the answers the hooks and the concurrent check gave. */
    method Lock(task: bool, concurrentCheck: bool)
      returns (r: LockResult, ghost lockOk: bool, ghost handled: bool, ghost unlockOk: bool)
      requires Valid()
      modifies this`isLocked, this`history
      ensures Valid()
      ensures var o := LockOp(old(isLocked), task, concurrentCheck, lockOk, handled, unlockOk);
              history == old(history) + o.events && isLocked == o.locked && r == o.result
    {
      lockOk, handled, unlockOk := false, false, false;
      if isLocked {
        return AlreadyLocked, lockOk, handled, unlockOk;
      }
      var acquired := HookLock();
      lockOk := acquired;
      if !acquired {
        return Fail, lockOk, handled, unlockOk;
      }
      isLocked := true;
      r, handled, unlockOk := AfterAcquire(task, concurrentCheck);
      assert history == old(history) + ([Hooked(LockHook, true)] + AcquiredOp(task, concurrentCheck, handled, unlockOk).events);
    }

    /** The part of `lock()` after `__lock` succeeded. */
    method AfterAcquire(task: bool, concurrentCheck: bool)
      returns (r: LockResult, ghost handled: bool, ghost unlockOk: bool)
      requires Valid() && isLocked
      modifies this`isLocked, this`history
      ensures Valid()
      ensures var a := AcquiredOp(task, concurrentCheck, handled, unlockOk);
              history == old(history) + a.events && isLocked == a.locked && r == a.result
    {
      handled, unlockOk := false, false;
      if !concurrentCheck {
        unlockOk := TaskThenUnlockStep(task);
        return Success, handled, unlockOk;
      }
      var done := CheckConcurrent();
      handled := done;
      if done {
        return ConcurrentComplete, handled, unlockOk;
      }
      unlockOk := TaskThenUnlockStep(task);
      r := ConcurrentUntreated;
      assert history == old(history) + ([CheckedConcurrent(false)] + TaskThenUnlock(task, unlockOk).events);
    }

    /** `unblockLock(callback)`: the usage error while locked; the ghost results are the answers
        the hooks gave. */
    method UnblockLock(task: bool) returns (r: Raised<bool>, ghost unblockOk: bool, ghost unlockOk: bool)
      requires Valid()
      modifies this`isLocked, this`history
      ensures Valid()
      ensures var o := UnblockLockOp(old(isLocked), task, unblockOk, unlockOk);
              history == old(history) + o.events && isLocked == o.locked && r == o.result
    {
      unblockOk, unlockOk := false, false;
      if isLocked {
        return AlreadyLockedError, unblockOk, unlockOk;
      }
      var acquired := HookUnblockLock();
      unblockOk := acquired;
      if !acquired {
        return Returned(false), unblockOk, unlockOk;
      }
      isLocked := true;
      unlockOk := TaskThenUnlockStep(task);
      r := Returned(true);
      assert history == old(history) + ([Hooked(UnblockLockHook, true)] + TaskThenUnlock(task, unlockOk).events);
    }

    /** `close()`; the ghost results are the answers of `__unlock` and `__close`, when called. */
    method Close() returns (ok: bool, ghost unlockOk: bool, ghost closeOk: bool)
      requires Valid()
      modifies this`isLocked, this`history
      ensures Valid()
      ensures var o := CloseOp(old(isLocked), isInHandler, unlockOk, closeOk);
              history == old(history) + o.events && isLocked == o.locked && ok == o.result
    {
      ghost var wasLocked := isLocked;
      var released := Unlock();
      unlockOk, closeOk := released, true;
      if !released || isInHandler {
        assert CloseOp(wasLocked, isInHandler, unlockOk, closeOk) == UnlockOp(wasLocked, unlockOk);
        return released, unlockOk, closeOk;
      }
      ghost var unlocked := history;
      ok := HookClose();
      closeOk := ok;
      assert history == unlocked + [Hooked(CloseHook, closeOk)];
    }
  }
}
