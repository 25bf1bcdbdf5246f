/** The thread library's globals as one object whose methods update them in place,
    one method per public call of thread.cc (context switching and memory
    management left out). Each method is proved to take the transition that
    ThreadSpec defines, and to keep the invariant of ThreadSafety. */
module ThreadLib {
  import opened ThreadSpec
  import opened ThreadSafety

  class Scheduler {
    var initialized: bool                // `init`
    var nextId: nat                      // `id`, the counter for new thread ids
    var current: Option<Tid>             // `current`, None while the scheduler runs
    var ready: seq<Tid>                  // `ready`
    var locks: map<Key, LockState>       // `lock_map`
    var conds: map<Key, seq<Tid>>        // `conditon_map`
    var finished: map<Tid, bool>         // the `finished` flag of each live thread record

    /** The globals as a value. */
    function View(): State
      reads this
    {
      State(initialized, nextId, current, ready, locks, conds, finished)
    }

    ghost predicate Valid()
      reads this
    {
      Inv(View())
    }

    /** The globals as the program starts. */
    constructor ()
      ensures View() == Initial && Valid()
    {
      initialized, nextId, current, ready := false, 0, None, [];
      locks, conds, finished := map[], map[], map[];
      InitialInv();
    }

    /** `thread_create`. */
    method Create(allocFails: bool) returns (r: int)
      requires Valid()
      modifies this
      ensures Valid()
      ensures Step(View(), r) == ThreadSpec.Create(old(View()), allocFails)
    {
      ghost var s0 := View();
      if !initialized || allocFails {
        return -1;
      }
      var t := nextId;
      nextId := nextId + 1;
      finished := finished[t := false];
      ready := ready + [t];
      r := 0;
      CreatePreservesInv(s0, allocFails);
    }

    /** `thread_libinit` up to the switch into the first thread. */
    method LibInit(allocFails: bool) returns (r: int)
      requires Valid()
      modifies this
      ensures Valid()
      ensures Step(View(), r) == ThreadSpec.LibInit(old(View()), allocFails)
    {
      ghost var s0 := View();
      if initialized {
        return -1;
      }
      InitializingKeepsInv(s0);
      initialized := true;
      r := Create(allocFails);
      if r < 0 {
        LibInitPreservesInv(s0, allocFails);
        return -1;
      }
      var first := ready[0];
      ready := ready[1..];
      current := Some(first);
      LibInitPreservesInv(s0, allocFails);
    }

    /** `thread_yield`. */
    method Yield() returns (r: int)
      requires Valid() && CalledFromThread(View())
      modifies this
      ensures Valid()
      ensures Step(View(), r) == ThreadSpec.Yield(old(View()))
    {
      ghost var s0 := View();
      if !initialized {
        return -1;
      }
      ready := ready + [current.value];
      current := None;
      r := 0;
      YieldPreservesInv(s0);
    }

    /** `thread_lock`. */
    method Lock(k: Key, allocFails: bool) returns (r: int)
      requires Valid() && CalledFromThread(View())
      modifies this
      ensures Valid()
      ensures Step(View(), r) == ThreadSpec.Lock(old(View()), k, allocFails)
    {
      ghost var s0 := View();
      if !initialized {
        return -1;
      }
      var t := current.value;
      if k !in locks {
        if allocFails {
          return -1;
        }
        locks := locks[k := LockState(Some(t), [])];
      } else {
        var l := locks[k];
        if l.owner.None? {
          locks := locks[k := l.(owner := Some(t))];
        } else if l.owner.value == t {
          return -1;
        } else {
          locks := locks[k := l.(blocked := l.blocked + [t])];
          current := None;
        }
      }
      r := 0;
      LockPreservesInv(s0, k, allocFails);
    }

    /** `unlock_without_interrupts`. */
    method ReleaseLock(k: Key) returns (r: int)
      requires Valid() && Runs(View())
      modifies this
      ensures Valid()
      ensures Step(View(), r) == ThreadSpec.ReleaseLock(old(View()), k)
    {
      ghost var s0 := View();
      if k !in locks {
        return -1;
      }
      var l := locks[k];
      if l.owner.None? || l.owner.value != current.value {
        return -1;
      }
      if |l.blocked| > 0 {
        var next := l.blocked[0];
        locks := locks[k := LockState(Some(next), l.blocked[1..])];
        ready := ready + [next];
      } else {
        locks := locks[k := LockState(None, l.blocked)];
      }
      r := 0;
      ReleaseLockPreservesInv(s0, k);
    }

    /** `thread_unlock`. */
    method Unlock(k: Key) returns (r: int)
      requires Valid() && CalledFromThread(View())
      modifies this
      ensures Valid()
      ensures Step(View(), r) == ThreadSpec.Unlock(old(View()), k)
    {
      if !initialized {
        return -1;
      }
      r := ReleaseLock(k);
    }

    /** `thread_wait` up to its switch; the re-acquisition is a later `Lock` call. */
    method Wait(lockKey: Key, condKey: Key, allocFails: bool) returns (r: int)
      requires Valid() && CalledFromThread(View())
      modifies this
      ensures Valid()
      ensures Step(View(), r) == ThreadSpec.Wait(old(View()), lockKey, condKey, allocFails)
    {
      ghost var s0 := View();
      if !initialized {
        return -1;
      }
      var released := ReleaseLock(lockKey);
      if released != 0 {
        return 0;
      }
      var t := current.value;
      if condKey !in conds {
        if allocFails {
          return -1;
        }
        conds := conds[condKey := [t]];
      } else {
        conds := conds[condKey := conds[condKey] + [t]];
      }
      current := None;
      r := 0;
      WaitPreservesInv(s0, lockKey, condKey, allocFails);
    }

    /** `thread_signal`. */
    method Signal(lockKey: Key, condKey: Key) returns (r: int)
      requires Valid()
      modifies this
      ensures Valid()
      ensures Step(View(), r) == ThreadSpec.Signal(old(View()), lockKey, condKey)
    {
      ghost var s0 := View();
      if !initialized {
        return -1;
      }
      if condKey in conds && |conds[condKey]| > 0 {
        var t := conds[condKey][0];
        conds := conds[condKey := conds[condKey][1..]];
        ready := ready + [t];
      }
      r := 0;
      SignalPreservesInv(s0, lockKey, condKey);
    }

    /** `thread_broadcast`: moves the waiters one at a time, oldest first. */
    method Broadcast(lockKey: Key, condKey: Key) returns (r: int)
      requires Valid()
      modifies this
      ensures Valid()
      ensures Step(View(), r) == ThreadSpec.Broadcast(old(View()), lockKey, condKey)
    {
      ghost var s0 := View();
      if !initialized {
        return -1;
      }
      if condKey in conds {
        ghost var waiters := conds[condKey];
        while |conds[condKey]| > 0
          invariant condKey in conds && |conds[condKey]| <= |waiters|
          invariant conds == s0.conds[condKey := conds[condKey]]
          invariant conds[condKey] == waiters[|waiters| - |conds[condKey]|..]
          invariant ready == s0.ready + waiters[..|waiters| - |conds[condKey]|]
          invariant View() == s0.(ready := ready, conds := conds)
          decreases |conds[condKey]|
        {
          var t := conds[condKey][0];
          conds := conds[condKey := conds[condKey][1..]];
          ready := ready + [t];
        }
        assert waiters[..|waiters|] == waiters;
      }
      r := 0;
      BroadcastPreservesInv(s0, lockKey, condKey);
    }

    /** The end of `execute_func`: the running thread's function has returned. */
    method Finish()
      requires Valid() && initialized && Runs(View())
      modifies this
      ensures Valid()
      ensures View() == ThreadSpec.Finish(old(View()))
    {
      ghost var s0 := View();
      finished := finished[current.value := true];
      FinishPreservesInv(s0);
    }

    /** `delete_current_thread`: drop the current thread's record. */
    method DeleteCurrentThread()
      requires current.Some?
      modifies this
      ensures View() == old(View()).(finished := old(finished) - {old(current).value}, current := None)
    {
      finished := finished - {current.value};
      current := None;
    }

    /** One pass of the scheduler loop in `thread_libinit`. */
    method Dispatch()
      requires Valid() && SchedulerRuns(View()) && ready != []
      modifies this
      ensures Valid()
      ensures View() == ThreadSpec.Dispatch(old(View()))
    {
      ghost var s0 := View();
      if current.Some? && finished[current.value] {
        DeleteCurrentThread();
      }
      var next := ready[0];
      ready := ready[1..];
      current := Some(next);
      DispatchPreservesInv(s0);
    }

    /** The end of the scheduler loop: reclaim the last thread before the process exits. */
    method Shutdown()
      requires Valid() && SchedulerRuns(View()) && ready == []
      modifies this
      ensures Valid()
      ensures View() == ThreadSpec.Shutdown(old(View()))
    {
      ghost var s0 := View();
      if current.Some? {
        DeleteCurrentThread();
      }
      ShutdownPreservesInv(s0);
    }
  }
}
