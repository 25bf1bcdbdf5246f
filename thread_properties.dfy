/** What each call of the thread library does, stated against the invariant, and
    the FIFO discipline of its queues: every transition changes a queue only by
    appending at the back or taking from the front. */
module ThreadProperties {
  import opened ThreadSpec
  import opened ThreadSafety

  /** Before `thread_libinit` every public call returns -1 and changes nothing. */
  lemma UninitializedCallsFail(s: State, k: Key, c: Key, allocFails: bool)
    requires !s.initialized
    ensures Create(s, allocFails) == Step(s, -1)
    ensures Yield(s) == Step(s, -1)
    ensures Lock(s, k, allocFails) == Step(s, -1)
    ensures Unlock(s, k) == Step(s, -1)
    ensures Wait(s, k, c, allocFails) == Step(s, -1)
    ensures Signal(s, k, c) == Step(s, -1)
    ensures Broadcast(s, k, c) == Step(s, -1)
  {
  }

  /** `thread_create` gives the new thread an id that no live thread has and that is
      larger than every live id, marks it unfinished and queues it at the back. */
  lemma CreateIssuesFreshId(s: State)
    requires Inv(s) && s.initialized
    ensures var r := Create(s, false); var id := s.nextId;
      r.code == 0 &&
      id !in s.finished && (forall t :: t in s.finished ==> t < id) &&
      r.next.finished == s.finished[id := false] && r.next.initialized &&
      r.next.ready == s.ready + [id] && r.next.nextId == id + 1 &&
      r.next.current == s.current && r.next.locks == s.locks && r.next.conds == s.conds
  {
  }

  /** `thread_libinit` on a fresh library: the bootstrap thread gets the counter
      value as its id and becomes current straight away, leaving the ready queue
      empty. When creating it fails, `init` stays set and nothing else changes. */
  lemma LibInitBootstraps(s: State)
    requires Inv(s) && !s.initialized
    ensures var r := LibInit(s, false);
      r.code == 0 && r.next.initialized &&
      r.next.current == Some(s.nextId) && r.next.ready == [] &&
      r.next.finished == map[s.nextId := false] && r.next.nextId == s.nextId + 1 &&
      r.next.locks == s.locks && r.next.conds == s.conds
    ensures LibInit(s, true) == Step(s.(initialized := true), -1)
  {
  }

  /** The counter behind thread ids never goes down, so an id is never issued twice. */
  lemma NextIdMonotone(s: State, op: Op)
    requires Enabled(s, op)
    ensures Apply(s, op).nextId >= s.nextId
  {
  }

  /** Over any sequence of transitions the counter never goes down. */
  lemma {:induction false} RunNextIdMonotone(s: State, ops: seq<Op>)
    requires Run(s, ops).Some?
    ensures Run(s, ops).value.nextId >= s.nextId
    decreases |ops|
  {
    if ops != [] {
      NextIdMonotone(s, ops[0]);
      RunNextIdMonotone(Apply(s, ops[0]), ops[1..]);
    }
  }

  /** Reclamation is deferred: a thread whose function returns stays current, and the
      scheduler's next step deletes exactly its record; a pass of the loop then runs
      the front of the ready queue. Locks and conditions are untouched. */
  lemma FinishThenReclaim(s: State)
    requires Inv(s) && s.initialized && Runs(s)
    ensures var f := Finish(s); var t := s.current.value;
      SchedulerRuns(f) && f.current == s.current &&
      (s.ready != [] ==>
         Dispatch(f).current == Some(s.ready[0]) && Dispatch(f).ready == s.ready[1..] &&
         Dispatch(f).finished.Keys == s.finished.Keys - {t} &&
         Dispatch(f).locks == s.locks && Dispatch(f).conds == s.conds) &&
      (s.ready == [] ==>
         Shutdown(f).current.None? && Shutdown(f).finished.Keys == s.finished.Keys - {t} &&
         Shutdown(f).locks == s.locks && Shutdown(f).conds == s.conds)
  {
    FinishPreservesInv(s);
  }

  /** `thread_yield` is purely a scheduling-order effect: the caller goes to the back
      of the ready queue and gives up the processor; nothing else changes. */
  lemma YieldMovesOnlyCaller(s: State)
    requires Inv(s) && s.initialized && Runs(s)
    ensures var r := Yield(s);
      r.code == 0 && r.next.current.None? && r.next.ready == s.ready + [s.current.value] &&
      r.next.locks == s.locks && r.next.conds == s.conds &&
      r.next.finished == s.finished && r.next.nextId == s.nextId && r.next.initialized
  {
  }

  /** A yield followed by one pass of the scheduler loop runs the thread that was at
      the front of the ready queue, or the yielder itself if nobody else was ready;
      nothing is reclaimed because the yielder has not finished. */
  lemma YieldThenDispatch(s: State)
    requires Inv(s) && s.initialized && Runs(s)
    ensures var s1 := Yield(s).next;
      SchedulerRuns(s1) && s1.ready != [] &&
      Dispatch(s1).current == Some(if s.ready != [] then s.ready[0] else s.current.value) &&
      Dispatch(s1).ready == (s.ready + [s.current.value])[1..] &&
      Dispatch(s1).finished == s.finished
  {
  }

  /** The scheduler loop reclaims the previous thread exactly when it has finished,
      and then runs the front of the ready queue. */
  lemma DispatchReclaimsOnlyFinished(s: State)
    requires Inv(s) && SchedulerRuns(s) && s.ready != []
    ensures var s' := Dispatch(s);
      s'.current == Some(s.ready[0]) && s'.ready == s.ready[1..] &&
      s'.finished.Keys == (if s.current.Some? then s.finished.Keys - {s.current.value} else s.finished.Keys) &&
      s.ready[0] in s'.finished && !s'.finished[s.ready[0]]
  {
    DispatchPreservesInv(s);
    assert At(Dispatch(s), s.ready[0], Running);
  }

  /** `thread_lock` by the running thread `t`: an unknown key creates a lock owned by
      `t` with no waiters; a free lock (which has no waiters) goes to `t`; a lock `t`
      already owns is refused with nothing changed; otherwise `t` joins the back of
      the lock's queue and gives up the processor. */
  lemma LockOutcomes(s: State, k: Key, allocFails: bool)
    requires Inv(s) && s.initialized && Runs(s)
    ensures var r := Lock(s, k, allocFails); var t := s.current.value;
      (k !in s.locks && !allocFails ==>
         r.code == 0 && r.next.locks == s.locks[k := LockState(Some(t), [])] && r.next.current == s.current) &&
      (k in s.locks && s.locks[k].owner.None? ==>
         r.code == 0 && r.next.locks == s.locks[k := LockState(Some(t), [])] && r.next.current == s.current) &&
      (k in s.locks && s.locks[k].owner == Some(t) ==>
         r.code == -1 && r.next == s) &&
      (k in s.locks && s.locks[k].owner.Some? && s.locks[k].owner != Some(t) ==>
         r.code == 0 && r.next.current.None? &&
         r.next.locks == s.locks[k := LockState(s.locks[k].owner, s.locks[k].blocked + [t])])
  {
  }

  /** `unlock_without_interrupts` by the owner hands the lock to the oldest waiter,
      which leaves the lock's queue and joins the back of the ready queue; with no
      waiters the lock becomes free. The caller keeps running. */
  lemma UnlockHandsOffToFront(s: State, k: Key)
    requires Inv(s) && Runs(s) && k in s.locks && s.locks[k].owner == s.current
    ensures var r := ReleaseLock(s, k); var b := s.locks[k].blocked;
      r.code == 0 && r.next.current == s.current &&
      (b == [] ==> r.next.locks == s.locks[k := LockState(None, [])] && r.next.ready == s.ready) &&
      (b != [] ==> r.next.locks == s.locks[k := LockState(Some(b[0]), b[1..])] &&
                   r.next.ready == s.ready + [b[0]] && b[0] !in b[1..])
  {
  }

  /** `thread_wait` releases the lock as `thread_unlock` would and then queues the
      caller at the back of the condition's queue (an empty queue when the condition
      is new); when the release fails it returns 0 and changes nothing. */
  lemma WaitReleasesThenQueues(s: State, lockKey: Key, condKey: Key)
    requires Inv(s) && s.initialized && Runs(s)
    ensures var r := Wait(s, lockKey, condKey, false); var u := ReleaseLock(s, lockKey);
      var t := s.current.value;
      var waiters := if condKey in s.conds then s.conds[condKey] else [];
      (u.code != 0 ==> r == Step(s, 0)) &&
      (u.code == 0 ==>
         r.code == 0 && r.next.current.None? &&
         r.next.locks == u.next.locks && r.next.ready == u.next.ready &&
         r.next.conds == s.conds[condKey := waiters + [t]] &&
         t !in waiters)
  {
    var u := ReleaseLock(s, lockKey);
    if u.code == 0 {
      var waiters := if condKey in s.conds then s.conds[condKey] else [];
      assert [] + [s.current.value] == [s.current.value];
      assert At(s, s.current.value, Running);
      assert !At(s, s.current.value, WaitingOn(condKey));
    }
  }

  /** `thread_signal` wakes exactly the oldest waiter, which joins the back of the
      ready queue; an unknown or empty condition is left alone. No lock changes. */
  lemma SignalWakesOldest(s: State, lockKey: Key, condKey: Key)
    requires s.initialized
    ensures var r := Signal(s, lockKey, condKey);
      r.code == 0 && r.next.locks == s.locks &&
      (condKey !in s.conds || s.conds[condKey] == [] ==> r.next == s) &&
      (condKey in s.conds && s.conds[condKey] != [] ==>
         r.next.ready == s.ready + [s.conds[condKey][0]] &&
         r.next.conds == s.conds[condKey := s.conds[condKey][1..]])
  {
  }

  /** `thread_broadcast` empties the condition's queue and appends all its waiters,
      oldest first, to the ready queue. No lock changes. */
  lemma BroadcastWakesAllInOrder(s: State, lockKey: Key, condKey: Key)
    requires s.initialized
    ensures var r := Broadcast(s, lockKey, condKey);
      r.code == 0 && r.next.locks == s.locks && r.next.current == s.current &&
      (condKey !in s.conds ==> r.next == s) &&
      (condKey in s.conds ==>
         r.next.ready == s.ready + s.conds[condKey] &&
         r.next.conds == s.conds[condKey := []])
  {
  }

  // ---------------------------------------------------------------------------
  // FIFO discipline over every transition

  /** A lock's queue changes only at its ends: the running thread is appended, or the
      front waiter leaves the queue by becoming the owner. */
  lemma LockQueueChangesOnlyAtEnds(s: State, op: Op, k: Key)
    requires Inv(s) && Enabled(s, op) && k in s.locks
    ensures k in Apply(s, op).locks
    ensures var b := s.locks[k].blocked; var l' := Apply(s, op).locks[k];
      l'.blocked == b ||
      (s.current.Some? && l'.blocked == b + [s.current.value] && l'.owner == s.locks[k].owner) ||
      (b != [] && l'.owner == Some(b[0]) && l'.blocked == b[1..])
  {
  }

  predicate Precedes(q: seq<Tid>, a: Tid, b: Tid)
  {
    exists i, j :: 0 <= i < j < |q| && q[i] == a && q[j] == b
  }

  /** FIFO hand-off: if `a` is ahead of `b` in a lock's queue, no transition lets `b`
      overtake `a`; either `a` is still ahead, or `a` has become the owner while `b`
      still waits. */
  lemma LockHandOffIsFifo(s: State, op: Op, k: Key, a: Tid, b: Tid)
    requires Inv(s) && Enabled(s, op) && k in s.locks
    requires Precedes(s.locks[k].blocked, a, b)
    ensures k in Apply(s, op).locks
    ensures var l' := Apply(s, op).locks[k];
      Precedes(l'.blocked, a, b) || (l'.owner == Some(a) && b in l'.blocked)
  {
    LockQueueChangesOnlyAtEnds(s, op, k);
    var q := s.locks[k].blocked;
    var l' := Apply(s, op).locks[k];
    var i, j :| 0 <= i < j < |q| && q[i] == a && q[j] == b;
    if l'.blocked == q {
      assert Precedes(l'.blocked, a, b);
    } else if s.current.Some? && l'.blocked == q + [s.current.value] {
      assert l'.blocked[i] == a && l'.blocked[j] == b;
    } else {
      assert l'.blocked == q[1..] && l'.owner == Some(q[0]);
      assert l'.blocked[j - 1] == b;
      if i > 0 {
        assert l'.blocked[i - 1] == a;
      }
    }
  }

  /** A condition's queue changes only at its ends: the running thread is appended,
      the front waiter moves to the back of the ready queue, or every waiter moves
      there in order. */
  lemma CondQueueChangesOnlyAtEnds(s: State, op: Op, c: Key)
    requires Inv(s) && Enabled(s, op) && c in s.conds
    ensures c in Apply(s, op).conds
    ensures var w := s.conds[c]; var s' := Apply(s, op);
      s'.conds[c] == w ||
      (s.current.Some? && s'.conds[c] == w + [s.current.value]) ||
      (w != [] && s'.conds[c] == w[1..] && s'.ready == s.ready + [w[0]]) ||
      (s'.conds[c] == [] && s'.ready == s.ready + w)
  {
  }

  /** The ready queue only grows at the back, except that the scheduler loop takes
      its front and runs it. */
  lemma ReadyQueueIsFifo(s: State, op: Op)
    requires Inv(s) && Enabled(s, op)
    ensures var s' := Apply(s, op);
      s.ready <= s'.ready ||
      (s.ready != [] && s'.ready == s.ready[1..] && s'.current == Some(s.ready[0]))
  {
  }
}
