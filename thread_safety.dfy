/** What the thread library keeps true: every live thread is in exactly one place
    (running, ready, blocked on one lock, or waiting on one condition), no queue holds
    a thread twice, and a lock's owner is never among its own waiters. Each transition
    preserves this, so every reachable state satisfies it. */
module ThreadSafety {
  import opened ThreadSpec

  /** The places a thread can be in. */
  datatype Place = Running | Ready | BlockedOn(lock: Key) | WaitingOn(cond: Key)

  predicate At(s: State, t: Tid, p: Place)
  {
    match p
    case Running => s.current == Some(t)
    case Ready => t in s.ready
    case BlockedOn(k) => k in s.locks && t in s.locks[k].blocked
    case WaitingOn(c) => c in s.conds && t in s.conds[c]
  }

  predicate Distinct(q: seq<Tid>)
  {
    forall i, j :: 0 <= i < j < |q| ==> q[i] != q[j]
  }

  /** Each live thread is in exactly one place, and only live threads are anywhere. */
  ghost predicate OnePlaceEach(s: State)
  {
    (forall t, p, q :: At(s, t, p) && At(s, t, q) ==> p == q) &&
    (forall t, p :: At(s, t, p) ==> t in s.finished) &&
    (forall t :: t in s.finished ==> exists p :: At(s, t, p))
  }

  predicate QueuesDistinct(s: State)
  {
    Distinct(s.ready) &&
    (forall k :: k in s.locks ==> Distinct(s.locks[k].blocked)) &&
    (forall c :: c in s.conds ==> Distinct(s.conds[c]))
  }

  /** A lock's owner is not one of its waiters, and a lock with waiters has an owner. */
  predicate LocksWellFormed(s: State)
  {
    forall k :: k in s.locks ==>
      (s.locks[k].owner.Some? ==> s.locks[k].owner.value !in s.locks[k].blocked) &&
      (s.locks[k].blocked != [] ==> s.locks[k].owner.Some?)
  }

  /** A finished thread is the current one, waiting for the scheduler to reclaim it. */
  predicate OnlyCurrentFinished(s: State)
  {
    forall t :: t in s.finished && s.finished[t] ==> s.current == Some(t)
  }

  /** Every live id was issued by the counter. */
  predicate IdsIssued(s: State)
  {
    forall t :: t in s.finished ==> t < s.nextId
  }

  predicate EmptyBeforeInit(s: State)
  {
    !s.initialized ==>
      s.finished == map[] && s.current == None && s.ready == [] && s.locks == map[] && s.conds == map[]
  }

  ghost predicate Inv(s: State)
  {
    OnePlaceEach(s) && QueuesDistinct(s) && LocksWellFormed(s) &&
    OnlyCurrentFinished(s) && IdsIssued(s) && EmptyBeforeInit(s)
  }

  // ---------------------------------------------------------------------------
  // Moving one thread

  /** If only thread `t` changes place (to `dest`, or out of existence when `dest`
      is None) and the live set follows, every thread still has exactly one place. */
  lemma MoveOne(s: State, s': State, t: Tid, dest: Option<Place>)
    requires OnePlaceEach(s)
    requires forall u, p :: u != t ==> (At(s', u, p) <==> At(s, u, p))
    requires forall p :: At(s', t, p) <==> dest == Some(p)
    requires forall u :: u != t ==> (u in s'.finished <==> u in s.finished)
    requires t in s'.finished <==> dest.Some?
    ensures OnePlaceEach(s')
  {
  }

  lemma DistinctAppend(q: seq<Tid>, x: Tid)
    requires Distinct(q) && x !in q
    ensures Distinct(q + [x])
  {
  }

  lemma DistinctTail(q: seq<Tid>)
    requires Distinct(q) && q != []
    ensures Distinct(q[1..]) && q[0] !in q[1..]
  {
  }

  // ---------------------------------------------------------------------------
  // Preservation, one transition at a time

  lemma InitialInv()
    ensures Inv(Initial)
  {
  }

  lemma CreatePreservesInv(s: State, allocFails: bool)
    requires Inv(s)
    ensures Inv(Create(s, allocFails).next)
  {
    var s' := Create(s, allocFails).next;
    if s.initialized && !allocFails {
      var t := s.nextId;
      assert t !in s.finished;
      forall p ensures !At(s, t, p) { }
      forall u, p | u != t ensures At(s', u, p) <==> At(s, u, p) { }
      forall p ensures At(s', t, p) <==> Some(Ready) == Some(p) {
        assert !At(s, t, p);
      }
      MoveOne(s, s', t, Some(Ready));
      assert !At(s, t, Ready);
      DistinctAppend(s.ready, t);
    }
  }

  /** Before initialisation no thread exists, so setting the `init` flag keeps the
      invariant. */
  lemma InitializingKeepsInv(s: State)
    requires Inv(s) && !s.initialized
    ensures s.ready == [] && s.current == None
    ensures Inv(s.(initialized := true))
  {
  }

  lemma LibInitPreservesInv(s: State, allocFails: bool)
    requires Inv(s)
    ensures Inv(LibInit(s, allocFails).next)
  {
    if !s.initialized {
      var s0 := s.(initialized := true);
      InitializingKeepsInv(s);
      CreatePreservesInv(s0, allocFails);
      var created := Create(s0, allocFails);
      if created.code == 0 {
        var s1 := created.next;
        var t := s.nextId;
        assert s1.ready == [t];
        var s' := s1.(current := Some(t), ready := []);
        assert s' == LibInit(s, allocFails).next;
        forall u, p | u != t ensures At(s', u, p) <==> At(s1, u, p) { }
        forall p ensures At(s', t, p) <==> Some(Running) == Some(p) { }
        MoveOne(s1, s', t, Some(Running));
      }
    }
  }

  lemma YieldPreservesInv(s: State)
    requires Inv(s) && CalledFromThread(s)
    ensures Inv(Yield(s).next)
  {
    if s.initialized {
      var s' := Yield(s).next;
      var t := s.current.value;
      assert At(s, t, Running);
      forall u, p | u != t ensures At(s', u, p) <==> At(s, u, p) { }
      forall p ensures At(s', t, p) <==> Some(Ready) == Some(p) {
        assert p != Ready && At(s', t, p) ==> At(s, t, p);
      }
      MoveOne(s, s', t, Some(Ready));
      assert !At(s, t, Ready);
      DistinctAppend(s.ready, t);
    }
  }

  lemma LockPreservesInv(s: State, k: Key, allocFails: bool)
    requires Inv(s) && CalledFromThread(s)
    ensures Inv(Lock(s, k, allocFails).next)
  {
    var r := Lock(s, k, allocFails);
    if r.code == 0 {
      var s' := r.next;
      var t := s.current.value;
      assert At(s, t, Running);
      if k in s.locks && s.locks[k].owner.Some? {
        // contended: the caller joins the back of the lock's queue
        var l := s.locks[k];
        assert l.owner.value != t;
        forall u, p | u != t ensures At(s', u, p) <==> At(s, u, p) { }
        forall p ensures At(s', t, p) <==> Some(BlockedOn(k)) == Some(p) {
          assert p != BlockedOn(k) && At(s', t, p) ==> At(s, t, p);
        }
        MoveOne(s, s', t, Some(BlockedOn(k)));
        assert !At(s, t, BlockedOn(k));
        DistinctAppend(l.blocked, t);
      } else {
        forall u, p ensures At(s', u, p) <==> At(s, u, p) { }
      }
    }
  }

  lemma ReleaseLockPreservesInv(s: State, k: Key)
    requires Inv(s) && Runs(s)
    ensures Inv(ReleaseLock(s, k).next)
  {
    var r := ReleaseLock(s, k);
    if r.code == 0 {
      var s' := r.next;
      var l := s.locks[k];
      if |l.blocked| > 0 {
        var w := l.blocked[0];
        DistinctTail(l.blocked);
        assert At(s, w, BlockedOn(k));
        forall u, p | u != w ensures At(s', u, p) <==> At(s, u, p) { }
        forall p ensures At(s', w, p) <==> Some(Ready) == Some(p) {
          assert p != Ready && At(s', w, p) ==> At(s, w, p);
        }
        MoveOne(s, s', w, Some(Ready));
        assert !At(s, w, Ready);
        DistinctAppend(s.ready, w);
      } else {
        forall u, p ensures At(s', u, p) <==> At(s, u, p) { }
      }
    }
  }

  lemma UnlockPreservesInv(s: State, k: Key)
    requires Inv(s) && CalledFromThread(s)
    ensures Inv(Unlock(s, k).next)
  {
    if s.initialized {
      ReleaseLockPreservesInv(s, k);
    }
  }

  lemma WaitPreservesInv(s: State, lockKey: Key, condKey: Key, allocFails: bool)
    requires Inv(s) && CalledFromThread(s)
    ensures Inv(Wait(s, lockKey, condKey, allocFails).next)
  {
    var r := Wait(s, lockKey, condKey, allocFails);
    if s.initialized && ReleaseLock(s, lockKey).code == 0 {
      var s1 := ReleaseLock(s, lockKey).next;
      ReleaseLockPreservesInv(s, lockKey);
      if r.code == 0 {
        var s' := r.next;
        var t := s.current.value;
        assert At(s1, t, Running);
        var waiters := if condKey in s1.conds then s1.conds[condKey] else [];
        assert waiters + [t] == s'.conds[condKey];
        assert s' == s1.(conds := s1.conds[condKey := waiters + [t]], current := None);
        forall u, p | u != t ensures At(s', u, p) <==> At(s1, u, p) { }
        forall p ensures At(s', t, p) <==> Some(WaitingOn(condKey)) == Some(p) {
          assert p != WaitingOn(condKey) && At(s', t, p) ==> At(s1, t, p);
        }
        MoveOne(s1, s', t, Some(WaitingOn(condKey)));
        assert !At(s1, t, WaitingOn(condKey));
        DistinctAppend(waiters, t);
      }
    }
  }

  lemma SignalPreservesInv(s: State, lockKey: Key, condKey: Key)
    requires Inv(s)
    ensures Inv(Signal(s, lockKey, condKey).next)
  {
    if s.initialized && condKey in s.conds && |s.conds[condKey]| > 0 {
      var s' := Signal(s, lockKey, condKey).next;
      var waiters := s.conds[condKey];
      var w := waiters[0];
      DistinctTail(waiters);
      assert At(s, w, WaitingOn(condKey));
      forall u, p | u != w ensures At(s', u, p) <==> At(s, u, p) { }
      forall p ensures At(s', w, p) <==> Some(Ready) == Some(p) {
        assert p != Ready && At(s', w, p) ==> At(s, w, p);
      }
      MoveOne(s, s', w, Some(Ready));
      assert !At(s, w, Ready);
      DistinctAppend(s.ready, w);
    }
  }

  lemma BroadcastPreservesInv(s: State, lockKey: Key, condKey: Key)
    requires Inv(s)
    ensures Inv(Broadcast(s, lockKey, condKey).next)
  {
    if s.initialized && condKey in s.conds {
      var s' := Broadcast(s, lockKey, condKey).next;
      var waiters := s.conds[condKey];
      // a woken waiter was waiting on this condition and is now ready; nobody else moves
      assert forall u, p :: At(s', u, p) <==>
          (At(s, u, p) && p != WaitingOn(condKey) && p != Ready) ||
          (p == Ready && (At(s, u, Ready) || At(s, u, WaitingOn(condKey))))
      by {
        forall u, p ensures At(s', u, p) <==>
          (At(s, u, p) && p != WaitingOn(condKey) && p != Ready) ||
          (p == Ready && (At(s, u, Ready) || At(s, u, WaitingOn(condKey))))
        {
        }
      }
      forall u, p, q | At(s', u, p) && At(s', u, q) ensures p == q { }
      forall u | u in s'.finished ensures exists p :: At(s', u, p) {
        var p :| At(s, u, p);
        if p == WaitingOn(condKey) { assert At(s', u, Ready); } else { assert At(s', u, p); }
      }
      assert Distinct(s.ready + waiters) by {
        forall i, j | 0 <= i < j < |s.ready + waiters|
          ensures (s.ready + waiters)[i] != (s.ready + waiters)[j]
        {
          if i < |s.ready| <= j {
            var x := (s.ready + waiters)[j];
            assert x in waiters;
            assert At(s, x, WaitingOn(condKey));
            assert !At(s, x, Ready);
            assert (s.ready + waiters)[i] in s.ready;
          }
        }
      }
    }
  }

  lemma FinishPreservesInv(s: State)
    requires Inv(s) && s.initialized && Runs(s)
    ensures Inv(Finish(s))
  {
    var s' := Finish(s);
    forall u, p ensures At(s', u, p) <==> At(s, u, p) { }
  }

  lemma ReclaimPreservesInv(s: State)
    requires Inv(s)
    ensures Inv(Reclaim(s))
  {
    var s' := Reclaim(s);
    if s' != s {
      var t := s.current.value;
      assert At(s, t, Running);
      forall u, p | u != t ensures At(s', u, p) <==> At(s, u, p) { }
      forall p ensures !At(s', t, p) {
        assert At(s', t, p) ==> At(s, t, p);
      }
      MoveOne(s, s', t, None);
    }
  }

  lemma DispatchPreservesInv(s: State)
    requires Inv(s) && SchedulerRuns(s) && s.ready != []
    ensures Inv(Dispatch(s))
  {
    ReclaimPreservesInv(s);
    var s1 := Reclaim(s);
    assert s1.current.None?;
    var s' := Dispatch(s);
    var t := s1.ready[0];
    DistinctTail(s1.ready);
    assert At(s1, t, Ready);
    forall u, p | u != t ensures At(s', u, p) <==> At(s1, u, p) { }
    forall p ensures At(s', t, p) <==> Some(Running) == Some(p) {
      assert p != Running && At(s', t, p) ==> At(s1, t, p);
    }
    MoveOne(s1, s', t, Some(Running));
    assert !s1.finished[t];
  }

  lemma ShutdownPreservesInv(s: State)
    requires Inv(s) && SchedulerRuns(s) && s.ready == []
    ensures Inv(Shutdown(s))
  {
    ReclaimPreservesInv(s);
  }

  lemma ApplyPreservesInv(s: State, op: Op)
    requires Inv(s) && Enabled(s, op)
    ensures Inv(Apply(s, op))
  {
    match op
    case LibInitOp(a) => LibInitPreservesInv(s, a);
    case CreateOp(a) => CreatePreservesInv(s, a);
    case YieldOp => YieldPreservesInv(s);
    case LockOp(k, a) => LockPreservesInv(s, k, a);
    case UnlockOp(k) => UnlockPreservesInv(s, k);
    case WaitOp(lk, c, a) => WaitPreservesInv(s, lk, c, a);
    case SignalOp(lk, c) => SignalPreservesInv(s, lk, c);
    case BroadcastOp(lk, c) => BroadcastPreservesInv(s, lk, c);
    case FinishOp => FinishPreservesInv(s);
    case DispatchOp => DispatchPreservesInv(s);
    case ShutdownOp => ShutdownPreservesInv(s);
  }

  lemma {:induction false} RunPreservesInv(s: State, ops: seq<Op>)
    requires Inv(s) && Run(s, ops).Some?
    ensures Inv(Run(s, ops).value)
    decreases |ops|
  {
    if ops != [] {
      ApplyPreservesInv(s, ops[0]);
      RunPreservesInv(Apply(s, ops[0]), ops[1..]);
    }
  }

  /** In every state the library can reach, each live thread is in exactly one place
      and no lock's owner waits on that lock. */
  lemma ReachableStatesAreSafe(s: State)
    requires Reachable(s)
    ensures Inv(s)
    ensures forall t :: t in s.finished ==> exists p :: At(s, t, p)
    ensures forall t, p, q :: At(s, t, p) && At(s, t, q) ==> p == q
    ensures forall k :: k in s.locks && s.locks[k].owner.Some? ==> !At(s, s.locks[k].owner.value, BlockedOn(k))
  {
    var ops :| Run(Initial, ops) == Some(s);
    InitialInv();
    RunPreservesInv(Initial, ops);
  }
}
