/** The bookkeeping of the cooperative thread library (thread.cc) as values.
    The library's globals become one `State`; every public call becomes a function
    from the old state to the new state and the `int` the C function returns.
    A switch into the scheduler's context (`swapcontext(..., scheduler)`) is
    modelled as `current := None`: the suspended thread now lives only in the
    queue it was pushed onto. */
module ThreadSpec {

  /** Thread identities (`Thread::id`) and the caller-chosen lock and condition keys. */
  type Tid = nat
  type Key = nat

  datatype Option<T> = None | Some(value: T)

  /** A lock record: its owner (None when the lock is free) and the FIFO queue of
      threads blocked on it. */
  datatype LockState = LockState(owner: Option<Tid>, blocked: seq<Tid>)

  /** The library's globals. `finished` maps every thread record that has not been
      reclaimed to its `finished` flag, so its keys are the live threads. */
  datatype State = State(
    initialized: bool,
    nextId: nat,
    current: Option<Tid>,
    ready: seq<Tid>,
    locks: map<Key, LockState>,
    conds: map<Key, seq<Tid>>,
    finished: map<Tid, bool>)

  /** The state after a call and the value the call returns (0 or -1). */
  datatype Step = Step(next: State, code: int)

  /** The globals as the program starts, before `thread_libinit`. */
  const Initial: State := State(false, 0, None, [], map[], map[], map[])

  /** A thread is executing: `current` names a live thread that has not finished. */
  predicate Runs(s: State)
  {
    s.current.Some? && s.current.value in s.finished && !s.finished[s.current.value]
  }

  /** Where public calls come from: before initialisation from the program's own
      context, afterwards only from the running thread. */
  predicate CalledFromThread(s: State)
  {
    s.initialized ==> Runs(s)
  }

  /** The scheduler's context has control: no thread is executing, or the last one
      has just finished and waits to be reclaimed. */
  predicate SchedulerRuns(s: State)
  {
    s.initialized &&
    (s.current.None? || (s.current.value in s.finished && s.finished[s.current.value]))
  }

  /** `thread_create`: the new thread gets the counter value as its id, is not
      finished, and joins the back of the ready queue. */
  function Create(s: State, allocFails: bool): (r: Step)
    ensures r.code == -1 <==> !s.initialized || allocFails
    ensures r.code == -1 ==> r.next == s
  {
    if !s.initialized || allocFails then Step(s, -1)
    else
      Step(s.(nextId := s.nextId + 1,
              ready := s.ready + [s.nextId],
              finished := s.finished[s.nextId := false]), 0)
  }

  /** `thread_libinit` up to the first switch: mark the library initialised, create
      the first thread and make the front of the ready queue current. The scheduler
      loop that follows is `Dispatch` and `Shutdown`. */
  function LibInit(s: State, allocFails: bool): (r: Step)
    ensures r.code == -1 <==> s.initialized || allocFails
    ensures s.initialized ==> r.next == s
    ensures r.next.initialized
  {
    if s.initialized then Step(s, -1)
    else
      var created := Create(s.(initialized := true), allocFails);
      if created.code != 0 then Step(created.next, -1)
      else
        var first := created.next.ready[0];
        Step(created.next.(current := Some(first), ready := created.next.ready[1..]), 0)
  }

  /** `thread_yield`: the caller goes to the back of the ready queue and gives up
      the processor. */
  function Yield(s: State): (r: Step)
    requires CalledFromThread(s)
    ensures r.code == -1 <==> !s.initialized
    ensures r.code == -1 ==> r.next == s
  {
    if !s.initialized then Step(s, -1)
    else Step(s.(ready := s.ready + [s.current.value], current := None), 0)
  }

  /** `thread_lock`: create the lock owned by the caller, take it when free, refuse
      a lock the caller already owns, and otherwise queue up behind its owner. */
  function Lock(s: State, k: Key, allocFails: bool): (r: Step)
    requires CalledFromThread(s)
    ensures r.code == -1 <==>
      !s.initialized || (k !in s.locks && allocFails) || (k in s.locks && s.locks[k].owner == s.current)
    ensures r.code == -1 ==> r.next == s
    ensures r.next.ready == s.ready && r.next.conds == s.conds && r.next.finished == s.finished
    ensures r.next.nextId == s.nextId && r.next.initialized == s.initialized
  {
    if !s.initialized then Step(s, -1)
    else
      var t := s.current.value;
      if k !in s.locks then
        if allocFails then Step(s, -1)
        else Step(s.(locks := s.locks[k := LockState(Some(t), [])]), 0)
      else
        var l := s.locks[k];
        if l.owner.None? then Step(s.(locks := s.locks[k := l.(owner := Some(t))]), 0)
        else if l.owner.value == t then Step(s, -1)
        else Step(s.(locks := s.locks[k := l.(blocked := l.blocked + [t])], current := None), 0)
  }

  /** `unlock_without_interrupts`: only the owner may release; the front waiter, if
      any, is handed the lock and made ready, otherwise the lock becomes free. */
  function ReleaseLock(s: State, k: Key): (r: Step)
    requires Runs(s)
    ensures r.code == -1 <==> k !in s.locks || s.locks[k].owner != s.current
    ensures r.code == -1 ==> r.next == s
    ensures r.next == s.(locks := r.next.locks, ready := r.next.ready)
    ensures r.next.locks.Keys == s.locks.Keys
  {
    if k !in s.locks then Step(s, -1)
    else
      var l := s.locks[k];
      if l.owner.None? then Step(s, -1)
      else if l.owner.value != s.current.value then Step(s, -1)
      else if |l.blocked| > 0 then
        var w := l.blocked[0];
        Step(s.(locks := s.locks[k := LockState(Some(w), l.blocked[1..])], ready := s.ready + [w]), 0)
      else Step(s.(locks := s.locks[k := LockState(None, l.blocked)]), 0)
  }

  /** `thread_unlock`. */
  function Unlock(s: State, k: Key): (r: Step)
    requires CalledFromThread(s)
    ensures r.code == -1 <==> !s.initialized || k !in s.locks || s.locks[k].owner != s.current
    ensures r.code == -1 ==> r.next == s
  {
    if !s.initialized then Step(s, -1) else ReleaseLock(s, k)
  }

  /** `thread_wait` up to its switch: release the lock, then join the back of the
      condition's queue (created on first use) and give up the processor. A failed
      release returns 0 and changes nothing. The re-acquisition after wake-up is an
      ordinary `Lock` call made once the thread is dispatched again. */
  function Wait(s: State, lockKey: Key, condKey: Key, allocFails: bool): (r: Step)
    requires CalledFromThread(s)
    ensures r.code == -1 <==>
      !s.initialized || (ReleaseLock(s, lockKey).code == 0 && condKey !in s.conds && allocFails)
    ensures !s.initialized || ReleaseLock(s, lockKey).code != 0 ==> r.next == s
    ensures s.initialized && ReleaseLock(s, lockKey).code != 0 ==> r == Step(s, 0)
    ensures s.initialized && ReleaseLock(s, lockKey).code == 0 && condKey !in s.conds && allocFails ==>
      r == Step(ReleaseLock(s, lockKey).next, -1)
    ensures r.next.finished == s.finished
    ensures r.next.nextId == s.nextId && r.next.initialized == s.initialized
  {
    if !s.initialized then Step(s, -1)
    else
      var released := ReleaseLock(s, lockKey);
      if released.code != 0 then Step(s, 0)
      else
        var s1 := released.next;
        var t := s.current.value;
        if condKey !in s1.conds then
          if allocFails then Step(s1, -1)
          else Step(s1.(conds := s1.conds[condKey := [t]], current := None), 0)
        else Step(s1.(conds := s1.conds[condKey := s1.conds[condKey] + [t]], current := None), 0)
  }

  /** `thread_signal`: wake the oldest waiter of the condition, if there is one. */
  function Signal(s: State, lockKey: Key, condKey: Key): (r: Step)
    ensures r.code == -1 <==> !s.initialized
    ensures r.next.locks == s.locks && r.next.current == s.current && r.next.finished == s.finished
    ensures r.next.nextId == s.nextId && r.next.initialized == s.initialized
  {
    if !s.initialized then Step(s, -1)
    else if condKey in s.conds && |s.conds[condKey]| > 0 then
      var waiters := s.conds[condKey];
      Step(s.(conds := s.conds[condKey := waiters[1..]], ready := s.ready + [waiters[0]]), 0)
    else Step(s, 0)
  }

  /** `thread_broadcast`: wake every waiter of the condition, oldest first. */
  function Broadcast(s: State, lockKey: Key, condKey: Key): (r: Step)
    ensures r.code == -1 <==> !s.initialized
    ensures r.next.locks == s.locks && r.next.current == s.current && r.next.finished == s.finished
    ensures r.next.nextId == s.nextId && r.next.initialized == s.initialized
  {
    if !s.initialized then Step(s, -1)
    else if condKey in s.conds then
      Step(s.(conds := s.conds[condKey := []], ready := s.ready + s.conds[condKey]), 0)
    else Step(s, 0)
  }

  /** The end of `execute_func`: the thread's function has returned, so the thread
      is marked finished and control passes back to the scheduler. */
  function Finish(s: State): (s': State)
    requires s.initialized && Runs(s)
    ensures SchedulerRuns(s')
    ensures s'.current == s.current && s'.finished.Keys == s.finished.Keys
    ensures s'.finished[s.current.value]
    ensures forall t :: t in s.finished && t != s.current.value ==> s'.finished[t] == s.finished[t]
    ensures s'.ready == s.ready && s'.locks == s.locks && s'.conds == s.conds && s'.nextId == s.nextId
  {
    s.(finished := s.finished[s.current.value := true])
  }

  /** `delete_current_thread`, done by the scheduler only for a finished thread. */
  function Reclaim(s: State): (s': State)
    ensures s.current.Some? && s.current.value in s.finished && s.finished[s.current.value] ==>
      s'.current.None? && s'.finished == s.finished - {s.current.value}
    ensures !(s.current.Some? && s.current.value in s.finished && s.finished[s.current.value]) ==>
      s' == s
    ensures s'.ready == s.ready && s'.locks == s.locks && s'.conds == s.conds && s'.nextId == s.nextId
  {
    if s.current.Some? && s.current.value in s.finished && s.finished[s.current.value] then
      s.(finished := s.finished - {s.current.value}, current := None)
    else s
  }

  /** One pass of the scheduler loop while the ready queue is non-empty: reclaim
      the previous thread if it has finished, then run the front of the ready queue. */
  function Dispatch(s: State): (s': State)
    requires SchedulerRuns(s) && s.ready != []
    ensures s'.current == Some(s.ready[0]) && s'.ready == s.ready[1..]
    ensures s'.locks == s.locks && s'.conds == s.conds && s'.nextId == s.nextId && s'.initialized
  {
    var s1 := Reclaim(s);
    s1.(current := Some(s1.ready[0]), ready := s1.ready[1..])
  }

  /** The end of the scheduler loop, once the ready queue is empty: reclaim the
      last thread, after which the process exits. */
  function Shutdown(s: State): (s': State)
    requires SchedulerRuns(s) && s.ready == []
    ensures s'.current.None?
    ensures s'.finished == (if s.current.Some? then s.finished - {s.current.value} else s.finished)
    ensures s'.ready == s.ready && s'.locks == s.locks && s'.conds == s.conds && s'.nextId == s.nextId && s'.initialized
  {
    Reclaim(s)
  }

  /** Every transition of the library, as one alphabet for traces. */
  datatype Op =
    | LibInitOp(allocFails: bool)
    | CreateOp(allocFails: bool)
    | YieldOp
    | LockOp(key: Key, allocFails: bool)
    | UnlockOp(key: Key)
    | WaitOp(lockKey: Key, condKey: Key, allocFails: bool)
    | SignalOp(lockKey: Key, condKey: Key)
    | BroadcastOp(lockKey: Key, condKey: Key)
    | FinishOp
    | DispatchOp
    | ShutdownOp

  /** Who may take each transition: the scheduler loop runs only in the
      scheduler's context, a thread finishes only while it runs, and public calls
      come from the running thread once the library is initialised. */
  predicate Enabled(s: State, op: Op)
  {
    match op
    case FinishOp => s.initialized && Runs(s)
    case DispatchOp => SchedulerRuns(s) && s.ready != []
    case ShutdownOp => SchedulerRuns(s) && s.ready == []
    case _ => CalledFromThread(s)
  }

  function Apply(s: State, op: Op): State
    requires Enabled(s, op)
  {
    match op
    case LibInitOp(a) => LibInit(s, a).next
    case CreateOp(a) => Create(s, a).next
    case YieldOp => Yield(s).next
    case LockOp(k, a) => Lock(s, k, a).next
    case UnlockOp(k) => Unlock(s, k).next
    case WaitOp(lk, c, a) => Wait(s, lk, c, a).next
    case SignalOp(lk, c) => Signal(s, lk, c).next
    case BroadcastOp(lk, c) => Broadcast(s, lk, c).next
    case FinishOp => Finish(s)
    case DispatchOp => Dispatch(s)
    case ShutdownOp => Shutdown(s)
  }

  /** The state after a sequence of transitions, or None when one of them is not
      enabled in its turn. */
  function Run(s: State, ops: seq<Op>): Option<State>
    decreases |ops|
  {
    if ops == [] then Some(s)
    else if Enabled(s, ops[0]) then Run(Apply(s, ops[0]), ops[1..])
    else None
  }

  ghost predicate Reachable(s: State)
  {
    exists ops :: Run(Initial, ops) == Some(s)
  }
}
