/**
 The worker pool of the daemons (daemon-util/work.c) as a transition system.

 One event-loop thread and up to `max` detached workers share a mutex, a condition
 variable, an eventfd, two lists and a reference count.  A step of the system is one
 critical section under the lock, or one action of the event loop between two of them.
 A step that would touch freed memory, or unlink a node that is on no list, is a `Fault`.
 */
module WorkPool {
  import opened Wrappers

  type WorkId = nat
  type ThreadId = nat

  /** enum work_state */
  datatype WorkState = Queued | Running | Done | Dropped

  /** Where a worker thread is. */
  datatype Thread =
    | Fresh               // created, has not taken the lock yet
    | Waiting             // asleep in pthread_cond_wait(), not signalled
    | Woken               // left the wait, has not taken the lock back yet
    | Busy(w: WorkId)     // runs w->fn without the lock
    | Freeing(w: WorkId)  // found its work DROPPED, about to free it without the lock
    | Looping             // freed a dropped work, about to take the lock again
    | Exited

  /** A work whose done callback runs; `mine` if the event loop frees it afterwards. */
  datatype Held = Held(w: WorkId, mine: bool)

  /** Where the event-loop thread is. */
  datatype Loop =
    | Idle                                     // no pool code on the stack
    | Dispatch                                 // on_done(), between two works
    | Finishing(w: WorkId, timedOut: bool)     // chose a work, has not detached it yet
    | Callback(held: Held, timedOut: bool)     // inside a done callback
    | Destroy(after: Option<Held>)             // destroy(), walking the active list
    | Closing(after: Option<Held>)             // destroy(), the pool is freed, s->lock not taken yet
    | Returning(held: Held)                    // a timeout callback destroyed the pool and returns
    | Gone

  datatype State = State(
    // struct shared
    max: nat,
    queued: seq<WorkId>,
    done: seq<WorkId>,
    nrWorkers: int,
    nrIdle: int,
    nrQueued: int,
    refs: int,
    closing: bool,
    eventfd: nat,
    sharedAlive: bool,
    threads: seq<Thread>,
    // struct dmn_work_pool
    active: seq<WorkId>,
    timers: set<WorkId>,
    dispatching: bool,
    freePending: bool,
    poolAlive: bool,
    loop: Loop,
    // struct dmn_work: the works in memory, with their state field
    works: map<WorkId, WorkState>,
    // what happened so far
    next: WorkId,                          // the number of accepted works
    freed: multiset<WorkId>,
    reported: multiset<WorkId>,            // done callbacks that were called
    cancelled: set<WorkId>,                // works cancelled by the user or by destroy()
    freeAt: Option<multiset<WorkId>>,      // `reported` when dmn_work_pool_free() was called
    spawnFailed: bool)                     // some pthread_create() failed

  datatype Outcome = Blocked | Fault | Next(s: State)

  /** The user's calls, the events of the loop, and the steps of the workers. */
  datatype Action =
    | Submit(timed: bool, spawnOk: bool, wake: Option<ThreadId>)
    | Cancel(w: WorkId)
    | PoolFree
    | TimerFires(w: WorkId)
    | EventReady
    | LoopStep
    | Lock(t: ThreadId)
    | FnReturns(t: ThreadId)
    | FreeDropped(t: ThreadId)
    | SpuriousWakeup(t: ThreadId)

  /** dmn_work_pool_new() */
  function Init(max: nat): (s: State)
  {
    State(max, [], [], 0, 0, 0, 1, false, 0, true, [],
          [], {}, false, false, true, Idle, map[],
          0, multiset{}, multiset{}, {}, None, false)
  }

  // ----- lists -----

  /** list_del(): `q` without `w`. */
  function Without(q: seq<WorkId>, w: WorkId): (r: seq<WorkId>)
  {
    if q == [] then []
    else if q[0] == w then Without(q[1..], w)
    else [q[0]] + Without(q[1..], w)
  }

  // ----- the condition variable -----

  /** The threads pthread_cond_signal() may pick: one that waits, none if no one does. */
  predicate MaySignal(ts: seq<Thread>, wake: Option<ThreadId>)
  {
    match wake
    case Some(t) => t < |ts| && ts[t].Waiting?
    case None => forall i :: 0 <= i < |ts| ==> !ts[i].Waiting?
  }

  function Signal(ts: seq<Thread>, wake: Option<ThreadId>): (r: seq<Thread>)
    requires wake.Some? ==> wake.value < |ts|
  {
    if wake.Some? then ts[wake.value := Woken] else ts
  }

  /** pthread_cond_broadcast() */
  function Broadcast(ts: seq<Thread>): (r: seq<Thread>)
    ensures |r| == |ts|
  {
    if ts == [] then []
    else [if ts[0].Waiting? then Woken else ts[0]] + Broadcast(ts[1..])
  }

  // ----- shared pieces of the steps -----

  /** work_free() */
  function Free(s: State, w: WorkId): (o: Outcome)
  {
    if w !in s.works then Fault
    else Next(s.(works := s.works - {w}, freed := s.freed + multiset{w}))
  }

  /** shared_unref_unlock() */
  function Unref(s: State): (o: Outcome)
  {
    if !s.sharedAlive then Fault
    else Next(s.(refs := s.refs - 1, sharedAlive := s.refs - 1 != 0))
  }

  /** detach(): the work leaves the lists and loses its timer; a running one is handed to its worker. */
  function Detach(s: State, w: WorkId): (o: Outcome)
  {
    if !s.poolAlive || !s.sharedAlive || w !in s.works || w !in s.active then Fault
    else
      var u := s.(active := Without(s.active, w), timers := s.timers - {w});
      if s.works[w] == Running then
        Next(u.(works := u.works[w := Dropped]))
      else if w !in s.queued && w !in s.done then Fault
      else
        Next(u.(queued := Without(s.queued, w), done := Without(s.done, w),
                nrQueued := if s.works[w] == Queued then s.nrQueued - 1 else s.nrQueued))
  }

  /** work_free(detach(w)): no callback runs. */
  function Drop(s: State, w: WorkId): (o: Outcome)
  {
    var running := w in s.works && s.works[w] == Running;
    match Detach(s, w)
    case Next(u) =>
      var v := u.(cancelled := u.cancelled + {w});
      if running then Next(v) else Free(v, w)
    case bad => bad
  }

  /** detach() and the call of the done callback in finish(). */
  function Finish(s: State, w: WorkId, timedOut: bool): (o: Outcome)
  {
    var running := w in s.works && s.works[w] == Running;
    match Detach(s, w)
    case Next(u) =>
      Next(u.(loop := Callback(Held(w, !running), timedOut), reported := u.reported + multiset{w}))
    case bad => bad
  }

  /** The top of the loop of worker(), with the lock held, up to the next point without it. */
  function LoopTop(s: State, t: ThreadId): (o: Outcome)
    requires t < |s.threads|
  {
    if !s.closing && s.queued == [] then
      Next(s.(nrIdle := s.nrIdle + 1, threads := s.threads[t := Waiting]))
    else if s.closing then
      Unref(s.(threads := s.threads[t := Exited]))
    else
      var w := s.queued[0];
      if w !in s.works then Fault
      else
        Next(s.(queued := s.queued[1..], nrQueued := s.nrQueued - 1,
                works := s.works[w := Running], threads := s.threads[t := Busy(w)]))
  }

  // ----- the workers -----

  /** A worker takes the lock to look for work. */
  function DoLock(s: State, t: ThreadId): (o: Outcome)
  {
    if t >= |s.threads| then Blocked
    else if !s.threads[t].Fresh? && !s.threads[t].Woken? && !s.threads[t].Looping? then Blocked
    else if !s.sharedAlive then Fault
    else if s.threads[t].Woken? then LoopTop(s.(nrIdle := s.nrIdle - 1), t)
    else LoopTop(s, t)
  }

  /** w->fn() returned: the work is done, unless it was dropped meanwhile. */
  function DoFnReturns(s: State, t: ThreadId): (o: Outcome)
  {
    if t >= |s.threads| || !s.threads[t].Busy? then Blocked
    else
      var w := s.threads[t].w;
      if !s.sharedAlive || w !in s.works then Fault
      else if s.works[w] == Dropped then Next(s.(threads := s.threads[t := Freeing(w)]))
      else LoopTop(s.(works := s.works[w := Done], done := s.done + [w], eventfd := s.eventfd + 1), t)
  }

  function DoFreeDropped(s: State, t: ThreadId): (o: Outcome)
  {
    if t >= |s.threads| || !s.threads[t].Freeing? then Blocked
    else Free(s.(threads := s.threads[t := Looping]), s.threads[t].w)
  }

  function DoSpuriousWakeup(s: State, t: ThreadId): (o: Outcome)
  {
    if t >= |s.threads| || !s.threads[t].Waiting? then Blocked
    else Next(s.(threads := s.threads[t := Woken]))
  }

  // ----- the user -----

  /** Code of the user runs: no pool code is on the stack, or a done callback is. */
  predicate UserRuns(s: State)
  {
    s.loop.Idle? || s.loop.Callback?
  }

  /** The queue would outnumber the idle workers, and one more worker is allowed. */
  predicate WantsWorker(s: State)
  {
    s.nrQueued + 1 > s.nrIdle && s.nrWorkers < s.max
  }

  /** The work `s.next` joins the queue and start_worker() is called if needed. */
  function Enqueue(s: State, spawnOk: bool): (u: State)
  {
    var started := WantsWorker(s) && spawnOk;
    s.(queued := s.queued + [s.next], nrQueued := s.nrQueued + 1, works := s.works[s.next := Queued],
       threads := if started then s.threads + [Fresh] else s.threads,
       nrWorkers := if started then s.nrWorkers + 1 else s.nrWorkers,
       refs := if started then s.refs + 1 else s.refs,
       spawnFailed := s.spawnFailed || (WantsWorker(s) && !spawnOk))
  }

  /** pthread_cond_signal(), then the work joins the active list. */
  function Publish(s: State, timed: bool, wake: Option<ThreadId>): (u: State)
    requires wake.Some? ==> wake.value < |s.threads|
  {
    s.(threads := Signal(s.threads, wake), active := s.active + [s.next],
       timers := if timed then s.timers + {s.next} else s.timers, next := s.next + 1)
  }

  /** dmn_work_submit(): `spawnOk` is what pthread_create() would return, `wake` what the signal picks. */
  ghost function DoSubmit(s: State, timed: bool, spawnOk: bool, wake: Option<ThreadId>): (o: Outcome)
  {
    if !UserRuns(s) then Blocked
    else if !s.poolAlive || !s.sharedAlive then Fault
    else if WantsWorker(s) && !spawnOk && s.nrWorkers == 0 then
      Next(s.(spawnFailed := true))  // the work is unlinked and freed again, it is not accepted
    else
      var u := Enqueue(s, spawnOk);
      if !MaySignal(u.threads, wake) then Blocked else Next(Publish(u, timed, wake))
  }

  /** dmn_work_cancel(): a work stays valid for the user until it is cancelled or its callback is called. */
  function DoCancel(s: State, w: WorkId): (o: Outcome)
  {
    if !UserRuns(s) || w >= s.next || w in s.cancelled || w in s.reported then Blocked
    else Drop(s, w)
  }

  /** dmn_work_pool_free(), which on_done() defers to its end. */
  function DoPoolFree(s: State): (o: Outcome)
  {
    if !UserRuns(s) then Blocked
    else if !s.poolAlive then Fault
    else
      var u := if s.freeAt.None? then s.(freeAt := Some(s.reported)) else s;
      if s.dispatching then Next(u.(freePending := true))
      else if s.loop.Callback? then Next(u.(loop := Destroy(Some(s.loop.held))))
      else Next(u.(loop := Destroy(None)))
  }

  // ----- the event loop -----

  /** The first half of on_timeout(): a DONE work is left to on_done(). */
  function DoTimerFires(s: State, w: WorkId): (o: Outcome)
  {
    if !s.loop.Idle? || w !in s.timers then Blocked
    else if w !in s.works || !s.poolAlive || !s.sharedAlive then Fault
    else if s.works[w] == Done then Next(s.(timers := s.timers - {w}))
    else Next(s.(loop := Finishing(w, true), timers := s.timers - {w}))
  }

  /** The eventfd is readable: on_done() starts by resetting its counter. */
  function DoEventReady(s: State): (o: Outcome)
  {
    if !s.loop.Idle? || s.eventfd == 0 then Blocked
    else if !s.poolAlive || !s.sharedAlive then Fault
    else Next(s.(eventfd := 0, dispatching := true, loop := Dispatch))
  }

  /** The next step of the pool code that the event loop is in. */
  function DoLoopStep(s: State): (o: Outcome)
  {
    match s.loop
    case Idle => Blocked
    case Gone => Blocked
    case Dispatch =>
      if !s.poolAlive || !s.sharedAlive then Fault
      else if s.freePending then Next(s.(dispatching := false, loop := Destroy(None)))
      else if s.done == [] then Next(s.(dispatching := false, loop := Idle))
      else Next(s.(loop := Finishing(s.done[0], false)))
    case Finishing(w, timedOut) => Finish(s, w, timedOut)
    case Callback(held, _) =>
      var u := s.(loop := if s.dispatching then Dispatch else Idle);
      if held.mine then Free(u, held.w) else Next(u)
    case Destroy(after) =>
      if !s.poolAlive then Fault
      else if s.active != [] then Drop(s, s.active[0])
      else Next(s.(poolAlive := false, loop := Closing(after)))
    case Closing(after) =>
      Unref(s.(closing := true, threads := Broadcast(s.threads),
               loop := if after.Some? then Returning(after.value) else Gone))
    case Returning(held) =>
      var u := s.(loop := Gone);
      if held.mine then Free(u, held.w) else Next(u)
  }

  ghost function Step(s: State, a: Action): (o: Outcome)
  {
    match a
    case Submit(timed, spawnOk, wake) => DoSubmit(s, timed, spawnOk, wake)
    case Cancel(w) => DoCancel(s, w)
    case PoolFree => DoPoolFree(s)
    case TimerFires(w) => DoTimerFires(s, w)
    case EventReady => DoEventReady(s)
    case LoopStep => DoLoopStep(s)
    case Lock(t) => DoLock(s, t)
    case FnReturns(t) => DoFnReturns(s, t)
    case FreeDropped(t) => DoFreeDropped(s, t)
    case SpuriousWakeup(t) => DoSpuriousWakeup(s, t)
  }
}
