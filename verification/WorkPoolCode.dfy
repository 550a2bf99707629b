/**
 The critical sections of daemon-util/work.c as they are written, on mutable fields.  Each
 method does in place what the step of `WorkPool` with the same name says.
 */
module WorkPoolCode {
  import opened Wrappers
  import opened WorkPool

  class Pool {
    // struct shared
    const max: nat
    var queued: seq<WorkId>
    var done: seq<WorkId>
    var nrWorkers: int
    var nrIdle: int
    var nrQueued: int
    var refs: int
    var closing: bool
    var eventfd: nat
    var sharedAlive: bool
    var threads: seq<Thread>
    // struct dmn_work_pool
    var active: seq<WorkId>
    var timers: set<WorkId>
    // struct dmn_work
    var works: map<WorkId, WorkState>
    var next: WorkId
    var spawnFailed: bool
    // struct dmn_work_pool, and where the event loop is
    var dispatching: bool
    var freePending: bool
    var poolAlive: bool
    var loop: Loop
    // what happened so far
    ghost var freed: multiset<WorkId>
    ghost var reported: multiset<WorkId>
    ghost var cancelled: set<WorkId>
    ghost var freeAt: Option<multiset<WorkId>>

    /** The state of the transition system. */
    ghost function View(): (s: State)
      reads this
    {
      State(max, queued, done, nrWorkers, nrIdle, nrQueued, refs, closing, eventfd, sharedAlive, threads,
            active, timers, dispatching, freePending, poolAlive, loop, works, next,
            freed, reported, cancelled, freeAt, spawnFailed)
    }

    constructor (maxWorkers: nat)
      ensures View() == Init(maxWorkers)
    {
      max := maxWorkers;
      queued, done, threads, active, timers, works := [], [], [], [], {}, map[];
      nrWorkers, nrIdle, nrQueued, eventfd, next := 0, 0, 0, 0, 0;
      refs, closing, sharedAlive, spawnFailed := 1, false, true, false;
      dispatching, freePending, poolAlive, loop := false, false, true, Idle;
      freed, reported, cancelled, freeAt := multiset{}, multiset{}, {}, None;
    }

    // ----- memory -----

    /** work_free() */
    method FreeWork(w: WorkId)
      requires w in works
      modifies this
      ensures Next(View()) == WorkPool.Free(old(View()), w)
    {
      works := works - {w};
      freed := freed + multiset{w};
    }

    method Unref()
      requires sharedAlive
      modifies this
      ensures Next(View()) == WorkPool.Unref(old(View()))
    {
      refs := refs - 1;
      var last := refs == 0;
      if last {
        sharedAlive := false;
      }
    }

    /** list_del() */
    static method ListDel(q: seq<WorkId>, w: WorkId) returns (r: seq<WorkId>)
      ensures r == Without(q, w)
    {
      r := [];
      var i := |q|;
      while i > 0
        invariant 0 <= i <= |q|
        invariant r == Without(q[i..], w)
      {
        i := i - 1;
        assert q[i..][1..] == q[i + 1..];
        if q[i] != w {
          r := [q[i]] + r;
        }
      }
      assert q[0..] == q;
    }

    /** detach() before its critical section. */
    method Unlink(w: WorkId)
      modifies this
      ensures View() == old(View()).(active := Without(old(active), w), timers := old(timers) - {w})
    {
      var a := ListDel(active, w);
      active := a;
      timers := timers - {w};
    }

    /** The critical section of detach(). */
    method TakeAway(w: WorkId) returns (mine: bool)
      requires w in works
      modifies this
      ensures mine <==> old(works)[w] != Running
      ensures !mine ==> View() == old(View()).(works := old(works)[w := Dropped])
      ensures mine ==> View() == old(View()).(queued := Without(old(queued), w), done := Without(old(done), w),
                                              nrQueued := old(nrQueued) - (if old(works)[w] == Queued then 1 else 0))
    {
      var running := works[w] == Running;
      if running {
        works := works[w := Dropped];
        return false;
      }
      LeaveLists(w);
      if works[w] == Queued {
        nrQueued := nrQueued - 1;
      }
      mine := true;
    }

    method LeaveLists(w: WorkId)
      modifies this
      ensures View() == old(View()).(queued := Without(old(queued), w), done := Without(old(done), w))
    {
      var q := ListDel(queued, w);
      var d := ListDel(done, w);
      queued := q;
      done := d;
    }

    method Detach(w: WorkId) returns (mine: bool)
      requires WorkPool.Detach(View(), w).Next?
      modifies this
      ensures Next(View()) == WorkPool.Detach(old(View()), w)
      ensures mine <==> old(works)[w] != Running
    {
      hide Without;
      Unlink(w);
      mine := TakeAway(w);
    }

    // ----- the workers -----

    /** list_pop() */
    method Pop() returns (w: WorkId)
      requires queued != []
      modifies this
      ensures w == old(queued)[0] && View() == old(View()).(queued := old(queued)[1..], nrQueued := old(nrQueued) - 1)
    {
      w := queued[0];
      queued := queued[1..];
      nrQueued := nrQueued - 1;
    }

    /** The loop of worker() from its top, with the lock held, until the lock is released. */
    method LoopTop(t: ThreadId)
      requires t < |threads| && WorkPool.LoopTop(View(), t).Next?
      modifies this
      ensures Next(View()) == WorkPool.LoopTop(old(View()), t)
    {
      if !closing && queued == [] {
        nrIdle := nrIdle + 1;
        threads := threads[t := Waiting];
        return;
      }
      if closing {
        threads := threads[t := Exited];
        Unref();
        return;
      }
      var w := Pop();
      works := works[w := Running];
      threads := threads[t := Busy(w)];
    }

    /** The work is DONE and announced. */
    method Complete(w: WorkId)
      modifies this
      ensures View() == old(View()).(works := old(works)[w := Done], done := old(done) + [w],
          eventfd := old(eventfd) + 1)
    {
      Append(w);
      eventfd := eventfd + 1;
    }

    method Append(w: WorkId)
      modifies this
      ensures View() == old(View()).(works := old(works)[w := Done], done := old(done) + [w])
    {
      works := works[w := Done];
      done := done + [w];
    }

    /** The lock is taken again after w->fn(). */
    method FnReturns(t: ThreadId)
      requires DoFnReturns(View(), t).Next?
      modifies this
      ensures Next(View()) == DoFnReturns(old(View()), t)
    {
      hide WorkPool.LoopTop;
      var w := threads[t].w;
      if works[w] == Dropped {
        threads := threads[t := Freeing(w)];
        return;
      }
      Complete(w);
      LoopTop(t);
    }

    /** A worker that was created, woken or freed a work takes the lock. */
    method Lock(t: ThreadId)
      requires DoLock(View(), t).Next?
      modifies this
      ensures Next(View()) == DoLock(old(View()), t)
    {
      hide WorkPool.LoopTop;
      if threads[t].Woken? {
        nrIdle := nrIdle - 1;
      }
      LoopTop(t);
    }

    /** A worker frees its dropped work without the lock. */
    method FreeDropped(t: ThreadId)
      requires DoFreeDropped(View(), t).Next?
      modifies this
      ensures Next(View()) == DoFreeDropped(old(View()), t)
    {
      var w := threads[t].w;
      threads := threads[t := Looping];
      FreeWork(w);
    }

    /** A wait that ends by itself. */
    method SpuriousWakeup(t: ThreadId)
      requires DoSpuriousWakeup(View(), t).Next?
      modifies this
      ensures Next(View()) == DoSpuriousWakeup(old(View()), t)
    {
      threads := threads[t := Woken];
    }

    // ----- submitting -----

    method StartWorker(ok: bool) returns (err: bool)
      modifies this
      ensures err == !ok
      ensures ok ==> View() == old(View()).(threads := old(threads) + [Fresh], refs := old(refs) + 1,
          nrWorkers := old(nrWorkers) + 1)
      ensures !ok ==> View() == old(View()).(spawnFailed := true)
    {
      if !ok {
        spawnFailed := true;
        return true;
      }
      threads := threads + [Fresh];
      CountWorker();
      err := false;
    }

    method CountWorker()
      modifies this
      ensures View() == old(View()).(refs := old(refs) + 1, nrWorkers := old(nrWorkers) + 1)
    {
      refs := refs + 1;
      nrWorkers := nrWorkers + 1;
    }

    /** list_add_tail() */
    method Link()
      modifies this
      ensures View() == old(View()).(works := old(works)[next := Queued], queued := old(queued) + [next],
          nrQueued := old(nrQueued) + 1)
    {
      works := works[next := Queued];
      Push(next);
    }

    method Push(w: WorkId)
      modifies this
      ensures View() == old(View()).(queued := old(queued) + [w], nrQueued := old(nrQueued) + 1)
    {
      queued := queued + [w];
      nrQueued := nrQueued + 1;
    }

    /** Under the lock: the work is queued and a worker is started if needed. */
    method Enqueue(spawnOk: bool) returns (err: bool)
      modifies this
      ensures View() == WorkPool.Enqueue(old(View()), spawnOk)
      ensures err <==> WantsWorker(old(View())) && !spawnOk
    {
      ghost var s := View();
      EnqueueIs(s, spawnOk);
      hide WorkPool.Enqueue;
      err := false;
      Link();
      WantsLinked(s, View());
      if nrQueued > nrIdle && nrWorkers < max {
        hide WantsWorker;
        err := StartWorker(spawnOk);
      }
    }

    /** pthread_cond_signal() wakes the thread it picks. */
    method WakeOne(wake: Option<ThreadId>)
      requires wake.Some? ==> wake.value < |threads|
      modifies this
      ensures View() == old(View()).(threads := Signal(old(threads), wake))
    {
      if wake.Some? {
        threads := threads[wake.value := Woken];
      }
    }

    /** The work joins the active list, with its timer. */
    method Activate(timed: bool)
      modifies this
      ensures View() == old(View()).(active := old(active) + [old(next)],
                                     timers := if timed then old(timers) + {old(next)} else old(timers),
                                       next := old(next) + 1)
    {
      Track(next, timed);
      next := next + 1;
    }

    method Track(w: WorkId, timed: bool)
      modifies this
      ensures View() == old(View()).(active := old(active) + [w],
          timers := if timed then old(timers) + {w} else old(timers))
    {
      active := active + [w];
      if timed {
        timers := timers + {w};
      }
    }

    method Publish(timed: bool, wake: Option<ThreadId>)
      requires wake.Some? ==> wake.value < |threads|
      modifies this
      ensures View() == WorkPool.Publish(old(View()), timed, wake)
    {
      hide Signal;
      WakeOne(wake);
      Activate(timed);
    }

    /** Without any worker the work would never run: it is taken back. */
    method TakeBack(ghost before: State)
      requires before.next !in before.works && View() == WorkPool.Enqueue(before, false) && WantsWorker(before)
      modifies this
      ensures View() == before.(spawnFailed := true)
    {
      assert queued[..|queued| - 1] == before.queued && works - {next} == before.works;
      works := works - {next};
      PopLast();
    }

    method PopLast()
      requires queued != []
      modifies this
      ensures View() == old(View()).(queued := old(queued)[..|old(queued)| - 1], nrQueued := old(nrQueued) - 1)
    {
      queued := queued[..|queued| - 1];
      nrQueued := nrQueued - 1;
    }

    /** dmn_work_submit() from the lock on. */
    method Accept(timed: bool, spawnOk: bool, wake: Option<ThreadId>) returns (accepted: bool)
      requires DoSubmit(View(), timed, spawnOk, wake).Next? && next !in works
      modifies this
      ensures Next(View()) == DoSubmit(old(View()), timed, spawnOk, wake)
      ensures accepted <==> !(WantsWorker(old(View())) && !spawnOk && old(nrWorkers) == 0)
    {
      ghost var before := View();
      var err := Enqueue(spawnOk);
      hide WorkPool.Enqueue, WorkPool.Publish;
      accepted := !(err && nrWorkers == 0);
      if accepted {
        Publish(timed, wake);
      } else {
        TakeBack(before);
      }
    }

    /** dmn_work_submit(): the arguments, the allocation and the timer may be refused first. */
    method Submit(hasFn: bool, hasDone: bool, allocOk: bool, timed: bool, timerOk: bool, spawnOk: bool,
        wake: Option<ThreadId>)
      returns (r: Result<WorkId, Errno>)
      requires hasFn && hasDone && allocOk && (timed ==> timerOk) ==>
          DoSubmit(View(), timed, spawnOk, wake).Next? && next !in works
      modifies this
      ensures var refused := !hasFn || !hasDone || !allocOk || (timed && !timerOk);
        && (refused ==> View() == old(View()))
        && (!refused ==> Next(View()) == DoSubmit(old(View()), timed, spawnOk, wake))
        && r == if !hasFn || !hasDone then Err(EINVAL)
                else if !allocOk then Err(ENOMEM)
                else if timed && !timerOk then Err(TimerError)
                else if WantsWorker(old(View())) && !spawnOk && old(nrWorkers) == 0 then Err(ThreadError)
                else Ok(old(next))
    {
      hide DoSubmit;
      if !hasFn || !hasDone {
        return Err(EINVAL);
      }
      if !allocOk {
        return Err(ENOMEM);
      }
      if timed && !timerOk {
        return Err(TimerError);
      }
      var w := next;
      var accepted := Accept(timed, spawnOk, wake);
      r := if accepted then Ok(w) else Err(ThreadError);
    }

    // ----- the event loop and the user -----

    /** work_free(detach(w)) */
    method DropWork(w: WorkId)
      requires Drop(View(), w).Next?
      modifies this
      ensures Next(View()) == Drop(old(View()), w)
    {
      DetachKeepsWork(View(), w);
      hide WorkPool.Detach;
      var mine := Detach(w);
      cancelled := cancelled + {w};
      if mine {
        FreeWork(w);
      }
    }

    /** dmn_work_cancel() */
    method Cancel(w: WorkId)
      requires DoCancel(View(), w).Next?
      modifies this
      ensures Next(View()) == DoCancel(old(View()), w)
    {
      hide Drop;
      DropWork(w);
    }

    /** dmn_work_pool_free(): deferred while on_done() is on the stack. */
    method PoolFree()
      requires DoPoolFree(View()).Next?
      modifies this
      ensures Next(View()) == DoPoolFree(old(View()))
    {
      if freeAt.None? {
        freeAt := Some(reported);
      }
      if dispatching {
        freePending := true;
        return;
      }
      loop := Destroy(if loop.Callback? then Some(loop.held) else None);
    }

    /** on_timeout() up to the test: a DONE work is left to on_done(). */
    method TimerFires(w: WorkId)
      requires DoTimerFires(View(), w).Next?
      modifies this
      ensures Next(View()) == DoTimerFires(old(View()), w)
    {
      var ended := works[w] == Done;
      timers := timers - {w};
      if !ended {
        loop := Finishing(w, true);
      }
    }

    /** on_done() up to its loop. */
    method EventReady()
      requires DoEventReady(View()).Next?
      modifies this
      ensures Next(View()) == DoEventReady(old(View()))
    {
      eventfd := 0;
      dispatching := true;
      loop := Dispatch;
    }

    /** The top of the loop of on_done(): stop for a pending free, look at the first finished work. */
    method DispatchNext()
      requires loop.Dispatch? && DoLoopStep(View()).Next?
      modifies this
      ensures Next(View()) == DoLoopStep(old(View()))
    {
      if freePending {
        dispatching := false;
        loop := Destroy(None);
      } else if done == [] {
        dispatching := false;
        loop := Idle;
      } else {
        loop := Finishing(done[0], false);
      }
    }

    /** finish() up to the call of the done callback. */
    method FinishWork()
      requires loop.Finishing? && DoLoopStep(View()).Next?
      modifies this
      ensures Next(View()) == DoLoopStep(old(View()))
    {
      var w, timedOut := loop.w, loop.timedOut;
      DetachKeepsWork(View(), w);
      hide WorkPool.Detach;
      var mine := Detach(w);
      reported := reported + multiset{w};
      loop := Callback(Held(w, mine), timedOut);
    }

    /** The rest of finish(), and back to on_done() or to the event loop. */
    method CallbackReturns()
      requires (loop.Callback? || loop.Returning?) && DoLoopStep(View()).Next?
      modifies this
      ensures Next(View()) == DoLoopStep(old(View()))
    {
      var held := loop.held;
      loop := if loop.Returning? then Gone else if dispatching then Dispatch else Idle;
      if held.mine {
        FreeWork(held.w);
      }
    }

    /** One round of the loop of destroy(), or its end, where the pool itself is freed. */
    method DestroyNext()
      requires loop.Destroy? && DoLoopStep(View()).Next?
      modifies this
      ensures Next(View()) == DoLoopStep(old(View()))
    {
      hide Drop;
      if active != [] {
        DropWork(active[0]);
        return;
      }
      poolAlive := false;
      loop := Closing(loop.after);
    }

    /** The last critical section of destroy(): everyone is woken to leave. */
    method Close()
      requires loop.Closing? && DoLoopStep(View()).Next?
      modifies this
      ensures Next(View()) == DoLoopStep(old(View()))
    {
      var after := loop.after;
      WakeAll();
      closing := true;
      loop := if after.Some? then Returning(after.value) else Gone;
      Unref();
    }

    /** pthread_cond_broadcast() */
    method WakeAll()
      modifies this
      ensures View() == old(View()).(threads := Broadcast(old(threads)))
    {
      var i, woken := |threads|, [];
      ghost var all, s := threads, View();
      while i > 0
        invariant 0 <= i <= |threads| && View() == s && threads == all && woken == Broadcast(all[i..])
      {
        i := i - 1;
        assert all[i..][1..] == all[i + 1..];
        woken := [if threads[i].Waiting? then Woken else threads[i]] + woken;
      }
      assert all[0..] == all;
      threads := woken;
    }
  }

  /** The three ways of enqueuing. */
  lemma EnqueueIs(s: State, spawnOk: bool)
    ensures var u := WorkPool.Enqueue(s, spawnOk);
      var l := s.(works := s.works[s.next := Queued], queued := s.queued + [s.next], nrQueued := s.nrQueued + 1);
      && (!WantsWorker(s) ==> u == l)
      && (WantsWorker(s) && !spawnOk ==> u == l.(spawnFailed := true))
      && (WantsWorker(s) && spawnOk ==>
        u == l.(threads := l.threads + [Fresh], refs := l.refs + 1, nrWorkers := l.nrWorkers + 1))
  {
    hide WantsWorker;
  }

  lemma WantsLinked(s: State, l: State)
    requires l == s.(works := l.works, queued := l.queued, nrQueued := s.nrQueued + 1)
    ensures WantsWorker(s) <==> l.nrQueued > l.nrIdle && l.nrWorkers < l.max
  {
  }

  lemma DetachKeepsWork(s: State, w: WorkId)
    requires WorkPool.Detach(s, w).Next?
    ensures w in s.works && w in WorkPool.Detach(s, w).s.works
  {
    hide Without;
  }

  datatype Errno = EINVAL | ENOMEM | EventfdError | TimerError | ThreadError | SourceError

  /** dmn_work_pool_new(): what is refused leaves nothing behind. */
  method NewPool(hasEvent: bool, max: nat, hasRet: bool, allocOk: bool, eventfdOk: bool, sourceOk: bool)
    returns (r: Result<Pool, Errno>, ghost made: Option<Pool>)
    ensures r.Err? ==> r.error == if !hasEvent || max == 0 || !hasRet then EINVAL
                                  else if !allocOk then ENOMEM
                                  else if !eventfdOk then EventfdError
                                  else SourceError
    ensures r.Ok? <==> hasEvent && max > 0 && hasRet && allocOk && eventfdOk && sourceOk
    ensures r.Ok? ==> fresh(r.value) && r.value.View() == Init(max)
    ensures r.Err? && made.Some? ==> !made.value.poolAlive && !made.value.sharedAlive && made.value.works == map[]
  {
    made := None;
    if !hasEvent || max == 0 || !hasRet {
      return Err(EINVAL), None;
    }
    if !allocOk {
      return Err(ENOMEM), None;
    }
    if !eventfdOk {
      return Err(EventfdError), None;
    }
    var p := new Pool(max);
    made := Some(p);
    if !sourceOk {
      p.PoolFree();
      p.DestroyNext();
      p.Close();
      return Err(SourceError), made;
    }
    r := Ok(p);
  }
}
