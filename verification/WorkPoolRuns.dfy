/**
 What the worker pool guarantees in every run: any interleaving of submits, cancels, timeouts,
 completions and a pool free, with any scheduling of the workers and any spurious wakeup.
 */
module WorkPoolRuns {
  import opened Wrappers
  import opened WorkPool
  import opened WorkPoolInvariant

  /** The state after the steps `run`, all of which must be enabled. */
  ghost function Run(s: State, run: seq<Action>): (o: Outcome)
    decreases |run|
  {
    if run == [] then Next(s)
    else
      match Step(s, run[0])
      case Next(u) => Run(u, run[1..])
      case bad => bad
  }

  ghost predicate Reachable(s: State)
  {
    exists max: nat, run: seq<Action> :: 0 < max && Run(Init(max), run) == Next(s)
  }

  lemma {:induction false} RunInv(s: State, run: seq<Action>)
    requires Inv(s)
    ensures Good(Run(s, run))
    decreases |run|
  {
    hide Memory, Numbers, Step;
    if run != [] {
      StepInv(s, run[0]);
      if Step(s, run[0]).Next? {
        RunInv(Step(s, run[0]).s, run[1..]);
      }
    }
  }

  lemma ReachableInv(s: State)
    requires Reachable(s)
    ensures Inv(s)
  {
    hide Memory, Numbers, Step;
    var max: nat, run: seq<Action> :| 0 < max && Run(Init(max), run) == Next(s);
    InitInv(max);
    RunInv(Init(max), run);
  }

  /** No thread ever touches a freed work, pool or shared block, and nothing is unlinked twice. */
  lemma NoFault(max: nat, run: seq<Action>)
    requires 0 < max
    ensures !Run(Init(max), run).Fault?
  {
    hide Memory, Numbers, Step;
    InitInv(max);
    RunInv(Init(max), run);
  }

  lemma {:induction false} RunConcat(s: State, x: seq<Action>, y: seq<Action>)
    requires Run(s, x).Next?
    ensures Run(s, x + y) == Run(Run(s, x).s, y)
    decreases |x|
  {
    hide Step;
    if x == [] {
      assert x + y == y;
    } else {
      assert (x + y)[1..] == x[1..] + y;
      RunConcat(Step(s, x[0]).s, x[1..], y);
    }
  }

  lemma ReachableRun(s: State, run: seq<Action>)
    requires Reachable(s) && Run(s, run).Next?
    ensures Reachable(Run(s, run).s)
  {
    hide Step, Run;
    var max: nat, x: seq<Action> :| 0 < max && Run(Init(max), x) == Next(s);
    RunConcat(Init(max), x, run);
    assert Run(Init(max), x + run) == Next(Run(s, run).s);
  }

  // ----- who frees a work -----

  datatype Owner = ActiveList | RunningCallback | Worker(t: ThreadId)

  /** `o` is the one that frees `w`, now or later. */
  predicate Owns(s: State, o: Owner, w: WorkId)
  {
    match o
    case ActiveList => w in s.active
    case RunningCallback => LoopHolds(s.loop, w)
    case Worker(t) => t < |s.threads| && Holds(s.threads[t], w) && w in s.works && s.works[w] == Dropped
  }

  lemma {:induction false} FindHolder(ts: seq<Thread>, w: WorkId) returns (t: ThreadId)
    requires HeldBy(ts, w) > 0
    ensures t < |ts| && Holds(ts[t], w)
  {
    if Holds(ts[0], w) {
      t := 0;
    } else {
      var i := FindHolder(ts[1..], w);
      t := i + 1;
    }
  }

  lemma {:induction false} OneHolder(ts: seq<Thread>, w: WorkId, t: ThreadId, u: ThreadId)
    requires HeldBy(ts, w) == 1 && t < u < |ts|
    ensures !(Holds(ts[t], w) && Holds(ts[u], w))
  {
    if t > 0 {
      if HeldBy(ts[1..], w) == 1 {
        OneHolder(ts[1..], w, t - 1, u - 1);
      } else {
        HeldByZero(ts[1..], w);
        assert ts[1..][t - 1] == ts[t];
      }
    } else if Holds(ts[0], w) {
      HeldByZero(ts[1..], w);
      assert ts[1..][u - 1] == ts[u];
    }
  }

  /** A work in memory has exactly one owner; a work that was freed was freed once and has none. */
  lemma SoleOwner(s: State, w: WorkId)
    requires Reachable(s) && w < s.next
    ensures w in s.works ==> s.freed[w] == 0 && exists o :: Owns(s, o, w) && forall p :: Owns(s, p, w) ==> p == o
    ensures w !in s.works ==> s.freed[w] == 1 && forall p :: !Owns(s, p, w)
  {
    ReachableInv(s);
    if w in s.works {
      if s.works[w] == Dropped {
        var t := FindHolder(s.threads, w);
        forall p | Owns(s, p, w) ensures p == Worker(t) {
          if p.Worker? && p.t < t {
            OneHolder(s.threads, w, p.t, t);
          } else if p.Worker? && t < p.t {
            OneHolder(s.threads, w, t, p.t);
          }
        }
        assert Owns(s, Worker(t), w);
      } else if w in s.active {
        assert Owns(s, ActiveList, w);
      } else {
        assert Owns(s, RunningCallback, w);
      }
    }
  }

  /**
   The callback of a work that ended, and of a timed-out one that no worker runs, has the work's
   data to itself: it is in memory, no worker uses it, and the event loop frees it afterwards.
   */
  lemma CallbackOwnsData(s: State)
    requires Reachable(s) && s.loop.Callback?
    ensures !s.loop.timedOut ==> s.loop.held.mine && s.loop.held.w in s.works && s.works[s.loop.held.w] == Done
    ensures s.loop.held.mine ==>
      && Owns(s, RunningCallback, s.loop.held.w)
      && s.loop.held.w in s.works
      && forall t :: 0 <= t < |s.threads| ==> !Holds(s.threads[t], s.loop.held.w)
  {
    ReachableInv(s);
    var w := s.loop.held.w;
    if s.loop.held.mine {
      assert LoopHolds(s.loop, w);
      HeldByZero(s.threads, w);
    }
  }

  /** A worker that has a dropped work frees it in two steps of its own, or in one. */
  lemma WorkerFrees(s: State, w: WorkId) returns (run: seq<Action>)
    requires Inv(s) && w in s.works && s.works[w] == Dropped
    ensures Run(s, run).Next? && Run(s, run).s.loop == s.loop && w !in Run(s, run).s.works
  {
    var t := FindHolder(s.threads, w);
    SharedAlive(s, t);
    hide Memory, Numbers;
    if s.threads[t].Busy? {
      run := [FnReturns(t), FreeDropped(t)];
      var u := Step(s, run[0]).s;
      assert u == s.(threads := s.threads[t := Freeing(w)]);
      FreedNow(u, t, w);
      RunTwice(s, run[0], run[1]);
    } else {
      run := [FreeDropped(t)];
      FreedNow(s, t, w);
      RunOnce(s, run[0]);
    }
  }

  lemma FreedNow(s: State, t: ThreadId, w: WorkId)
    requires t < |s.threads| && s.threads[t] == Freeing(w) && w in s.works
    ensures var o := Step(s, FreeDropped(t)); o.Next? && o.s.loop == s.loop && w !in o.s.works
  {
  }

  lemma RunOnce(s: State, a: Action)
    requires Step(s, a).Next?
    ensures Run(s, [a]) == Step(s, a)
  {
    hide Step;
    assert [a][1..] == [];
    assert Run(Step(s, a).s, []) == Step(s, a);
  }

  lemma RunTwice(s: State, a: Action, b: Action)
    requires Step(s, a).Next? && Step(Step(s, a).s, b).Next?
    ensures Run(s, [a, b]) == Step(Step(s, a).s, b)
  {
    hide Step;
    assert [a, b][1..] == [b];
    RunOnce(Step(s, a).s, b);
  }

  /** The data of a done callback stays in memory whatever happens while it runs, exactly when the
      event loop is to free it; otherwise its worker can free it under the callback. */
  lemma CallbackDataSafe(s: State)
    requires Reachable(s) && s.loop.Callback?
    ensures s.loop.held.mine <==>
      forall run :: Run(s, run).Next? && Run(s, run).s.loop == s.loop ==> s.loop.held.w in Run(s, run).s.works
  {
    ReachableInv(s);
    var w := s.loop.held.w;
    if s.loop.held.mine {
      forall run | Run(s, run).Next? && Run(s, run).s.loop == s.loop ensures w in Run(s, run).s.works {
        RunInv(s, run);
        HeldInMemory(Run(s, run).s, w);
      }
    } else if w in s.works {
      HandedOver(s);
      var run := WorkerFrees(s, w);
      assert !(Run(s, run).Next? && Run(s, run).s.loop == s.loop ==> w in Run(s, run).s.works);
    } else {
      var run: seq<Action> := [];
      assert Run(s, run) == Next(s);
      assert !(Run(s, run).Next? && Run(s, run).s.loop == s.loop ==> w in Run(s, run).s.works);
    }
  }

  /** The same before the call: what finish() finds decides.  A callback has its data for as long as it
      runs exactly when the work was not RUNNING when finish() detached it. */
  lemma FinishDataSafe(s: State)
    requires Reachable(s) && s.loop.Finishing?
    ensures s.loop.w in s.works && Step(s, LoopStep).Next? && Step(s, LoopStep).s.loop.Callback?
    ensures var u := Step(s, LoopStep).s;
      s.works[s.loop.w] != Running <==>
      forall run :: Run(u, run).Next? && Run(u, run).s.loop == u.loop ==> s.loop.w in Run(u, run).s.works
  {
    ReachableInv(s);
    FinishingDetaches(s);
    hide Step, Run;
    var u := Step(s, LoopStep).s;
    RunOnce(s, LoopStep);
    ReachableRun(s, [LoopStep]);
    CallbackDataSafe(u);
  }

  lemma FinishingDetaches(s: State)
    requires Inv(s) && s.loop.Finishing?
    ensures s.loop.w in s.works && Step(s, LoopStep).Next?
    ensures Step(s, LoopStep).s.loop == Callback(Held(s.loop.w, s.works[s.loop.w] != Running), s.loop.timedOut)
  {
    DetachNext(s, s.loop.w);
    hide Detach, Memory, Numbers;
  }

  lemma HeldInMemory(s: State, w: WorkId)
    requires Inv(s) && LoopHolds(s.loop, w)
    ensures w in s.works
  {
  }

  lemma HandedOver(s: State)
    requires Reachable(s) && s.loop.Callback? && !s.loop.held.mine && s.loop.held.w in s.works
    ensures s.works[s.loop.held.w] == Dropped
  {
    ReachableInv(s);
    ReachableReported(s);
  }

  // ----- when callbacks begin -----

  lemma LoopNotBlocked(s: State)
    requires !s.loop.Idle? && !s.loop.Gone?
    ensures !Step(s, LoopStep).Blocked?
  {
    hide Without, Broadcast;
  }

  lemma LoopTopLoop(s: State, t: ThreadId)
    requires t < |s.threads|
    ensures LoopTop(s, t).Next? ==> LoopTop(s, t).s.loop == s.loop
  {
  }

  lemma LockLoop(s: State, t: ThreadId)
    requires DoLock(s, t).Next?
    ensures DoLock(s, t).s.loop == s.loop
  {
    hide LoopTop;
    LoopTopLoop(s, t);
    LoopTopLoop(s.(nrIdle := s.nrIdle - 1), t);
  }

  lemma ReturnLoop(s: State, t: ThreadId)
    requires DoFnReturns(s, t).Next?
    ensures DoFnReturns(s, t).s.loop == s.loop
  {
    hide LoopTop;
    var w := s.threads[t].w;
    LoopTopLoop(s.(works := s.works[w := Done], done := s.done + [w], eventfd := s.eventfd + 1), t);
  }

  lemma DropLoop(s: State, w: WorkId)
    requires Drop(s, w).Next?
    ensures Drop(s, w).s.loop == s.loop
  {
    hide Without;
  }

  /** A callback begins where a work was being finished, and counts as reported at once. */
  lemma CallbackStarts(s: State, a: Action)
    requires Step(s, a).Next? && Step(s, a).s.loop.Callback? && Step(s, a).s.loop != s.loop
    ensures var u := Step(s, a).s;
      s.loop == Finishing(u.loop.held.w, u.loop.timedOut) && u.loop.held.w in u.reported && a.LoopStep?
  {
    hide DoLock, DoFnReturns, DoLoopStep, DoSubmit, Drop, Free;
    match a
    case Lock(t) => LockLoop(s, t);
    case FnReturns(t) => ReturnLoop(s, t);
    case Cancel(w) => DropLoop(s, w);
    case Submit(timed, spawnOk, wake) => SubmitLoop(s, timed, spawnOk, wake);
    case FreeDropped(t) => FreeLoop(s.(threads := s.threads[t := Looping]), s.threads[t].w);
    case LoopStep => LoopStepStarts(s);
    case _ =>
  }

  lemma FreeLoop(s: State, w: WorkId)
    ensures Free(s, w).Next? ==> Free(s, w).s.loop == s.loop
    ensures Unref(s).Next? ==> Unref(s).s.loop == s.loop
  {
  }

  lemma LoopStepStarts(s: State)
    requires DoLoopStep(s).Next? && DoLoopStep(s).s.loop.Callback? && DoLoopStep(s).s.loop != s.loop
    ensures var u := DoLoopStep(s).s; s.loop == Finishing(u.loop.held.w, u.loop.timedOut) && u.loop.held.w in u.reported
  {
    hide Detach, Drop, Free, Unref, Broadcast;
    match s.loop
    case Destroy(_) =>
      if s.active != [] { DropLoop(s, s.active[0]); }
    case Callback(held, _) => FreeLoop(s.(loop := if s.dispatching then Dispatch else Idle), held.w);
    case Returning(held) => FreeLoop(s.(loop := Gone), held.w);
    case Closing(after) =>
      FreeLoop(s.(closing := true, threads := Broadcast(s.threads),
        loop := if after.Some? then Returning(after.value) else Gone), 0);
    case _ =>
  }

  lemma SubmitLoop(s: State, timed: bool, spawnOk: bool, wake: Option<ThreadId>)
    requires DoSubmit(s, timed, spawnOk, wake).Next?
    ensures DoSubmit(s, timed, spawnOk, wake).s.loop == s.loop
  {
    hide WantsWorker, Signal;
  }

  /** The work of a callback is reported. */
  ghost predicate CallbackReported(s: State)
  {
    s.loop.Callback? ==> s.loop.held.w in s.reported
  }

  lemma {:induction false} RunReported(s: State, run: seq<Action>)
    requires CallbackReported(s) && Run(s, run).Next?
    ensures CallbackReported(Run(s, run).s)
    decreases |run|
  {
    hide Step;
    if run != [] {
      var u := Step(s, run[0]).s;
      StepLater(s, run[0]);
      if u.loop.Callback? && u.loop != s.loop { CallbackStarts(s, run[0]); }
      RunReported(u, run[1..]);
    }
  }

  lemma ReachableReported(s: State)
    requires Reachable(s)
    ensures CallbackReported(s)
  {
    hide Step;
    var max: nat, run: seq<Action> :| 0 < max && Run(Init(max), run) == Next(s);
    RunReported(Init(max), run);
  }

  // ----- wakeups -----

  /** No lost wakeup: while a worker sleeps, each queued work has an awake worker of its own. */
  lemma NoLostWakeup(s: State)
    requires Reachable(s)
    ensures Count(s.threads, Asleep) > 0 ==> |s.queued| <= Count(s.threads, Awake)
    ensures s.queued != [] ==> exists t :: 0 <= t < |s.threads| && !s.threads[t].Waiting? && !s.threads[t].Exited?
  {
    ReachableInv(s);
    if s.queued != [] {
      CountZero(s.threads, Asleep);
      assert !s.closing;
      if Count(s.threads, Asleep) > 0 {
        CountZero(s.threads, Awake);
        var t :| 0 <= t < |s.threads| && Is(Awake, s.threads[t]);
        assert !s.threads[t].Waiting?;
      } else {
        AllAlive(s.threads);
        assert !s.threads[0].Waiting?;
      }
    }
  }

  /** While work is queued, some worker that is neither asleep nor gone can take its next step. */
  lemma QueueMoves(s: State) returns (a: Action)
    requires Reachable(s) && s.queued != []
    ensures (a.Lock? || a.FnReturns? || a.FreeDropped?) && Step(s, a).Next?
  {
    NoLostWakeup(s);
    ReachableInv(s);
    var t :| 0 <= t < |s.threads| && !s.threads[t].Waiting? && !s.threads[t].Exited?;
    a := if s.threads[t].Busy? then FnReturns(t) else if s.threads[t].Freeing? then FreeDropped(t) else Lock(t);
    StepInv(s, a);
    hide Memory, Numbers;
    NotBlocked(s, a, t);
  }

  lemma NotBlocked(s: State, a: Action, t: ThreadId)
    requires t < |s.threads| && !s.threads[t].Waiting? && !s.threads[t].Exited?
    requires a == if s.threads[t].Busy? then FnReturns(t) else if s.threads[t].Freeing? then FreeDropped(t) else Lock(t)
    ensures !Step(s, a).Blocked?
  {
  }

  lemma {:induction false} AllAlive(ts: seq<Thread>)
    requires Count(ts, Alive) == |ts|
    ensures forall i :: 0 <= i < |ts| ==> !ts[i].Exited?
  {
    if ts != [] {
      AllAlive(ts[1..]);
      assert forall i :: 0 < i < |ts| ==> ts[i] == ts[1..][i - 1];
    }
  }

  /** Unless creating a thread failed, the queue is covered by idle and new workers, or all workers exist. */
  lemma EnoughWorkers(s: State)
    requires Reachable(s)
    ensures s.spawnFailed || s.nrWorkers == s.max || s.nrQueued <= s.nrIdle + Count(s.threads, New)
    ensures s.queued != [] ==> s.nrWorkers > 0
  {
    ReachableInv(s);
  }

  lemma CountersAgree(s: State)
    requires Reachable(s)
    ensures s.nrQueued == |s.queued|
    ensures s.nrIdle == Count(s.threads, InWait)
    ensures s.nrWorkers == |s.threads| <= s.max
    ensures s.refs == Count(s.threads, Alive) + (if s.closing then 0 else 1)
    ensures s.sharedAlive <==> s.refs > 0
    ensures s.closing ==> s.queued == [] && s.done == []
  {
    ReachableInv(s);
  }

  // ----- callbacks -----

  /** Each accepted work that left the active list was either reported once or cancelled, never both. */
  lemma ReportedOnce(s: State, w: WorkId)
    requires Reachable(s)
    ensures s.reported[w] <= 1
    ensures w < s.next && w !in s.active ==> (w in s.cancelled <==> s.reported[w] == 0)
    ensures w in s.active || w >= s.next ==> s.reported[w] == 0 && w !in s.cancelled
  {
    ReachableInv(s);
  }

  /** What a step cannot take back. */
  ghost predicate Later(s: State, u: State)
  {
    && s.cancelled <= u.cancelled
    && s.reported <= u.reported
    && (s.freeAt.Some? ==> u.freeAt == s.freeAt)
  }

  ghost predicate SameLog(s: State, u: State)
  {
    u.cancelled == s.cancelled && u.reported == s.reported && u.freeAt == s.freeAt
  }

  lemma DetachLog(s: State, w: WorkId)
    requires Detach(s, w).Next?
    ensures SameLog(s, Detach(s, w).s)
  {
    hide Without;
  }

  lemma DropLater(s: State, w: WorkId)
    requires Drop(s, w).Next?
    ensures Later(s, Drop(s, w).s)
  {
    hide Detach;
    DetachLog(s, w);
  }

  lemma FinishLater(s: State, w: WorkId, timedOut: bool)
    requires Finish(s, w, timedOut).Next?
    ensures Later(s, Finish(s, w, timedOut).s)
  {
    hide Detach;
    DetachLog(s, w);
  }

  lemma LockLog(s: State, t: ThreadId)
    ensures DoLock(s, t).Next? ==> SameLog(s, DoLock(s, t).s)
  {
    hide LoopTop;
    if t < |s.threads| {
      LoopTopLog(s, t);
      LoopTopLog(s.(nrIdle := s.nrIdle - 1), t);
    }
  }

  lemma ReturnLog(s: State, t: ThreadId)
    ensures DoFnReturns(s, t).Next? ==> SameLog(s, DoFnReturns(s, t).s)
  {
    hide LoopTop;
    if t < |s.threads| && s.threads[t].Busy? {
      var w := s.threads[t].w;
      LoopTopLog(s.(works := s.works[w := Done], done := s.done + [w], eventfd := s.eventfd + 1), t);
    }
  }

  lemma IdleLog(s: State, t: ThreadId)
    ensures DoFreeDropped(s, t).Next? ==> SameLog(s, DoFreeDropped(s, t).s)
    ensures DoSpuriousWakeup(s, t).Next? ==> SameLog(s, DoSpuriousWakeup(s, t).s)
  {
  }

  lemma LoopTopLog(s: State, t: ThreadId)
    requires t < |s.threads|
    ensures LoopTop(s, t).Next? ==> SameLog(s, LoopTop(s, t).s)
  {
  }

  lemma FreeLog(s: State, w: WorkId)
    ensures Free(s, w).Next? ==> SameLog(s, Free(s, w).s)
    ensures Unref(s).Next? ==> SameLog(s, Unref(s).s)
  {
  }

  lemma LoopStepLater(s: State)
    requires DoLoopStep(s).Next?
    ensures Later(s, DoLoopStep(s).s)
  {
    hide Broadcast, Drop, Finish, Free, Unref;
    match s.loop
    case Destroy(_) =>
      if s.active != [] {
        DropLater(s, s.active[0]);
      }
    case Finishing(w, timedOut) => FinishLater(s, w, timedOut);
    case Callback(held, _) => FreeLog(s.(loop := if s.dispatching then Dispatch else Idle), held.w);
    case Returning(held) => FreeLog(s.(loop := Gone), held.w);
    case Closing(after) =>
      FreeLog(s.(closing := true, threads := Broadcast(s.threads),
                 loop := if after.Some? then Returning(after.value) else Gone), 0);
    case _ =>
  }

  lemma SubmitLog(s: State, timed: bool, spawnOk: bool, wake: Option<ThreadId>)
    ensures DoSubmit(s, timed, spawnOk, wake).Next? ==> SameLog(s, DoSubmit(s, timed, spawnOk, wake).s)
  {
    EnqueueLog(s, spawnOk);
    hide WantsWorker, Signal, Enqueue;
  }

  lemma EnqueueLog(s: State, spawnOk: bool)
    ensures SameLog(s, Enqueue(s, spawnOk))
  {
    hide WantsWorker;
  }

  lemma StepLater(s: State, a: Action)
    requires Step(s, a).Next?
    ensures Later(s, Step(s, a).s)
  {
    hide DoSubmit, DoLock, DoFnReturns, DoFreeDropped, DoSpuriousWakeup, DoLoopStep, Drop;
    match a
    case Submit(timed, spawnOk, wake) => SubmitLog(s, timed, spawnOk, wake);
    case Cancel(w) => DropLater(s, w);
    case PoolFree =>
    case TimerFires(w) =>
    case EventReady =>
    case LoopStep => LoopStepLater(s);
    case Lock(t) => LockLog(s, t);
    case FnReturns(t) => ReturnLog(s, t);
    case FreeDropped(t) => IdleLog(s, t);
    case SpuriousWakeup(t) => IdleLog(s, t);
  }

  lemma {:induction false} RunLater(s: State, run: seq<Action>)
    requires Run(s, run).Next?
    ensures Later(s, Run(s, run).s)
    decreases |run|
  {
    hide Step;
    if run != [] {
      StepLater(s, run[0]);
      RunLater(Step(s, run[0]).s, run[1..]);
    }
  }

  /** After a cancel, no continuation of the run calls the work's callback. */
  lemma NoCallbackAfterCancel(s: State, w: WorkId, run: seq<Action>)
    requires Reachable(s) && w in s.cancelled && Run(s, run).Next?
    ensures Run(s, run).s.reported[w] == 0
  {
    ReachableInv(s);
    hide Step;
    RunInv(s, run);
    RunLater(s, run);
    assert w in Run(s, run).s.cancelled;
  }

  /** After dmn_work_pool_free(), also from inside a callback, no callback is called any more. */
  lemma NoCallbackAfterFree(s: State, run: seq<Action>)
    requires Reachable(s) && Step(s, PoolFree).Next? && Run(Step(s, PoolFree).s, run).Next?
    ensures Run(Step(s, PoolFree).s, run).s.reported == s.reported
  {
    ReachableInv(s);
    PoolFreeInv(s);
    var u := Step(s, PoolFree).s;
    assert u.freeAt.Some? && u.reported == s.reported;
    hide Memory, Step;
    RunInv(u, run);
    RunLater(u, run);
  }

  /** A finished work is not stranded: on_done() is at work, will be dispatched, or the pool is being freed. */
  lemma NotStranded(s: State)
    requires Reachable(s) && s.done != []
    ensures s.dispatching || s.freeAt.Some? || s.eventfd > 0
    ensures s.loop.Idle? ==> Step(s, EventReady).Next?
  {
    ReachableInv(s);
    if s.loop.Idle? {
      UserAlive(s);
    }
  }

  /** A timer that fires on a finished work leaves it to on_done(), which is due. */
  lemma TimerOnDone(s: State, w: WorkId)
    requires Reachable(s) && s.loop.Idle? && w in s.timers && w in s.works && s.works[w] == Done
    ensures var o := Step(s, TimerFires(w));
      o.Next? && w in o.s.done && w in o.s.active && o.s.reported == s.reported && o.s.loop.Idle? && o.s.eventfd > 0
  {
    ReachableInv(s);
    UserAlive(s);
  }

  // ----- shutdown -----

  function Rank(th: Thread): (n: nat)
  {
    match th
    case Busy(_) => 7
    case Freeing(_) => 2
    case Exited => 0
    case Waiting => 0
    case _ => 1
  }

  function TotalRank(ts: seq<Thread>): (n: nat)
  {
    if ts == [] then 0 else Rank(ts[0]) + TotalRank(ts[1..])
  }

  lemma {:induction false} RankUpdate(ts: seq<Thread>, t: ThreadId, x: Thread)
    requires t < |ts|
    ensures TotalRank(ts[t := x]) + Rank(ts[t]) == TotalRank(ts) + Rank(x)
  {
    if t == 0 {
      assert ts[t := x][1..] == ts[1..];
    } else {
      assert ts[t := x][1..] == ts[1..][t - 1 := x];
      RankUpdate(ts[1..], t - 1, x);
    }
  }

  /** The workers can always go on once the pool is gone: none sleeps, and every step brings the end nearer. */
  lemma ShutdownStep(s: State, a: Action)
    requires Inv(s) && s.loop.Gone? && Step(s, a).Next?
    ensures Step(s, a).s.loop.Gone? && TotalRank(Step(s, a).s.threads) < TotalRank(s.threads)
  {
    match a
    case Lock(t) => ShutdownLock(s, t);
    case FnReturns(t) => ShutdownReturn(s, t);
    case FreeDropped(t) => ShutdownFree(s, t);
    case SpuriousWakeup(t) => CountZero(s.threads, Asleep);
    case _ =>
  }

  lemma ShutdownLock(s: State, t: ThreadId)
    requires s.closing && DoLock(s, t).Next?
    ensures DoLock(s, t).s.loop == s.loop && TotalRank(DoLock(s, t).s.threads) < TotalRank(s.threads)
  {
    RankUpdate(s.threads, t, Exited);
  }

  lemma ShutdownReturn(s: State, t: ThreadId)
    requires Memory(s) && s.active == [] && DoFnReturns(s, t).Next?
    ensures DoFnReturns(s, t).s.loop == s.loop && TotalRank(DoFnReturns(s, t).s.threads) < TotalRank(s.threads)
  {
    BusyWork(s.threads, s.works, t);
    RankUpdate(s.threads, t, Freeing(s.threads[t].w));
  }

  lemma ShutdownFree(s: State, t: ThreadId)
    requires DoFreeDropped(s, t).Next?
    ensures DoFreeDropped(s, t).s.loop == s.loop && TotalRank(DoFreeDropped(s, t).s.threads) < TotalRank(s.threads)
  {
    RankUpdate(s.threads, t, Looping);
  }

  lemma ShutdownEnabled(s: State) returns (a: Action)
    requires Inv(s) && s.loop.Gone? && Count(s.threads, Alive) > 0
    ensures Step(s, a).Next?
  {
    CountZero(s.threads, Alive);
    CountZero(s.threads, Asleep);
    var t: ThreadId :| t < |s.threads| && Is(Alive, s.threads[t]);
    SharedAlive(s, t);
    if s.threads[t].Busy? {
      a := FnReturns(t);
      BusyWork(s.threads, s.works, t);
    } else if s.threads[t].Freeing? {
      a := FreeDropped(t);
    } else {
      a := Lock(t);
    }
  }

  /** Every run that begins after the pool is gone is short, and goes on until all workers have left. */
  lemma {:induction false} ShutdownEnds(s: State, run: seq<Action>)
    requires Inv(s) && s.loop.Gone? && Run(s, run).Next?
    ensures |run| <= TotalRank(s.threads)
    ensures var u := Run(s, run).s; Count(u.threads, Alive) > 0 ==> exists a :: Step(u, a).Next?
    decreases |run|
  {
    hide Step, Memory, Numbers;
    if run == [] {
      if Count(s.threads, Alive) > 0 {
        var a := ShutdownEnabled(s);
      }
    } else {
      StepInv(s, run[0]);
      ShutdownStep(s, run[0]);
      ShutdownEnds(Step(s, run[0]).s, run[1..]);
    }
  }

  /** When everyone has left, every accepted work was freed exactly once and the shared block is freed. */
  lemma EverythingFreed(s: State)
    requires Reachable(s) && s.loop.Gone? && Count(s.threads, Alive) == 0
    ensures !s.sharedAlive && !s.poolAlive && s.works == map[]
    ensures forall w: WorkId :: s.freed[w] == if w < s.next then 1 else 0
    ensures forall w: WorkId :: w < s.next ==> (w in s.cancelled <==> s.reported[w] == 0)
  {
    ReachableInv(s);
    CountZero(s.threads, Alive);
    forall w | w in s.works ensures false {
      assert s.works[w] == Dropped;
      var t := FindHolder(s.threads, w);
    }
  }

  // ----- a run -----

  /** One work from its submit to its callback and its end. */
  const ONE_WORK: seq<Action> := [Submit(false, true, None), Lock(0), FnReturns(0), EventReady, LoopStep, LoopStep,
      LoopStep]

  function Submitted(): (s: State)
  {
    Init(1).(queued := [0], nrQueued := 1, works := map[0 := Queued], threads := [Fresh], nrWorkers := 1, refs := 2,
      active := [0], next := 1)
  }

  function Started(): (s: State)
  {
    Submitted().(queued := [], nrQueued := 0, works := map[0 := Running], threads := [Busy(0)])
  }

  function Ended(): (s: State)
  {
    Started().(works := map[0 := Done], done := [0], eventfd := 1, nrIdle := 1, threads := [Waiting])
  }

  function Dispatched(): (s: State)
  {
    Ended().(eventfd := 0, dispatching := true, loop := Dispatch)
  }

  function Chosen(): (s: State)
  {
    Dispatched().(loop := Finishing(0, false))
  }

  function Called(): (s: State)
  {
    Chosen().(loop := Callback(Held(0, true), false), active := [], done := [], reported := multiset{0})
  }

  function Freed(): (s: State)
  {
    Called().(loop := Dispatch, works := map[], freed := multiset{0})
  }

  lemma SubmitStep()
    ensures Step(Init(1), Submit(false, true, None)) == Next(Submitted())
  {
  }

  lemma StartStep()
    ensures Step(Submitted(), Lock(0)) == Next(Started())
  {
  }

  lemma EndStep()
    ensures Step(Started(), FnReturns(0)) == Next(Ended())
  {
  }

  lemma DispatchStep()
    ensures Step(Ended(), EventReady) == Next(Dispatched())
    ensures Step(Dispatched(), LoopStep) == Next(Chosen())
  {
  }

  lemma CallStep()
    ensures Step(Chosen(), LoopStep) == Next(Called())
  {
  }

  lemma FreeStep()
    ensures Step(Called(), LoopStep) == Next(Freed())
  {
  }

  /** The run exists: the work is reported once and freed once. */
  lemma OneWorkRuns()
    ensures var o := Run(Init(1), ONE_WORK);
        o.Next? && o.s.reported == multiset{0} && o.s.freed == multiset{0} && o.s.works == map[]
  {
    assert Freed().reported == multiset{0} && Freed().freed == multiset{0} && Freed().works == map[];
    hide Step, Init, Submitted, Started, Ended, Dispatched, Chosen, Called, Freed;
    SubmitStep();
    StartStep();
    EndStep();
    DispatchStep();
    CallStep();
    FreeStep();
    RunStep(Init(1), ONE_WORK);
    RunStep(Submitted(), ONE_WORK[1..]);
    RunStep(Started(), ONE_WORK[2..]);
    RunStep(Ended(), ONE_WORK[3..]);
    RunStep(Dispatched(), ONE_WORK[4..]);
    RunStep(Chosen(), ONE_WORK[5..]);
    RunStep(Called(), ONE_WORK[6..]);
    assert ONE_WORK[7..] == [];
  }

  lemma RunStep(s: State, run: seq<Action>)
    requires run != [] && Step(s, run[0]).Next?
    ensures Run(s, run) == Run(Step(s, run[0]).s, run[1..])
  {
  }

  /** A work whose timer fires while a worker runs it. */
  const TIMED_OUT: seq<Action> := [Submit(true, true, None), Lock(0), TimerFires(0), LoopStep, FnReturns(0),
      FreeDropped(0)]

  function TimedSubmitted(): (s: State)
  {
    Submitted().(timers := {0})
  }

  function TimedStarted(): (s: State)
  {
    Started().(timers := {0})
  }

  function Expired(): (s: State)
  {
    Started().(loop := Finishing(0, true))
  }

  function TimeoutCalled(): (s: State)
  {
    Started().(active := [], works := map[0 := Dropped], loop := Callback(Held(0, false), true),
      reported := multiset{0})
  }

  function WorkerBack(): (s: State)
  {
    TimeoutCalled().(threads := [Freeing(0)])
  }

  function FreedUnderCallback(): (s: State)
  {
    TimeoutCalled().(threads := [Looping], works := map[], freed := multiset{0})
  }

  lemma TimedSubmitStep()
    ensures Step(Init(1), Submit(true, true, None)) == Next(TimedSubmitted())
  {
  }

  lemma TimedStartStep()
    ensures Step(TimedSubmitted(), Lock(0)) == Next(TimedStarted())
  {
  }

  lemma ExpireStep()
    ensures Step(TimedStarted(), TimerFires(0)) == Next(Expired())
  {
  }

  lemma TimeoutCallStep()
    ensures Step(Expired(), LoopStep) == Next(TimeoutCalled())
  {
  }

  lemma WorkerBackStep()
    ensures Step(TimeoutCalled(), FnReturns(0)) == Next(WorkerBack())
    ensures Step(WorkerBack(), FreeDropped(0)) == Next(FreedUnderCallback())
  {
  }

  /** The run exists: the done callback of the timed-out work is running, and its data is freed. */
  lemma FreedDuringCallback()
    ensures Run(Init(1), TIMED_OUT) == Next(FreedUnderCallback())
    ensures FreedUnderCallback().loop == Callback(Held(0, false), true) && 0 !in FreedUnderCallback().works
    ensures FreedUnderCallback().freed[0] == 1
  {
    hide Step, Init, TimedSubmitted, TimedStarted, Expired, TimeoutCalled, WorkerBack;
    TimedSubmitStep();
    TimedStartStep();
    ExpireStep();
    TimeoutCallStep();
    WorkerBackStep();
    FreedFacts();
    hide FreedUnderCallback;
    RunStep(Init(1), TIMED_OUT);
    RunStep(TimedSubmitted(), TIMED_OUT[1..]);
    RunStep(TimedStarted(), TIMED_OUT[2..]);
    RunStep(Expired(), TIMED_OUT[3..]);
    RunStep(TimeoutCalled(), TIMED_OUT[4..]);
    RunStep(WorkerBack(), TIMED_OUT[5..]);
    assert TIMED_OUT[6..] == [];
  }

  lemma FreedFacts()
    ensures FreedUnderCallback().loop == Callback(Held(0, false), true) && 0 !in FreedUnderCallback().works
    ensures FreedUnderCallback().freed[0] == 1
  {
  }
}
