/**
 The worker pool left to itself: without calls of the user and without spurious wakeups, every run
 of workers, timers and event loop ends, and it ends with nothing queued and nothing to report.
 */
module WorkPoolProgress {
  import opened Wrappers
  import opened WorkPool
  import opened WorkPoolInvariant
  import opened WorkPoolRuns

  /** A step that no user makes and that no one could do without. */
  predicate Quiet(a: Action)
  {
    a.TimerFires? || a.EventReady? || a.LoopStep? || a.Lock? || a.FnReturns? || a.FreeDropped?
  }

  ghost predicate AllQuiet(run: seq<Action>)
  {
    forall i :: 0 <= i < |run| ==> Quiet(run[i])
  }

  // ----- a bound on what is left to do -----

  function LoopRank(l: Loop): (n: nat)
  {
    match l
    case Idle => 0
    case Dispatch => 1
    case Finishing(_, timedOut) => if timedOut then 3 else 0
    case Callback(_, _) => 2
    case Destroy(_) => 5
    case Closing(_) => 3
    case Returning(_) => 2
    case Gone => 0
  }

  function ListRank(queued: seq<WorkId>, done: seq<WorkId>, active: seq<WorkId>, timers: set<WorkId>): (n: nat)
  {
    8 * |queued| + 4 * |done| + |active| + 5 * |timers|
  }

  /** The workers, and the broadcast that is still to come. */
  function ThreadsRank(threads: seq<Thread>, closing: bool): (n: nat)
  {
    TotalRank(threads) + if closing then 0 else |threads|
  }

  function FlagRank(eventfd: nat, freePending: bool, dispatching: bool): (n: nat)
  {
    (if eventfd > 0 then 2 else 0) + if freePending && dispatching then 10 else 0
  }

  function Potential(s: State): (n: nat)
  {
    ListRank(s.queued, s.done, s.active, s.timers) + ThreadsRank(s.threads, s.closing)
    + FlagRank(s.eventfd, s.freePending, s.dispatching) + LoopRank(s.loop)
  }

  // ----- lists -----

  lemma {:induction false} WithoutShrinks(q: seq<WorkId>, w: WorkId)
    ensures |Without(q, w)| <= |q| && (w in q ==> |Without(q, w)| < |q|)
  {
    if q != [] { WithoutShrinks(q[1..], w); }
  }

  lemma TimerGone(timers: set<WorkId>, w: WorkId)
    ensures |timers - {w}| <= |timers| && (w in timers ==> |timers - {w}| == |timers| - 1)
  {
    if w !in timers { assert timers - {w} == timers; }
  }

  lemma {:induction false} BroadcastRank(ts: seq<Thread>)
    ensures TotalRank(Broadcast(ts)) <= TotalRank(ts) + |ts|
  {
    if ts != [] {
      BroadcastRank(ts[1..]);
      assert Broadcast(ts)[1..] == Broadcast(ts[1..]);
    }
  }

  // ----- the workers -----

  lemma MoveRank(ts: seq<Thread>, t: ThreadId, x: Thread, closing: bool)
    requires t < |ts|
    ensures ThreadsRank(ts[t := x], closing) + Rank(ts[t]) == ThreadsRank(ts, closing) + Rank(x)
  {
    RankUpdate(ts, t, x);
  }

  lemma LoopTopRank(s: State, t: ThreadId)
    requires t < |s.threads| && LoopTop(s, t).Next?
    ensures Potential(LoopTop(s, t).s) + Rank(s.threads[t]) <= Potential(s)
  {
    hide ThreadsRank, FlagRank, LoopRank;
    MoveRank(s.threads, t, Waiting, s.closing);
    MoveRank(s.threads, t, Exited, s.closing);
    if s.queued != [] { MoveRank(s.threads, t, Busy(s.queued[0]), s.closing); }
  }

  lemma LockRank(s: State, t: ThreadId)
    requires DoLock(s, t).Next?
    ensures Potential(DoLock(s, t).s) < Potential(s)
  {
    hide LoopTop, ThreadsRank, FlagRank, LoopRank, ListRank;
    var m := if s.threads[t].Woken? then s.(nrIdle := s.nrIdle - 1) else s;
    assert Potential(m) == Potential(s);
    LoopTopRank(m, t);
  }

  lemma ReturnRank(s: State, t: ThreadId)
    requires DoFnReturns(s, t).Next?
    ensures Potential(DoFnReturns(s, t).s) < Potential(s)
  {
    hide LoopTop, ThreadsRank, LoopRank;
    var w := s.threads[t].w;
    if s.works[w] == Dropped {
      MoveRank(s.threads, t, Freeing(w), s.closing);
    } else {
      var m := s.(works := s.works[w := Done], done := s.done + [w], eventfd := s.eventfd + 1);
      assert Potential(m) <= Potential(s) + 6;
      hide Potential, ListRank, FlagRank;
      LoopTopRank(m, t);
    }
  }

  lemma FreeRank(s: State, w: WorkId)
    requires Free(s, w).Next?
    ensures Potential(Free(s, w).s) == Potential(s)
  {
    hide ThreadsRank, FlagRank, LoopRank, ListRank;
  }

  lemma FreeDroppedRank(s: State, t: ThreadId)
    requires DoFreeDropped(s, t).Next?
    ensures Potential(DoFreeDropped(s, t).s) < Potential(s)
  {
    hide ThreadsRank, FlagRank, LoopRank, ListRank;
    MoveRank(s.threads, t, Looping, s.closing);
    FreeRank(s.(threads := s.threads[t := Looping]), s.threads[t].w);
  }

  // ----- the event loop -----

  lemma TimerRank(s: State, w: WorkId)
    requires DoTimerFires(s, w).Next?
    ensures Potential(DoTimerFires(s, w).s) < Potential(s)
  {
    hide ThreadsRank, FlagRank, LoopRank;
    TimerGone(s.timers, w);
    FinishingRank(w);
  }

  lemma FinishingRank(w: WorkId)
    ensures LoopRank(Finishing(w, true)) == 3 && LoopRank(Idle) == 0
  {
  }

  lemma EventRank(s: State)
    requires Numbers(s) && DoEventReady(s).Next?
    ensures Potential(DoEventReady(s).s) < Potential(s)
  {
    assert !s.freePending;
    hide ThreadsRank, ListRank, Numbers;
  }

  /** A work leaves the active list; one that is DONE leaves the list of finished works. */
  lemma DetachRank(s: State, w: WorkId)
    requires Memory(s) && Detach(s, w).Next?
    ensures Potential(Detach(s, w).s) + 1 + (if w in s.works && s.works[w] == Done then 4 else 0) <= Potential(s)
    ensures Detach(s, w).s.loop == s.loop
  {
    if s.works[w] == Done { DoneInList(s, w); }
    UnlinkRank(s.queued, s.done, s.active, s.timers, w);
    hide Without, ThreadsRank, FlagRank, LoopRank, ListRank, Memory;
  }

  lemma UnlinkRank(queued: seq<WorkId>, done: seq<WorkId>, active: seq<WorkId>, timers: set<WorkId>, w: WorkId)
    requires w in active
    ensures ListRank(queued, done, Without(active, w), timers - {w}) < ListRank(queued, done, active, timers)
    ensures ListRank(Without(queued, w), Without(done, w), Without(active, w), timers - {w})
        + (if w in done then 4 else 0) < ListRank(queued, done, active, timers)
  {
    hide Without;
    WithoutShrinks(active, w);
    WithoutShrinks(queued, w);
    WithoutShrinks(done, w);
    TimerGone(timers, w);
  }

  lemma DoneInList(s: State, w: WorkId)
    requires Memory(s) && w in s.active && w in s.works && s.works[w] == Done
    ensures w in s.done
  {
  }

  lemma DropRank(s: State, w: WorkId)
    requires Memory(s) && Drop(s, w).Next?
    ensures Potential(Drop(s, w).s) < Potential(s)
  {
    hide Detach, Memory, Potential, Free;
    DetachRank(s, w);
    var u := Detach(s, w).s;
    var v := u.(cancelled := u.cancelled + {w});
    LogRank(u, v);
    if Free(v, w).Next? { FreeRank(v, w); }
  }

  lemma LogRank(s: State, u: State)
    requires u == s.(cancelled := u.cancelled, reported := u.reported)
    ensures Potential(u) == Potential(s)
  {
  }

  lemma FinishRank(s: State, w: WorkId, timedOut: bool)
    requires Memory(s) && s.loop == Finishing(w, timedOut) && Finish(s, w, timedOut).Next?
    ensures Potential(Finish(s, w, timedOut).s) < Potential(s)
  {
    if !timedOut { FinishingDone(s); }
    hide Memory, Detach, Potential;
    DetachRank(s, w);
    LoopMoves(Detach(s, w).s, Finish(s, w, timedOut).s);
  }

  lemma LoopMoves(s: State, u: State)
    requires u == s.(loop := u.loop, reported := u.reported)
    ensures Potential(u) + LoopRank(s.loop) == Potential(s) + LoopRank(u.loop)
  {
    hide ThreadsRank, FlagRank, ListRank, LoopRank;
  }

  lemma FinishingDone(s: State)
    requires Memory(s) && s.loop.Finishing? && !s.loop.timedOut
    ensures s.loop.w in s.works && s.works[s.loop.w] == Done
  {
  }

  lemma CloseRank(s: State)
    requires s.loop.Closing? && !s.closing && DoLoopStep(s).Next?
    ensures Potential(DoLoopStep(s).s) < Potential(s)
  {
    BroadcastRank(s.threads);
    hide TotalRank, FlagRank, ListRank;
  }

  lemma CallbackRank(s: State)
    requires (s.loop.Callback? || s.loop.Returning?) && DoLoopStep(s).Next?
    ensures Potential(DoLoopStep(s).s) < Potential(s)
  {
    var held := s.loop.held;
    var u := s.(loop := if s.loop.Returning? then Gone else if s.dispatching then Dispatch else Idle);
    hide Potential, Free;
    LoopMoves(s, u);
    if held.mine { FreeRank(u, held.w); }
  }

  lemma LoopStepRank(s: State)
    requires Inv(s) && DoLoopStep(s).Next?
    ensures Potential(DoLoopStep(s).s) < Potential(s)
  {
    if s.loop.Finishing? {
      hide Potential, Finish, Memory, Numbers;
      FinishRank(s, s.loop.w, s.loop.timedOut);
    } else if s.loop.Callback? || s.loop.Returning? {
      hide Potential, DoLoopStep, Memory, Numbers;
      CallbackRank(s);
    } else if s.loop.Closing? {
      hide Potential, DoLoopStep, Memory;
      CloseRank(s);
    } else if s.loop.Destroy? && s.active != [] {
      hide Potential, Drop, Memory, Numbers;
      DropRank(s, s.active[0]);
    } else {
      hide ThreadsRank, ListRank, Memory;
    }
  }

  /** Every step of its own brings the pool nearer to rest. */
  lemma QuietStep(s: State, a: Action)
    requires Inv(s) && Quiet(a) && Step(s, a).Next?
    ensures Potential(Step(s, a).s) < Potential(s)
  {
    hide Potential, DoLock, DoFnReturns, DoFreeDropped, DoTimerFires, DoEventReady, DoLoopStep, Memory, Numbers;
    match a
    case Lock(t) => LockRank(s, t);
    case FnReturns(t) => ReturnRank(s, t);
    case FreeDropped(t) => FreeDroppedRank(s, t);
    case TimerFires(w) => TimerRank(s, w);
    case EventReady => EventRank(s);
    case LoopStep => LoopStepRank(s);
  }

  // ----- where it ends -----

  /** Something is always left to do while a work waits for a worker or for its callback. */
  lemma NotAtRest(s: State) returns (a: Action)
    requires Reachable(s) && (s.queued != [] || s.done != [])
    ensures Quiet(a) && Step(s, a).Next?
  {
    hide Step;
    if s.queued != [] {
      a := QueueMoves(s);
    } else if s.loop.Idle? {
      NotStranded(s);
      a := EventReady;
    } else {
      a := LoopStep;
      ReachableInv(s);
      CountersAgree(s);
      LoopGoesOn(s);
      StepInv(s, a);
    }
  }

  lemma LoopGoesOn(s: State)
    requires Inv(s) && s.done != [] && !s.loop.Idle?
    ensures !Step(s, LoopStep).Blocked?
  {
  }

  ghost predicate NoQuietStep(s: State)
  {
    forall a :: Quiet(a) ==> !Step(s, a).Next?
  }

  /** No quiet step left: the workers sleep or have left, and the loop waits or the pool is gone. */
  lemma EveryoneRests(s: State)
    requires Inv(s) && NoQuietStep(s)
    ensures s.loop.Idle? || s.loop.Gone?
    ensures forall t :: 0 <= t < |s.threads| ==> s.threads[t].Waiting? || s.threads[t].Exited?
  {
    hide Step, Memory, Numbers, NoQuietStep;
    if !s.loop.Idle? && !s.loop.Gone? {
      LoopNotBlocked(s);
      StepLeft(s, LoopStep);
    }
    forall t | 0 <= t < |s.threads| ensures s.threads[t].Waiting? || s.threads[t].Exited? {
      if !s.threads[t].Waiting? && !s.threads[t].Exited? {
        var a := if s.threads[t].Busy? then FnReturns(t) else if s.threads[t].Freeing? then FreeDropped(t) else Lock(t);
        NotBlocked(s, a, t);
        StepLeft(s, a);
      }
    }
  }

  lemma StepLeft(s: State, a: Action)
    requires Inv(s) && Quiet(a) && !Step(s, a).Blocked?
    ensures !NoQuietStep(s)
  {
    hide Step, Memory, Numbers;
    StepInv(s, a);
  }

  /** A work in memory is on a list, in a callback or at a worker; at rest there is none. */
  lemma NoWorkLeft(s: State, w: WorkId)
    requires Memory(s) && s.queued == [] && s.done == [] && (s.loop.Idle? || s.loop.Gone?)
    requires forall t :: 0 <= t < |s.threads| ==> s.threads[t].Waiting? || s.threads[t].Exited?
    ensures w !in s.works
  {
    if w in s.works && AtWorker(s.works, w) {
      var t := FindHolder(s.threads, w);
    }
  }

  /** The pool at rest: every accepted work was freed once, and reported once unless it was cancelled. */
  lemma AtRest(s: State)
    requires Reachable(s) && NoQuietStep(s)
    ensures s.queued == [] && s.done == [] && s.active == [] && s.timers == {} && s.works == map[]
    ensures forall w: WorkId :: w < s.next ==> s.freed[w] == 1 && s.reported[w] == (if w in s.cancelled then 0 else 1)
  {
    hide Step, NoQuietStep;
    ReachableInv(s);
    if s.queued != [] || s.done != [] {
      var a := NotAtRest(s);
      StepLeft(s, a);
    }
    EveryoneRests(s);
    forall w | w in s.works ensures false { NoWorkLeft(s, w); }
    Empty(s);
  }

  lemma Empty(s: State)
    requires Memory(s) && forall w :: w !in s.works
    ensures s.active == [] && s.timers == {} && s.works == map[]
    ensures forall w: WorkId :: w < s.next ==> s.freed[w] == 1 && s.reported[w] == (if w in s.cancelled then 0 else 1)
  {
    if s.active != [] { FirstIn(s.active); }
    assert s.works.Keys == {};
  }

  /** Left to itself, the pool makes a bounded number of steps; when none is left, every accepted work
      has been run or dropped, reported unless it was cancelled, and freed. */
  lemma {:induction false} QuietEnds(s: State, run: seq<Action>)
    requires Reachable(s) && AllQuiet(run) && Run(s, run).Next?
    ensures |run| + Potential(Run(s, run).s) <= Potential(s)
    ensures var u := Run(s, run).s;
        NoQuietStep(u) ==> u.works == map[] && u.queued == [] && u.done == [] && u.active == []
    decreases |run|
  {
    hide Step, Potential, NoQuietStep;
    if run == [] {
      if NoQuietStep(s) { AtRest(s); }
    } else {
      var u := Step(s, run[0]).s;
      ReachableInv(s);
      hide Inv;
      QuietStep(s, run[0]);
      RunOnce(s, run[0]);
      ReachableRun(s, [run[0]]);
      assert AllQuiet(run[1..]);
      QuietEnds(u, run[1..]);
    }
  }
}
