/**
 on_done() and destroy() of daemon-util/work.c as whole functions, with workers and users that take
 their own steps in between: a schedule says which.
 */
module WorkPoolLoop {
  import opened Wrappers
  import opened WorkPool
  import opened WorkPoolInvariant
  import opened WorkPoolRuns
  import opened WorkPoolCode

  // ----- what others do meanwhile -----

  predicate OfWorker(a: Action)
  {
    a.Lock? || a.FnReturns? || a.FreeDropped? || a.SpuriousWakeup?
  }

  predicate OfUser(a: Action)
  {
    a.Submit? || a.Cancel? || a.PoolFree?
  }

  /** What a worker never touches. */
  ghost predicate LeavesLoop(s: State, u: State)
  {
    && u.loop == s.loop && u.active == s.active && u.cancelled == s.cancelled && u.reported == s.reported
    && u.dispatching == s.dispatching && u.freePending == s.freePending && u.poolAlive == s.poolAlive
    && u.works.Keys <= s.works.Keys
  }

  lemma LoopTopLeaves(s: State, t: ThreadId)
    requires t < |s.threads|
    ensures LoopTop(s, t).Next? ==> LeavesLoop(s, LoopTop(s, t).s)
  {
  }

  lemma LockLeaves(s: State, t: ThreadId)
    requires DoLock(s, t).Next?
    ensures LeavesLoop(s, DoLock(s, t).s)
  {
    hide LoopTop;
    LoopTopLeaves(s, t);
    LoopTopLeaves(s.(nrIdle := s.nrIdle - 1), t);
  }

  lemma ReturnLeaves(s: State, t: ThreadId)
    requires DoFnReturns(s, t).Next?
    ensures LeavesLoop(s, DoFnReturns(s, t).s)
  {
    hide LoopTop;
    var w := s.threads[t].w;
    LoopTopLeaves(s.(works := s.works[w := Done], done := s.done + [w], eventfd := s.eventfd + 1), t);
  }

  lemma IdleLeaves(s: State, t: ThreadId)
    ensures DoFreeDropped(s, t).Next? ==> LeavesLoop(s, DoFreeDropped(s, t).s)
    ensures DoSpuriousWakeup(s, t).Next? ==> LeavesLoop(s, DoSpuriousWakeup(s, t).s)
  {
  }

  lemma WorkerLeaves(s: State, a: Action)
    requires OfWorker(a) && Step(s, a).Next?
    ensures LeavesLoop(s, Step(s, a).s)
  {
    hide DoLock, DoFnReturns, DoFreeDropped, DoSpuriousWakeup, LeavesLoop;
    match a
    case Lock(t) => LockLeaves(s, t);
    case FnReturns(t) => ReturnLeaves(s, t);
    case FreeDropped(t) => IdleLeaves(s, t);
    case SpuriousWakeup(t) => IdleLeaves(s, t);
  }

  /** A worker's step can be made. */
  predicate CanMove(threads: seq<Thread>, a: Action)
    requires OfWorker(a)
  {
    a.t < |threads| &&
    match a
    case Lock(t) => threads[t].Fresh? || threads[t].Woken? || threads[t].Looping?
    case FnReturns(t) => threads[t].Busy?
    case FreeDropped(t) => threads[t].Freeing?
    case SpuriousWakeup(t) => threads[t].Waiting?
  }

  lemma MovesOrBlocked(s: State, a: Action)
    requires Inv(s) && OfWorker(a)
    ensures if CanMove(s.threads, a) then Step(s, a).Next? else Step(s, a) == Blocked
  {
    hide Memory, Numbers;
    StepInv(s, a);
    hide LoopTop, Free;
    CanMoveStep(s, a);
  }

  lemma CanMoveStep(s: State, a: Action)
    requires OfWorker(a)
    ensures CanMove(s.threads, a) <==> !Step(s, a).Blocked?
  {
  }

  /** One step of a worker, if it can be made. */
  method WorkerStep(p: Pool, a: Action)
    requires Inv(p.View()) && OfWorker(a)
    modifies p
    ensures Inv(p.View()) && LeavesLoop(old(p.View()), p.View())
    ensures p.View() == if Step(old(p.View()), a).Next? then Step(old(p.View()), a).s else old(p.View())
  {
    MovesOrBlocked(p.View(), a);
    StepInv(p.View(), a);
    if !CanMove(p.threads, a) {
      return;
    }
    WorkerLeaves(p.View(), a);
    hide Inv, LeavesLoop, DoLock, DoFnReturns, DoFreeDropped, DoSpuriousWakeup;
    match a {
      case Lock(t) => p.Lock(t);
      case FnReturns(t) => p.FnReturns(t);
      case FreeDropped(t) => p.FreeDropped(t);
      case SpuriousWakeup(t) => p.SpuriousWakeup(t);
    }
  }

  /** The run `trace` leads from s to u, by the event loop, by workers and by calls of the user that are in `calls`. */
  ghost predicate Ran(s: State, trace: seq<Action>, u: State, calls: seq<Action>)
  {
    && Run(s, trace) == Next(u)
    && forall a :: a in trace ==> a.LoopStep? || a.EventReady? || OfWorker(a) || (OfUser(a) && a in calls)
  }

  lemma RanNothing(s: State, calls: seq<Action>)
    ensures Ran(s, [], s, calls)
  {
  }

  lemma RanMore(s: State, trace: seq<Action>, m: State, a: Action, u: State, calls: seq<Action>)
    requires Ran(s, trace, m, calls) && Step(m, a) == Next(u)
    requires a.LoopStep? || a.EventReady? || OfWorker(a) || (OfUser(a) && a in calls)
    ensures Ran(s, trace + [a], u, calls)
  {
    hide Step, OfWorker, OfUser;
    RunConcat(s, trace, [a]);
    RunStep(m, [a]);
    assert [a][1..] == [];
  }

  lemma RanJoin(s: State, x: seq<Action>, m: State, y: seq<Action>, u: State, calls: seq<Action>)
    requires Ran(s, x, m, calls) && Ran(m, y, u, calls)
    ensures Ran(s, x + y, u, calls)
  {
    hide Step, OfWorker, OfUser;
    RunConcat(s, x, y);
  }

  lemma RanWidens(s: State, trace: seq<Action>, u: State, few: seq<Action>, calls: seq<Action>)
    requires Ran(s, trace, u, few) && forall a :: a in few ==> a in calls
    ensures Ran(s, trace, u, calls)
  {
    hide Run;
  }

  method Workers(p: Pool, steps: seq<Action>) returns (ghost trace: seq<Action>)
    requires Inv(p.View()) && forall i :: 0 <= i < |steps| ==> OfWorker(steps[i])
    modifies p
    ensures Inv(p.View()) && LeavesLoop(old(p.View()), p.View()) && (steps == [] ==> p.View() == old(p.View()))
    ensures Ran(old(p.View()), trace, p.View(), [])
  {
    hide Inv, Step, Ran, OfWorker;
    trace := [];
    RanNothing(p.View(), []);
    for i := 0 to |steps|
      invariant Inv(p.View()) && LeavesLoop(old(p.View()), p.View()) && (i == 0 ==> p.View() == old(p.View()))
      invariant Ran(old(p.View()), trace, p.View(), [])
    {
      ghost var m := p.View();
      WorkerStep(p, steps[i]);
      if Step(m, steps[i]).Next? {
        RanMore(old(p.View()), trace, m, steps[i], p.View(), []);
        trace := trace + [steps[i]];
      }
    }
  }

  // ----- destroy() -----

  /** The workers' steps of round k. */
  function Steps(schedule: seq<seq<Action>>, k: nat): (r: seq<Action>)
  {
    if k < |schedule| then schedule[k] else []
  }

  predicate AllOfWorkers(schedule: seq<seq<Action>>)
  {
    forall k, i :: 0 <= k < |schedule| && 0 <= i < |schedule[k]| ==> OfWorker(schedule[k][i])
  }

  function Elements(q: seq<WorkId>): (r: set<WorkId>)
  {
    set w | w in q
  }

  /** A round of the loop drops the first active work. */
  lemma DropsFirst(s: State)
    requires Inv(s) && s.loop.Destroy? && s.active != []
    ensures DoLoopStep(s).Next? && Inv(DoLoopStep(s).s)
    ensures var u := DoLoopStep(s).s;
      && u.loop == s.loop && |u.active| < |s.active|
      && u.cancelled + Elements(u.active) == s.cancelled + Elements(s.active)
  {
    LoopMovesOn(s);
    hide Memory, Numbers, Drop;
    FirstIn(s.active);
    DropEffect(s, s.active[0]);
  }

  lemma DropEffect(s: State, w: WorkId)
    requires Inv(s) && w in s.active && Drop(s, w).Next?
    ensures var u := Drop(s, w).s;
      && u.loop == s.loop && |u.active| < |s.active|
      && u.cancelled + Elements(u.active) == s.cancelled + Elements(s.active)
  {
    WithoutFacts(s.active, w);
    DropLists(s, w);
    hide Without, Memory, Numbers, Drop;
  }

  lemma DropLists(s: State, w: WorkId)
    requires Drop(s, w).Next?
    ensures var u := Drop(s, w).s;
      u.loop == s.loop && u.active == Without(s.active, w) && u.cancelled == s.cancelled + {w}
  {
    DetachLists(s, w);
    hide Detach, Without, Free;
    var u := Detach(s, w).s;
    FreeLists(u.(cancelled := u.cancelled + {w}), w);
  }

  lemma FreeLists(s: State, w: WorkId)
    ensures Free(s, w).Next? ==>
      var u := Free(s, w).s; u.loop == s.loop && u.active == s.active && u.cancelled == s.cancelled
  {
  }

  lemma DetachLists(s: State, w: WorkId)
    requires Detach(s, w).Next?
    ensures var u := Detach(s, w).s;
      u.loop == s.loop && u.active == Without(s.active, w) && u.cancelled == s.cancelled
  {
    hide Without;
  }

  /** The loop is done: the pool is freed, and the last critical section can run. */
  lemma DestroyEnds(s: State)
    requires Inv(s) && s.loop.Destroy? && s.active == []
    ensures DoLoopStep(s).Next? && Inv(DoLoopStep(s).s)
    ensures DoLoopStep(s).s == s.(poolAlive := false, loop := Closing(s.loop.after))
  {
    StepInv(s, LoopStep);
    LoopNotBlocked(s);
  }

  lemma CloseEnds(s: State)
    requires Inv(s) && s.loop.Closing?
    ensures DoLoopStep(s).Next? && Inv(DoLoopStep(s).s)
    ensures var u := DoLoopStep(s).s;
      && u.loop == (if s.loop.after.Some? then Returning(s.loop.after.value) else Gone) && u.closing
      && u.cancelled == s.cancelled
  {
    StepInv(s, LoopStep);
    LoopNotBlocked(s);
  }

  lemma NothingListed(s: State)
    requires Inv(s) && s.closing
    ensures s.active == [] && s.queued == [] && s.done == [] && !s.poolAlive
  {
  }

  /** destroy(), with workers between its rounds: every active work is cancelled, the pool is freed, and
      nothing is left on its lists. */
  method Destroy(p: Pool, schedule: seq<seq<Action>>) returns (ghost trace: seq<Action>)
    requires Inv(p.View()) && p.loop.Destroy? && AllOfWorkers(schedule)
    modifies p
    ensures Inv(p.View()) && p.closing && !p.poolAlive && p.active == [] && p.queued == [] && p.done == []
    ensures var after := old(p.loop).after; p.loop == if after.Some? then Returning(after.value) else Gone
    ensures p.cancelled == old(p.cancelled) + Elements(old(p.active))
    ensures Ran(old(p.View()), trace, p.View(), [])
  {
    hide Inv, DoLoopStep, Ran, Run;
    ghost var start, all := p.View(), p.cancelled + Elements(p.active);
    var k := 0;
    trace := [];
    RanNothing(start, []);
    while p.active != []
      invariant Inv(p.View()) && p.loop == old(p.loop) && p.cancelled + Elements(p.active) == all
      invariant Ran(start, trace, p.View(), [])
      decreases |p.active|
    {
      DropsFirst(p.View());
      ghost var s := p.View();
      p.DestroyNext();
      trace := LoopThen(start, trace, s, p.View(), []);
      trace := WorkersThen(p, Steps(schedule, k), start, trace, []);
      k := k + 1;
    }
    DestroyEnds(p.View());
    ghost var s := p.View();
    p.DestroyNext();
    trace := LoopThen(start, trace, s, p.View(), []);
    trace := WorkersThen(p, Steps(schedule, k), start, trace, []);
    CloseEnds(p.View());
    s := p.View();
    p.Close();
    trace := LoopThen(start, trace, s, p.View(), []);
    NothingListed(p.View());
  }

  /** A step of the event loop behind a run. */
  lemma LoopThen(start: State, trace: seq<Action>, s: State, u: State, calls: seq<Action>) returns (more: seq<Action>)
    requires Ran(start, trace, s, calls) && Next(u) == DoLoopStep(s)
    ensures Ran(start, more, u, calls)
  {
    hide DoLoopStep, Ran;
    RanMore(start, trace, s, LoopStep, u, calls);
    more := trace + [LoopStep];
  }

  /** Steps of workers behind a run. */
  method WorkersThen(p: Pool, steps: seq<Action>, ghost start: State, ghost trace: seq<Action>,
      ghost calls: seq<Action>)
    returns (ghost more: seq<Action>)
    requires Inv(p.View()) && forall i :: 0 <= i < |steps| ==> OfWorker(steps[i])
    requires Ran(start, trace, p.View(), calls)
    modifies p
    ensures Inv(p.View()) && LeavesLoop(old(p.View()), p.View()) && (steps == [] ==> p.View() == old(p.View()))
    ensures Ran(start, more, p.View(), calls)
  {
    hide Inv, Ran, LeavesLoop, OfWorker;
    ghost var s := p.View();
    ghost var extra := Workers(p, steps);
    RanWidens(s, extra, p.View(), [], calls);
    RanJoin(start, trace, s, extra, p.View(), calls);
    more := trace + extra;
  }

  // ----- on_done() -----

  /** What others do in one round: before the work is detached, during its callback, and after it. */
  datatype Round = Round(before: seq<Action>, during: seq<Action>, after: seq<Action>)

  predicate RoundOk(r: Round)
  {
    && (forall i :: 0 <= i < |r.before| ==> OfWorker(r.before[i]))
    && (forall i :: 0 <= i < |r.during| ==> OfWorker(r.during[i]) || OfUser(r.during[i]))
    && (forall i :: 0 <= i < |r.after| ==> OfWorker(r.after[i]))
  }

  function RoundAt(rounds: seq<Round>, k: nat): (r: Round)
  {
    if k < |rounds| then rounds[k] else Round([], [], [])
  }

  /** In a callback of on_done() a user may submit, cancel and free the pool; the loop stays where it is. */
  ghost predicate StaysInCallback(s: State, u: State)
  {
    u.loop == s.loop && u.dispatching == s.dispatching && u.poolAlive == s.poolAlive && u.reported == s.reported
  }

  lemma SignalMore(ts: seq<Thread>, wake: Option<ThreadId>)
    requires MaySignal(ts, wake)
    ensures MaySignal(ts + [Fresh], wake)
  {
  }

  lemma SubmitWorks(s: State, timed: bool, spawnOk: bool, wake: Option<ThreadId>)
    requires Inv(s) && s.loop.Callback? && MaySignal(s.threads, wake)
    ensures s.next !in s.works
    ensures var o := DoSubmit(s, timed, spawnOk, wake); o.Next? && Inv(o.s) && StaysInCallback(s, o.s)
  {
    SignalMore(s.threads, wake);
    StepInv(s, Submit(timed, spawnOk, wake));
    UserAlive(s);
    SubmitStays(s, timed, spawnOk, wake);
  }

  lemma SubmitStays(s: State, timed: bool, spawnOk: bool, wake: Option<ThreadId>)
    requires s.loop.Callback? && s.poolAlive && s.sharedAlive
    requires MaySignal(s.threads, wake) && MaySignal(s.threads + [Fresh], wake)
    ensures var o := DoSubmit(s, timed, spawnOk, wake); o.Next? && StaysInCallback(s, o.s)
  {
    hide WantsWorker, Signal, MaySignal;
  }

  lemma CancelWorks(s: State, w: WorkId)
    requires Inv(s) && s.loop.Callback? && w in s.active
    ensures DoCancel(s, w).Next? && Inv(DoCancel(s, w).s) && StaysInCallback(s, DoCancel(s, w).s)
  {
    StepInv(s, Cancel(w));
    DetachNext(s, w);
    hide Without, Numbers;
  }

  lemma PoolFreeWorks(s: State)
    requires Inv(s) && s.loop.Callback? && s.dispatching
    ensures DoPoolFree(s).Next? && Inv(DoPoolFree(s).s) && StaysInCallback(s, DoPoolFree(s).s)
  {
    StepInv(s, PoolFree);
    UserAlive(s);
  }

  /** One call of the user from the callback, if it is allowed. */
  method UserStep(p: Pool, a: Action)
    requires Inv(p.View()) && OfUser(a) && p.loop.Callback? && p.dispatching
    modifies p
    ensures Inv(p.View()) && StaysInCallback(old(p.View()), p.View())
    ensures p.View() == old(p.View()) || Step(old(p.View()), a) == Next(p.View())
  {
    hide Inv, DoSubmit, DoCancel, DoPoolFree;
    match a {
      case Submit(timed, spawnOk, wake) =>
        if MaySignal(p.threads, wake) {
          SubmitWorks(p.View(), timed, spawnOk, wake);
          var accepted := p.Accept(timed, spawnOk, wake);
        }
      case Cancel(w) =>
        if w in p.active {
          CancelWorks(p.View(), w);
          p.Cancel(w);
        }
      case PoolFree =>
        PoolFreeWorks(p.View());
        p.PoolFree();
    }
  }

  method Others(p: Pool, steps: seq<Action>) returns (ghost trace: seq<Action>)
    requires Inv(p.View()) && p.loop.Callback? && p.dispatching
    requires forall i :: 0 <= i < |steps| ==> OfWorker(steps[i]) || OfUser(steps[i])
    modifies p
    ensures Inv(p.View()) && StaysInCallback(old(p.View()), p.View()) && (steps == [] ==> p.View() == old(p.View()))
    ensures Ran(old(p.View()), trace, p.View(), steps)
  {
    hide Inv, Step, Ran, OfWorker, OfUser;
    trace := [];
    RanNothing(p.View(), steps);
    for i := 0 to |steps|
      invariant Inv(p.View()) && StaysInCallback(old(p.View()), p.View()) && (i == 0 ==> p.View() == old(p.View()))
      invariant Ran(old(p.View()), trace, p.View(), steps)
    {
      ghost var m := p.View();
      if OfWorker(steps[i]) {
        WorkerStep(p, steps[i]);
      } else {
        UserStep(p, steps[i]);
      }
      if Step(m, steps[i]) == Next(p.View()) {
        RanMore(old(p.View()), trace, m, steps[i], p.View(), steps);
        trace := trace + [steps[i]];
      }
    }
  }

  lemma LoopMovesOn(s: State)
    requires Inv(s) && !s.loop.Idle? && !s.loop.Gone?
    ensures DoLoopStep(s).Next? && Inv(DoLoopStep(s).s)
  {
    hide DoLoopStep, Memory, Numbers;
    StepInv(s, LoopStep);
    LoopNotBlocked(s);
  }

  /** finish() of a finished work: it leaves the list. */
  lemma FinishesOne(s: State)
    requires Inv(s) && s.loop.Finishing? && !s.loop.timedOut
    ensures DoLoopStep(s).Next? && Inv(DoLoopStep(s).s)
    ensures var u := DoLoopStep(s).s;
      && u.loop.Callback? && u.dispatching == s.dispatching && |u.done| < |s.done| && s.dispatching
      && u.reported == s.reported + multiset{s.loop.w} && u.loop.held.w == s.loop.w && !u.loop.timedOut
  {
    LoopMovesOn(s);
    FinishingDetaches(s);
    WithoutFacts(s.done, s.loop.w);
    hide Without;
  }

  lemma ReturnsToLoop(s: State)
    requires Inv(s) && s.loop.Callback? && s.dispatching
    ensures DoLoopStep(s).Next? && Inv(DoLoopStep(s).s)
    ensures var u := DoLoopStep(s).s; u.loop.Dispatch? && u.done == s.done && u.reported == s.reported
    ensures !s.loop.timedOut ==> s.loop.held.w !in DoLoopStep(s).s.works
  {
    LoopMovesOn(s);
    if !s.loop.timedOut { CallbackIsMine(s); }
    hide Memory, Numbers;
  }

  lemma CallbackIsMine(s: State)
    requires Inv(s) && s.loop.Callback? && !s.loop.timedOut
    ensures s.loop.held.mine
  {
    hide Numbers;
  }

  /** One finished work, the first: detached, reported, freed, with others in between. */
  method ReportOne(p: Pool, r: Round) returns (ghost trace: seq<Action>)
    requires Inv(p.View()) && p.loop.Dispatch? && !p.freePending && p.done != [] && RoundOk(r)
    modifies p
    ensures Inv(p.View()) && p.loop.Dispatch?
    ensures p.reported == old(p.reported) + multiset{old(p.done[0])} && p.freed[old(p.done[0])] == 1
    ensures r == Round([], [], []) ==> |p.done| < |old(p.done)|
    ensures Ran(old(p.View()), trace, p.View(), r.during)
  {
    hide Inv, DoLoopStep, Ran, OfWorker, OfUser;
    ghost var start, s := p.View(), p.View();
    LoopMovesOn(p.View());
    ChoosesFirst(p.View());
    RanNothing(start, r.during);
    p.DispatchNext();
    trace := LoopThen(start, [], s, p.View(), r.during);
    trace := WorkersThen(p, r.before, start, trace, r.during);
    FinishesOne(p.View());
    s := p.View();
    p.FinishWork();
    trace := LoopThen(start, trace, s, p.View(), r.during);
    trace := CallbackThen(p, r.during, start, trace);
    trace := WorkersThen(p, r.after, start, trace, r.during);
    FreedOnce(p.View(), old(p.done[0]));
  }

  lemma FreedOnce(s: State, w: WorkId)
    requires Inv(s) && w in s.reported && w !in s.works
    ensures s.freed[w] == 1
  {
    hide Numbers;
    assert s.reported[w] == 1;
  }

  /** What happens in a callback, and its end, behind a run. */
  method CallbackThen(p: Pool, steps: seq<Action>, ghost start: State, ghost trace: seq<Action>)
    returns (ghost more: seq<Action>)
    requires Inv(p.View()) && p.loop.Callback? && p.dispatching
    requires forall i :: 0 <= i < |steps| ==> OfWorker(steps[i]) || OfUser(steps[i])
    requires Ran(start, trace, p.View(), steps)
    modifies p
    ensures Inv(p.View()) && p.loop.Dispatch? && p.reported == old(p.reported)
    ensures !old(p.loop).timedOut ==> old(p.loop).held.w !in p.works
    ensures steps == [] ==> p.done == old(p.done)
    ensures Ran(start, more, p.View(), steps)
  {
    hide Inv, DoLoopStep, Ran, OfWorker, OfUser;
    ghost var s := p.View();
    ghost var extra := Others(p, steps);
    RanJoin(start, trace, s, extra, p.View(), steps);
    ReturnsToLoop(p.View());
    s := p.View();
    p.CallbackReturns();
    more := LoopThen(start, trace + extra, s, p.View(), steps);
  }

  lemma ChoosesFirst(s: State)
    requires s.loop.Dispatch? && !s.freePending && s.done != [] && DoLoopStep(s).Next?
    ensures DoLoopStep(s).s == s.(loop := Finishing(s.done[0], false))
  {
  }

  /** What on_done() does when its loop ends. */
  lemma DispatchEnds(s: State)
    requires Inv(s) && s.loop.Dispatch? && (s.freePending || s.done == [])
    ensures DoLoopStep(s).Next? && Inv(DoLoopStep(s).s)
    ensures DoLoopStep(s).s == s.(dispatching := false, loop := if s.freePending then WorkPool.Destroy(None) else Idle)
  {
    LoopMovesOn(s);
  }

  lemma EventStarts(s: State)
    requires Inv(s) && s.loop.Idle? && s.eventfd > 0
    ensures DoEventReady(s).Next? && Inv(DoEventReady(s).s)
  {
    StepInv(s, EventReady);
    UserAlive(s);
  }

  lemma NoneFinished(s: State)
    requires Inv(s) && s.done == []
    ensures forall w :: w in s.active ==> w in s.works && (s.works[w] == Queued || s.works[w] == Running)
  {
  }

  /** All that the user does in the callbacks. */
  function CallsOf(rounds: seq<Round>): (r: seq<Action>)
    ensures forall k, a :: 0 <= k < |rounds| && a in rounds[k].during ==> a in r
  {
    if rounds == [] then [] else rounds[0].during + CallsOf(rounds[1..])
  }

  lemma RoundCalls(rounds: seq<Round>, k: nat)
    ensures forall a :: a in RoundAt(rounds, k).during ==> a in CallsOf(rounds)
  {
  }

  /** on_done(), with workers and users in between: a run of its own steps and of theirs that ends when
      no active work is finished, or after a free that a callback asked for, with the pool destroyed.
      Every work that was finished at the start has been reported or cancelled. */
  method OnDone(p: Pool, rounds: seq<Round>, atEnd: seq<seq<Action>>) returns (ghost trace: seq<Action>)
    requires Inv(p.View()) && p.loop.Idle? && p.eventfd > 0 && AllOfWorkers(atEnd)
    requires forall k :: 0 <= k < |rounds| ==> RoundOk(rounds[k])
    modifies p
    ensures Inv(p.View()) && (p.loop.Idle? || p.loop.Gone?) && !p.dispatching
    ensures p.loop.Idle? ==> p.done == [] && forall w :: w in p.active ==>
        w in p.works && (p.works[w] == Queued || p.works[w] == Running)
    ensures p.loop.Gone? ==> p.closing && p.active == [] && p.queued == [] && p.done == []
    ensures Ran(old(p.View()), trace, p.View(), CallsOf(rounds))
    ensures forall w :: w in old(p.done) ==> w in p.reported || w in p.cancelled
  {
    hide Inv, DoLoopStep, DoEventReady, Ran, RoundOk, OfUser;
    ghost var start, calls := p.View(), CallsOf(rounds);
    EventStarts(p.View());
    StartsDispatch(p.View());
    p.EventReady();
    RanNothing(start, calls);
    RanMore(start, [], start, EventReady, p.View(), calls);
    trace := [] + [EventReady];
    var k := 0;
    while !p.freePending && p.done != []
      invariant Inv(p.View()) && p.loop.Dispatch? && Ran(start, trace, p.View(), calls)
      decreases if k < |rounds| then |rounds| - k else 0, |p.done|
    {
      NoRound(rounds, k);
      RoundCalls(rounds, k);
      ghost var s := p.View();
      ghost var extra := ReportOne(p, RoundAt(rounds, k));
      RanWidens(s, extra, p.View(), RoundAt(rounds, k).during, calls);
      RanJoin(start, trace, s, extra, p.View(), calls);
      trace := trace + extra;
      k := k + 1;
    }
    DispatchEnds(p.View());
    NoneFinishedIf(p.View());
    ghost var s := p.View();
    p.DispatchNext();
    trace := LoopThen(start, trace, s, p.View(), calls);
    if p.loop.Destroy? {
      s := p.View();
      ghost var extra := Destroy(p, atEnd);
      RanWidens(s, extra, p.View(), [], calls);
      RanJoin(start, trace, s, extra, p.View(), calls);
      trace := trace + extra;
      NotDispatching(p.View());
    }
    RanProgressed(start, trace, p.View(), calls);
    AllAccounted(start, p.View());
  }

  lemma NoRound(rounds: seq<Round>, k: nat)
    requires forall j :: 0 <= j < |rounds| ==> RoundOk(rounds[j])
    ensures RoundOk(RoundAt(rounds, k)) && (k >= |rounds| ==> RoundAt(rounds, k) == Round([], [], []))
  {
  }

  // ----- finished works -----

  /** A work that is off the active list stays off; a finished one is still listed or off. */
  ghost predicate Progressed(s: State, u: State)
  {
    && s.next <= u.next
    && forall w: WorkId :: w < s.next ==>
         (w !in s.active ==> w !in u.active) && (w in s.done ==> w in u.done || w !in u.active)
  }

  /** The lists stay as they are, but for more works that finish. */
  ghost predicate MoreDone(s: State, u: State)
  {
    u.next == s.next && u.active == s.active && s.done <= u.done
  }

  lemma MoreIsProgress(s: State, u: State)
    requires MoreDone(s, u)
    ensures Progressed(s, u)
  {
    assert forall w :: w in s.done ==> w in u.done;
  }

  lemma DetachProgress(s: State, w: WorkId)
    requires Detach(s, w).Next?
    ensures Progressed(s, Detach(s, w).s)
  {
    forall x ensures x in Without(s.active, w) <==> x in s.active && x != w {
      WithoutMember(s.active, w, x);
    }
    forall x ensures x in Without(s.done, w) <==> x in s.done && x != w {
      WithoutMember(s.done, w, x);
    }
    hide Without;
  }

  lemma FreeMore(s: State, w: WorkId)
    ensures Free(s, w).Next? ==> MoreDone(s, Free(s, w).s)
    ensures Unref(s).Next? ==> MoreDone(s, Unref(s).s)
  {
  }

  lemma DropProgress(s: State, w: WorkId)
    requires Drop(s, w).Next?
    ensures Progressed(s, Drop(s, w).s)
  {
    DetachProgress(s, w);
    hide Detach, Free;
    var u := Detach(s, w).s;
    FreeMore(u.(cancelled := u.cancelled + {w}), w);
  }

  lemma LoopTopMore(s: State, t: ThreadId)
    requires t < |s.threads|
    ensures LoopTop(s, t).Next? ==> MoreDone(s, LoopTop(s, t).s)
  {
  }

  lemma WorkerMore(s: State, a: Action)
    requires OfWorker(a) && Step(s, a).Next?
    ensures MoreDone(s, Step(s, a).s)
  {
    hide LoopTop, Free;
    if a.t < |s.threads| {
      LoopTopMore(s, a.t);
      LoopTopMore(s.(nrIdle := s.nrIdle - 1), a.t);
      if s.threads[a.t].Busy? { BusyMore(s, a.t); }
      if s.threads[a.t].Freeing? { FreeMore(s.(threads := s.threads[a.t := Looping]), s.threads[a.t].w); }
    }
  }

  lemma BusyMore(s: State, t: ThreadId)
    requires t < |s.threads| && s.threads[t].Busy? && DoFnReturns(s, t).Next?
    ensures MoreDone(s, DoFnReturns(s, t).s)
  {
    hide LoopTop;
    var w := s.threads[t].w;
    LoopTopMore(s.(works := s.works[w := Done], done := s.done + [w], eventfd := s.eventfd + 1), t);
  }

  lemma SubmitProgress(s: State, timed: bool, spawnOk: bool, wake: Option<ThreadId>)
    requires DoSubmit(s, timed, spawnOk, wake).Next?
    ensures Progressed(s, DoSubmit(s, timed, spawnOk, wake).s)
  {
    EnqueueMore(s, spawnOk);
    hide WantsWorker, Signal, Enqueue;
  }

  lemma EnqueueMore(s: State, spawnOk: bool)
    ensures MoreDone(s, Enqueue(s, spawnOk))
  {
    hide WantsWorker;
  }

  /** The same with something in front that leaves the lists alone. */
  lemma FreeProgress(s: State, m: State, w: WorkId)
    requires MoreDone(s, m)
    ensures Free(m, w).Next? ==> Progressed(s, Free(m, w).s)
    ensures Unref(m).Next? ==> Progressed(s, Unref(m).s)
    ensures Progressed(s, m)
  {
    FreeMore(m, w);
    MoreIsProgress(s, m);
    if Free(m, w).Next? { MoreIsProgress(s, Free(m, w).s); }
    if Unref(m).Next? { MoreIsProgress(s, Unref(m).s); }
    hide Free, Unref, Progressed;
  }

  lemma FinishProgress(s: State, w: WorkId, timedOut: bool)
    requires Finish(s, w, timedOut).Next?
    ensures Progressed(s, Finish(s, w, timedOut).s)
  {
    hide Detach;
    DetachProgress(s, w);
  }

  lemma LoopProgress(s: State)
    requires DoLoopStep(s).Next?
    ensures Progressed(s, DoLoopStep(s).s)
  {
    hide Finish, Drop, Free, Unref, Broadcast, Progressed;
    match s.loop
    case Dispatch => FreeProgress(s, DoLoopStep(s).s, 0);
    case Finishing(w, timedOut) => FinishProgress(s, w, timedOut);
    case Callback(held, _) => FreeProgress(s, s.(loop := if s.dispatching then Dispatch else Idle), held.w);
    case Destroy(_) =>
      if s.active != [] { DropProgress(s, s.active[0]); } else { FreeProgress(s, DoLoopStep(s).s, 0); }
    case Closing(after) =>
      FreeProgress(s, s.(closing := true, threads := Broadcast(s.threads),
        loop := if after.Some? then Returning(after.value) else Gone), 0);
    case Returning(held) => FreeProgress(s, s.(loop := Gone), held.w);
    case _ =>
  }

  lemma StepProgress(s: State, a: Action)
    requires Step(s, a).Next?
    ensures Progressed(s, Step(s, a).s)
  {
    hide DoSubmit, DoLock, DoFnReturns, DoFreeDropped, DoSpuriousWakeup, DoLoopStep, Drop, Progressed;
    match a
    case Submit(timed, spawnOk, wake) => SubmitProgress(s, timed, spawnOk, wake);
    case Cancel(w) => DropProgress(s, w);
    case PoolFree => MoreIsProgress(s, Step(s, a).s);
    case TimerFires(w) => MoreIsProgress(s, Step(s, a).s);
    case EventReady => MoreIsProgress(s, Step(s, a).s);
    case LoopStep => LoopProgress(s);
    case Lock(t) => WorkerProgress(s, a);
    case FnReturns(t) => WorkerProgress(s, a);
    case FreeDropped(t) => WorkerProgress(s, a);
    case SpuriousWakeup(t) => WorkerProgress(s, a);
  }

  lemma WorkerProgress(s: State, a: Action)
    requires OfWorker(a) && Step(s, a).Next?
    ensures Progressed(s, Step(s, a).s)
  {
    hide Step;
    WorkerMore(s, a);
    MoreIsProgress(s, Step(s, a).s);
  }

  lemma ProgressOn(s: State, m: State, u: State)
    requires Progressed(s, m) && Progressed(m, u)
    ensures Progressed(s, u)
  {
  }

  lemma {:induction false} RunProgress(s: State, run: seq<Action>)
    requires Run(s, run).Next?
    ensures Progressed(s, Run(s, run).s)
    decreases |run|
  {
    hide Step, Progressed;
    if run == [] {
      NoProgress(s);
    } else {
      var m := Step(s, run[0]).s;
      StepProgress(s, run[0]);
      RunProgress(m, run[1..]);
      ProgressOn(s, m, Run(s, run).s);
    }
  }

  lemma NoProgress(s: State)
    ensures Progressed(s, s)
  {
  }

  lemma RanProgressed(s: State, trace: seq<Action>, u: State, calls: seq<Action>)
    requires Ran(s, trace, u, calls)
    ensures Progressed(s, u)
  {
    hide Step, Progressed;
    RunProgress(s, trace);
  }

  /** What was finished and is not listed any more was reported or cancelled. */
  lemma AllAccounted(s: State, u: State)
    requires Inv(s) && Inv(u) && Progressed(s, u) && u.done == []
    ensures forall w :: w in s.done ==> w in u.reported || w in u.cancelled
  {
    forall w | w in s.done ensures w in u.reported || w in u.cancelled {
      DoneIsAccepted(s, w);
      OffTheList(u, w);
    }
    hide Inv;
  }

  lemma DoneIsAccepted(s: State, w: WorkId)
    requires Inv(s) && w in s.done
    ensures w < s.next
  {
    hide Numbers;
  }

  lemma OffTheList(u: State, w: WorkId)
    requires Inv(u)
    ensures w < u.next && w !in u.active ==> w in u.reported || w in u.cancelled
  {
    hide Numbers;
    if w < u.next && w !in u.active && w !in u.cancelled { assert u.reported[w] == 1; }
  }

  lemma StartsDispatch(s: State)
    requires DoEventReady(s).Next?
    ensures DoEventReady(s).s.loop.Dispatch?
  {
  }

  lemma NoneFinishedIf(s: State)
    requires Inv(s)
    ensures s.done == [] ==> forall w :: w in s.active ==>
        w in s.works && (s.works[w] == Queued || s.works[w] == Running)
  {
    if s.done == [] { NoneFinished(s); }
  }

  lemma NotDispatching(s: State)
    requires Inv(s) && s.loop.Gone?
    ensures !s.dispatching
  {
  }
}
