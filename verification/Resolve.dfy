/**
 Name lookups (daemon-util/resolve.c) on the worker pool.  The worker writes the answer of a
 query, the done callback hands it to the user; nothing but the pool orders the two.
 */
module Resolve {
  import opened Wrappers
  import opened WorkPool
  import opened WorkPoolInvariant
  import opened WorkPoolRuns

  /** What getaddrinfo() left behind: its return value, errno and the list. */
  datatype Answer = Answer(gai: int, errno: int, res: nat)

  datatype Told = Answered(a: Answer) | Unwritten | TimedOut

  /** The pool, the answers that workers wrote into their queries, and what users were told. */
  datatype Client = Client(pool: State, answers: map<WorkId, Answer>, told: map<WorkId, Told>)

  /** lookup_done() */
  function Tell(c: Client, w: WorkId, timedOut: bool): (t: Told)
  {
    if timedOut then TimedOut else if w in c.answers then Answered(c.answers[w]) else Unwritten
  }

  /** A step of the pool; a worker that comes back from lookup() has written its answer, and a
      callback that begins tells the user. */
  ghost function ClientStep(c: Client, a: Action, answer: Answer): (r: Option<Client>)
  {
    match Step(c.pool, a)
    case Next(u) =>
      var answers := if a.FnReturns? && a.t < |c.pool.threads| && c.pool.threads[a.t].Busy?
        then c.answers[c.pool.threads[a.t].w := answer] else c.answers;
      var told := if u.loop.Callback? && c.pool.loop.Finishing?
        then c.told[u.loop.held.w := Tell(c, u.loop.held.w, u.loop.timedOut)] else c.told;
      Some(Client(u, answers, told))
    case _ => None
  }

  ghost function ClientRun(c: Client, run: seq<(Action, Answer)>): (r: Option<Client>)
    decreases |run|
  {
    if run == [] then Some(c)
    else
      var n := ClientStep(c, run[0].0, run[0].1);
      if n.None? then None else ClientRun(n.value, run[1..])
  }

  // ----- what the pool does to a work -----

  /** No worker has w or will get it. */
  ghost predicate Rests(s: State, w: WorkId)
  {
    w < s.next && (w in s.works ==> s.works[w] == Done && w !in s.active)
  }

  predicate IsDone(s: State, w: WorkId)
  {
    w in s.works && s.works[w] == Done
  }

  ghost predicate Kept(s: State, u: State, w: WorkId)
  {
    (IsDone(u, w) ==> IsDone(s, w)) && (Rests(s, w) ==> Rests(u, w))
  }

  lemma BusyIsRunning(s: State, t: ThreadId)
    requires Memory(s) && t < |s.threads| && s.threads[t].Busy?
    ensures s.threads[t].w in s.works && s.works[s.threads[t].w] != Done
  {
    BusyWork(s.threads, s.works, t);
  }

  lemma QueuedIsActive(s: State, w: WorkId)
    requires Memory(s) && w in s.queued
    ensures w in s.active && w in s.works
  {
  }

  lemma LoopTopKeeps(s: State, t: ThreadId, w: WorkId)
    requires t < |s.threads| && (s.queued != [] ==> s.queued[0] in s.active)
    ensures LoopTop(s, t).Next? ==> Kept(s, LoopTop(s, t).s, w)
  {
    hide Unref, Kept;
    if LoopTop(s, t).Next? {
      if s.closing {
        var m := s.(threads := s.threads[t := Exited]);
        UnrefKeeps(m, w);
        KeptFrom(s, m, LoopTop(s, t).s, w);
      } else if s.queued == [] {
        SameWorks(s, LoopTop(s, t).s, w);
      } else {
        TakenKeeps(s, LoopTop(s, t).s, s.queued[0], w);
      }
    }
  }

  lemma TakenKeeps(s: State, u: State, v: WorkId, w: WorkId)
    requires v in s.active && u.next == s.next && u.active == s.active && u.works == s.works[v := Running]
    requires v in s.works
    ensures Kept(s, u, w)
  {
  }

  lemma LockKeeps(s: State, t: ThreadId, w: WorkId)
    requires Memory(s) && DoLock(s, t).Next?
    ensures Kept(s, DoLock(s, t).s, w)
  {
    hide LoopTop, Memory;
    if s.queued != [] { QueuedIsActive(s, s.queued[0]); }
    LoopTopKeeps(s, t, w);
    var m := s.(nrIdle := s.nrIdle - 1);
    LoopTopKeeps(m, t, w);
    assert Rests(m, w) == Rests(s, w) && IsDone(m, w) == IsDone(s, w);
  }

  lemma ReturnBusy(s: State, t: ThreadId)
    requires Memory(s) && DoFnReturns(s, t).Next?
    ensures t < |s.threads| && s.threads[t].Busy? && !Rests(s, s.threads[t].w)
  {
    BusyIsRunning(s, t);
    hide LoopTop, Memory;
  }

  lemma ReturnKeeps(s: State, t: ThreadId, w: WorkId)
    requires Memory(s) && DoFnReturns(s, t).Next? && w != s.threads[t].w
    ensures Kept(s, DoFnReturns(s, t).s, w)
  {
    hide LoopTop, Memory, Kept;
    var v := s.threads[t].w;
    if s.works[v] == Dropped {
      SameWorks(s, s.(threads := s.threads[t := Freeing(v)]), w);
    } else {
      var m := s.(works := s.works[v := Done], done := s.done + [v], eventfd := s.eventfd + 1);
      if s.queued != [] { QueuedIsActive(s, s.queued[0]); }
      LoopTopKeeps(m, t, w);
      SameWorks(s, m, w);
      KeptOn(s, m, DoFnReturns(s, t).s, w);
    }
  }

  lemma KeptOn(s: State, m: State, u: State, w: WorkId)
    requires Kept(s, m, w) && Kept(m, u, w)
    ensures Kept(s, u, w)
  {
    hide Rests, IsDone;
  }

  lemma SameWorks(s: State, u: State, w: WorkId)
    requires u.next == s.next && u.active == s.active
    requires (w in u.works) == (w in s.works) && (w in s.works ==> u.works[w] == s.works[w])
    ensures Kept(s, u, w)
  {
  }

  lemma FreeKeeps(s: State, v: WorkId, w: WorkId)
    requires Free(s, v).Next?
    ensures Kept(s, Free(s, v).s, w) && Free(s, v).s.loop == s.loop
  {
  }

  lemma DetachKeeps(s: State, v: WorkId, w: WorkId)
    requires Detach(s, v).Next?
    ensures Kept(s, Detach(s, v).s, w) && Detach(s, v).s.loop == s.loop
  {
    WithoutIn(s.active, v, w);
    hide Without;
  }

  lemma {:induction false} WithoutIn(q: seq<WorkId>, v: WorkId, w: WorkId)
    ensures w in Without(q, v) ==> w in q
  {
    if q != [] { WithoutIn(q[1..], v, w); }
  }

  lemma DropKeeps(s: State, v: WorkId, w: WorkId)
    requires Drop(s, v).Next?
    ensures Kept(s, Drop(s, v).s, w) && Drop(s, v).s.loop == s.loop
  {
    hide Detach, Free;
    DetachKeeps(s, v, w);
    var u := Detach(s, v).s;
    var m := u.(cancelled := u.cancelled + {v});
    if Free(m, v).Next? { FreeKeeps(m, v, w); }
  }

  lemma LoopStepKeeps(s: State, w: WorkId)
    requires DoLoopStep(s).Next?
    ensures Kept(s, DoLoopStep(s).s, w)
  {
    hide Detach, Drop, Free, Unref, Broadcast;
    match s.loop
    case Finishing(v, timedOut) => DetachKeeps(s, v, w);
    case Callback(held, _) =>
      var u := s.(loop := if s.dispatching then Dispatch else Idle);
      if held.mine { FreeKeeps(u, held.w, w); }
    case Destroy(_) =>
      if s.active != [] { DropKeeps(s, s.active[0], w); }
    case Closing(after) =>
      UnrefKeeps(s.(closing := true, threads := Broadcast(s.threads),
        loop := if after.Some? then Returning(after.value) else Gone), w);
    case Returning(held) =>
      if held.mine { FreeKeeps(s.(loop := Gone), held.w, w); }
    case _ =>
  }

  lemma UnrefKeeps(s: State, w: WorkId)
    requires Unref(s).Next?
    ensures Kept(s, Unref(s).s, w) && Unref(s).s.loop == s.loop
  {
  }

  lemma SubmitKeeps(s: State, timed: bool, spawnOk: bool, wake: Option<ThreadId>, w: WorkId)
    requires DoSubmit(s, timed, spawnOk, wake).Next?
    ensures Kept(s, DoSubmit(s, timed, spawnOk, wake).s, w)
  {
    hide WantsWorker, Signal;
    if !(WantsWorker(s) && !spawnOk && s.nrWorkers == 0) {
      var u := Enqueue(s, spawnOk);
      assert u.works == s.works[s.next := Queued] && u.active == s.active && u.next == s.next;
      hide Enqueue;
    }
  }

  /** Only a worker that comes back makes a work DONE, and a work at rest stays at rest. */
  lemma StepKeeps(s: State, a: Action, w: WorkId)
    requires Memory(s) && Step(s, a).Next?
    ensures (a.FnReturns? && a.t < |s.threads| && s.threads[a.t] == Busy(w)) || Kept(s, Step(s, a).s, w)
  {
    hide Memory, DoSubmit, DoCancel, DoPoolFree, DoTimerFires, DoEventReady, DoLock, DoFnReturns, DoFreeDropped,
      DoSpuriousWakeup, DoLoopStep, Kept;
    match a
    case Submit(timed, spawnOk, wake) => SubmitKeeps(s, timed, spawnOk, wake, w);
    case Cancel(v) => CancelKeeps(s, v, w);
    case PoolFree => PoolFreeKeeps(s, w);
    case TimerFires(v) => TimerFiresKeeps(s, v, w);
    case EventReady => EventReadyKeeps(s, w);
    case LoopStep => LoopStepKeeps(s, w);
    case Lock(t) => LockKeeps(s, t, w);
    case FnReturns(t) =>
      ReturnBusy(s, t);
      if w != s.threads[t].w { ReturnKeeps(s, t, w); }
    case FreeDropped(t) => FreeDroppedKeeps(s, t, w);
    case SpuriousWakeup(t) => SpuriousKeeps(s, t, w);
  }

  lemma CancelKeeps(s: State, v: WorkId, w: WorkId)
    requires DoCancel(s, v).Next?
    ensures Kept(s, DoCancel(s, v).s, w)
  {
    hide Drop, Kept;
    DropKeeps(s, v, w);
  }

  lemma FreeDroppedKeeps(s: State, t: ThreadId, w: WorkId)
    requires DoFreeDropped(s, t).Next?
    ensures Kept(s, DoFreeDropped(s, t).s, w)
  {
    hide Free, Kept;
    var m := s.(threads := s.threads[t := Looping]);
    FreeKeeps(m, s.threads[t].w, w);
    KeptFrom(s, m, DoFreeDropped(s, t).s, w);
  }

  // The steps that leave works and active list alone.

  lemma PoolFreeKeeps(s: State, w: WorkId)
    requires DoPoolFree(s).Next?
    ensures Kept(s, DoPoolFree(s).s, w)
  {
    hide Kept;
    SameWorks(s, DoPoolFree(s).s, w);
  }

  lemma TimerFiresKeeps(s: State, v: WorkId, w: WorkId)
    requires DoTimerFires(s, v).Next?
    ensures Kept(s, DoTimerFires(s, v).s, w)
  {
    hide Kept;
    SameWorks(s, DoTimerFires(s, v).s, w);
  }

  lemma EventReadyKeeps(s: State, w: WorkId)
    requires DoEventReady(s).Next?
    ensures Kept(s, DoEventReady(s).s, w)
  {
    hide Kept;
    SameWorks(s, DoEventReady(s).s, w);
  }

  lemma SpuriousKeeps(s: State, t: ThreadId, w: WorkId)
    requires DoSpuriousWakeup(s, t).Next?
    ensures Kept(s, DoSpuriousWakeup(s, t).s, w)
  {
    hide Kept;
    SameWorks(s, DoSpuriousWakeup(s, t).s, w);
  }

  lemma KeptFrom(s: State, m: State, u: State, w: WorkId)
    requires m == s.(threads := m.threads) && Kept(m, u, w)
    ensures Kept(s, u, w)
  {
  }

  // ----- answers -----

  /** A work that is DONE has its answer; what a user was told is that answer, for good. */
  ghost predicate Truthful(c: Client)
  {
    && (forall w :: IsDone(c.pool, w) ==> w in c.answers)
    && (forall w :: w in c.told ==> c.told[w] != Unwritten)
    && (forall w :: w in c.told && c.told[w].Answered? ==>
      Rests(c.pool, w) && w in c.answers && c.answers[w] == c.told[w].a)
  }

  /** A callback that begins without a timeout belongs to a work that is DONE and off the lists. */
  lemma CallbackIsDone(s: State)
    requires Memory(s) && s.loop.Callback? && !s.loop.timedOut
    ensures IsDone(s, s.loop.held.w) && Rests(s, s.loop.held.w)
  {
    assert LoopHolds(s.loop, s.loop.held.w);
  }

  lemma FinishingIsDone(s: State)
    requires Memory(s) && s.loop.Finishing? && !s.loop.timedOut
    ensures IsDone(s, s.loop.w)
  {
  }

  lemma StepTruthful(c: Client, a: Action, answer: Answer)
    requires Inv(c.pool) && Truthful(c) && ClientStep(c, a, answer).Some?
    ensures Inv(ClientStep(c, a, answer).value.pool) && Truthful(ClientStep(c, a, answer).value)
  {
    hide Memory, Numbers, Step;
    StepInv(c.pool, a);
    var d := ClientStep(c, a, answer).value;
    var s, u := c.pool, d.pool;
    if a.FnReturns? { ReturnIsBusy(s, a); }
    if u.loop.Callback? && s.loop.Finishing? {
      CallbackStarts(s, a);
      if !u.loop.timedOut {
        CallbackIsDone(u);
        FinishingIsDone(s);
      }
    }
    forall w | IsDone(u, w) ensures w in d.answers {
      StepKeeps(s, a, w);
    }
    forall w | w in d.told && d.told[w].Answered? ensures Rests(u, w) && w in d.answers && d.answers[w] == d.told[w].a {
      StepKeeps(s, a, w);
    }
  }

  lemma ReturnIsBusy(s: State, a: Action)
    requires Memory(s) && a.FnReturns? && Step(s, a).Next?
    ensures a.t < |s.threads| && s.threads[a.t].Busy? && !Rests(s, s.threads[a.t].w)
  {
    hide Memory, DoFnReturns;
    ReturnBusy(s, a.t);
  }

  lemma {:induction false} RunTruthful(c: Client, run: seq<(Action, Answer)>)
    requires Inv(c.pool) && Truthful(c) && ClientRun(c, run).Some?
    ensures Truthful(ClientRun(c, run).value)
    decreases |run|
  {
    hide Inv, Truthful, ClientStep;
    if run != [] {
      StepTruthful(c, run[0].0, run[0].1);
      RunTruthful(ClientStep(c, run[0].0, run[0].1).value, run[1..]);
    }
  }

  // ----- what users are told -----

  /** A done callback that was called: its work, and whether a timer called it. */
  datatype Call = Call(w: WorkId, timer: bool)

  /** The callback that a step begins. */
  function Begun(s: State, u: State): (r: seq<Call>)
  {
    if s.loop.Finishing? && u.loop.Callback? then [Call(s.loop.w, s.loop.timedOut)] else []
  }

  /** The callbacks of a run, in order. */
  ghost function Calls(c: Client, run: seq<(Action, Answer)>): (r: seq<Call>)
    requires ClientRun(c, run).Some?
    decreases |run|
  {
    if run == [] then []
    else
      var d := ClientStep(c, run[0].0, run[0].1).value;
      Begun(c.pool, d.pool) + Calls(d, run[1..])
  }

  /** The user of the callback k was told the timeout if a timer called it, and the answer if not. */
  ghost predicate ToldRight(c: Client, k: Call)
  {
    && k.w in c.told && k.w in c.pool.reported
    && (k.timer ==> c.told[k.w] == TimedOut)
    && (!k.timer ==> k.w in c.answers && c.told[k.w] == Answered(c.answers[k.w]))
  }

  /** A work that is being finished was not reported before. */
  lemma NotYetReported(s: State)
    requires Memory(s) && s.loop.Finishing?
    ensures s.loop.w !in s.reported
  {
    assert s.reported[s.loop.w] == 0;
  }

  /** A callback that begins tells its user, once, what it has to; no other step tells anything. */
  lemma StepTells(c: Client, a: Action, answer: Answer)
    requires Inv(c.pool) && Truthful(c) && ClientStep(c, a, answer).Some?
    ensures var d := ClientStep(c, a, answer).value;
      if Begun(c.pool, d.pool) == [] then d.told == c.told
      else
        var k := Begun(c.pool, d.pool)[0];
        && d.pool.loop.held.w == k.w && d.pool.loop.timedOut == k.timer
        && k.w !in c.pool.reported && ToldRight(d, k) && d.told == c.told[k.w := d.told[k.w]]
  {
    hide Memory, Numbers, Step;
    var d := ClientStep(c, a, answer).value;
    var s, u := c.pool, d.pool;
    if s.loop.Finishing? && u.loop.Callback? {
      CallbackStarts(s, a);
      NotYetReported(s);
      if !u.loop.timedOut { FinishingIsDone(s); }
    }
  }

  /** Exactly the users of the callbacks were told, and what they had to be. */
  ghost predicate Heard(c: Client, calls: seq<Call>)
  {
    && (forall k :: k in calls ==> ToldRight(c, k))
    && (forall w :: w in c.told ==> Call(w, true) in calls || Call(w, false) in calls)
  }

  lemma StepHeard(c: Client, a: Action, answer: Answer, calls: seq<Call>)
    requires Inv(c.pool) && Truthful(c) && ClientStep(c, a, answer).Some? && Heard(c, calls)
    ensures var d := ClientStep(c, a, answer).value; Heard(d, calls + Begun(c.pool, d.pool))
  {
    hide Inv, Step, Rests, IsDone, ClientStep;
    var d := ClientStep(c, a, answer).value;
    StepTells(c, a, answer);
    StepTruthful(c, a, answer);
    StillReported(c, a, answer);
    var begun := Begun(c.pool, d.pool);
    forall k | k in calls + begun ensures ToldRight(d, k) {
      if k in calls { assert k.w in c.pool.reported; }
    }
    forall w | w in d.told ensures Call(w, true) in calls + begun || Call(w, false) in calls + begun {
      if begun != [] && w == begun[0].w { assert begun[0] == Call(w, begun[0].timer); }
    }
  }

  lemma StillReported(c: Client, a: Action, answer: Answer)
    requires ClientStep(c, a, answer).Some?
    ensures c.pool.reported <= ClientStep(c, a, answer).value.pool.reported
  {
    hide Step;
    StepLater(c.pool, a);
  }

  lemma {:induction false} RunHeard(c: Client, run: seq<(Action, Answer)>, calls: seq<Call>)
    requires Inv(c.pool) && Truthful(c) && ClientRun(c, run).Some? && Heard(c, calls)
    ensures Heard(ClientRun(c, run).value, calls + Calls(c, run))
    decreases |run|
  {
    hide Inv, Truthful, ClientStep, Heard, Begun;
    if run == [] {
      assert calls + [] == calls;
    } else {
      var d := ClientStep(c, run[0].0, run[0].1).value;
      var begun := Begun(c.pool, d.pool);
      StepTruthful(c, run[0].0, run[0].1);
      StepHeard(c, run[0].0, run[0].1, calls);
      RunHeard(d, run[1..], calls + begun);
      assert calls + (begun + Calls(d, run[1..])) == calls + begun + Calls(d, run[1..]);
    }
  }

  /** In every run, exactly the users whose callback was called are told something: the timeout if a
      timer called it, and else the answer that the worker of the query wrote and still stands. */
  lemma UsersGetTheirAnswer(max: nat, run: seq<(Action, Answer)>, w: WorkId)
    requires 0 < max && ClientRun(Client(Init(max), map[], map[]), run).Some?
    ensures var c, calls := ClientRun(Client(Init(max), map[], map[]), run).value,
        Calls(Client(Init(max), map[], map[]), run);
      && (w in c.told <==> Call(w, true) in calls || Call(w, false) in calls)
      && (Call(w, true) in calls <==> w in c.told && c.told[w] == TimedOut)
      && (Call(w, false) in calls <==> w in c.told && w in c.answers && c.told[w] == Answered(c.answers[w]))
  {
    hide Inv;
    InitInv(max);
    var start := Client(Init(max), map[], map[]);
    RunHeard(start, run, []);
    assert [] + Calls(start, run) == Calls(start, run);
    var c, calls := ClientRun(start, run).value, Calls(start, run);
    assert Call(w, true) in calls ==> ToldRight(c, Call(w, true));
    assert Call(w, false) in calls ==> ToldRight(c, Call(w, false));
  }

  // ----- the memory of the query -----

  function Tag(run: seq<Action>, answer: Answer): (r: seq<(Action, Answer)>)
    ensures |r| == |run|
  {
    seq(|run|, i requires 0 <= i < |run| => (run[i], answer))
  }

  /** The client goes wherever the pool goes. */
  lemma {:induction false} ClientFollows(c: Client, run: seq<Action>, answer: Answer)
    requires Run(c.pool, run).Next?
    ensures ClientRun(c, Tag(run, answer)).Some? && ClientRun(c, Tag(run, answer)).value.pool == Run(c.pool, run).s
    decreases |run|
  {
    hide Step;
    if run != [] {
      assert Tag(run, answer)[1..] == Tag(run[1..], answer);
      ClientFollows(ClientStep(c, run[0], answer).value, run[1..], answer);
    }
  }

  lemma TagStep(c: Client, run: seq<Action>, answer: Answer)
    requires run != [] && ClientStep(c, run[0], answer).Some?
    ensures ClientRun(c, Tag(run, answer)) ==
      ClientRun(ClientStep(c, run[0], answer).value, Tag(run[1..], answer))
  {
    hide ClientStep;
    assert Tag(run, answer)[1..] == Tag(run[1..], answer);
  }

  /** A step that neither writes an answer nor begins a callback. */
  lemma PlainStep(c: Client, a: Action, u: State, answer: Answer)
    requires Step(c.pool, a) == Next(u) && !a.FnReturns? && !u.loop.Callback?
    ensures ClientStep(c, a, answer) == Some(c.(pool := u))
  {
    hide Step;
  }

  lemma AnswerWritten(answer: Answer)
    ensures ClientStep(Client(Started(), map[], map[]), FnReturns(0), answer) ==
      Some(Client(Ended(), map[0 := answer], map[]))
  {
    EndStep();
    hide Step, Ended;
  }

  lemma AnswerTold(answer: Answer)
    ensures ClientStep(Client(Chosen(), map[0 := answer], map[]), LoopStep, answer) ==
      Some(Client(Called(), map[0 := answer], map[0 := Answered(answer)]))
  {
    CallStep();
    assert Chosen().loop == Finishing(0, false) && Called().loop == Callback(Held(0, true), false);
    hide Step, Chosen, Called;
  }

  /** No callback is running in these states. */
  lemma BeforeCallback()
    ensures !Submitted().loop.Callback? && !Started().loop.Callback? && !Dispatched().loop.Callback?
    ensures !Chosen().loop.Callback? && !Freed().loop.Callback?
  {
  }

  /** One lookup without a timer: its user is told what the worker wrote. */
  lemma AnswerArrives(answer: Answer)
    ensures var c := ClientRun(Client(Init(1), map[], map[]), Tag(ONE_WORK, answer));
      c.Some? && c.value.told == map[0 := Answered(answer)]
  {
    hide Step, Init, Submitted, Started, Ended, Dispatched, Chosen, Called, Freed, ClientStep, ClientRun;
    var written, told := map[0 := answer], map[0 := Answered(answer)];
    SubmitStep();
    StartStep();
    DispatchStep();
    FreeStep();
    BeforeCallback();
    PlainStep(Client(Init(1), map[], map[]), Submit(false, true, None), Submitted(), answer);
    PlainStep(Client(Submitted(), map[], map[]), Lock(0), Started(), answer);
    AnswerWritten(answer);
    PlainStep(Client(Ended(), written, map[]), EventReady, Dispatched(), answer);
    PlainStep(Client(Dispatched(), written, map[]), LoopStep, Chosen(), answer);
    AnswerTold(answer);
    PlainStep(Client(Called(), written, told), LoopStep, Freed(), answer);
    TagStep(Client(Init(1), map[], map[]), ONE_WORK, answer);
    TagStep(Client(Submitted(), map[], map[]), ONE_WORK[1..], answer);
    TagStep(Client(Started(), map[], map[]), ONE_WORK[2..], answer);
    TagStep(Client(Ended(), written, map[]), ONE_WORK[3..], answer);
    TagStep(Client(Dispatched(), written, map[]), ONE_WORK[4..], answer);
    TagStep(Client(Chosen(), written, map[]), ONE_WORK[5..], answer);
    TagStep(Client(Called(), written, told), ONE_WORK[6..], answer);
    TagEnd(Client(Freed(), written, told), ONE_WORK[7..], answer);
  }

  lemma TagEnd(c: Client, run: seq<Action>, answer: Answer)
    requires run == []
    ensures ClientRun(c, Tag(run, answer)) == Some(c)
  {
  }

  /** lookup_done() reads its query; the query is freed with its work. */
  ghost predicate QueryInMemory(c: Client)
  {
    c.pool.loop.Callback? ==> c.pool.loop.held.w in c.pool.works
  }

  /** The query is there for the whole of lookup_done(), whatever the workers do, exactly when the
      event loop is to free it: always but for a timeout of a lookup that is running. */
  lemma QuerySafe(c: Client)
    requires Reachable(c.pool) && c.pool.loop.Callback?
    ensures c.pool.loop.held.mine <==>
      forall run :: Run(c.pool, run).Next? && Run(c.pool, run).s.loop == c.pool.loop ==>
        c.pool.loop.held.w in Run(c.pool, run).s.works
    ensures !c.pool.loop.timedOut ==> c.pool.loop.held.mine
  {
    hide Step;
    CallbackDataSafe(c.pool);
    CallbackOwnsData(c.pool);
  }

  /** The same at the timeout, before lookup_done() is called: it has its query for as long as it runs
      exactly when the lookup was not running. */
  lemma QuerySafeAtTimeout(c: Client, w: WorkId)
    requires Reachable(c.pool) && c.pool.loop == Finishing(w, true)
    ensures w in c.pool.works && Step(c.pool, LoopStep).Next?
    ensures var u := Step(c.pool, LoopStep).s;
      c.pool.works[w] != Running <==>
      forall run :: Run(u, run).Next? && Run(u, run).s.loop == u.loop ==> w in Run(u, run).s.works
  {
    hide Step, Run;
    FinishDataSafe(c.pool);
  }

  /** A lookup that times out while it runs: lookup_done() can read a freed query. */
  lemma QueryFreedUnderCallback(answer: Answer)
    ensures var c := ClientRun(Client(Init(1), map[], map[]), Tag(TIMED_OUT, answer));
      c.Some? && c.value.pool.loop == Callback(Held(0, false), true) && !QueryInMemory(c.value)
  {
    hide Step, Run, ClientRun, Init, FreedUnderCallback;
    FreedDuringCallback();
    ClientFollows(Client(Init(1), map[], map[]), TIMED_OUT, answer);
  }
}
