/**
 The inductive invariant of the worker pool, in parts.  Every step of `WorkPool` keeps all
 parts and does not fault; the proofs go part by part over the pieces the steps are made of.
 */
module WorkPoolInvariant {
  import opened Wrappers
  import opened WorkPool

  // ----- counting threads -----

  datatype Kind = InWait | Asleep | Awake | New | Alive

  predicate Is(k: Kind, th: Thread)
  {
    match k
    case InWait => th.Waiting? || th.Woken?
    case Asleep => th.Waiting?
    case Awake => th.Fresh? || th.Woken? || th.Looping?
    case New => th.Fresh?
    case Alive => !th.Exited?
  }

  function Count(ts: seq<Thread>, k: Kind): (n: nat)
    ensures n <= |ts|
  {
    if ts == [] then 0 else (if Is(k, ts[0]) then 1 else 0) + Count(ts[1..], k)
  }

  lemma {:induction false} CountUpdate(ts: seq<Thread>, t: ThreadId, x: Thread, k: Kind)
    requires t < |ts|
    ensures Count(ts[t := x], k) + (if Is(k, ts[t]) then 1 else 0) == Count(ts, k) + (if Is(k, x) then 1 else 0)
  {
    if t == 0 {
      assert ts[t := x][1..] == ts[1..];
    } else {
      assert ts[t := x][1..] == ts[1..][t - 1 := x];
      CountUpdate(ts[1..], t - 1, x, k);
    }
  }

  lemma {:induction false} CountAppend(ts: seq<Thread>, x: Thread, k: Kind)
    ensures Count(ts + [x], k) == Count(ts, k) + (if Is(k, x) then 1 else 0)
  {
    if ts == [] {
      assert ts + [x] == [x];
    } else {
      assert (ts + [x])[1..] == ts[1..] + [x];
      CountAppend(ts[1..], x, k);
    }
  }

  lemma {:induction false} CountZero(ts: seq<Thread>, k: Kind)
    ensures Count(ts, k) == 0 <==> forall i :: 0 <= i < |ts| ==> !Is(k, ts[i])
  {
    if ts != [] {
      CountZero(ts[1..], k);
      assert forall i :: 0 < i < |ts| ==> ts[i] == ts[1..][i - 1];
      if Count(ts, k) == 0 {
        assert forall i :: 0 <= i < |ts| ==> !Is(k, ts[i]);
      } else if !Is(k, ts[0]) {
        var i :| 0 <= i < |ts[1..]| && Is(k, ts[1..][i]);
        assert Is(k, ts[i + 1]);
      }
    }
  }

  lemma {:induction false} BroadcastAt(ts: seq<Thread>, i: nat)
    requires i < |ts|
    ensures Broadcast(ts)[i] == (if ts[i].Waiting? then Woken else ts[i])
  {
    if i > 0 {
      BroadcastAt(ts[1..], i - 1);
    }
  }

  /** A broadcast leaves no one asleep and changes no other count but the awake ones. */
  lemma {:induction false} CountBroadcast(ts: seq<Thread>)
    ensures Count(Broadcast(ts), Asleep) == 0
    ensures Count(Broadcast(ts), InWait) == Count(ts, InWait)
    ensures Count(Broadcast(ts), Alive) == Count(ts, Alive)
  {
    if ts != [] {
      CountBroadcast(ts[1..]);
      assert Broadcast(ts)[1..] == Broadcast(ts[1..]);
    }
  }

  predicate Holds(th: Thread, w: WorkId)
  {
    (th.Busy? || th.Freeing?) && th.w == w
  }

  /** The number of workers that run `w` or are about to free it. */
  function HeldBy(ts: seq<Thread>, w: WorkId): (n: nat)
  {
    if ts == [] then 0 else (if Holds(ts[0], w) then 1 else 0) + HeldBy(ts[1..], w)
  }

  lemma {:induction false} HeldByUpdate(ts: seq<Thread>, t: ThreadId, x: Thread, w: WorkId)
    requires t < |ts|
    ensures HeldBy(ts[t := x], w) + (if Holds(ts[t], w) then 1 else 0) == HeldBy(ts, w) + (if Holds(x, w) then 1 else 0)
  {
    if t == 0 {
      assert ts[t := x][1..] == ts[1..];
    } else {
      assert ts[t := x][1..] == ts[1..][t - 1 := x];
      HeldByUpdate(ts[1..], t - 1, x, w);
    }
  }

  lemma {:induction false} HeldByAppend(ts: seq<Thread>, x: Thread, w: WorkId)
    ensures HeldBy(ts + [x], w) == HeldBy(ts, w) + (if Holds(x, w) then 1 else 0)
  {
    if ts == [] {
      assert ts + [x] == [x];
    } else {
      assert (ts + [x])[1..] == ts[1..] + [x];
      HeldByAppend(ts[1..], x, w);
    }
  }

  lemma {:induction false} HeldByZero(ts: seq<Thread>, w: WorkId)
    requires HeldBy(ts, w) == 0
    ensures forall i :: 0 <= i < |ts| ==> !Holds(ts[i], w)
  {
    if ts != [] {
      HeldByZero(ts[1..], w);
      assert forall i :: 0 < i < |ts| ==> ts[i] == ts[1..][i - 1];
    }
  }

  lemma {:induction false} HeldByBroadcast(ts: seq<Thread>, w: WorkId)
    ensures HeldBy(Broadcast(ts), w) == HeldBy(ts, w)
  {
    if ts != [] {
      HeldByBroadcast(ts[1..], w);
      assert Broadcast(ts)[1..] == Broadcast(ts[1..]);
    }
  }

  /** All counts after one thread moved. */
  lemma ThreadMoves(ts: seq<Thread>, t: ThreadId, x: Thread)
    requires t < |ts|
    ensures forall k ::
              Count(ts[t := x], k) + (if Is(k, ts[t]) then 1 else 0) == Count(ts, k) + (if Is(k, x) then 1 else 0)
    ensures forall w ::
              HeldBy(ts[t := x], w) + (if Holds(ts[t], w) then 1 else 0) ==
              HeldBy(ts, w) + (if Holds(x, w) then 1 else 0)
  {
    forall k ensures Count(ts[t := x], k) + (if Is(k, ts[t]) then 1 else 0)
      == Count(ts, k) + (if Is(k, x) then 1 else 0) {
      CountUpdate(ts, t, x, k);
    }
    forall w ensures HeldBy(ts[t := x], w) + (if Holds(ts[t], w) then 1 else 0)
      == HeldBy(ts, w) + (if Holds(x, w) then 1 else 0) {
      HeldByUpdate(ts, t, x, w);
    }
  }

  // ----- lists -----

  ghost predicate NoDup(q: seq<WorkId>)
  {
    forall i, j :: 0 <= i < j < |q| ==> q[i] != q[j]
  }

  lemma {:induction false} WithoutMember(q: seq<WorkId>, w: WorkId, x: WorkId)
    ensures x in Without(q, w) <==> x in q && x != w
  {
    if q != [] {
      WithoutMember(q[1..], w, x);
    }
  }

  lemma {:induction false} WithoutNoDup(q: seq<WorkId>, w: WorkId)
    requires NoDup(q)
    ensures NoDup(Without(q, w))
    ensures |Without(q, w)| == if w in q then |q| - 1 else |q|
  {
    if q != [] {
      WithoutNoDup(q[1..], w);
      WithoutMember(q[1..], w, q[0]);
      if q[0] != w {
        assert q[0] !in q[1..];
      } else {
        assert w !in q[1..];
      }
    }
  }

  lemma WithoutFacts(q: seq<WorkId>, w: WorkId)
    requires NoDup(q)
    ensures NoDup(Without(q, w))
    ensures |Without(q, w)| == if w in q then |q| - 1 else |q|
    ensures forall x :: x in Without(q, w) <==> x in q && x != w
  {
    WithoutNoDup(q, w);
    forall x ensures x in Without(q, w) <==> x in q && x != w {
      WithoutMember(q, w, x);
    }
  }

  lemma FirstIn(q: seq<WorkId>)
    requires q != []
    ensures q[0] in q
  {
  }

  lemma PopFacts(q: seq<WorkId>)
    requires NoDup(q) && q != []
    ensures NoDup(q[1..])
    ensures forall x :: x in q[1..] <==> x in q && x != q[0]
  {
    forall x | x in q && x != q[0] ensures x in q[1..] {
      var i :| 0 <= i < |q| && q[i] == x;
      assert q[1..][i - 1] == x;
    }
  }

  // ----- the parts of the invariant -----

  predicate LoopHolds(l: Loop, w: WorkId)
  {
    match l
    case Callback(held, _) => held == Held(w, true)
    case Destroy(after) => after == Some(Held(w, true))
    case Closing(after) => after == Some(Held(w, true))
    case Returning(held) => held == Held(w, true)
    case _ => false
  }

  /** The lists hold exactly the active works in the list's state, once each. */
  ghost predicate Linked(queued: seq<WorkId>, done: seq<WorkId>, active: seq<WorkId>, timers: set<WorkId>,
      works: map<WorkId, WorkState>)
  {
    && NoDup(queued) && NoDup(done) && NoDup(active)
    && (forall w :: w in active ==> w in works && works[w] != Dropped)
    && (forall w :: w in queued <==> w in active && works[w] == Queued)
    && (forall w :: w in done <==> w in active && works[w] == Done)
    && (forall w :: w in timers ==> w in active)
  }

  predicate AtWorker(works: map<WorkId, WorkState>, w: WorkId)
  {
    w in works && (works[w] == Running || works[w] == Dropped)
  }

  /** A running or dropped work, and no other, is in the hands of exactly one worker. */
  ghost predicate InHands(threads: seq<Thread>, works: map<WorkId, WorkState>)
  {
    && (forall w :: HeldBy(threads, w) == if AtWorker(works, w) then 1 else 0)
    && (forall i :: 0 <= i < |threads| && threads[i].Freeing? ==>
          threads[i].w in works && works[threads[i].w] == Dropped)
  }

  /** Every work in memory belongs to the active list, to the running callback, or to a worker. */
  ghost predicate Owned(works: map<WorkId, WorkState>, active: seq<WorkId>, loop: Loop)
  {
    && (forall w :: w in works ==> w in active || LoopHolds(loop, w) || works[w] == Dropped)
    && (forall w :: LoopHolds(loop, w) ==> w in works && w !in active && (works[w] == Queued || works[w] == Done))
    && (loop.Finishing? ==> loop.w in active && loop.w in works && (!loop.timedOut ==> works[loop.w] == Done))
    && (loop.Callback? && !loop.timedOut ==> loop.held.mine && loop.held.w in works && works[loop.held.w] == Done)
  }

  /** Accepted works are in memory or were freed once; each leaves the active list by one of two ways. */
  ghost predicate Accounted(works: map<WorkId, WorkState>, next: WorkId, freed: multiset<WorkId>,
                            cancelled: set<WorkId>, active: seq<WorkId>, reported: multiset<WorkId>)
  {
    && (forall w :: w in works ==> w < next)
    && (forall w: WorkId :: freed[w] == if w < next && w !in works then 1 else 0)
    && (forall w: WorkId :: reported[w] == if w < next && w !in active && w !in cancelled then 1 else 0)
    && (forall w :: w in cancelled ==> w < next && w !in active)
    && (forall w :: w in active ==> w < next)
  }

  /** What is in memory, where it is linked and who frees it. */
  ghost predicate Memory(s: State)
  {
    && Linked(s.queued, s.done, s.active, s.timers, s.works)
    && InHands(s.threads, s.works)
    && Owned(s.works, s.active, s.loop)
    && Accounted(s.works, s.next, s.freed, s.cancelled, s.active, s.reported)
  }

  /** Where the event loop is decides what is alive and which flags are set. */
  ghost predicate Phases(s: State)
  {
    && (s.poolAlive <==> !(s.loop.Closing? || s.loop.Returning? || s.loop.Gone?))
    && (s.closing <==> s.loop.Returning? || s.loop.Gone?)
    && (!s.poolAlive ==> s.active == [] && s.queued == [] && s.done == [])
    && (s.dispatching ==> s.loop.Dispatch? || s.loop.Finishing? || s.loop.Callback?)
    && (s.loop.Dispatch? ==> s.dispatching)
    && (s.loop.Finishing? ==> (s.loop.timedOut <==> !s.dispatching))
    && (s.freePending && s.poolAlive && !s.loop.Destroy? ==> s.dispatching && (s.loop.Dispatch? || s.loop.Callback?))
    && (s.freeAt.Some? <==> s.freePending || s.loop.Destroy? || !s.poolAlive)
    && (s.freeAt.Some? ==> s.freeAt.value == s.reported)
  }

  /** The counters are what they count. */
  ghost predicate Counters(s: State)
  {
    && s.nrQueued == |s.queued|
    && s.nrIdle == Count(s.threads, InWait)
    && s.nrWorkers == |s.threads| <= s.max
    && s.refs == Count(s.threads, Alive) + (if s.closing then 0 else 1)
    && (s.sharedAlive <==> s.refs > 0)
    && (!s.closing ==> Count(s.threads, Alive) == |s.threads|)
  }

  /** Sleeping workers are never needed, and none sleeps once the pool closes. */
  ghost predicate Wakeups(s: State)
  {
    && 0 < s.max
    && (s.closing ==> Count(s.threads, Asleep) == 0)
    && (Count(s.threads, Asleep) > 0 ==> |s.queued| <= Count(s.threads, Awake))
    && (s.spawnFailed || |s.threads| == s.max || |s.queued| <= Count(s.threads, InWait) + Count(s.threads, New))
    && (s.queued != [] ==> s.threads != [])
  }

  /** A finished work is announced, unless on_done() is at it already. */
  ghost predicate Announced(s: State)
  {
    !s.dispatching && !s.freePending && s.done != [] ==> s.eventfd > 0
  }

  /** The phases, the counters and who is awake. */
  ghost predicate Numbers(s: State)
  {
    Phases(s) && Counters(s) && Wakeups(s) && Announced(s)
  }

  ghost predicate Inv(s: State)
  {
    Memory(s) && Numbers(s)
  }

  /** The step touches no freed memory and keeps the invariant. */
  ghost predicate Good(o: Outcome)
  {
    o.Blocked? || (o.Next? && Inv(o.s))
  }

  lemma InitInv(max: nat)
    requires 0 < max
    ensures Inv(Init(max))
  {
  }

  // ----- the workers -----

  lemma SharedAlive(s: State, t: ThreadId)
    requires Numbers(s) && t < |s.threads| && !s.threads[t].Exited?
    ensures s.sharedAlive
  {
    CountZero(s.threads, Alive);
  }

  /** Threads without a work may move freely. */
  lemma IdleMove(threads: seq<Thread>, works: map<WorkId, WorkState>, t: ThreadId, x: Thread)
    requires InHands(threads, works) && t < |threads|
    requires !threads[t].Busy? && !threads[t].Freeing? && !x.Busy? && !x.Freeing?
    ensures InHands(threads[t := x], works)
  {
    ThreadMoves(threads, t, x);
  }

  lemma SpuriousWakeupNumbers(s: State, t: ThreadId)
    requires Numbers(s) && t < |s.threads| && s.threads[t].Waiting?
    ensures Numbers(DoSpuriousWakeup(s, t).s)
  {
    ThreadMoves(s.threads, t, Woken);
  }

  lemma SpuriousWakeupInv(s: State, t: ThreadId)
    requires Inv(s)
    ensures Good(DoSpuriousWakeup(s, t))
  {
    hide Numbers, Linked, InHands, Owned, Accounted;
    if t < |s.threads| && s.threads[t].Waiting? {
      SpuriousWakeupNumbers(s, t);
      IdleMove(s.threads, s.works, t, Woken);
    }
  }

  /** When its worker lets go of a work, no other worker has it. */
  lemma LastHolder(threads: seq<Thread>, works: map<WorkId, WorkState>, t: ThreadId)
    requires InHands(threads, works) && t < |threads| && (threads[t].Busy? || threads[t].Freeing?)
    ensures AtWorker(works, threads[t].w) && HeldBy(threads[t := Looping], threads[t].w) == 0
    ensures forall i :: 0 <= i < |threads| && i != t ==> !Holds(threads[i], threads[t].w)
  {
    var w := threads[t].w;
    HeldByPositive(threads, t, w);
    HeldByUpdate(threads, t, Looping, w);
    HeldByZero(threads[t := Looping], w);
    forall i | 0 <= i < |threads| && i != t ensures !Holds(threads[i], w) {
      assert threads[t := Looping][i] == threads[i];
    }
  }

  lemma FreeDroppedHands(threads: seq<Thread>, works: map<WorkId, WorkState>, t: ThreadId)
    requires InHands(threads, works) && t < |threads| && threads[t].Freeing?
    ensures threads[t].w in works && works[threads[t].w] == Dropped
    ensures InHands(threads[t := Looping], works - {threads[t].w})
  {
    var w := threads[t].w;
    LastHolder(threads, works, t);
    var ts, ws := threads[t := Looping], works - {w};
    forall v ensures HeldBy(ts, v) == if AtWorker(ws, v) then 1 else 0 {
      HeldByUpdate(threads, t, Looping, v);
      assert v != w ==> AtWorker(ws, v) == AtWorker(works, v);
    }
    forall i | 0 <= i < |ts| && ts[i].Freeing? ensures ts[i].w in ws && ws[ts[i].w] == Dropped {
      assert ts[i] == threads[i];
    }
  }

  lemma FreeDroppedNumbers(s: State, t: ThreadId, u: State)
    requires Numbers(s) && t < |s.threads| && s.threads[t].Freeing?
    requires u == s.(threads := s.threads[t := Looping], works := u.works, freed := u.freed)
    ensures Numbers(u)
  {
    ThreadMoves(s.threads, t, Looping);
  }

  /** A work that is on no list and that the loop no longer holds may be freed. */
  lemma FreeRest(s: State, w: WorkId, loop: Loop)
    requires Memory(s) && w in s.works && w !in s.active
    requires forall x :: LoopHolds(loop, x) <==> LoopHolds(s.loop, x) && x != w
    requires loop.Callback? || loop.Finishing? ==> loop == s.loop
    requires loop.Callback? && !loop.timedOut ==> loop.held.w != w
    ensures Linked(s.queued, s.done, s.active, s.timers, s.works - {w})
    ensures Owned(s.works - {w}, s.active, loop)
    ensures Accounted(s.works - {w}, s.next, s.freed + multiset{w}, s.cancelled, s.active, s.reported)
  {
  }

  lemma FreeDroppedInv(s: State, t: ThreadId)
    requires Inv(s)
    ensures Good(DoFreeDropped(s, t))
  {
    hide Numbers, Linked, InHands, Accounted;
    if t < |s.threads| && s.threads[t].Freeing? {
      var w := s.threads[t].w;
      FreeDroppedHands(s.threads, s.works, t);
      DroppedFree(s, w);
      FreeDroppedNumbers(s, t, DoFreeDropped(s, t).s);
      hide Owned;
    }
  }

  lemma DroppedFree(s: State, w: WorkId)
    requires Memory(s) && w in s.works && s.works[w] == Dropped
    ensures Linked(s.queued, s.done, s.active, s.timers, s.works - {w})
    ensures Owned(s.works - {w}, s.active, s.loop)
    ensures Accounted(s.works - {w}, s.next, s.freed + multiset{w}, s.cancelled, s.active, s.reported)
  {
    FreeRest(s, w, s.loop);
  }

  // A worker takes the first queued work.

  lemma PopLinked(queued: seq<WorkId>, done: seq<WorkId>, active: seq<WorkId>, timers: set<WorkId>,
      works: map<WorkId, WorkState>)
    requires Linked(queued, done, active, timers, works) && queued != []
    ensures queued[0] in active && queued[0] in works && works[queued[0]] == Queued
    ensures Linked(queued[1..], done, active, timers, works[queued[0] := Running])
  {
    PopFacts(queued);
    assert queued[0] in queued;
  }

  /** Worker t takes w or lets it go, and the state of w says so. */
  lemma HandsMove(threads: seq<Thread>, works: map<WorkId, WorkState>, t: ThreadId, x: Thread, w: WorkId, to: WorkState)
    requires InHands(threads, works) && t < |threads| && !x.Freeing? && w in works && works[w] != Dropped
    requires forall v :: v != w ==> Holds(x, v) == Holds(threads[t], v)
    requires AtWorker(works[w := to], w) == Holds(x, w) && AtWorker(works, w) == Holds(threads[t], w)
    ensures InHands(threads[t := x], works[w := to])
  {
    var ts, ws := threads[t := x], works[w := to];
    forall v ensures HeldBy(ts, v) == if AtWorker(ws, v) then 1 else 0 {
      HeldByUpdate(threads, t, x, v);
      assert v != w ==> AtWorker(ws, v) == AtWorker(works, v);
    }
    forall i | 0 <= i < |ts| && ts[i].Freeing? ensures ts[i].w in ws && ws[ts[i].w] == Dropped {
      assert ts[i] == threads[i];
    }
  }

  lemma PopHands(threads: seq<Thread>, works: map<WorkId, WorkState>, t: ThreadId, w: WorkId)
    requires InHands(threads, works) && t < |threads| && !threads[t].Busy? && !threads[t].Freeing?
    requires w in works && works[w] == Queued
    ensures InHands(threads[t := Busy(w)], works[w := Running])
  {
    HandsMove(threads, works, t, Busy(w), w, Running);
  }

  /** An active work that starts or ends running stays owned and accounted for. */
  lemma MoveRest(s: State, w: WorkId, x: WorkState)
    requires Owned(s.works, s.active, s.loop) && w in s.active && w in s.works && x != Dropped
    requires s.loop.Finishing? && !s.loop.timedOut ==> s.loop.w != w
    requires Accounted(s.works, s.next, s.freed, s.cancelled, s.active, s.reported)
    ensures Owned(s.works[w := x], s.active, s.loop)
    ensures Accounted(s.works[w := x], s.next, s.freed, s.cancelled, s.active, s.reported)
  {
  }

  lemma PopNumbers(s: State, t: ThreadId)
    requires Numbers(s) && t < |s.threads| && (s.threads[t].Fresh? || s.threads[t].Looping?)
    requires !s.closing && s.queued != []
    ensures Numbers(s.(queued := s.queued[1..], nrQueued := s.nrQueued - 1,
                       works := s.works[s.queued[0] := Running], threads := s.threads[t := Busy(s.queued[0])]))
  {
    ThreadMoves(s.threads, t, Busy(s.queued[0]));
  }

  lemma PopInv(s: State, t: ThreadId)
    requires Inv(s) && t < |s.threads| && (s.threads[t].Fresh? || s.threads[t].Looping?)
    requires !s.closing && s.queued != []
    ensures Good(LoopTop(s, t))
  {
    var w := s.queued[0];
    PopLinked(s.queued, s.done, s.active, s.timers, s.works);
    QueuedNotFinishing(s, w);
    hide Numbers, Linked, InHands, Owned, Accounted;
    PopHands(s.threads, s.works, t, w);
    MoveRest(s, w, Running);
    PopNumbers(s, t);
  }

  lemma QueuedNotFinishing(s: State, w: WorkId)
    requires Owned(s.works, s.active, s.loop) && w in s.works && s.works[w] == Queued
    ensures s.loop.Finishing? && !s.loop.timedOut ==> s.loop.w != w
  {
  }

  lemma WaitNumbers(s: State, t: ThreadId)
    requires Numbers(s) && t < |s.threads| && (s.threads[t].Fresh? || s.threads[t].Looping?) && !s.closing
    requires s.queued == []
    ensures Numbers(s.(nrIdle := s.nrIdle + 1, threads := s.threads[t := Waiting]))
  {
    ThreadMoves(s.threads, t, Waiting);
  }

  lemma ExitNumbers(s: State, t: ThreadId)
    requires Numbers(s) && t < |s.threads| && (s.threads[t].Fresh? || s.threads[t].Looping?) && s.closing
    ensures Unref(s.(threads := s.threads[t := Exited])).Next?
    ensures Numbers(Unref(s.(threads := s.threads[t := Exited])).s)
  {
    SharedAlive(s, t);
    ThreadMoves(s.threads, t, Exited);
  }

  lemma LoopTopInv(s: State, t: ThreadId)
    requires Inv(s) && t < |s.threads| && (s.threads[t].Fresh? || s.threads[t].Looping?)
    ensures Good(LoopTop(s, t))
  {
    if !s.closing && s.queued != [] {
      PopInv(s, t);
    } else if s.closing {
      hide Numbers, Linked, InHands, Owned, Accounted;
      ExitNumbers(s, t);
      IdleMove(s.threads, s.works, t, Exited);
    } else {
      hide Numbers, Linked, InHands, Owned, Accounted;
      WaitNumbers(s, t);
      IdleMove(s.threads, s.works, t, Waiting);
    }
  }

  /** The loop top does not look at where its own thread was. */
  lemma LoopTopSame(s: State, u: State, t: ThreadId)
    requires t < |s.threads| == |u.threads| && u == s.(threads := s.threads[t := u.threads[t]])
    ensures LoopTop(s, t) == LoopTop(u, t)
  {
    assert u.threads[t := Waiting] == s.threads[t := Waiting];
    assert u.threads[t := Exited] == s.threads[t := Exited];
    if s.queued != [] {
      assert u.threads[t := Busy(s.queued[0])] == s.threads[t := Busy(s.queued[0])];
    }
  }

  lemma RelockNumbers(s: State, t: ThreadId)
    requires Numbers(s) && t < |s.threads| && s.threads[t].Woken?
    ensures Numbers(s.(nrIdle := s.nrIdle - 1, threads := s.threads[t := Fresh]))
  {
    ThreadMoves(s.threads, t, Fresh);
  }

  lemma LockInv(s: State, t: ThreadId)
    requires Inv(s)
    ensures Good(DoLock(s, t))
  {
    hide LoopTop, Numbers, Linked, InHands, Owned, Accounted;
    if t < |s.threads| && (s.threads[t].Fresh? || s.threads[t].Woken? || s.threads[t].Looping?) {
      SharedAlive(s, t);
      if !s.threads[t].Woken? {
        LoopTopInv(s, t);
      } else {
        // A woken worker that has the lock looks for work like one that was just created.
        var u := s.(nrIdle := s.nrIdle - 1, threads := s.threads[t := Fresh]);
        RelockNumbers(s, t);
        IdleMove(s.threads, s.works, t, Fresh);
        LoopTopInv(u, t);
        LoopTopSame(s.(nrIdle := s.nrIdle - 1), u, t);
      }
    }
  }

  // A worker ends its work.

  lemma CompleteLinked(queued: seq<WorkId>, done: seq<WorkId>, active: seq<WorkId>, timers: set<WorkId>,
                       works: map<WorkId, WorkState>, w: WorkId)
    requires Linked(queued, done, active, timers, works) && w in active && works[w] == Running
    ensures Linked(queued, done + [w], active, timers, works[w := Done])
  {
    assert w !in queued && w !in done;
  }

  lemma CompleteHands(threads: seq<Thread>, works: map<WorkId, WorkState>, t: ThreadId)
    requires InHands(threads, works) && t < |threads| && threads[t].Busy? && threads[t].w in works
    requires works[threads[t].w] == Running
    ensures InHands(threads[t := Looping], works[threads[t].w := Done])
  {
    HandsMove(threads, works, t, Looping, threads[t].w, Done);
  }

  lemma CompleteNumbers(s: State, t: ThreadId, u: State)
    requires Numbers(s) && t < |s.threads| && s.threads[t].Busy? && !s.closing
    requires u == s.(works := u.works, done := u.done, eventfd := s.eventfd + 1, threads := s.threads[t := Looping])
    requires s.poolAlive
    ensures Numbers(u)
  {
    ThreadMoves(s.threads, t, Looping);
  }

  /** The work of a busy worker is in memory and runs, or was dropped. */
  lemma BusyWork(threads: seq<Thread>, works: map<WorkId, WorkState>, t: ThreadId)
    requires InHands(threads, works) && t < |threads| && threads[t].Busy?
    ensures AtWorker(works, threads[t].w)
  {
    HeldByPositive(threads, t, threads[t].w);
  }

  lemma {:induction false} HeldByPositive(ts: seq<Thread>, t: ThreadId, w: WorkId)
    requires t < |ts| && Holds(ts[t], w)
    ensures HeldBy(ts, w) > 0
  {
    if t > 0 {
      HeldByPositive(ts[1..], t - 1, w);
    }
  }

  lemma RunningIsActive(s: State, w: WorkId)
    requires Inv(s) && w in s.works && s.works[w] == Running
    ensures w in s.active && s.poolAlive && !s.closing
    ensures s.loop.Finishing? && !s.loop.timedOut ==> s.loop.w != w
  {
  }

  lemma CompleteInv(s: State, t: ThreadId, u: State)
    requires Inv(s) && t < |s.threads| && s.threads[t].Busy? && s.threads[t].w in s.works
    requires s.works[s.threads[t].w] == Running
    requires u == s.(works := s.works[s.threads[t].w := Done], done := s.done + [s.threads[t].w],
                     eventfd := s.eventfd + 1, threads := s.threads[t := Looping])
    ensures Inv(u)
  {
    var w := s.threads[t].w;
    RunningIsActive(s, w);
    hide Numbers, Linked, InHands, Owned, Accounted;
    CompleteLinked(s.queued, s.done, s.active, s.timers, s.works, w);
    CompleteHands(s.threads, s.works, t);
    MoveRest(s, w, Done);
    CompleteNumbers(s, t, u);
  }

  lemma DroppedHands(threads: seq<Thread>, works: map<WorkId, WorkState>, t: ThreadId)
    requires InHands(threads, works) && t < |threads| && threads[t].Busy? && threads[t].w in works
    requires works[threads[t].w] == Dropped
    ensures InHands(threads[t := Freeing(threads[t].w)], works)
  {
    ThreadMoves(threads, t, Freeing(threads[t].w));
  }

  lemma DroppedNumbers(s: State, t: ThreadId)
    requires Numbers(s) && t < |s.threads| && s.threads[t].Busy?
    ensures Numbers(s.(threads := s.threads[t := Freeing(s.threads[t].w)]))
  {
    ThreadMoves(s.threads, t, Freeing(s.threads[t].w));
  }

  lemma FnReturnsInv(s: State, t: ThreadId)
    requires Inv(s)
    ensures Good(DoFnReturns(s, t))
  {
    hide LoopTop, Numbers, Linked, InHands, Owned, Accounted;
    if t < |s.threads| && s.threads[t].Busy? {
      SharedAlive(s, t);
      var w := s.threads[t].w;
      BusyWork(s.threads, s.works, t);
      if s.works[w] == Dropped {
        DroppedHands(s.threads, s.works, t);
        DroppedNumbers(s, t);
      } else {
        var u := s.(works := s.works[w := Done], done := s.done + [w], eventfd := s.eventfd + 1);
        var v := u.(threads := s.threads[t := Looping]);
        CompleteInv(s, t, v);
        LoopTopInv(v, t);
        LoopTopSame(u, v, t);
      }
    }
  }

  // ----- taking a work away: detach() -----

  lemma DetachNext(s: State, w: WorkId)
    requires Inv(s) && w in s.active
    ensures Detach(s, w).Next?
    ensures w in s.works && s.works[w] != Dropped
  {
  }

  lemma DetachLinked(queued: seq<WorkId>, done: seq<WorkId>, active: seq<WorkId>, timers: set<WorkId>,
                     works: map<WorkId, WorkState>, w: WorkId)
    requires Linked(queued, done, active, timers, works) && w in active
    ensures works[w] == Running ==> Linked(queued, done, Without(active, w), timers - {w}, works[w := Dropped])
    ensures works[w] != Running ==>
      && Linked(Without(queued, w), Without(done, w), Without(active, w), timers - {w}, works)
      && Linked(Without(queued, w), Without(done, w), Without(active, w), timers - {w}, works - {w})
    ensures forall x :: x in Without(active, w) <==> x in active && x != w
  {
    WithoutFacts(active, w);
    WithoutFacts(queued, w);
    WithoutFacts(done, w);
  }

  lemma DetachHands(threads: seq<Thread>, works: map<WorkId, WorkState>, w: WorkId)
    requires InHands(threads, works) && w in works
    ensures works[w] == Running ==> InHands(threads, works[w := Dropped])
    ensures !AtWorker(works, w) ==> InHands(threads, works - {w})
  {
    assert forall x :: AtWorker(works[w := Dropped], x) <==> AtWorker(works, x) || x == w;
    assert forall x :: AtWorker(works - {w}, x) <==> AtWorker(works, x) && x != w;
  }

  lemma DetachNumbers(s: State, w: WorkId)
    requires Linked(s.queued, s.done, s.active, s.timers, s.works) && Numbers(s) && w in s.active && Detach(s, w).Next?
    ensures Numbers(Detach(s, w).s)
  {
    WithoutFacts(s.queued, w);
    WithoutFacts(s.done, w);
    assert Without(s.done, w) != [] ==> s.done != [];
    assert s.active != [];
  }

  /** The work leaves the active list, and memory unless a worker runs it; no callback is called. */
  lemma DropRest(works: map<WorkId, WorkState>, next: WorkId, freed: multiset<WorkId>, cancelled: set<WorkId>,
                 active: seq<WorkId>, reported: multiset<WorkId>, loop: Loop, w: WorkId, left: seq<WorkId>)
    requires Owned(works, active, loop) && Accounted(works, next, freed, cancelled, active, reported)
    requires w in active && w in works && works[w] != Dropped && !loop.Finishing?
    requires forall x :: x in left <==> x in active && x != w
    ensures works[w] == Running ==>
      && Owned(works[w := Dropped], left, loop)
      && Accounted(works[w := Dropped], next, freed, cancelled + {w}, left, reported)
    ensures works[w] != Running ==>
      && Owned(works - {w}, left, loop)
      && Accounted(works - {w}, next, freed + multiset{w}, cancelled + {w}, left, reported)
  {
  }

  lemma DropInv(s: State, w: WorkId)
    requires Inv(s) && w in s.active && !s.loop.Finishing?
    ensures Good(Drop(s, w))
  {
    DetachNext(s, w);
    DetachNumbers(s, w);
    hide Without, NoDup, HeldBy, Numbers, Linked, InHands, Owned, Accounted;
    DetachLinked(s.queued, s.done, s.active, s.timers, s.works, w);
    DetachHands(s.threads, s.works, w);
    DropRest(s.works, s.next, s.freed, s.cancelled, s.active, s.reported, s.loop, w, Without(s.active, w));
    DropNumbers(s, w);
  }

  /** The numbers do not depend on what is in memory. */
  lemma NumbersFrame(s: State, u: State)
    requires Numbers(s)
    requires u == s.(works := u.works, freed := u.freed, cancelled := u.cancelled)
    ensures Numbers(u)
  {
  }

  lemma DropNumbers(s: State, w: WorkId)
    requires Detach(s, w).Next? && Numbers(Detach(s, w).s)
    ensures Drop(s, w).Next? ==> Numbers(Drop(s, w).s)
  {
    hide Detach, Numbers;
    if Drop(s, w).Next? {
      NumbersFrame(Detach(s, w).s, Drop(s, w).s);
    }
  }

  /** The work leaves the active list and its callback runs. */
  lemma FinishRest(works: map<WorkId, WorkState>, next: WorkId, freed: multiset<WorkId>, cancelled: set<WorkId>,
                   active: seq<WorkId>, reported: multiset<WorkId>, w: WorkId, timedOut: bool, left: seq<WorkId>)
    requires Owned(works, active, Finishing(w, timedOut)) && Accounted(works, next, freed, cancelled, active, reported)
    requires works[w] != Dropped
    requires forall x :: x in left <==> x in active && x != w
    ensures works[w] == Running ==>
      && Owned(works[w := Dropped], left, Callback(Held(w, false), timedOut))
      && Accounted(works[w := Dropped], next, freed, cancelled, left, reported + multiset{w})
    ensures works[w] != Running ==>
      && Owned(works, left, Callback(Held(w, true), timedOut))
      && Accounted(works, next, freed, cancelled, left, reported + multiset{w})
  {
  }

  lemma FinishNumbers(s: State, u: State)
    requires Numbers(s) && s.loop.Finishing?
    requires u.loop.Callback? && u == s.(loop := u.loop, reported := u.reported)
    ensures Numbers(u)
  {
  }

  lemma FinishInv(s: State)
    requires Inv(s) && s.loop.Finishing?
    ensures Good(Finish(s, s.loop.w, s.loop.timedOut))
  {
    var w := s.loop.w;
    DetachNext(s, w);
    DetachNumbers(s, w);
    hide Without, NoDup, HeldBy, Numbers, Linked, InHands, Owned, Accounted;
    DetachLinked(s.queued, s.done, s.active, s.timers, s.works, w);
    DetachHands(s.threads, s.works, w);
    FinishRest(s.works, s.next, s.freed, s.cancelled, s.active, s.reported, w, s.loop.timedOut, Without(s.active, w));
    FinishNumbers(Detach(s, w).s, Finish(s, w, s.loop.timedOut).s);
  }

  // ----- the user -----

  lemma CancelInv(s: State, w: WorkId)
    requires Inv(s)
    ensures Good(DoCancel(s, w))
  {
    if !DoCancel(s, w).Blocked? {
      CancelIsActive(s, w);
      DropInv(s, w);
    }
  }

  /** The work the user may still cancel is on the active list. */
  lemma CancelIsActive(s: State, w: WorkId)
    requires Inv(s) && w < s.next && w !in s.cancelled && w !in s.reported
    ensures w in s.active
  {
    assert s.reported[w] == 0;
  }

  lemma SubmitLinked(queued: seq<WorkId>, done: seq<WorkId>, active: seq<WorkId>, timers: set<WorkId>,
                     works: map<WorkId, WorkState>, w: WorkId, timed: bool)
    requires Linked(queued, done, active, timers, works) && w !in works
    ensures Linked(queued + [w], done, active + [w], if timed then timers + {w} else timers, works[w := Queued])
  {
    assert w !in active && w !in queued && w !in done;
  }

  lemma SubmitHands(threads: seq<Thread>, works: map<WorkId, WorkState>, w: WorkId)
    requires InHands(threads, works) && w !in works
    ensures InHands(threads, works[w := Queued])
  {
    assert forall x :: AtWorker(works[w := Queued], x) <==> AtWorker(works, x);
  }

  lemma SpawnHands(threads: seq<Thread>, works: map<WorkId, WorkState>)
    requires InHands(threads, works)
    ensures InHands(threads + [Fresh], works)
  {
    forall w ensures HeldBy(threads + [Fresh], w) == HeldBy(threads, w) {
      HeldByAppend(threads, Fresh, w);
    }
  }

  lemma SubmitRest(works: map<WorkId, WorkState>, next: WorkId, freed: multiset<WorkId>, cancelled: set<WorkId>,
                   active: seq<WorkId>, reported: multiset<WorkId>, loop: Loop)
    requires Owned(works, active, loop) && Accounted(works, next, freed, cancelled, active, reported)
    requires loop.Idle? || loop.Callback?
    ensures next !in works
    ensures Owned(works[next := Queued], active + [next], loop)
    ensures Accounted(works[next := Queued], next + 1, freed, cancelled, active + [next], reported)
  {
  }

  /** One more queued work and perhaps one more worker: a sleeper may be one short of a signal. */
  ghost predicate AlmostNumbers(s: State)
  {
    && Phases(s) && Counters(s) && Announced(s)
    && 0 < s.max && !s.closing && s.threads != []
    && (Count(s.threads, Asleep) > 0 ==> |s.queued| <= Count(s.threads, Awake) + 1)
    && (s.spawnFailed || |s.threads| == s.max || |s.queued| <= Count(s.threads, InWait) + Count(s.threads, New))
  }

  lemma EnqueueNumbers(s: State, spawnOk: bool)
    requires Numbers(s) && UserRuns(s) && !(WantsWorker(s) && !spawnOk && s.nrWorkers == 0)
    ensures AlmostNumbers(Enqueue(s, spawnOk))
  {
    if WantsWorker(s) && spawnOk {
      forall k ensures Count(s.threads + [Fresh], k) == Count(s.threads, k) + (if Is(k, Fresh) then 1 else 0) {
        CountAppend(s.threads, Fresh, k);
      }
    }
  }

  lemma PublishNumbers(s: State, timed: bool, wake: Option<ThreadId>)
    requires AlmostNumbers(s) && UserRuns(s) && MaySignal(s.threads, wake)
    ensures Numbers(Publish(s, timed, wake))
  {
    CountZero(s.threads, Asleep);
    if wake.Some? {
      ThreadMoves(s.threads, wake.value, Woken);
    }
  }

  lemma SubmitNumbers(s: State, timed: bool, spawnOk: bool, wake: Option<ThreadId>)
    requires Numbers(s) && DoSubmit(s, timed, spawnOk, wake).Next?
    ensures Numbers(DoSubmit(s, timed, spawnOk, wake).s)
  {
    if WantsWorker(s) && !spawnOk && s.nrWorkers == 0 {
      RejectNumbers(s);
    } else {
      EnqueueNumbers(s, spawnOk);
      PublishNumbers(Enqueue(s, spawnOk), timed, wake);
    }
    hide Enqueue, Publish, Numbers, AlmostNumbers;
  }

  lemma RejectNumbers(s: State)
    requires Numbers(s)
    ensures Numbers(s.(spawnFailed := true))
  {
  }

  lemma SubmitInv(s: State, timed: bool, spawnOk: bool, wake: Option<ThreadId>)
    requires Inv(s)
    ensures Good(DoSubmit(s, timed, spawnOk, wake))
  {
    if UserRuns(s) {
      UserAlive(s);
    }
    hide Memory, Numbers;
    if DoSubmit(s, timed, spawnOk, wake).Next? {
      SubmitNumbers(s, timed, spawnOk, wake);
      SubmitMemory(s, timed, spawnOk, wake);
    }
  }

  lemma UserAlive(s: State)
    requires Numbers(s) && UserRuns(s)
    ensures s.poolAlive && s.sharedAlive
  {
  }

  lemma SubmitMemory(s: State, timed: bool, spawnOk: bool, wake: Option<ThreadId>)
    requires Memory(s) && DoSubmit(s, timed, spawnOk, wake).Next?
    ensures Memory(DoSubmit(s, timed, spawnOk, wake).s)
  {
    hide Without, NoDup, HeldBy, Linked, InHands, Owned, Accounted;
    if !(WantsWorker(s) && !spawnOk && s.nrWorkers == 0) {
      var ts := Enqueue(s, spawnOk).threads;
      SubmitRest(s.works, s.next, s.freed, s.cancelled, s.active, s.reported, s.loop);
      SubmitLinked(s.queued, s.done, s.active, s.timers, s.works, s.next, timed);
      SpawnHands(s.threads, s.works);
      if wake.Some? {
        IdleMove(ts, s.works, wake.value, Woken);
      }
      SubmitHands(Signal(ts, wake), s.works, s.next);
    }
  }

  lemma PoolFreeNumbers(s: State)
    requires Numbers(s) && DoPoolFree(s).Next?
    ensures Numbers(DoPoolFree(s).s)
  {
  }

  /** The same work is held at another place of the event loop. */
  lemma SameHeld(works: map<WorkId, WorkState>, active: seq<WorkId>, l: Loop, m: Loop)
    requires Owned(works, active, l) && !m.Finishing? && !m.Callback?
    requires forall w :: LoopHolds(l, w) <==> LoopHolds(m, w)
    ensures Owned(works, active, m)
  {
  }

  lemma PoolFreeInv(s: State)
    requires Inv(s)
    ensures Good(DoPoolFree(s))
  {
    if DoPoolFree(s).Next? {
      PoolFreeNumbers(s);
      hide Numbers, Linked, InHands, Owned, Accounted;
      if !s.dispatching {
        SameHeld(s.works, s.active, s.loop, DoPoolFree(s).s.loop);
      }
    }
  }

  // ----- the event loop -----

  lemma TimerFiresInv(s: State, w: WorkId)
    requires Inv(s)
    ensures Good(DoTimerFires(s, w))
  {
    if s.loop.Idle? && w in s.timers {
      UserAlive(s);
      TimerFiresNumbers(s, w);
      hide Numbers;
      assert Memory(DoTimerFires(s, w).s);
    }
  }

  lemma TimerFiresNumbers(s: State, w: WorkId)
    requires Numbers(s) && DoTimerFires(s, w).Next?
    ensures Numbers(DoTimerFires(s, w).s)
  {
  }

  lemma EventReadyInv(s: State)
    requires Inv(s)
    ensures Good(DoEventReady(s))
  {
    if s.loop.Idle? && s.eventfd != 0 {
      UserAlive(s);
      EventReadyNumbers(s);
      hide Numbers, Linked, InHands, Owned, Accounted;
      SameHeld(s.works, s.active, s.loop, Dispatch);
    }
  }

  lemma EventReadyNumbers(s: State)
    requires Numbers(s) && DoEventReady(s).Next?
    ensures Numbers(DoEventReady(s).s)
  {
  }

  lemma DispatchInv(s: State)
    requires Inv(s) && s.loop.Dispatch?
    ensures Good(DoLoopStep(s))
  {
    DispatchNumbers(s);
    if s.freePending || s.done == [] {
      hide Numbers, Linked, InHands, Owned, Accounted;
      SameHeld(s.works, s.active, s.loop, DoLoopStep(s).s.loop);
    } else {
      FirstIn(s.done);
      DispatchNext(s.works, s.active, s.done[0]);
      hide Numbers, Linked, InHands, Owned, Accounted;
    }
  }

  lemma DispatchNext(works: map<WorkId, WorkState>, active: seq<WorkId>, w: WorkId)
    requires Owned(works, active, Dispatch) && w in active && w in works && works[w] == Done
    ensures Owned(works, active, Finishing(w, false))
  {
  }

  lemma DispatchNumbers(s: State)
    requires Numbers(s) && s.loop.Dispatch?
    ensures DoLoopStep(s).Next? && Numbers(DoLoopStep(s).s)
  {
  }

  /** A callback returned: the event loop frees the work if it is its own. */
  lemma FreeHeld(s: State, held: Held, loop: Loop)
    requires Memory(s) && (s.loop == Returning(held) || (s.loop.Callback? && s.loop.held == held))
    requires loop.Idle? || loop.Dispatch? || loop.Gone?
    ensures held.mine ==> held.w in s.works && Memory(s.(loop := loop, works := s.works - {held.w},
        freed := s.freed + multiset{held.w}))
    ensures !held.mine ==> Memory(s.(loop := loop))
  {
    if held.mine {
      assert LoopHolds(s.loop, held.w);
      FreeRest(s, held.w, loop);
      DetachHands(s.threads, s.works, held.w);
      hide Linked, InHands, Owned, Accounted;
    } else {
      SameHeld(s.works, s.active, s.loop, loop);
      hide Linked, InHands, Owned, Accounted;
    }
  }

  lemma ReturnNumbers(s: State, u: State)
    requires Numbers(s) && (s.loop.Callback? || s.loop.Returning?)
    requires u == s.(loop := u.loop, works := u.works, freed := u.freed)
    requires u.loop == if s.loop.Returning? then Gone else if s.dispatching then Dispatch else Idle
    ensures Numbers(u)
  {
  }

  lemma ReturnInv(s: State)
    requires Inv(s) && (s.loop.Callback? || s.loop.Returning?)
    ensures Good(DoLoopStep(s))
  {
    var loop := if s.loop.Returning? then Gone else if s.dispatching then Dispatch else Idle;
    FreeHeld(s, s.loop.held, loop);
    hide Memory, Numbers;
    ReturnNumbers(s, DoLoopStep(s).s);
  }

  lemma DestroyInv(s: State)
    requires Inv(s) && s.loop.Destroy?
    ensures Good(DoLoopStep(s))
  {
    if s.active != [] {
      FirstIn(s.active);
      DropInv(s, s.active[0]);
    } else {
      NothingLinked(s);
      DestroyNumbers(s);
      hide Numbers, Linked, InHands, Owned, Accounted;
      SameHeld(s.works, s.active, s.loop, DoLoopStep(s).s.loop);
    }
  }

  lemma NothingLinked(s: State)
    requires Linked(s.queued, s.done, s.active, s.timers, s.works) && s.active == []
    ensures s.queued == [] && s.done == []
  {
    if s.queued != [] {
      FirstIn(s.queued);
    }
    if s.done != [] {
      FirstIn(s.done);
    }
  }

  lemma DestroyNumbers(s: State)
    requires Numbers(s) && s.loop.Destroy? && s.active == [] && s.queued == [] && s.done == []
    ensures DoLoopStep(s).Next? && Numbers(DoLoopStep(s).s)
  {
  }

  lemma BroadcastHands(threads: seq<Thread>, works: map<WorkId, WorkState>)
    requires InHands(threads, works)
    ensures InHands(Broadcast(threads), works)
  {
    forall w ensures HeldBy(Broadcast(threads), w) == HeldBy(threads, w) {
      HeldByBroadcast(threads, w);
    }
    forall i | 0 <= i < |threads| ensures Broadcast(threads)[i].Freeing? ==> Broadcast(threads)[i] == threads[i] {
      BroadcastAt(threads, i);
    }
  }

  lemma ClosingNumbers(s: State)
    requires Numbers(s) && s.loop.Closing?
    ensures DoLoopStep(s).Next? && Numbers(DoLoopStep(s).s)
  {
    CountBroadcast(s.threads);
  }

  lemma ClosingInv(s: State)
    requires Inv(s) && s.loop.Closing?
    ensures Good(DoLoopStep(s))
  {
    hide Numbers, Linked, InHands, Owned, Accounted;
    ClosingNumbers(s);
    BroadcastHands(s.threads, s.works);
    SameHeld(s.works, s.active, s.loop, DoLoopStep(s).s.loop);
  }

  lemma LoopStepInv(s: State)
    requires Inv(s)
    ensures Good(DoLoopStep(s))
  {
    hide Memory, Numbers;
    match s.loop
    case Idle =>
    case Gone =>
    case Dispatch => DispatchInv(s);
    case Finishing(_, _) => FinishInv(s);
    case Callback(_, _) => ReturnInv(s);
    case Destroy(_) => DestroyInv(s);
    case Closing(_) => ClosingInv(s);
    case Returning(_) => ReturnInv(s);
  }

  /** Every step of the system touches no freed memory and keeps the invariant. */
  lemma StepInv(s: State, a: Action)
    requires Inv(s)
    ensures Good(Step(s, a))
  {
    hide Memory, Numbers;
    match a
    case Submit(timed, spawnOk, wake) => SubmitInv(s, timed, spawnOk, wake);
    case Cancel(w) => CancelInv(s, w);
    case PoolFree => PoolFreeInv(s);
    case TimerFires(w) => TimerFiresInv(s, w);
    case EventReady => EventReadyInv(s);
    case LoopStep => LoopStepInv(s);
    case Lock(t) => LockInv(s, t);
    case FnReturns(t) => FnReturnsInv(s, t);
    case FreeDropped(t) => FreeDroppedInv(s, t);
    case SpuriousWakeup(t) => SpuriousWakeupInv(s, t);
  }
}
