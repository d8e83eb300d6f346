/** The steps of the scheduler and of the mutexes keep the invariant. */
module KernelScheduling {
  import opened Wrappers
  import opened KernelState
  import opened KernelInvariant
  import opened KernelSteps

  // ---------------------------------------------------------------- dispatch

  lemma NextFacts(s: State)
    requires Sound(s) && s.active.None?
    ensures CanDispatch(s) && ScheduleChecks(s)
    ensures var n := Next(s);
            && Alive(s, n) && At(s, n).active == 0
            && ThreadOk(n, s.threads[n], At(s, n), Holders(s, n), s.frames)
            && (FromQueue(s) ==> At(s, n).queued >= 1)
            && (!FromQueue(s) ==> n == DEFAULT || n == FALLBACK)
            && KindFits(s.threads[n], n)
  {
    hide Count;
    var n := Next(s);
    if FromQueue(s) {
      CountTail(s.queued, n);
    }
    assert Holders(s, n) > 0 && Holders(s, FALLBACK) > 0;
    assert Alive(s, FALLBACK) && KindFits(s.threads[FALLBACK], FALLBACK);
    assert ThreadOk(FALLBACK, s.threads[FALLBACK], At(s, FALLBACK), Holders(s, FALLBACK), s.frames);
    assert ThreadOk(n, s.threads[n], At(s, n), Holders(s, n), s.frames);
  }

  lemma DispatchSpots(s: State, u: Tid)
    requires CanDispatch(s) && s.active.None?
    ensures var n, s' := Next(s), Dispatch(s);
            && FramesKept(s, s')
            && (u != n ==> Untouched(s, s', u))
            && (FromQueue(s) ==> At(s, n).queued >= 1)
            && At(s', n) == At(s, n).(active := 1, queued := At(s, n).queued - (if FromQueue(s) then 1 else 0))
            && Holders(s', n) == Holders(s, n) + (if FromQueue(s) then 0 else 1)
  {
    hide Count;
    var n, s' := Next(s), Dispatch(s);
    HeldSet(s.threads, n, s'.threads[n], u);
    HeldSet(s.threads, n, s'.threads[n], n);
    if FromQueue(s) {
      CountTail(s.queued, u);
      CountTail(s.queued, n);
    }
  }

  lemma DispatchedOk(t: Tid, th: Thread, p: Spots, refs: nat, frames: seq<Frame>, queued: bool)
    requires ThreadOk(t, th, p, refs, frames) && p.active == 0
    requires if queued then p.queued >= 1 else th.kind.Default? || th.kind.Fallback?
    ensures var q := p.(active := 1, queued := p.queued - if queued then 1 else 0);
            ThreadOk(t, th.(stash := None), q, if queued then refs else refs + 1, frames)
    ensures p.held == 0
  {
  }

  lemma DispatchSound(s: State)
    requires Sound(s) && s.active.None?
    ensures CanDispatch(s) && ScheduleChecks(s)
    ensures Sound(Dispatch(s)) && HasActive(Dispatch(s)) && Dispatch(s).active == Some(Next(s))
  {
    hide At, Holders, Count, CallsInOrder, CallsReturnOnce, Kinds, Placed, Holding, HoldFits, ThreadOk;
    NextFacts(s);
    var n, s' := Next(s), Dispatch(s);
    RolesKept(s, s', n);
    forall u: Tid
      ensures u != n ==> Untouched(s, s', u)
    {
      DispatchSpots(s, u);
    }
    DispatchSpots(s, n);
    DispatchedOk(n, s.threads[n], At(s, n), Holders(s, n), s.frames, FromQueue(s));
    NotHeld(s, n);
    OwnHold(s, s', n);
    AssembleOne(s, s', n);
  }

  // ------------------------------------------------------------- system calls

  lemma BlockCallSpots(s: State, u: Tid)
    requires HasActive(s)
    ensures var t, s' := s.active.value, BlockCall(s);
            && FramesKept(s, s')
            && (u != t ==> Untouched(s, s', u))
            && At(s', t) == At(s, t).(active := 0, waiting := At(s, t).waiting + 1)
            && Holders(s', t) == Holders(s, t)
  {
    hide Count;
    var t, s' := s.active.value, BlockCall(s);
    HeldSet(s.threads, t, StashActive(s).threads[t], u);
    HeldSet(StashActive(s).threads, t, s'.threads[t], u);
    HeldSet(s.threads, t, StashActive(s).threads[t], t);
    HeldSet(StashActive(s).threads, t, s'.threads[t], t);
    CountAppend(s.waiting, t, u);
    CountAppend(s.waiting, t, t);
  }

  lemma BlockCallLogs(s: State)
    requires Sound(s) && HasActive(s)
    requires s.threads[s.active.value].kind.Ordinary? && s.threads[s.active.value].phase.Running?
    ensures Kinds(BlockCall(s)) && CallsInOrder(BlockCall(s)) && CallsReturnOnce(BlockCall(s))
  {
    hide At, Holders, Count, ThreadOk, Counted, Holding, Placed;
    var t, s' := s.active.value, BlockCall(s);
    ActiveFacts(s);
    KindsKept(s, s', t);
    assert s'.called == s.taken + s'.waiting;
    forall k | 0 <= k < |s'.workers|
      ensures WorkerFor(s', s'.workers[k], s'.taken[k])
    {
      assert WorkerFor(s, s.workers[k], s.taken[k]);
    }
    forall u: Tid
      ensures ReturnsOnce(s', u)
    {
      assert ReturnsOnce(s, u);
      CountAppend(s.called, t, u);
    }
  }

  lemma BlockCallSound(s: State)
    requires Sound(s) && Enabled(s, Svc)
    ensures Sound(BlockCall(s)) && BlockCall(s).active.None?
  {
    hide At, Holders, Count, CallsInOrder, CallsReturnOnce, Kinds, Placed, Holding, HoldFits;
    ActiveFacts(s);
    var t, s' := s.active.value, BlockCall(s);
    forall u: Tid
      ensures u != t ==> Untouched(s, s', u)
    {
      BlockCallSpots(s, u);
    }
    BlockCallSpots(s, t);
    BlockCallLogs(s);
    assert HoldFine(s', t);
    AssembleOne(s, s', t);
  }

  // ------------------------------------------------------------------ wakeups

  lemma WakeSpots(s: State, n: Tid, u: Tid)
    requires n < |s.threads|
    ensures var s' := Wakeup(s, n);
            && FramesKept(s, s')
            && (u != n ==> Untouched(s, s', u))
            && var more := if s.threads[n].masked then 1 else 0;
               && At(s', n) == At(s, n).(queued := At(s, n).queued + more)
               && Holders(s', n) == Holders(s, n) + more
  {
    hide Count;
    var s' := Wakeup(s, n);
    HeldSet(s.threads, n, s'.threads[n], u);
    HeldSet(s.threads, n, s'.threads[n], n);
    CountAppend(s.queued, n, u);
    CountAppend(s.queued, n, n);
  }

  lemma WakeSystemSound(s: State)
    requires Sound(s)
    ensures Sound(Wakeup(s, SYSTEM))
  {
    hide At, Holders, Count, CallsInOrder, CallsReturnOnce, Kinds, Placed, Holding, HoldFits, Returns, Held, Parked;
    SystemFacts(s);
    var s' := Wakeup(s, SYSTEM);
    forall u: Tid
      ensures u != SYSTEM ==> Untouched(s, s', u)
    {
      WakeSpots(s, SYSTEM, u);
    }
    WakeSpots(s, SYSTEM, SYSTEM);
    RolesKept(s, s', SYSTEM);
    NotHeld(s, SYSTEM);
    OwnHold(s, s', SYSTEM);
    AssembleOne(s, s', SYSTEM);
  }

  lemma SystemFacts(s: State)
    requires Sound(s)
    ensures Alive(s, SYSTEM) && s.threads[SYSTEM].kind.SystemHandler?
    ensures ThreadOk(SYSTEM, s.threads[SYSTEM], At(s, SYSTEM), Holders(s, SYSTEM), s.frames)
    ensures At(s, SYSTEM).held == 0 && Holders(s, SYSTEM) >= 1
  {
    assert Holders(s, SYSTEM) > 0;
    assert KindFits(s.threads[SYSTEM], SYSTEM);
    assert ThreadOk(SYSTEM, s.threads[SYSTEM], At(s, SYSTEM), Holders(s, SYSTEM), s.frames);
  }

  // ------------------------------------------------------------------ mutexes

  lemma LockFreeSpots(s: State, m: nat, u: Tid)
    requires HasActive(s) && m < |s.mutexes| && s.mutexes[m].holder.None?
    ensures var t, s' := s.active.value, LockFree(s, m);
            && FramesKept(s, s')
            && (u != t ==> Untouched(s, s', u))
            && At(s', t) == At(s, t) && Holders(s', t) == Holders(s, t) + 1
  {
    hide Count;
    var t, s' := s.active.value, LockFree(s, m);
    forall v | v == u || v == t
      ensures Held(s'.threads, v) == Held(s.threads, v) && Parked(s'.mutexes, v) == Parked(s.mutexes, v)
      ensures Owned(s'.mutexes, v) == Owned(s.mutexes, v) + One(Some(t), v)
    {
      HeldSet(s.threads, t, s'.threads[t], v);
      ParkedSet(s.mutexes, m, s'.mutexes[m], v);
      OwnedSet(s.mutexes, m, s'.mutexes[m], v);
    }
  }

  lemma LockFreeSound(s: State, m: nat)
    requires Sound(s) && Enabled(s, Lock(m)) && s.mutexes[m].holder.None?
    ensures Sound(LockFree(s, m)) && HasActive(LockFree(s, m))
  {
    hide At, Holders, Count, CallsInOrder, CallsReturnOnce, Kinds, Placed, Holding, HoldFits;
    ActiveFacts(s);
    var t, s' := s.active.value, LockFree(s, m);
    forall u: Tid
      ensures u != t ==> Untouched(s, s', u)
    {
      LockFreeSpots(s, m, u);
    }
    LockFreeSpots(s, m, t);
    RolesKept(s, s', t);
    OwnHold(s, s', t);
    assert MutexFifo(s.mutexes[m]);
    AssembleOne(s, s', t);
  }

  // A thread that is masked and referred to elsewhere just leaves the processor.
  ghost function Away(s: State): State
    requires HasActive(s)
  {
    StashActive(s).(active := None)
  }

  lemma BlockOnSpots(s: State, m: nat, u: Tid)
    requires HasActive(s) && m < |s.mutexes|
    ensures var t, s' := s.active.value, Away(LockHeld(s, m));
            && FramesKept(s, s')
            && (u != t ==> Untouched(s, s', u))
            && At(s', t) == At(s, t).(active := 0, parked := At(s, t).parked + 1)
            && Holders(s', t) == Holders(s, t)
            && Holders(StashActive(LockHeld(s, m)), t) == Holders(s, t) + 1
  {
    hide Count;
    var t, s' := s.active.value, Away(LockHeld(s, m));
    forall v | v == u || v == t
      ensures Held(s'.threads, v) == Held(s.threads, v)
      ensures Parked(s'.mutexes, v) == Parked(s.mutexes, v) + One(Some(t), v)
      ensures Owned(s'.mutexes, v) == Owned(s.mutexes, v)
    {
      HeldSet(s.threads, t, LockHeld(s, m).threads[t], v);
      HeldSet(LockHeld(s, m).threads, t, s'.threads[t], v);
      CountAppend(s.mutexes[m].waiting, t, v);
      ParkedSet(s.mutexes, m, s'.mutexes[m], v);
      OwnedSet(s.mutexes, m, s'.mutexes[m], v);
    }
  }

  lemma MaskedLeaves(s: State)
    requires HasActive(s) && s.threads[s.active.value].masked
    requires Holders(StashActive(s), s.active.value) >= 2
    ensures ParkChecks(StashActive(s)) && Preempt(s) == Away(s)
  {
    hide Holders;
  }

  lemma ParkedOnOk(t: Tid, th: Thread, p: Spots, refs: nat, frames: seq<Frame>, m: nat, r0: int)
    requires ThreadOk(t, th, p, refs, frames) && p.active == 1
    requires !th.kind.Fallback? && !th.phase.Dead?
    ensures var out := th.(masked := true, entered := th.entered + {m}, stash := Some(|frames|));
            ThreadOk(t, out, p.(active := 0, parked := p.parked + 1), refs, frames + [Frame(t, r0)])
  {
  }

  lemma BlockOnSound(s: State, m: nat)
    requires Sound(s) && Enabled(s, Lock(m)) && s.mutexes[m].holder.Some?
    ensures var s1 := LockHeld(s, m);
            && ParkChecks(StashActive(s1))
            && Preempt(s1) == Away(s1) && Sound(Preempt(s1)) && Preempt(s1).active.None?
  {
    hide At, Holders, Count, CallsInOrder, CallsReturnOnce, Kinds, Placed, Holding, HoldFits, ThreadOk, Preempt, ParkChecks;
    ActiveFacts(s);
    var t, s' := s.active.value, Away(LockHeld(s, m));
    forall u: Tid
      ensures u != t ==> Untouched(s, s', u)
    {
      BlockOnSpots(s, m, u);
    }
    BlockOnSpots(s, m, t);
    MaskedLeaves(LockHeld(s, m));
    ParkedOnOk(t, s.threads[t], At(s, t), Holders(s, t), s.frames, m, s.r0);
    RolesKept(s, s', t);
    OwnHold(s, s', t);
    BlockOnFifo(s, m);
    AssembleOne(s, s', t);
  }

  lemma BlockOnFifo(s: State, m: nat)
    requires Fifo(s) && HasActive(s) && m < |s.mutexes| && s.mutexes[m].holder.Some?
    ensures Fifo(Away(LockHeld(s, m)))
  {
    assert MutexFifo(s.mutexes[m]);
    assert MutexFifo(LockHeld(s, m).mutexes[m]);
  }

  // --------------------------------------------------------------- the poll

  lemma SleepSpots(s: State, u: Tid)
    requires HasActive(s)
    ensures var t, s' := s.active.value, Away(Sleep(s));
            && FramesKept(s, s')
            && (u != t ==> Untouched(s, s', u))
            && At(s', t) == At(s, t).(active := 0)
            && Holders(s', t) == Holders(s, t) - 1
            && Holders(StashActive(Sleep(s)), t) == Holders(s, t)
  {
    hide Count;
    var t, s' := s.active.value, Away(Sleep(s));
    forall v | v == u || v == t
      ensures Held(s'.threads, v) == Held(s.threads, v)
    {
      HeldSet(s.threads, t, Sleep(s).threads[t], v);
      HeldSet(Sleep(s).threads, t, s'.threads[t], v);
    }
  }

  lemma SleepSound(s: State)
    requires Sound(s) && Enabled(s, Poll)
    ensures var s1 := Sleep(s);
            && ParkChecks(StashActive(s1))
            && Preempt(s1) == Away(s1) && Sound(Preempt(s1)) && Preempt(s1).active.None?
  {
    hide At, Holders, Count, CallsInOrder, CallsReturnOnce, Kinds, Placed, Holding, HoldFits, Preempt, ParkChecks;
    ActiveFacts(s);
    var t, s' := s.active.value, Away(Sleep(s));
    forall u: Tid
      ensures u != t ==> Untouched(s, s', u)
    {
      SleepSpots(s, u);
    }
    SleepSpots(s, t);
    MaskedLeaves(Sleep(s));
    RolesKept(s, s', t);
    OwnHold(s, s', t);
    AssembleOne(s, s', t);
  }

  // ------------------------------------------------------------------ unlock

  lemma LeaveSpots(s: State, m: nat, u: Tid)
    requires HasActive(s) && m < |s.mutexes|
    ensures var t, s' := s.active.value, Leave(s, m);
            && FramesKept(s, s')
            && (u != t ==> Untouched(s, s', u))
            && At(s', t) == At(s, t) && Holders(s', t) == Holders(s, t)
  {
    hide Count;
    var t, s' := s.active.value, Leave(s, m);
    HeldSet(s.threads, t, s'.threads[t], u);
    HeldSet(s.threads, t, s'.threads[t], t);
  }

  lemma LeaveSound(s: State, m: nat)
    requires Sound(s) && Enabled(s, Unlock(m))
    ensures Sound(Leave(s, m)) && HasActive(Leave(s, m))
  {
    hide At, Holders, Count, CallsInOrder, CallsReturnOnce, Kinds, Placed, Holding, HoldFits;
    ActiveFacts(s);
    var t, s' := s.active.value, Leave(s, m);
    forall u: Tid
      ensures u != t ==> Untouched(s, s', u)
    {
      LeaveSpots(s, m, u);
    }
    LeaveSpots(s, m, t);
    RolesKept(s, s', t);
    OwnHold(s, s', t);
    AssembleOne(s, s', t);
  }

  // The old holder h of mutex m loses one reference.
  lemma ReleaseSpots(s: State, m: nat, u: Tid)
    requires m < |s.mutexes| && s.mutexes[m].holder.Some? && s.mutexes[m].holder.value < |s.threads|
    ensures var h, s' := s.mutexes[m].holder.value, Release(s, m);
            && FramesKept(s, s')
            && (u != h ==> Untouched(s, s', u))
            && At(s', h) == At(s, h) && Holders(s', h) == Holders(s, h) - 1
            && Owned(s.mutexes, h) >= 1
            && s'.threads == s.threads[h := s.threads[h].(alive := s.threads[h].alive && Holders(s', h) > 0)]
  {
    hide Count;
    var h, s' := s.mutexes[m].holder.value, Release(s, m);
    var s1 := s.(mutexes := s'.mutexes);
    forall v | v == u || v == h
      ensures Held(s'.threads, v) == Held(s.threads, v)
      ensures Parked(s'.mutexes, v) == Parked(s.mutexes, v)
      ensures Owned(s'.mutexes, v) + One(Some(h), v) == Owned(s.mutexes, v)
      ensures Holders(s', v) == Holders(s1, v)
    {
      HeldSet(s.threads, h, s'.threads[h], v);
      ParkedSet(s.mutexes, m, s'.mutexes[m], v);
      OwnedSet(s.mutexes, m, s'.mutexes[m], v);
    }
  }

  // A reference that is not the last one is not what the default thread destroys.
  lemma HoldOfOwner(s: State, s': State, g: Tid, h: Tid)
    requires Core(s) && g < |s.threads| && s.threads[g].hold == Some(h) && g != h
    requires h < |s.threads| && |s'.threads| == |s.threads| && s'.threads[g] == s.threads[g]
    requires s'.threads[h].(alive := s.threads[h].alive) == s.threads[h] && s'.frames == s.frames
    requires Owned(s.mutexes, h) >= 1
    ensures HoldFits(s', g)
  {
    HeldAt(s.threads, g, h);
    assert HoldFits(s, g);
  }

  lemma OwnerFacts(s: State, m: nat)
    requires Core(s) && m < |s.mutexes| && s.mutexes[m].holder.Some?
    ensures var h := s.mutexes[m].holder.value;
            && Alive(s, h) && Owned(s.mutexes, h) >= 1
            && ThreadOk(h, s.threads[h], At(s, h), Holders(s, h), s.frames)
  {
    var h := s.mutexes[m].holder.value;
    OwnedAt(s.mutexes, m, h);
    assert Holders(s, h) > 0;
    assert ThreadOk(h, s.threads[h], At(s, h), Holders(s, h), s.frames);
  }

  // No thread holds itself.
  lemma HoldsAnother(s: State, h: Tid)
    requires Core(s) && Alive(s, h) && s.threads[h].hold.Some?
    ensures s.threads[h].hold.value < |s.threads| && s.threads[h].hold.value != h
    ensures HoldFits(s, h)
  {
    assert HoldFits(s, h);
    assert KindFits(s.threads[h], h);
    HeldAt(s.threads, h, s.threads[h].hold.value);
    assert ThreadOk(h, s.threads[h], At(s, h), Holders(s, h), s.frames);
  }

  // A caller is always somewhere.
  lemma OpenPlaced(t: Tid, th: Thread, p: Spots, refs: nat, frames: seq<Frame>)
    requires ThreadOk(t, th, p, refs, frames) && Open(th)
    ensures p.Total() == 1
  {
  }

  lemma PlacedCounted(s: State, t: Tid)
    ensures At(s, t).Total() <= Holders(s, t)
  {
  }

  lemma ReleaseHold(s: State, s': State, h: Tid)
    requires Core(s) && Alive(s, h) && FramesKept(s, s') && h < |s'.threads|
    requires forall u: Tid | u != h :: Untouched(s, s', u)
    requires SameHold(s.threads[h], s'.threads[h])
    ensures HoldFine(s', h)
  {
    hide At, Holders, Untouched, HoldFits, Core;
    if s.threads[h].hold.Some? {
      HoldsAnother(s, h);
      CoreHolding(s);
      KeptHold(s, s', h);
    }
  }

  lemma CoreHolding(s: State)
    requires Core(s)
    ensures Holding(s)
  {
  }

  lemma ReleaseLogs(s: State, m: nat)
    requires Sound(s) && m < |s.mutexes| && s.mutexes[m].holder.Some?
    ensures Kinds(Release(s, m)) && CallsInOrder(Release(s, m)) && CallsReturnOnce(Release(s, m))
  {
    hide At, Holders, Count, CallsInOrder, CallsReturnOnce, Kinds, Placed, Holding, HoldFits, Held, Parked;
    var s', h := Release(s, m), s.mutexes[m].holder.value;
    OwnerFacts(s, m);
    ReleaseSpots(s, m, h);
    KindsKept(s, s', h);
    OrderKept(s, s', h);
    PlacedCounted(s', h);
    if Open(s.threads[h]) {
      OpenPlaced(h, s.threads[h], At(s, h), Holders(s, h), s.frames);
    }
    ReturnsKept(s, s', h);
  }

  lemma ReleaseCore(s: State, m: nat)
    requires Sound(s) && m < |s.mutexes|
    ensures Core(Release(s, m)) && Release(s, m).mutexes == s.mutexes[m := s.mutexes[m].(holder := None)]
    ensures Release(s, m).active == s.active && |Release(s, m).threads| == |s.threads|
  {
    hide At, Holders, Count, CallsInOrder, CallsReturnOnce, Kinds, Placed, Holding, HoldFits, Held, Parked;
    var s' := Release(s, m);
    if s.mutexes[m].holder.None? {
      assert s.mutexes[m].(holder := None) == s.mutexes[m];
      assert s' == s;
      return;
    }
    var h := s.mutexes[m].holder.value;
    OwnerFacts(s, m);
    forall u: Tid
      ensures u != h ==> Untouched(s, s', u)
    {
      ReleaseSpots(s, m, u);
    }
    ReleaseSpots(s, m, h);
    ReleaseLogs(s, m);
    forall g: Tid | g < |s.threads| && s.threads[g].hold == Some(h) && g != h
      ensures HoldFits(s', g)
    {
      HoldOfOwner(s, s', g, h);
    }
    ReleaseHold(s, s', h);
    Assemble(s, s', {h});
  }

  ghost function Handover(s: State, m: nat): State
    requires m < |s.mutexes| && |s.mutexes[m].waiting| > 0 && s.mutexes[m].waiting[0] < |s.threads|
  {
    Wakeup(Grant(s, m), s.mutexes[m].waiting[0])
  }

  lemma HandoverSpots(s: State, m: nat, u: Tid)
    requires m < |s.mutexes| && |s.mutexes[m].waiting| > 0 && s.mutexes[m].waiting[0] < |s.threads|
    requires s.mutexes[m].holder.None?
    ensures var n, s' := s.mutexes[m].waiting[0], Handover(s, m);
            && FramesKept(s, s')
            && (u != n ==> Untouched(s, s', u))
            && At(s, n).parked >= 1
            && (var more := if s.threads[n].masked then 1 else 0;
                && At(s', n) == At(s, n).(parked := At(s, n).parked - 1, queued := At(s, n).queued + more)
                && Holders(s', n) == Holders(s, n) + more)
  {
    hide Count;
    var n, s' := s.mutexes[m].waiting[0], Handover(s, m);
    var mx := s.mutexes[m];
    forall v | v == u || v == n
      ensures Held(s'.threads, v) == Held(s.threads, v)
      ensures Parked(s'.mutexes, v) + One(Some(n), v) == Parked(s.mutexes, v)
      ensures Owned(s'.mutexes, v) == Owned(s.mutexes, v) + One(Some(n), v)
      ensures Count(s'.queued, v) == Count(s.queued, v) + (if s.threads[n].masked && v == n then 1 else 0)
    {
      HeldSet(s.threads, n, s'.threads[n], v);
      CountTail(mx.waiting, v);
      CountAppend(s.queued, n, v);
      ParkedSet(s.mutexes, m, s'.mutexes[m], v);
      OwnedSet(s.mutexes, m, s'.mutexes[m], v);
    }
  }

  lemma WokenOk(t: Tid, th: Thread, p: Spots, refs: nat, frames: seq<Frame>)
    requires ThreadOk(t, th, p, refs, frames) && p.active == 0 && p.parked >= 1 && p.Total() <= refs
    ensures var more := if th.masked then 1 else 0;
            ThreadOk(t, th.(masked := false), p.(parked := p.parked - 1, queued := p.queued + more), refs + more, frames)
    ensures p.held == 0
  {
  }

  lemma ParkedFacts(s: State, m: nat)
    requires Core(s) && m < |s.mutexes| && |s.mutexes[m].waiting| > 0
    ensures var n := s.mutexes[m].waiting[0];
            && Alive(s, n) && At(s, n).parked >= 1
            && ThreadOk(n, s.threads[n], At(s, n), Holders(s, n), s.frames)
            && At(s, n).Total() <= Holders(s, n)
            && (At(s, n).active == 0 <==> s.active != Some(n))
  {
    var n := s.mutexes[m].waiting[0];
    CountTail(s.mutexes[m].waiting, n);
    ParkedAt(s.mutexes, m, n);
    assert Holders(s, n) > 0;
    assert ThreadOk(n, s.threads[n], At(s, n), Holders(s, n), s.frames);
  }

  lemma HandoverCore(s: State, m: nat)
    requires Core(s) && m < |s.mutexes| && |s.mutexes[m].waiting| > 0 && s.mutexes[m].holder.None?
    requires s.active != Some(s.mutexes[m].waiting[0])
    ensures s.mutexes[m].waiting[0] < |s.threads| && Core(Handover(s, m))
  {
    hide At, Holders, Count, CallsInOrder, CallsReturnOnce, Kinds, Placed, Holding, HoldFits, Held, Parked, ThreadOk;
    ParkedFacts(s, m);
    var n, s' := s.mutexes[m].waiting[0], Handover(s, m);
    forall u: Tid
      ensures u != n ==> Untouched(s, s', u)
    {
      HandoverSpots(s, m, u);
    }
    HandoverSpots(s, m, n);
    WokenOk(n, s.threads[n], At(s, n), Holders(s, n), s.frames);
    assert s'.threads[n] == s.threads[n].(masked := false);
    NotHeld(s, n);
    RolesKept(s, s', n);
    OwnHold(s, s', n);
    AssembleOne(s, s', n);
  }

  lemma UnlockSound(s: State, m: nat)
    requires Sound(s) && Enabled(s, Unlock(m)) && Checks(s, Unlock(m))
    ensures Sound(Step(s, Unlock(m))) && Step(s, Unlock(m)).active == s.active
  {
    hide Core, Holders, At, Count;
    LeaveSound(s, m);
    var s1 := Leave(s, m);
    var s2 := Release(s1, m);
    ReleaseCore(s1, m);
    assert MutexFifo(s.mutexes[m]);
    if |s.mutexes[m].waiting| > 0 {
      HandoverCore(s2, m);
      var s3 := Handover(s2, m);
      assert MutexFifo(s3.mutexes[m]);
    }
  }
}
