/**
 Runs of the kernel from the moment the scheduler starts, with no assumption on what the
 threads do.
 */
module KernelRuns {
  import opened Wrappers
  import opened KernelState
  import opened KernelInvariant
  import opened KernelSteps
  import opened KernelScheduling
  import opened KernelPrograms

  lemma BootSound(mutexes: nat)
    ensures Sound(Boot(mutexes)) && HasActive(Boot(mutexes))
  {
    hide At, Holders, Held, Parked, Owned, Count, ThreadOk;
    var s := Boot(mutexes);
    forall t: Tid
      ensures Holders(s, t) > 0 <==> Alive(s, t)
      ensures Fine(s, t)
      ensures ReturnsOnce(s, t)
    {
      BootAlive(mutexes, t);
      BootFine(mutexes, t);
      BootReturns(mutexes, t);
    }
    AllFine(s);
  }

  lemma BootFine(mutexes: nat, t: Tid)
    ensures Fine(Boot(mutexes), t)
  {
    hide At, Holders, Held, Parked, Owned, Count, ThreadOk, Permanent;
    var s := Boot(mutexes);
    if t <= STARTUP {
      BootPlace(mutexes, t);
      BootRecord(mutexes, t);
      BootThread(t, s.threads[t], Holders(s, t), s.frames);
    }
  }

  lemma BootPlace(mutexes: nat, t: Tid)
    ensures At(Boot(mutexes), t) ==
            if t == DUMMY then Spots(1, 0, 0, 0, 0, 0)
            else if t == STARTUP then Spots(0, 1, 0, 0, 0, 0)
            else Spots(0, 0, 0, 0, 0, 0)
  {
    hide At, Holders;
    BootSpots(mutexes, t);
  }

  lemma BootThread(t: Tid, th: Thread, refs: nat, frames: seq<Frame>)
    requires th.hold.None? && (th.phase.Dead? || th.phase.Running?) && !th.kind.Worker?
    ensures th.kind.Ordinary? && th.phase.Dead? && th.masked && th.stash.None? ==>
      ThreadOk(t, th, Spots(1, 0, 0, 0, 0, 0), refs, frames)
    ensures th.stash.Some? && th.stash.value < |frames| && frames[th.stash.value].owner == t && th.phase.Running? ==>
      && (th.kind.Ordinary? && !th.masked ==> ThreadOk(t, th, Spots(0, 1, 0, 0, 0, 0), refs, frames))
      && (th.kind.SystemHandler? && th.masked ==> ThreadOk(t, th, Spots(0, 0, 0, 0, 0, 0), refs, frames))
      && (th.kind.Default? || (th.kind.Fallback? && !th.masked) ==> ThreadOk(t, th, Spots(0, 0, 0, 0, 0, 0), refs, frames))
  {
  }

  lemma BootRecord(mutexes: nat, t: Tid)
    requires t <= STARTUP
    ensures var s := Boot(mutexes);
            var th := s.threads[t];
            && th.hold.None? && th.masked == (t == DUMMY || t == SYSTEM)
            && th.kind == (if t == DEFAULT then Default else if t == FALLBACK then Fallback else if t == SYSTEM then SystemHandler else Ordinary)
            && th.phase == (if t == DUMMY then Dead else Running)
            && if t == DUMMY then th.stash.None? else th.stash == Some(t - 1) && t - 1 < |s.frames| && s.frames[t - 1].owner == t
  {
  }

  lemma BootReturns(mutexes: nat, t: Tid)
    ensures ReturnsOnce(Boot(mutexes), t)
  {
  }

  lemma BootAlive(mutexes: nat, t: Tid)
    ensures Holders(Boot(mutexes), t) > 0 <==> Alive(Boot(mutexes), t)
    ensures At(Boot(mutexes), t) == Spots(One(Some(DUMMY), t), One(Some(STARTUP), t), 0, 0, 0, 0)
  {
    hide At, Holders, Held, Parked, Owned, Count;
    BootSpots(mutexes, t);
  }

  lemma BootSpots(mutexes: nat, t: Tid)
    ensures var s := Boot(mutexes);
            && At(s, t) == Spots(One(Some(DUMMY), t), One(Some(STARTUP), t), 0, 0, 0, 0)
            && Holders(s, t) == One(Some(DUMMY), t) + One(Some(STARTUP), t) + Permanent(t)
  {
    hide Held, Parked, Owned, Count;
    var s := Boot(mutexes);
    NoMutexes(s.mutexes, t);
    NoHolds(s.threads, t);
    CountOne(STARTUP, t);
    CountNone(t);
  }

  lemma CountOne(x: Tid, t: Tid)
    ensures Count([x], t) == One(Some(x), t)
  {
  }

  lemma CountNone(t: Tid)
    ensures Count([], t) == 0
  {
  }

  lemma {:induction false} NoMutexes(ms: seq<Mutex>, t: Tid)
    requires forall m | 0 <= m < |ms| :: ms[m].waiting == [] && ms[m].holder.None?
    ensures Parked(ms, t) == 0 && Owned(ms, t) == 0
  {
    if ms != [] {
      assert ms[0].waiting == [] && ms[0].holder.None?;
      NoMutexes(ms[1..], t);
    }
  }

  lemma {:induction false} NoHolds(ts: seq<Thread>, t: Tid)
    requires forall h | 0 <= h < |ts| :: ts[h].hold.None?
    ensures Held(ts, t) == 0
  {
    if ts != [] {
      NoHolds(ts[1..], t);
    }
  }

  // ------------------------------------------------------------------- checks

  // The ASSERT in CircularQueue::enqueue would fire.
  ghost predicate Full(s: State, e: Event)
    requires Enabled(s, e)
  {
    var t := s.active.value;
    match e
    case Tick =>
      && !s.threads[t].masked && !s.threads[t].kind.Default? && !s.threads[t].kind.Fallback?
      && |s.queued| >= 16
    case Svc => |s.waiting| >= 16 || (SYSTEM < |s.threads| && s.threads[SYSTEM].masked && |s.queued| >= 16)
    case Lock(m) => s.mutexes[m].holder.Some? && |s.mutexes[m].waiting| >= 16
    case Unlock(m) =>
      && |s.mutexes[m].waiting| > 0 && s.mutexes[m].waiting[0] < |s.threads|
      && s.threads[s.mutexes[m].waiting[0]].masked && |s.queued| >= 16
    case Spawn => |s.queued| >= 16
    case AddWorker => |s.queued| >= 16
    case RequeueCaller => |s.queued| >= 16
    case _ => false
  }

  // The VERIFY at the start of Thread::wakeup would fire.
  ghost predicate WakesItself(s: State, e: Event)
    requires Enabled(s, e)
  {
    e.Unlock? && |s.mutexes[e.mutex].waiting| > 0 && s.active == Some(s.mutexes[e.mutex].waiting[0])
  }

  lemma PendChecksExact(s: State)
    requires Sound(s) && HasActive(s)
    ensures PendChecks(s) <==> !Full(s, Tick)
  {
    hide At, Holders, Count, CallsInOrder, CallsReturnOnce, Kinds, Placed, Holding, HoldFits, Counted, Preempt, CanDispatch, ScheduleChecks;
    ActiveFacts(s);
    StashSpots(s, s.active.value);
    if !Full(s, Tick) {
      assert ParkChecks(StashActive(s));
      PreemptSound(s);
      NextFacts(Preempt(s));
    }
  }

  lemma SvcChecksExact(s: State)
    requires Sound(s) && Enabled(s, Svc)
    ensures Checks(s, Svc) <==> !Full(s, Svc)
  {
    hide At, Holders, Count, CallsInOrder, CallsReturnOnce, Placed, Holding, HoldFits, Counted, CanDispatch, ScheduleChecks;
    ActiveFacts(s);
    SystemFacts(s);
    BlockCallSound(s);
    WakeSystemSound(BlockCall(s));
    NextFacts(Wakeup(BlockCall(s), SYSTEM));
  }

  lemma LockChecksExact(s: State, m: nat)
    requires Sound(s) && Enabled(s, Lock(m))
    ensures Checks(s, Lock(m)) <==> !Full(s, Lock(m))
  {
    hide At, Holders, Count, CallsInOrder, CallsReturnOnce, Placed, Holding, HoldFits, Counted, CanDispatch, ScheduleChecks, Preempt;
    ActiveFacts(s);
    if s.mutexes[m].holder.Some? {
      BlockOnSound(s, m);
      NextFacts(Preempt(LockHeld(s, m)));
    }
  }

  lemma PollChecks(s: State)
    requires Sound(s) && Enabled(s, Poll)
    ensures Checks(s, Poll)
  {
    hide At, Holders, Count, CallsInOrder, CallsReturnOnce, Placed, Holding, HoldFits, Counted, CanDispatch, ScheduleChecks, Preempt;
    ActiveFacts(s);
    SleepSound(s);
    NextFacts(Preempt(Sleep(s)));
  }

  /**
   Of all the ASSERTs and VERIFYs on the way of a step, only two can fail: a queue is full,
   or unlock wakes the thread that calls it.
   */
  lemma ChecksExact(s: State, e: Event)
    requires Sound(s) && Enabled(s, e)
    ensures Checks(s, e) <==> !Full(s, e) && !WakesItself(s, e)
  {
    hide Sound, Holders, At, Count, HoldsOther;
    match e
    case Compute(_) =>
    case Tick => PendChecksExact(s);
    case Svc => SvcChecksExact(s);
    case Lock(m) => LockChecksExact(s, m);
    case Unlock(m) => UnlockChecks(s, m);
    case Die =>
    case Spawn =>
    case Poll => PollChecks(s);
    case TakeCall => TakeSound(s);
    case BuildWorker => BuildSound(s);
    case AddWorker => AddSound(s); AddHolds(s);
    case RunCall(result) => RunSound(s, result);
    case UnmaskCaller => UnmaskSound(s);
    case RequeueCaller => RequeueSound(s);
    case LeaveExited => ExitSound(s);
    case TakeDangling =>
    case CheckLog =>
      if |s.mutexes| > DBGLN {
        LogIsFree(s);
      }
    case DropThread => DropSound(s);
  }

  /** The comment before the VERIFY of the default thread asks whether it can fail: no. */
  lemma LogIsFree(s: State)
    requires Sound(s) && |s.mutexes| > DBGLN
    ensures s.mutexes[DBGLN].holder.None? && s.mutexes[DBGLN].waiting == []
  {
    assert MutexFifo(s.mutexes[DBGLN]);
  }

  lemma AddHolds(s: State)
    requires HoldsOther(s)
    ensures s.threads[s.active.value].hold.Some?
  {
  }

  lemma UnlockChecks(s: State, m: nat)
    requires Sound(s) && m < |s.mutexes|
    ensures |s.mutexes[m].waiting| > 0 ==> s.mutexes[m].waiting[0] < |s.threads|
  {
    if |s.mutexes[m].waiting| > 0 {
      ParkedFacts(s, m);
    }
  }

  /** Every step keeps the invariant, and some thread is always active. */
  lemma StepSound(s: State, e: Event)
    requires Sound(s) && Enabled(s, e) && Checks(s, e)
    ensures Sound(Step(s, e)) && HasActive(Step(s, e))
  {
    hide Sound, Holders, At, Count, Preempt, Dispatch, CanDispatch, ScheduleChecks, HoldsOther, ParkChecks;
    match e
    case Compute(v) => ComputeSound(s, v);
    case Tick => PreemptSound(s); DispatchSound(Preempt(s));
    case Svc =>
      BlockCallSound(s);
      WakeSystemSound(BlockCall(s));
      DispatchSound(Wakeup(BlockCall(s), SYSTEM));
    case Lock(m) =>
      if s.mutexes[m].holder.None? {
        LockFreeSound(s, m);
      } else {
        BlockOnSound(s, m);
        DispatchSound(Preempt(LockHeld(s, m)));
      }
    case Unlock(m) => UnlockSound(s, m); ActiveAfterUnlock(s, m);
    case Die => DieSound(s);
    case Spawn => SpawnSound(s);
    case Poll =>
      if |s.waiting| == 0 {
        SleepSound(s);
        DispatchSound(Preempt(Sleep(s)));
      } else {
        TakePhaseSound(s);
      }
    case TakeCall => TakeSound(s);
    case BuildWorker => BuildSound(s);
    case AddWorker => AddSound(s);
    case RunCall(result) => RunSound(s, result);
    case UnmaskCaller => UnmaskSound(s);
    case RequeueCaller => RequeueSound(s);
    case LeaveExited => ExitSound(s);
    case TakeDangling => DanglingSound(s);
    case CheckLog => CheckLogSound(s);
    case DropThread => DropSound(s);
  }

  lemma ActiveAfterUnlock(s: State, m: nat)
    requires Enabled(s, Unlock(m)) && Checks(s, Unlock(m))
    ensures HasActive(Step(s, Unlock(m)))
  {
  }
}
