/**
 What holds as long as no thread that is parked on a mutex gets the processor, and when
 it stops to hold.

 `m_masked_from_scheduler` does not say why a thread is parked, so a system call wakes the
 SystemHandler thread whatever it waits for.  Unlock puts the default thread into the run
 queue, where it does not belong; the scheduler may choose it from elsewhere and leave the
 entry behind, and later take the entry without looking at the mask.  `Proper` says that a
 step does neither, OrderlyExactly that those two are all that can go wrong, and
 ExclusionExactly when a mutex fails to exclude.  The wakeup of the SystemHandler thread
 depends on nothing (StepAwake).
 */
module KernelLocking {
  import opened Wrappers
  import opened KernelState
  import opened KernelInvariant
  import opened KernelSteps
  import opened KernelScheduling
  import opened KernelPrograms
  import opened KernelRuns

  // The step enters the scheduler.
  ghost predicate Switches(s: State, e: Event)
    requires Enabled(s, e)
  {
    match e
    case Tick => true
    case Svc => true
    case Lock(m) => s.mutexes[m].holder.Some?
    case Poll => |s.waiting| == 0
    case _ => false
  }

  // The active thread goes to the dangling queue.
  ghost predicate Buries(s: State, e: Event)
    requires HasActive(s)
  {
    e.Tick? && s.threads[s.active.value].masked && Holders(s, s.active.value) < 2
  }

  /** The scheduler takes the default thread from the run queue. */
  ghost predicate TakesDefault(s: State, e: Event)
    requires Enabled(s, e)
  {
    Switches(s, e) && !Buries(s, e) && |s.dangling| == 0 && |s.queued| > 0 && s.queued[0] == DEFAULT
  }

  // The default thread parks in this step.
  ghost predicate ParksDefault(s: State, e: Event) {
    e.Lock? && s.active == Some(DEFAULT)
  }

  ghost predicate Proper(s: State, e: Event)
    requires Enabled(s, e)
  {
    && !(e.Svc? && At(s, SYSTEM).parked > 0)
    && !(TakesDefault(s, e) && (At(s, DEFAULT).parked > 0 || ParksDefault(s, e)))
  }

  // In one place at most; asleep without a mutex only at the top of its loop, with no call waiting
  predicate SystemCalm(th: Thread, p: Spots, calls: seq<Tid>) {
    p.Total() <= 1 && (th.masked && p.parked == 0 ==> th.phase.Running? && calls == [])
  }

  // Masked exactly when it waits for a mutex; it may be in the run queue, and more than once.
  predicate DefaultCalm(th: Thread, p: Spots) {
    p.active + p.parked <= 1 && (th.masked <==> p.parked == 1)
  }

  // A thread is between lock and unlock exactly when it holds the mutex or waits for it.
  ghost predicate LockOk(s: State, t: Tid, m: nat)
    requires t < |s.threads| && m < |s.mutexes|
  {
    m in s.threads[t].entered <==> s.mutexes[m].holder == Some(t) || t in s.mutexes[m].waiting
  }

  ghost predicate Locks(s: State) {
    forall t: Tid, m: nat {:trigger LockOk(s, t, m)} | Alive(s, t) && m < |s.mutexes| :: LockOk(s, t, m)
  }

  ghost predicate Calm(s: State) {
    && SYSTEM < |s.threads|
    && SystemCalm(s.threads[SYSTEM], At(s, SYSTEM), s.waiting)
    && DefaultCalm(s.threads[DEFAULT], At(s, DEFAULT))
    && Locks(s)
  }

  ghost predicate Orderly(s: State) {
    Sound(s) && Calm(s)
  }

  // ------------------------------------------------------------------ framing

  // No mutex and no thread's part in locking changes.
  ghost predicate SameLocks(s: State, s': State) {
    && s'.mutexes == s.mutexes && |s'.threads| >= |s.threads|
    && (forall t | 0 <= t < |s.threads| :: SameLockRecord(s.threads[t], s'.threads[t]))
    && (forall t | |s.threads| <= t < |s'.threads| :: s'.threads[t].entered == {})
  }

  predicate SameLockRecord(a: Thread, b: Thread) {
    b.entered == a.entered && (b.alive ==> a.alive)
  }

  lemma LocksKept(s: State, s': State)
    requires Sound(s) && Locks(s) && SameLocks(s, s')
    ensures Locks(s')
  {
    hide At, Holders, Placed, Holding, CallsInOrder, CallsReturnOnce, Kinds;
    forall t: Tid, m: nat | Alive(s', t) && m < |s'.mutexes|
      ensures LockOk(s', t, m)
    {
      if t < |s.threads| {
        assert SameLockRecord(s.threads[t], s'.threads[t]);
        assert LockOk(s, t, m);
      } else {
        NotInLocks(s, t, m);
      }
    }
  }

  lemma CountedParts(s: State, t: Tid)
    ensures At(s, t).parked == Parked(s.mutexes, t) && Owned(s.mutexes, t) <= Holders(s, t)
  {
  }

  // A number that no thread has is in no mutex.
  lemma NotInLocks(s: State, t: Tid, m: nat)
    requires Sound(s) && t >= |s.threads| && m < |s.mutexes|
    ensures s.mutexes[m].holder != Some(t) && t !in s.mutexes[m].waiting
  {
    hide Sound, At, Holders, Count, Parked, Owned, Held;
    Unborn(s, t);
    CountedParts(s, t);
    CountIn(s.mutexes[m].waiting, t);
    ParkedAt(s.mutexes, m, t);
    OwnedAt(s.mutexes, m, t);
  }

  // Neither of the two threads moves.
  ghost predicate Still(s: State, s': State, t: Tid)
    requires t < |s.threads|
  {
    && t < |s'.threads|
    && s'.threads[t].masked == s.threads[t].masked && At(s', t) == At(s, t)
  }

  lemma CalmKept(s: State, s': State)
    requires Orderly(s) && SameLocks(s, s') && Still(s, s', SYSTEM) && Still(s, s', DEFAULT)
    requires s'.waiting == s.waiting || s'.waiting == [] || !s.threads[SYSTEM].masked || At(s, SYSTEM).parked == 1
    requires s.threads[SYSTEM].masked ==> s'.threads[SYSTEM].phase == s.threads[SYSTEM].phase
    ensures Calm(s')
  {
    hide At, Holders;
    LocksKept(s, s');
  }

  // ------------------------------------------------- the parts of the scheduler

  lemma SpecialFacts(s: State)
    requires Sound(s)
    ensures Alive(s, SYSTEM) && Alive(s, DEFAULT)
    ensures KindFits(s.threads[SYSTEM], SYSTEM) && KindFits(s.threads[DEFAULT], DEFAULT)
    ensures ThreadOk(SYSTEM, s.threads[SYSTEM], At(s, SYSTEM), Holders(s, SYSTEM), s.frames)
    ensures ThreadOk(DEFAULT, s.threads[DEFAULT], At(s, DEFAULT), Holders(s, DEFAULT), s.frames)
  {
    assert Holders(s, SYSTEM) > 0 && Holders(s, DEFAULT) > 0;
    assert KindFits(s.threads[SYSTEM], SYSTEM) && KindFits(s.threads[DEFAULT], DEFAULT);
    assert ThreadOk(SYSTEM, s.threads[SYSTEM], At(s, SYSTEM), Holders(s, SYSTEM), s.frames);
    assert ThreadOk(DEFAULT, s.threads[DEFAULT], At(s, DEFAULT), Holders(s, DEFAULT), s.frames);
  }

  lemma PreemptCalm(s: State)
    requires Orderly(s) && HasActive(s) && ParkChecks(StashActive(s))
    ensures Calm(Preempt(s))
  {
    hide At, Holders, Count, Placed, Holding, Counted, CallsInOrder, CallsReturnOnce, Kinds, Preempt, StashActive, ParkChecks;
    SpecialFacts(s);
    PreemptShape(s);
    PreemptSpots(s, SYSTEM);
    PreemptSpots(s, DEFAULT);
    ActiveFacts(s);
    LocksKept(s, Preempt(s));
  }

  // The scheduler is about to choose, and all but the SystemHandler thread is as it should be.
  ghost predicate Choosing(s: State) {
    Sound(s) && s.active.None? && Locks(s) && DefaultCalm(s.threads[DEFAULT], At(s, DEFAULT))
  }

  ghost predicate DefaultFirst(s: State) {
    FromQueue(s) && s.queued[0] == DEFAULT
  }

  lemma DispatchCalm(s: State)
    requires Choosing(s)
    ensures CanDispatch(s)
    ensures Calm(Dispatch(s)) <==> Calm(s) && !(DefaultFirst(s) && At(s, DEFAULT).parked > 0)
  {
    hide At, Holders, Count, Placed, Holding, Counted, CallsInOrder, CallsReturnOnce, Kinds;
    SpecialFacts(s);
    NextFacts(s);
    DispatchSpots(s, SYSTEM);
    DispatchSpots(s, DEFAULT);
    LocksKept(s, Dispatch(s));
  }

  // ------------------------------------------------------------------- calls

  // BlockCall and the wakeup together
  lemma SvcCalm(s: State)
    requires Orderly(s) && Enabled(s, Svc)
    ensures var s' := Wakeup(BlockCall(s), SYSTEM);
            && Choosing(s') && !s'.threads[SYSTEM].masked
            && s'.queued == (if s.threads[SYSTEM].masked then s.queued + [SYSTEM] else s.queued)
            && At(s', DEFAULT).parked == At(s, DEFAULT).parked
            && (Calm(s') <==> At(s, SYSTEM).parked == 0)
  {
    hide At, Holders, Count, Placed, Holding, Counted, CallsInOrder, CallsReturnOnce, Kinds;
    SpecialFacts(s);
    BlockCallSound(s);
    var s1 := BlockCall(s);
    WakeSystemSound(s1);
    var s' := Wakeup(s1, SYSTEM);
    BlockCallSpots(s, SYSTEM);
    BlockCallSpots(s, DEFAULT);
    WakeSpots(s1, SYSTEM, SYSTEM);
    WakeSpots(s1, SYSTEM, DEFAULT);
    assert SameLocks(s, s');
    LocksKept(s, s');
  }

  // ------------------------------------------------------------------- locking

  lemma LockFreeCalm(s: State, m: nat)
    requires Orderly(s) && Enabled(s, Lock(m)) && s.mutexes[m].holder.None?
    ensures Calm(LockFree(s, m))
  {
    hide At, Holders, Count, Placed, Holding, Counted, CallsInOrder, CallsReturnOnce, Kinds;
    SpecialFacts(s);
    var s' := LockFree(s, m);
    LockFreeSpots(s, m, SYSTEM);
    LockFreeSpots(s, m, DEFAULT);
    assert MutexFifo(s.mutexes[m]);
    forall t: Tid, k: nat | Alive(s', t) && k < |s'.mutexes|
      ensures LockOk(s', t, k)
    {
      assert LockOk(s, t, k);
    }
  }

  lemma BlockOnCalm(s: State, m: nat)
    requires Orderly(s) && Enabled(s, Lock(m)) && s.mutexes[m].holder.Some?
    ensures Calm(Away(LockHeld(s, m)))
  {
    hide At, Holders, Count, Placed, Holding, Counted, CallsInOrder, CallsReturnOnce, Kinds;
    SpecialFacts(s);
    ActiveFacts(s);
    var s' := Away(LockHeld(s, m));
    BlockOnSpots(s, m, SYSTEM);
    BlockOnSpots(s, m, DEFAULT);
    forall t: Tid, k: nat | Alive(s', t) && k < |s'.mutexes|
      ensures LockOk(s', t, k)
    {
      assert LockOk(s, t, k);
    }
  }

  lemma SleepCalm(s: State)
    requires Orderly(s) && Enabled(s, Poll) && |s.waiting| == 0
    ensures Calm(Away(Sleep(s)))
  {
    hide At, Holders, Count, Placed, Holding, Counted, CallsInOrder, CallsReturnOnce, Kinds;
    SpecialFacts(s);
    ActiveFacts(s);
    SleepSpots(s, SYSTEM);
    SleepSpots(s, DEFAULT);
    LocksKept(s, Away(Sleep(s)));
  }

  // A thread that runs waits for nothing, so what it may unlock it holds.
  lemma UnlockerHolds(s: State, m: nat)
    requires Orderly(s) && Enabled(s, Unlock(m))
    ensures s.mutexes[m].holder == s.active && s.active.value !in s.mutexes[m].waiting
  {
    hide At, Holders, Count, Placed, Holding, Counted, CallsInOrder, CallsReturnOnce, Kinds, Parked;
    var t := s.active.value;
    SpecialFacts(s);
    ActiveFacts(s);
    ParkedAt(s.mutexes, m, t);
    CountIn(s.mutexes[m].waiting, t);
    CountedParts(s, t);
    assert LockOk(s, t, m);
  }

  lemma UnlockSpots(s: State, m: nat, u: Tid)
    requires Orderly(s) && Enabled(s, Unlock(m)) && Checks(s, Unlock(m))
    ensures var s' := Step(s, Unlock(m));
            var n := if |s.mutexes[m].waiting| > 0 then Some(s.mutexes[m].waiting[0]) else None;
            && (n == Some(u) ==> u < |s.threads| && At(s, u).parked >= 1)
            && At(s', u) == (if n != Some(u) then At(s, u) else
                 At(s, u).(parked := At(s, u).parked - 1, queued := At(s, u).queued + (if s.threads[u].masked then 1 else 0)))
            && (u < |s.threads| ==>
                 && u < |s'.threads| && s'.threads[u].masked == (s.threads[u].masked && n != Some(u))
                 && s'.threads[u].phase == s.threads[u].phase)
  {
    hide At, Holders, Count, Placed, Holding, Counted, CallsInOrder, CallsReturnOnce, Kinds, Parked, Owned, Held, ThreadOk, HoldFits, SystemCalm, DefaultCalm;
    var t, s1 := s.active.value, Leave(s, m);
    UnlockerHolds(s, m);
    LeaveSpots(s, m, u);
    ReleaseSpots(s1, m, u);
    var s2 := Release(s1, m);
    if |s.mutexes[m].waiting| > 0 {
      UnlockChecks(s, m);
      HandoverSpots(s2, m, u);
    }
  }

  // What unlock does to the mutexes and to the threads' part in locking
  lemma UnlockShape(s: State, m: nat)
    requires Orderly(s) && Enabled(s, Unlock(m)) && Checks(s, Unlock(m))
    ensures var t, mx, s' := s.active.value, s.mutexes[m], Step(s, Unlock(m));
            && |s'.threads| == |s.threads| && |s'.mutexes| == |s.mutexes| && s'.active == s.active
            && (forall u | 0 <= u < |s.threads| ::
                 s'.threads[u].entered == if u == t then s.threads[u].entered - {m} else s.threads[u].entered)
            && (forall u | 0 <= u < |s.threads| :: s'.threads[u].alive ==> s.threads[u].alive)
            && (forall k | 0 <= k < |s.mutexes| && k != m :: s'.mutexes[k] == s.mutexes[k])
            && s'.mutexes[m].waiting == (if mx.waiting == [] then [] else mx.waiting[1..])
            && s'.mutexes[m].holder == (if mx.waiting == [] then None else Some(mx.waiting[0]))
  {
    hide At, Holders, Sound, Calm;
    UnlockerHolds(s, m);
    UnlockChecks(s, m);
  }

  lemma UnlockLocks(s: State, m: nat)
    requires Orderly(s) && Enabled(s, Unlock(m)) && Checks(s, Unlock(m))
    ensures Locks(Step(s, Unlock(m)))
  {
    hide At, Holders, Sound, SystemCalm, DefaultCalm, Step, Checks;
    var t, mx, s' := s.active.value, s.mutexes[m], Step(s, Unlock(m));
    UnlockShape(s, m);
    UnlockerHolds(s, m);
    forall u: Tid, k: nat | Alive(s', u) && k < |s'.mutexes|
      ensures LockOk(s', u, k)
    {
      assert LockOk(s, u, k);
      assert mx.waiting != [] ==> mx.waiting == [mx.waiting[0]] + mx.waiting[1..];
    }
  }

  lemma UnlockCalm(s: State, m: nat)
    requires Orderly(s) && Enabled(s, Unlock(m)) && Checks(s, Unlock(m))
    ensures Calm(Step(s, Unlock(m)))
  {
    hide At, Holders, Count, Placed, Holding, Counted, CallsInOrder, CallsReturnOnce, Kinds, Parked, Owned, Held, HoldFits, Checks;
    SpecialFacts(s);
    UnlockSpots(s, m, SYSTEM);
    UnlockSpots(s, m, DEFAULT);
    UnlockLocks(s, m);
    UnlockWaiting(s, m);
  }

  lemma UnlockWaiting(s: State, m: nat)
    requires Enabled(s, Unlock(m)) && Checks(s, Unlock(m))
    ensures Step(s, Unlock(m)).waiting == s.waiting && |Step(s, Unlock(m)).threads| == |s.threads|
  {
  }

  // ------------------------------------------------------------- other steps

  // The programs of the SystemHandler thread, the workers and the default thread
  ghost predicate OfProgram(e: Event) {
    !(e.Tick? || e.Svc? || e.Lock? || e.Unlock? || e.Poll?)
  }

  lemma ProgramStill(s: State, e: Event)
    requires Sound(s) && Enabled(s, e) && Checks(s, e) && OfProgram(e)
    ensures Still(s, Step(s, e), SYSTEM) && Still(s, Step(s, e), DEFAULT)
    ensures SameLocks(s, Step(s, e))
    ensures s.threads[SYSTEM].masked ==> Step(s, e).threads[SYSTEM].phase == s.threads[SYSTEM].phase
    ensures Step(s, e).waiting == s.waiting || !s.threads[SYSTEM].masked
  {
    hide At, Holders, Count, Placed, Holding, Counted, CallsInOrder, CallsReturnOnce, Kinds, Calm;
    ActiveFacts(s);
    SpecialFacts(s);
    var s' := Step(s, e);
    if e.RunCall? || e.UnmaskCaller? || e.RequeueCaller? || e.LeaveExited? {
      WorkerStill(s, e);
    } else if e.AddWorker? || e.DropThread? || e.TakeDangling? {
      ReferenceStill(s, e);
    } else if e.TakeCall? {
      HeadWaits(s);
      HeadFacts(s, s.waiting[0]);
      TakeSpots(s, SYSTEM);
      TakeSpots(s, DEFAULT);
    } else if e.BuildWorker? {
      BuildFacts(s);
      BuildSpots(s, s.threads[SYSTEM].hold.value, SYSTEM);
      BuildSpots(s, s.threads[SYSTEM].hold.value, DEFAULT);
    } else if e.Spawn? {
      SpawnSpots(s, SYSTEM);
      SpawnSpots(s, DEFAULT);
    } else {
      RecordSpots(s, s', SYSTEM);
      RecordSpots(s, s', DEFAULT);
    }
  }

  lemma WorkerStill(s: State, e: Event)
    requires Sound(s) && Enabled(s, e) && Checks(s, e)
    requires e.RunCall? || e.UnmaskCaller? || e.RequeueCaller? || e.LeaveExited?
    ensures Still(s, Step(s, e), SYSTEM) && Still(s, Step(s, e), DEFAULT)
    ensures SameLocks(s, Step(s, e))
    ensures Step(s, e).threads[SYSTEM].phase == s.threads[SYSTEM].phase && Step(s, e).waiting == s.waiting
  {
    hide At, Holders, Count, Placed, Holding, Counted, CallsInOrder, CallsReturnOnce, Kinds, HoldFits, ThreadOk;
    var t, s' := s.active.value, Step(s, e);
    SpecialFacts(s);
    if e.RunCall? {
      RecordSpots(s, s', SYSTEM);
      RecordSpots(s, s', DEFAULT);
    } else {
      CallerFacts(s);
      var x := s.threads[t].hold.value;
      PairSpots(s, s', x, e.RequeueCaller?, SYSTEM);
      PairSpots(s, s', x, e.RequeueCaller?, DEFAULT);
    }
  }

  lemma ReferenceStill(s: State, e: Event)
    requires Sound(s) && Enabled(s, e) && Checks(s, e)
    requires e.AddWorker? || e.DropThread? || e.TakeDangling?
    ensures Still(s, Step(s, e), SYSTEM) && Still(s, Step(s, e), DEFAULT)
    ensures SameLocks(s, Step(s, e))
    ensures Step(s, e).waiting == s.waiting
    ensures s.threads[SYSTEM].masked ==> Step(s, e).threads[SYSTEM].phase == s.threads[SYSTEM].phase
  {
    hide At, Holders, Count, Placed, Holding, Counted, CallsInOrder, CallsReturnOnce, Kinds;
    ActiveFacts(s);
    SpecialFacts(s);
    var s' := Step(s, e);
    if e.AddWorker? {
      HeldFacts(s);
      PairSpots(s, s', s.threads[SYSTEM].hold.value, true, SYSTEM);
      PairSpots(s, s', s.threads[SYSTEM].hold.value, true, DEFAULT);
    } else if e.DropThread? {
      DropFacts(s);
      DropSpots(s, SYSTEM);
      DropSpots(s, DEFAULT);
    } else {
      HeadWaits(s);
      HeadFacts(s, s.dangling[0]);
      DanglingSpots(s, SYSTEM);
      DanglingSpots(s, DEFAULT);
    }
  }

  // The state in which the scheduler chooses
  ghost function AtChoice(s: State, e: Event): State
    requires Enabled(s, e) && Switches(s, e) && SYSTEM < |s.threads|
  {
    match e
    case Svc => Wakeup(BlockCall(s), SYSTEM)
    case Lock(m) => Preempt(LockHeld(s, m))
    case Poll => Preempt(Sleep(s))
    case _ => Preempt(s)
  }

  lemma TickChooses(s: State)
    requires Orderly(s) && Enabled(s, Tick) && Checks(s, Tick)
    ensures Chooses(s, Tick)
  {
    hide At, Holders, Sound, Calm, Preempt, Dispatch, CanDispatch, ScheduleChecks, ParkChecks;
    SpecialFacts(s);
    ActiveFacts(s);
    PreemptSound(s);
    PreemptCalm(s);
    PreemptShape(s);
    PreemptSpots(s, DEFAULT);
    CalmParts(s);
    CalmParts(Preempt(s));
    NextFacts(Preempt(s));
  }

  lemma CalmParts(s: State)
    requires Calm(s)
    ensures SYSTEM < |s.threads| && Locks(s) && DefaultCalm(s.threads[DEFAULT], At(s, DEFAULT))
    ensures !s.threads[SYSTEM].masked && At(s, SYSTEM).active + At(s, SYSTEM).queued == 1 ==> At(s, SYSTEM).parked == 0
  {
    hide At;
  }

  // What is needed of the state in which the scheduler chooses
  ghost predicate Chooses(s: State, e: Event)
    requires Enabled(s, e) && Checks(s, e) && Switches(s, e)
  {
    SYSTEM < |s.threads| && var s1 := AtChoice(s, e);
    && Choosing(s1) && CanDispatch(s1) && Step(s, e) == Dispatch(s1)
    && (DefaultFirst(s1) <==> TakesDefault(s, e))
    && (At(s1, DEFAULT).parked > 0 <==> At(s, DEFAULT).parked > 0 || ParksDefault(s, e))
    && (Calm(s1) <==> !(e.Svc? && At(s, SYSTEM).parked > 0))
    && (e.Svc? ==> !s1.threads[SYSTEM].masked)
    && s1.mutexes == if e.Lock? then LockHeld(s, e.mutex).mutexes else s.mutexes
  }

  lemma SvcChooses(s: State)
    requires Orderly(s) && Enabled(s, Svc) && Checks(s, Svc)
    ensures Chooses(s, Svc)
  {
    hide At, Holders, Sound, Calm, Dispatch, CanDispatch, ScheduleChecks;
    SpecialFacts(s);
    SvcCalm(s);
    NextFacts(Wakeup(BlockCall(s), SYSTEM));
  }

  lemma LockChooses(s: State, m: nat)
    requires Orderly(s) && Enabled(s, Lock(m)) && Checks(s, Lock(m)) && s.mutexes[m].holder.Some?
    ensures Chooses(s, Lock(m))
  {
    hide At, Holders, Sound, Calm, Preempt, Dispatch, CanDispatch, ScheduleChecks, ParkChecks;
    SpecialFacts(s);
    BlockOnSound(s, m);
    BlockOnCalm(s, m);
    BlockOnSpots(s, m, DEFAULT);
    CalmParts(Away(LockHeld(s, m)));
    NextFacts(Away(LockHeld(s, m)));
  }

  lemma PollChooses(s: State)
    requires Orderly(s) && Enabled(s, Poll) && Checks(s, Poll) && |s.waiting| == 0
    ensures Chooses(s, Poll)
  {
    hide At, Holders, Sound, Calm, Preempt, Dispatch, CanDispatch, ScheduleChecks, ParkChecks;
    SpecialFacts(s);
    SleepSound(s);
    SleepCalm(s);
    SleepSpots(s, DEFAULT);
    CalmParts(Away(Sleep(s)));
    NextFacts(Away(Sleep(s)));
  }

  lemma SwitchChooses(s: State, e: Event)
    requires Orderly(s) && Enabled(s, e) && Checks(s, e) && Switches(s, e)
    ensures Chooses(s, e)
  {
    hide Orderly, Checks, Chooses;
    match e
    case Tick => TickChooses(s);
    case Svc => SvcChooses(s);
    case Lock(m) => LockChooses(s, m);
    case Poll => PollChooses(s);
  }

  /** An orderly state stays orderly under exactly the proper steps. */
  lemma OrderlyExactly(s: State, e: Event)
    requires Orderly(s) && Enabled(s, e) && Checks(s, e)
    ensures Orderly(Step(s, e)) <==> Proper(s, e)
  {
    hide Sound, Calm, At, Enabled, Checks, Step, DefaultFirst, TakesDefault, AtChoice, Choosing;
    StepSound(s, e);
    if Switches(s, e) {
      SwitchChooses(s, e);
      DispatchCalm(AtChoice(s, e));
    } else {
      NoSwitchCalm(s, e);
      NoSwitchProper(s, e);
    }
  }

  lemma NoSwitchProper(s: State, e: Event)
    requires Enabled(s, e) && !Switches(s, e)
    ensures Proper(s, e)
  {
  }

  lemma NoSwitchCalm(s: State, e: Event)
    requires Orderly(s) && Enabled(s, e) && Checks(s, e) && !Switches(s, e)
    ensures Calm(Step(s, e))
  {
    hide Sound, Calm, Holders, At, Count, HoldsOther;
    if e.Lock? {
      LockFreeCalm(s, e.mutex);
    } else if e.Unlock? {
      UnlockCalm(s, e.mutex);
    } else if e.Poll? {
      TakePhaseCalm(s);
    } else {
      ProgramStill(s, e);
      CalmKept(s, Step(s, e));
    }
  }

  lemma TakePhaseCalm(s: State)
    requires Orderly(s) && Enabled(s, Poll)
    ensures Calm(SetPhase(s, Take))
  {
    hide At, Holders, Count, Placed, Holding, Counted, CallsInOrder, CallsReturnOnce, Kinds, Calm;
    ActiveFacts(s);
    SpecialFacts(s);
    RecordSpots(s, SetPhase(s, Take), SYSTEM);
    RecordSpots(s, SetPhase(s, Take), DEFAULT);
    CalmKept(s, SetPhase(s, Take));
  }

  // -------------------------------------------------------------- no lost call

  /** While a call waits, the SystemHandler thread is not asleep, unless it waits for a mutex. */
  ghost predicate Awake(s: State) {
    SYSTEM < |s.threads| && (s.threads[SYSTEM].masked ==> s.waiting == [] || At(s, SYSTEM).parked >= 1)
  }

  // The SystemHandler thread does not fall asleep, and no call is added.
  ghost predicate NoLater(s: State, s': State) {
    && SYSTEM < |s.threads| && SYSTEM < |s'.threads| && s'.waiting == s.waiting
    && (s'.threads[SYSTEM].masked ==> s.threads[SYSTEM].masked && At(s', SYSTEM).parked >= At(s, SYSTEM).parked)
  }

  lemma DispatchNoLater(s: State)
    requires Sound(s) && s.active.None?
    ensures CanDispatch(s) && NoLater(s, Dispatch(s))
  {
    hide At, Holders, Count, Placed, Holding, Counted, CallsInOrder, CallsReturnOnce;
    NextFacts(s);
    DispatchSpots(s, SYSTEM);
  }

  lemma TickAwake(s: State)
    requires Sound(s) && Awake(s) && Enabled(s, Tick) && Checks(s, Tick)
    ensures Awake(Step(s, Tick))
  {
    hide At, Holders, Count, Sound, Preempt, Dispatch, CanDispatch, ScheduleChecks, ParkChecks;
    PreemptSound(s);
    PreemptShape(s);
    PreemptSpots(s, SYSTEM);
    DispatchNoLater(Preempt(s));
  }

  lemma SvcAwake(s: State)
    requires Sound(s) && Enabled(s, Svc) && Checks(s, Svc)
    ensures Awake(Step(s, Svc))
  {
    hide At, Holders, Count, Sound, BlockCall, Dispatch, CanDispatch, ScheduleChecks;
    BlockCallSound(s);
    SystemFacts(BlockCall(s));
    WakeSystemSound(BlockCall(s));
    BlockCallLeaves(s);
    DispatchNoLater(Wakeup(BlockCall(s), SYSTEM));
  }

  lemma BlockCallLeaves(s: State)
    requires HasActive(s)
    ensures BlockCall(s).active.None?
  {
  }

  lemma LockAwake(s: State, m: nat)
    requires Sound(s) && Awake(s) && Enabled(s, Lock(m)) && Checks(s, Lock(m))
    ensures Awake(Step(s, Lock(m)))
  {
    hide At, Holders, Count, Sound, Preempt, Dispatch, CanDispatch, ScheduleChecks, ParkChecks;
    if s.mutexes[m].holder.None? {
      LockFreeSpots(s, m, SYSTEM);
    } else {
      BlockOnSound(s, m);
      BlockOnSpots(s, m, SYSTEM);
      DispatchNoLater(Preempt(LockHeld(s, m)));
    }
  }

  lemma UnlockAwake(s: State, m: nat)
    requires Sound(s) && Awake(s) && Enabled(s, Unlock(m)) && Checks(s, Unlock(m))
    ensures Awake(Step(s, Unlock(m)))
  {
    hide At, Holders, Count, Core, Parked, Owned, Held;
    var s1 := Leave(s, m);
    LeaveSpots(s, m, SYSTEM);
    LeaveSound(s, m);
    var s2 := Release(s1, m);
    ReleaseCore(s1, m);
    UnlockChecks(s, m);
    if s.mutexes[m].holder.Some? {
      OwnerInRange(s1, m);
      ReleaseSpots(s1, m, SYSTEM);
    } else {
      assert s2.mutexes == s1.mutexes;
    }
    if |s.mutexes[m].waiting| > 0 {
      HandoverSpots(s2, m, SYSTEM);
    }
  }

  lemma OwnerInRange(s: State, m: nat)
    requires Sound(s) && m < |s.mutexes| && s.mutexes[m].holder.Some?
    ensures s.mutexes[m].holder.value < |s.threads|
  {
    OwnerFacts(s, m);
  }

  lemma PollAwake(s: State)
    requires Sound(s) && Awake(s) && Enabled(s, Poll) && Checks(s, Poll)
    ensures Awake(Step(s, Poll))
  {
    hide At, Holders, Count, Sound, Preempt, Dispatch, CanDispatch, ScheduleChecks, ParkChecks;
    if |s.waiting| == 0 {
      SleepSound(s);
      DispatchNoLater(Preempt(Sleep(s)));
    } else {
      RecordSpots(s, SetPhase(s, Take), SYSTEM);
    }
  }

  /** Every step keeps that, proper or not. */
  lemma StepAwake(s: State, e: Event)
    requires Sound(s) && Awake(s) && Enabled(s, e) && Checks(s, e)
    ensures Awake(Step(s, e))
  {
    hide Sound, Enabled, Checks, Step, Awake;
    match e
    case Tick => TickAwake(s);
    case Svc => SvcAwake(s);
    case Lock(m) => LockAwake(s, m);
    case Unlock(m) => UnlockAwake(s, m);
    case Poll => PollAwake(s);
    case _ => ProgramAwake(s, e);
  }

  lemma ProgramAwake(s: State, e: Event)
    requires Sound(s) && Awake(s) && Enabled(s, e) && Checks(s, e) && OfProgram(e)
    ensures Awake(Step(s, e))
  {
    hide Sound, Enabled, Checks, Step, At, SameLocks;
    AwakeInRange(s);
    ProgramStill(s, e);
  }

  lemma AwakeInRange(s: State)
    requires Sound(s)
    ensures DEFAULT < |s.threads| && SYSTEM < |s.threads|
  {
  }

  // ---------------------------------------------------------- mutual exclusion

  // Thread t called lock on m and not unlock, and can run on: it is past lock.
  ghost predicate Past(s: State, t: Tid, m: nat) {
    Alive(s, t) && m in s.threads[t].entered && (!s.threads[t].masked || s.active == Some(t))
  }

  /** Only the holder of a mutex is past lock. */
  ghost predicate Exclusive(s: State) {
    forall t: Tid, m: nat {:trigger Past(s, t, m)} | m < |s.mutexes| && Past(s, t, m) :: s.mutexes[m].holder == Some(t)
  }

  /** A thread that waits for a mutex does not run, and will not before it is the holder. */
  lemma ParkedDoesNotRun(s: State, t: Tid, m: nat)
    requires Orderly(s) && m < |s.mutexes| && t in s.mutexes[m].waiting
    ensures Alive(s, t) && s.threads[t].masked && s.active != Some(t) && (t != DEFAULT ==> t !in s.queued)
    ensures m in s.threads[t].entered
  {
    hide Count, Parked, Holding, CallsInOrder, CallsReturnOnce;
    CountIn(s.mutexes[m].waiting, t);
    ParkedAt(s.mutexes, m, t);
    CountedParts(s, t);
    CountIn(s.queued, t);
    assert Holders(s, t) > 0;
    assert ThreadOk(t, s.threads[t], At(s, t), Holders(s, t), s.frames) && KindFits(s.threads[t], t);
    assert LockOk(s, t, m);
  }

  lemma OrderlyExcludes(s: State)
    requires Orderly(s)
    ensures Exclusive(s)
  {
    hide Orderly, At;
    forall t: Tid, m: nat | m < |s.mutexes| && Past(s, t, m)
      ensures s.mutexes[m].holder == Some(t)
    {
      OrderlyLock(s, t, m);
      if t in s.mutexes[m].waiting {
        ParkedDoesNotRun(s, t, m);
      }
    }
  }

  lemma OrderlyLock(s: State, t: Tid, m: nat)
    requires Orderly(s) && Alive(s, t) && m < |s.mutexes|
    ensures LockOk(s, t, m)
  {
  }

  // Thread t waits for a mutex that it does not hold.
  ghost predicate Waits(s: State, t: Tid) {
    exists m: nat :: WaitsFor(s, t, m)
  }

  ghost predicate WaitsFor(s: State, t: Tid, m: nat) {
    m < |s.mutexes| && t in s.mutexes[m].waiting && s.mutexes[m].holder != Some(t)
  }

  // A thread that waits for a mutex while the scheduler chooses
  lemma ParkedAtChoice(s: State, t: Tid, m: nat)
    requires Choosing(s) && m < |s.mutexes| && t in s.mutexes[m].waiting
    ensures CanDispatch(s) && Alive(s, t) && m in s.threads[t].entered
    ensures t != SYSTEM ==> s.threads[t].masked
    ensures s.threads[t].masked ==> (Next(s) == t <==> t == DEFAULT && DefaultFirst(s))
  {
    hide Count, Parked, Holding, CallsInOrder, CallsReturnOnce;
    CountIn(s.mutexes[m].waiting, t);
    ParkedAt(s.mutexes, m, t);
    CountedParts(s, t);
    CountIn(s.queued, t);
    NextFacts(s);
    assert Holders(s, t) > 0;
    assert ThreadOk(t, s.threads[t], At(s, t), Holders(s, t), s.frames) && KindFits(s.threads[t], t);
    assert LockOk(s, t, m);
  }

  // Only the scheduler's choice, and a wakeup that was not meant, break exclusion.
  lemma DispatchExcludes(s: State)
    requires Choosing(s)
    ensures CanDispatch(s)
    ensures Exclusive(Dispatch(s)) <==>
            !(!s.threads[SYSTEM].masked && Waits(s, SYSTEM)) && !(DefaultFirst(s) && Waits(s, DEFAULT))
  {
    hide Choosing, DefaultFirst, Holders;
    DispatchShape(s);
    var s' := Dispatch(s);
    forall t: Tid, m: nat | m < |s'.mutexes| && Past(s', t, m) && s'.mutexes[m].holder != Some(t)
      ensures WaitsFor(s, t, m)
      ensures (t == SYSTEM && !s.threads[SYSTEM].masked) || (t == DEFAULT && DefaultFirst(s))
    {
      LockAtChoice(s, t, m);
      ParkedAtChoice(s, t, m);
    }
    if !s.threads[SYSTEM].masked && Waits(s, SYSTEM) {
      var m: nat :| WaitsFor(s, SYSTEM, m);
      ParkedAtChoice(s, SYSTEM, m);
      assert Past(s', SYSTEM, m);
    }
    if DefaultFirst(s) && Waits(s, DEFAULT) {
      var m: nat :| WaitsFor(s, DEFAULT, m);
      ParkedAtChoice(s, DEFAULT, m);
      assert Past(s', DEFAULT, m);
    }
  }

  lemma LockAtChoice(s: State, t: Tid, m: nat)
    requires Choosing(s) && Alive(s, t) && m < |s.mutexes|
    ensures LockOk(s, t, m)
  {
  }

  lemma DispatchShape(s: State)
    requires Choosing(s)
    ensures CanDispatch(s) && SYSTEM < |s.threads|
    ensures var s' := Dispatch(s);
            && |s'.threads| == |s.threads| && s'.mutexes == s.mutexes && s'.active == Some(Next(s))
            && forall u | 0 <= u < |s.threads| :: s'.threads[u].(stash := None) == s.threads[u].(stash := None)
  {
    hide At, Holders, Locks;
    NextFacts(s);
  }

  // The default thread waits for a mutex that it does not hold, or will in this step.
  ghost predicate DefaultWaits(s: State, e: Event)
    requires Enabled(s, e)
  {
    Waits(s, DEFAULT) || (ParksDefault(s, e) && s.mutexes[e.mutex].holder != Some(DEFAULT))
  }

  /**
   From an orderly state, only the holder is past lock after a step, unless the step is a
   system call while the SystemHandler thread waits for a mutex that it does not hold, or
   takes the default thread from the run queue while it waits for one.
   */
  lemma ExclusionExactly(s: State, e: Event)
    requires Orderly(s) && Enabled(s, e) && Checks(s, e)
    ensures Exclusive(Step(s, e)) <==>
            !(e.Svc? && Waits(s, SYSTEM)) && !(TakesDefault(s, e) && DefaultWaits(s, e))
  {
    hide Orderly, Enabled, Checks, Step, Exclusive, Proper, Waits, AtChoice, Choosing, DefaultFirst, TakesDefault, Calm, At;
    if Switches(s, e) {
      SwitchChooses(s, e);
      DispatchExcludes(AtChoice(s, e));
      WaitsAtChoice(s, e);
    } else {
      NoSwitchProper(s, e);
      OrderlyExactly(s, e);
      OrderlyExcludes(Step(s, e));
      NoSwitchTakes(s, e);
    }
  }

  lemma NoSwitchTakes(s: State, e: Event)
    requires Enabled(s, e) && !Switches(s, e)
    ensures !e.Svc? && !TakesDefault(s, e)
  {
  }

  lemma WaitsAtChoice(s: State, e: Event)
    requires Orderly(s) && Enabled(s, e) && Checks(s, e) && Switches(s, e) && Chooses(s, e)
    ensures var s1 := AtChoice(s, e);
            && (!s1.threads[SYSTEM].masked && Waits(s1, SYSTEM) <==> e.Svc? && Waits(s, SYSTEM))
            && (Waits(s1, DEFAULT) <==> DefaultWaits(s, e))
  {
    hide Orderly, Checks, Step, AtChoice, DefaultFirst, TakesDefault, At, Locks;
    var s1 := AtChoice(s, e);
    if e.Lock? {
      var m := e.mutex;
      assert forall k: nat | k < |s.mutexes| && k != m :: WaitsFor(s1, DEFAULT, k) == WaitsFor(s, DEFAULT, k);
      assert WaitsFor(s1, DEFAULT, m) <==>
        WaitsFor(s, DEFAULT, m) || (s.active == Some(DEFAULT) && s.mutexes[m].holder != Some(DEFAULT));
    } else {
      assert forall t: Tid, k: nat :: WaitsFor(s1, t, k) == WaitsFor(s, t, k);
    }
    if Waits(s1, SYSTEM) && !e.Svc? {
      var k: nat :| WaitsFor(s1, SYSTEM, k);
      SystemParked(s1, k);
    }
  }

  lemma SystemParked(s: State, m: nat)
    requires Sound(s) && Calm(s) && m < |s.mutexes| && SYSTEM in s.mutexes[m].waiting
    ensures s.threads[SYSTEM].masked
  {
    ParkedDoesNotRun(s, SYSTEM, m);
  }

  // -------------------------------------------------------- locking a mutex twice

  // The holder waits for itself.
  ghost predicate SelfLocked(s: State, t: Tid, m: nat) {
    m < |s.mutexes| && s.mutexes[m].holder == Some(t) && t in s.mutexes[m].waiting
  }

  lemma MutexesKept(s: State, e: Event)
    requires Enabled(s, e) && Checks(s, e) && !e.Lock? && !e.Unlock?
    ensures Step(s, e).mutexes == s.mutexes
  {
    hide Holders, At, ParkChecks;
  }

  lemma LockMutexes(s: State, m: nat)
    requires Enabled(s, Lock(m)) && Checks(s, Lock(m)) && s.mutexes[m].holder.Some?
    ensures Step(s, Lock(m)).mutexes == LockHeld(s, m).mutexes
  {
    hide Holders, At, ParkChecks;
  }

  lemma LockFreeMutexes(s: State, m: nat)
    requires Enabled(s, Lock(m)) && Checks(s, Lock(m)) && s.mutexes[m].holder.None?
    ensures Step(s, Lock(m)).mutexes == LockFree(s, m).mutexes
  {
  }

  /** A thread that locks a mutex it holds waits for itself. */
  lemma LockTwice(s: State, m: nat)
    requires Enabled(s, Lock(m)) && Checks(s, Lock(m)) && s.mutexes[m].holder == s.active
    ensures SelfLocked(Step(s, Lock(m)), s.active.value, m)
  {
    hide Step, Checks;
    LockMutexes(s, m);
  }

  /** From an orderly state no step ends that. */
  lemma SelfLockStays(s: State, e: Event, t: Tid, m: nat)
    requires Orderly(s) && Enabled(s, e) && Checks(s, e) && SelfLocked(s, t, m)
    ensures SelfLocked(Step(s, e), t, m)
  {
    hide Orderly, Checks, Step, At;
    ParkedDoesNotRun(s, t, m);
    if e.Unlock? {
      UnlockerHolds(s, e.mutex);
      UnlockShape(s, e.mutex);
    } else if e.Lock? {
      if s.mutexes[e.mutex].holder.Some? {
        LockMutexes(s, e.mutex);
      } else {
        LockFreeMutexes(s, e.mutex);
      }
    } else {
      MutexesKept(s, e);
    }
  }

  ghost predicate NoneSelfLocked(s: State) {
    forall t: Tid, m: nat :: !SelfLocked(s, t, m)
  }

  // The step does not lock a mutex that its thread holds.
  ghost predicate LocksOnce(s: State, e: Event)
    requires Enabled(s, e)
  {
    e.Lock? ==> s.mutexes[e.mutex].holder != s.active
  }

  // No thread is twice in the queue of a mutex.
  lemma HeadOnce(s: State, m: nat)
    requires Orderly(s) && m < |s.mutexes| && |s.mutexes[m].waiting| > 0
    ensures s.mutexes[m].waiting[0] !in s.mutexes[m].waiting[1..]
  {
    hide Count, Parked, Holding, CallsInOrder, CallsReturnOnce, Locks;
    var q := s.mutexes[m].waiting;
    var n := q[0];
    CountTail(q, n);
    CountIn(q[1..], n);
    ParkedAt(s.mutexes, m, n);
    CountedParts(s, n);
    assert Holders(s, n) > 0;
    assert ThreadOk(n, s.threads[n], At(s, n), Holders(s, n), s.frames) && KindFits(s.threads[n], n);
  }

  lemma NoneSelfLockedKept(s: State, e: Event)
    requires Orderly(s) && NoneSelfLocked(s) && Enabled(s, e) && Checks(s, e) && LocksOnce(s, e)
    ensures NoneSelfLocked(Step(s, e))
  {
    hide Orderly, Checks, Step, At;
    if e.Unlock? {
      UnlockShape(s, e.mutex);
      if |s.mutexes[e.mutex].waiting| > 0 {
        HeadOnce(s, e.mutex);
      }
    } else if e.Lock? {
      if s.mutexes[e.mutex].holder.Some? {
        LockMutexes(s, e.mutex);
      } else {
        LockFreeMutexes(s, e.mutex);
        FreeIsIdle(s, e.mutex);
      }
    } else {
      MutexesKept(s, e);
    }
    forall t: Tid, m: nat
      ensures !SelfLocked(Step(s, e), t, m)
    {
      assert !SelfLocked(s, t, m);
    }
  }

  lemma FreeIsIdle(s: State, m: nat)
    requires Orderly(s) && m < |s.mutexes| && s.mutexes[m].holder.None?
    ensures s.mutexes[m].waiting == []
  {
    assert MutexFifo(s.mutexes[m]);
  }

  lemma WaitsIsParked(s: State, t: Tid)
    ensures Waits(s, t) ==> At(s, t).parked > 0
    ensures At(s, t).parked > 0 && NoneSelfLocked(s) ==> Waits(s, t)
  {
    if Waits(s, t) {
      var m: nat :| WaitsFor(s, t, m);
      CountIn(s.mutexes[m].waiting, t);
      ParkedAt(s.mutexes, m, t);
    }
    if At(s, t).parked > 0 && NoneSelfLocked(s) {
      var m := ParkedWhere(s.mutexes, t);
      assert !SelfLocked(s, t, m);
      assert WaitsFor(s, t, m);
    }
  }

  /** Where no thread waits for itself, a step keeps exclusion exactly when it is proper. */
  lemma ProperExcludes(s: State, e: Event)
    requires Orderly(s) && NoneSelfLocked(s) && Enabled(s, e) && Checks(s, e) && LocksOnce(s, e)
    ensures Exclusive(Step(s, e)) <==> Proper(s, e)
  {
    hide Orderly, Checks, Step, At, Exclusive, Waits, NoneSelfLocked, TakesDefault;
    ExclusionExactly(s, e);
    WaitsIsParked(s, SYSTEM);
    WaitsIsParked(s, DEFAULT);
  }

  lemma BootOrderly(mutexes: nat)
    ensures Orderly(Boot(mutexes))
  {
    hide At, Holders, Sound, Boot, Locks;
    BootSound(mutexes);
    BootThreads(mutexes);
    BootPlace(mutexes, SYSTEM);
    BootPlace(mutexes, DEFAULT);
    BootLocks(mutexes);
  }

  lemma BootThreads(mutexes: nat)
    ensures var s := Boot(mutexes);
            && |s.threads| > STARTUP && s.waiting == []
            && s.threads[SYSTEM].phase.Running? && !s.threads[DEFAULT].masked
  {
  }

  lemma BootLocks(mutexes: nat)
    ensures Locks(Boot(mutexes))
  {
    var s := Boot(mutexes);
    forall t: Tid, m: nat | Alive(s, t) && m < |s.mutexes|
      ensures LockOk(s, t, m)
    {
      BootEntered(mutexes, t);
    }
  }

  lemma BootEntered(mutexes: nat, t: Tid)
    requires t <= STARTUP
    ensures Boot(mutexes).threads[t].entered == {}
  {
  }
}
