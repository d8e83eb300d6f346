/** The result of a system call reaches the thread that made it. */
module KernelReturns {
  import opened Wrappers
  import opened KernelState
  import opened KernelInvariant
  import opened KernelSteps
  import opened KernelScheduling
  import opened KernelPrograms
  import opened KernelRuns
  import opened KernelTheorems

  // Thread c is not active, and has `value` for r0 in its stash.
  ghost predicate Rests(s: State, c: Tid, value: int) {
    && Alive(s, c) && s.threads[c].kind.Ordinary? && !s.threads[c].phase.Dead?
    && s.active != Some(c)
    && s.threads[c].stash.Some? && s.threads[c].stash.value < |s.frames|
    && s.frames[s.threads[c].stash.value] == Frame(c, value)
  }

  // Thread c is ready, or waits for a mutex, and will see `value` in r0 when it runs again.
  ghost predicate WillSee(s: State, c: Tid, value: int) {
    Rests(s, c, value) && s.threads[c].phase.Running?
  }

  ghost predicate Sees(s: State, c: Tid, value: int) {
    s.active == Some(c) && s.r0 == value
  }

  /** RequeueCaller puts the caller back, with the result of its call in the context it resumes from. */
  lemma RequeueReturns(s: State)
    requires Sound(s) && Enabled(s, RequeueCaller) && Checks(s, RequeueCaller)
    ensures var w := s.threads[s.active.value];
            var c, s' := w.caller, Step(s, RequeueCaller);
            && c < |s.threads| && c < |s'.threads| && s.threads[c].phase.InCall?
            && s'.queued == s.queued + [c] && !s'.threads[c].masked
            && s'.returned == s.returned + [Return(c, s.active.value, w.result)]
            && WillSee(s', c, w.result)
  {
    hide At, Holders, Count, Placed, Holding, Counted, CallsInOrder, CallsReturnOnce, Kinds;
    CallerFacts(s);
  }

  // A step by another thread, up to the scheduler
  ghost predicate KeepsContext(s: State, s': State, c: Tid)
    requires c < |s.threads|
  {
    && c < |s'.threads| && s'.threads[c].kind == s.threads[c].kind && s'.threads[c].phase == s.threads[c].phase
    && s'.threads[c].alive == s.threads[c].alive && s'.threads[c].stash == s.threads[c].stash
    && |s'.frames| >= |s.frames|
    && (s.threads[c].stash.Some? && s.threads[c].stash.value < |s.frames| ==>
        s'.frames[s.threads[c].stash.value] == s.frames[s.threads[c].stash.value])
  }

  lemma SchedulingKeeps(s: State, c: Tid)
    requires HasActive(s) && c < |s.threads| && s.active != Some(c)
    ensures KeepsContext(s, Preempt(s), c) && KeepsContext(s, BlockCall(s), c) && KeepsContext(s, Sleep(s), c)
    ensures forall m | 0 <= m < |s.mutexes| :: KeepsContext(s, LockHeld(s, m), c)
  {
  }

  // It still rests, or runs.
  ghost predicate RestsOrRuns(s: State, s': State, c: Tid, value: int)
    requires c < |s.threads|
  {
    && (Rests(s', c, value) || Sees(s', c, value))
    && Alive(s', c) && s'.threads[c].kind.Ordinary? && s'.threads[c].phase == s.threads[c].phase
  }

  lemma DispatchShows(s: State, c: Tid, value: int)
    requires CanDispatch(s) && s.active.None? && Rests(s, c, value)
    ensures RestsOrRuns(s, Dispatch(s), c, value)
  {
  }

  lemma WakeKeeps(s: State, n: Tid, c: Tid)
    requires n < |s.threads| && c < |s.threads|
    ensures KeepsContext(s, Wakeup(s, n), c)
  {
  }

  lemma EnterScheduler(s: State, e: Event, c: Tid, value: int)
    requires Sound(s) && Enabled(s, e) && Checks(s, e) && Rests(s, c, value)
    requires e.Tick? || e.Svc? || e.Lock? || e.Poll?
    ensures RestsOrRuns(s, Step(s, e), c, value)
  {
    hide Sound, Preempt, BlockCall, Dispatch, Wakeup, LockHeld, Sleep, Holders, CanDispatch, ParkChecks;
    SchedulingKeeps(s, c);
    match e
    case Tick =>
      PreemptSound(s);
      DispatchShows(Preempt(s), c, value);
    case Svc =>
      BlockCallSound(s);
      SystemFacts(BlockCall(s));
      WakeKeeps(BlockCall(s), SYSTEM, c);
      InactiveAfterCall(s);
      DispatchShows(Wakeup(BlockCall(s), SYSTEM), c, value);
    case Lock(m) =>
      if s.mutexes[m].holder.Some? {
        BlockOnSound(s, m);
        SameActive(s, m);
        SchedulingKeeps(LockHeld(s, m), c);
        DispatchShows(Preempt(LockHeld(s, m)), c, value);
      }
    case Poll =>
      if |s.waiting| == 0 {
        SleepSound(s);
        SameActive(s, 0);
        SchedulingKeeps(Sleep(s), c);
        DispatchShows(Preempt(Sleep(s)), c, value);
      }
  }

  lemma InactiveAfterCall(s: State)
    requires HasActive(s)
    ensures SYSTEM < |BlockCall(s).threads| ==> Wakeup(BlockCall(s), SYSTEM).active.None?
  {
  }

  lemma SameActive(s: State, m: nat)
    requires HasActive(s)
    ensures Sleep(s).active == s.active && |Sleep(s).threads| == |s.threads|
    ensures m < |s.mutexes| ==> LockHeld(s, m).active == s.active && |LockHeld(s, m).threads| == |s.threads|
  {
  }

  // A worker writes its result into the context of its own caller.
  lemma WorkerWritesElsewhere(s: State, result: int, c: Tid, value: int)
    requires Sound(s) && Enabled(s, RunCall(result)) && Checks(s, RunCall(result)) && Rests(s, c, value)
    requires !EndsCall(s, RunCall(result), c)
    ensures RestsOrRuns(s, Step(s, RunCall(result)), c, value)
  {
    hide At, Holders, Count, Placed, Holding, Counted, CallsInOrder, CallsReturnOnce, Kinds;
    RunFacts(s);
    HeldFacts(s);
    ActiveFacts(s);
  }

  lemma ProgramKeeps(s: State, e: Event, c: Tid, value: int)
    requires Sound(s) && Enabled(s, e) && Checks(s, e) && Rests(s, c, value)
    requires !(e.Tick? || e.Svc? || e.Lock? || e.Poll? || e.RunCall? || e.Unlock?)
    ensures Rests(Step(s, e), c, value)
    ensures !EndsCall(s, e, c) ==> RestsOrRuns(s, Step(s, e), c, value)
  {
    hide At, Holders, Count, Placed, Holding, Counted, CallsInOrder, CallsReturnOnce, Kinds;
    ActiveFacts(s);
    if s.threads[s.active.value].hold.Some? {
      HeldFacts(s);
    }
  }

  lemma UnlockKeeps(s: State, m: nat, c: Tid, value: int)
    requires Sound(s) && Enabled(s, Unlock(m)) && Checks(s, Unlock(m)) && Rests(s, c, value)
    ensures RestsOrRuns(s, Step(s, Unlock(m)), c, value)
  {
    hide Sound, Core, At, Holders, Count, ThreadOk;
    LeaveSound(s, m);
    ReleaseCore(Leave(s, m), m);
    UnlockChecks(s, m);
    StaysAlive(s, m, c);
  }

  // A thread that is somewhere is not destroyed with a mutex's reference to it.
  lemma StaysAlive(s: State, m: nat, c: Tid)
    requires Sound(s) && Enabled(s, Unlock(m))
    requires Alive(s, c) && s.threads[c].kind.Ordinary? && !s.threads[c].phase.Dead?
    ensures Alive(Release(Leave(s, m), m), c)
  {
    hide At, Holders, Count, Placed, Holding, CallsInOrder, CallsReturnOnce, Kinds;
    var s1 := Leave(s, m);
    LeaveSound(s, m);
    ReleaseCore(s1, m);
    assert ThreadOk(c, s1.threads[c], At(s1, c), Holders(s1, c), s1.frames) by {
      PlacedAt(s1, c);
    }
    if s1.mutexes[m].holder.Some? {
      OwnerFacts(s1, m);
      ReleaseSpots(s1, m, c);
      PlacedCounted(Release(s1, m), c);
    }
  }

  lemma PlacedAt(s: State, t: Tid)
    requires Sound(s) && Alive(s, t)
    ensures ThreadOk(t, s.threads[t], At(s, t), Holders(s, t), s.frames)
  {
  }

  // A worker gives thread c its result, or lets it go.
  ghost predicate EndsCall(s: State, e: Event, c: Tid)
    requires HasActive(s)
  {
    (e.RunCall? || e.RequeueCaller? || e.LeaveExited?) && s.threads[s.active.value].hold == Some(c)
  }

  /** No step by another thread than its worker changes the context of thread c, or its phase. */
  lemma StepRests(s: State, e: Event, c: Tid, value: int)
    requires Sound(s) && Enabled(s, e) && Checks(s, e) && Rests(s, c, value)
    requires !EndsCall(s, e, c)
    ensures RestsOrRuns(s, Step(s, e), c, value)
  {
    hide Sound, Checks, Step, Rests, RestsOrRuns, Sees;
    match e
    case RunCall(result) => WorkerWritesElsewhere(s, result, c, value);
    case Unlock(m) => UnlockKeeps(s, m, c, value);
    case Tick => EnterScheduler(s, e, c, value);
    case Svc => EnterScheduler(s, e, c, value);
    case Lock(m) => EnterScheduler(s, e, c, value);
    case Poll => EnterScheduler(s, e, c, value);
    case _ => ProgramKeeps(s, e, c, value);
  }

  // Nobody works for a thread that is in no call.
  lemma RunningUnheld(s: State, c: Tid)
    requires Sound(s) && Alive(s, c) && s.threads[c].kind.Ordinary? && s.threads[c].phase.Running? && HasActive(s)
    ensures s.threads[s.active.value].hold != Some(c)
  {
    hide Holders, Count;
    PlacedAt(s, c);
    HeldAt(s.threads, s.active.value, c);
  }

  lemma StepKeeps(s: State, e: Event, c: Tid, value: int)
    requires Sound(s) && Enabled(s, e) && Checks(s, e) && WillSee(s, c, value)
    ensures WillSee(Step(s, e), c, value) || Sees(Step(s, e), c, value)
  {
    hide Sound, Checks, Step;
    RunningUnheld(s, c);
    StepRests(s, e, c, value);
  }

  // Thread c is active in no state of the run but its last.
  ghost predicate FirstActiveAtEnd(s: State, es: seq<Event>, c: Tid)
    decreases |es|
  {
    if es == [] then s.active == Some(c)
    else s.active != Some(c) && Enabled(s, es[0]) && Checks(s, es[0]) && FirstActiveAtEnd(Step(s, es[0]), es[1..], c)
  }

  /** Whatever runs in between, the thread finds the result in r0 when it is next active. */
  lemma {:induction false} ResultArrives(s: State, es: seq<Event>, c: Tid, value: int)
    requires Sound(s) && HasActive(s) && WillSee(s, c, value)
    requires FirstActiveAtEnd(s, es, c)
    ensures After(s, es).Some? && Sees(After(s, es).value, c, value)
    decreases |es|
  {
    hide Sound, HasActive, Enabled, Checks, Step;
    if es != [] {
      StepSound(s, es[0]);
      StepKeeps(s, es[0], c, value);
      if |es| == 1 || !WillSee(Step(s, es[0]), c, value) {
        assert Sees(Step(s, es[0]), c, value);
        assert es[1..] == [];
      } else {
        ResultArrives(Step(s, es[0]), es[1..], c, value);
      }
    }
  }

  /**
   Preemption cannot be noticed: whatever runs in between, a thread that was preempted, or
   that waited for a mutex, goes on with the value it had in r0.
   */
  lemma ResumesAsItWas(s: State, e: Event, es: seq<Event>)
    requires Sound(s) && Enabled(s, e) && Checks(s, e) && (e.Tick? || e.Lock?)
    requires var th := s.threads[s.active.value]; th.kind.Ordinary? && th.phase.Running?
    requires FirstActiveAtEnd(Step(s, e), es, s.active.value)
    ensures After(Step(s, e), es).Some? && Sees(After(Step(s, e), es).value, s.active.value, s.r0)
  {
    hide Sound, Checks, Step, FirstActiveAtEnd, After, WillSee;
    StepSound(s, e);
    LeavesValue(s, e);
    if WillSee(Step(s, e), s.active.value, s.r0) {
      ResultArrives(Step(s, e), es, s.active.value, s.r0);
    } else {
      AtOnce(Step(s, e), es, s.active.value);
    }
  }

  lemma AtOnce(s: State, es: seq<Event>, c: Tid)
    requires s.active == Some(c) && FirstActiveAtEnd(s, es, c)
    ensures es == [] && After(s, es) == Some(s)
  {
  }

  lemma LeavesValue(s: State, e: Event)
    requires Sound(s) && Enabled(s, e) && Checks(s, e) && (e.Tick? || e.Lock?)
    requires var th := s.threads[s.active.value]; th.kind.Ordinary? && th.phase.Running?
    ensures WillSee(Step(s, e), s.active.value, s.r0) || Sees(Step(s, e), s.active.value, s.r0)
  {
    hide Sound, Dispatch, Holders, At, CanDispatch, ParkChecks, ScheduleChecks;
    var t := s.active.value;
    ActiveFacts(s);
    match e
    case Tick =>
      PreemptSound(s);
      NextFacts(Preempt(s));
      PutAside(s);
      DispatchShows(Preempt(s), t, s.r0);
    case Lock(m) =>
      if s.mutexes[m].holder.Some? {
        BlockOnSound(s, m);
        NextFacts(Preempt(LockHeld(s, m)));
        PutAside(LockHeld(s, m));
        DispatchShows(Preempt(LockHeld(s, m)), t, s.r0);
      }
  }

  lemma PutAside(s: State)
    requires HasActive(s) && s.threads[s.active.value].alive
    requires s.threads[s.active.value].kind.Ordinary? && s.threads[s.active.value].phase.Running?
    ensures WillSee(Preempt(s), s.active.value, s.r0)
  {
    hide Holders;
  }
}
