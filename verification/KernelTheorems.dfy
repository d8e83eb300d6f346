/** What the two invariants mean for every run of the kernel. */
module KernelTheorems {
  import opened Wrappers
  import opened KernelState
  import opened KernelInvariant
  import opened KernelSteps
  import opened KernelScheduling
  import opened KernelPrograms
  import opened KernelRuns
  import opened KernelLocking

  // None when a step is not what a program does there, or one of its checks fails
  ghost function After(s: State, es: seq<Event>): Option<State>
    decreases |es|
  {
    if es == [] then Some(s)
    else if Enabled(s, es[0]) && Checks(s, es[0]) then After(Step(s, es[0]), es[1..])
    else None
  }

  ghost predicate ProperRun(s: State, es: seq<Event>)
    decreases |es|
  {
    es == [] || (Enabled(s, es[0]) && Proper(s, es[0]) && (Checks(s, es[0]) ==> ProperRun(Step(s, es[0]), es[1..])))
  }

  lemma {:induction false} RunSoundFrom(s: State, es: seq<Event>)
    requires Sound(s) && Awake(s) && HasActive(s)
    ensures After(s, es).Some? ==> Sound(After(s, es).value) && Awake(After(s, es).value) && HasActive(After(s, es).value)
    decreases |es|
  {
    hide Sound, Awake, Enabled, Checks, Step, HasActive;
    if es != [] && Enabled(s, es[0]) && Checks(s, es[0]) {
      StepSound(s, es[0]);
      StepAwake(s, es[0]);
      RunSoundFrom(Step(s, es[0]), es[1..]);
    }
  }

  lemma {:induction false} RunOrderlyFrom(s: State, es: seq<Event>)
    requires Orderly(s) && ProperRun(s, es)
    ensures After(s, es).Some? ==> Orderly(After(s, es).value)
    decreases |es|
  {
    hide Orderly, Enabled, Checks, Step, Proper;
    if es != [] && Enabled(s, es[0]) && Checks(s, es[0]) {
      OrderlyExactly(s, es[0]);
      RunOrderlyFrom(Step(s, es[0]), es[1..]);
    }
  }

  /** Every state a run reaches satisfies the invariant. */
  lemma Reachable(mutexes: nat, es: seq<Event>)
    ensures After(Boot(mutexes), es).Some? ==>
      var s := After(Boot(mutexes), es).value; Sound(s) && Awake(s) && HasActive(s)
    ensures After(Boot(mutexes), es).Some? && ProperRun(Boot(mutexes), es) ==> Orderly(After(Boot(mutexes), es).value)
  {
    hide Sound, Orderly, Awake, After, ProperRun, HasActive;
    BootSound(mutexes);
    BootAwake(mutexes);
    BootOrderly(mutexes);
    RunSoundFrom(Boot(mutexes), es);
    if ProperRun(Boot(mutexes), es) {
      RunOrderlyFrom(Boot(mutexes), es);
    }
  }

  lemma BootAwake(mutexes: nat)
    ensures Awake(Boot(mutexes))
  {
  }

  // ----------------------------------------------------- contexts and references

  /** A thread has a stashed context exactly when it is not the active thread. */
  lemma StashedUnlessActive(s: State, t: Tid)
    requires Sound(s) && Alive(s, t)
    ensures s.threads[t].stash.Some? <==> s.active != Some(t)
  {
    assert ThreadOk(t, s.threads[t], At(s, t), Holders(s, t), s.frames);
  }

  /** The context a worker refers to is its caller's stash until the caller is put back. */
  lemma ContextStays(s: State, w: Tid)
    requires Sound(s) && Alive(s, w) && s.threads[w].kind.Worker?
    requires s.threads[w].phase.Call? || s.threads[w].phase.Unmask? || s.threads[w].phase.Requeue? || s.threads[w].phase.ExitCheck?
    ensures var c := s.threads[w].caller;
            && Alive(s, c) && s.threads[c].stash == Some(s.threads[w].context)
            && s.threads[c].phase.InCall? && s.active != Some(c) && c !in s.queued && c !in s.waiting
  {
    hide Count;
    assert ThreadOk(w, s.threads[w], At(s, w), Holders(s, w), s.frames);
    HoldsAnother(s, w);
    var c := s.threads[w].hold.value;
    HeldAt(s.threads, w, c);
    assert Holders(s, c) > 0;
    assert ThreadOk(c, s.threads[c], At(s, c), Holders(s, c), s.frames);
    CountIn(s.queued, c);
    CountIn(s.waiting, c);
  }

  /** A thread waits to be destroyed with its last reference in that queue. */
  lemma DanglingIsLast(s: State, t: Tid)
    requires Sound(s) && t in s.dangling
    ensures Alive(s, t) && s.threads[t].masked && s.threads[t].phase.Dead? && Holders(s, t) == 1
    ensures s.dangling == [t]
  {
    hide Count, Placed, Holding, Kinds, Counted, CallsInOrder, CallsReturnOnce, ThreadOk;
    CountIn(s.dangling, t);
    HeadFacts(s, t);
  }

  ghost predicate AllStay(s: State, s': State) {
    |s'.threads| >= |s.threads| && forall t | 0 <= t < |s.threads| :: s'.threads[t].alive == s.threads[t].alive
  }

  lemma SchedulingDestroysNone(s: State)
    ensures CanDispatch(s) ==> AllStay(s, Dispatch(s))
    ensures HasActive(s) ==> AllStay(s, Preempt(s)) && AllStay(s, BlockCall(s)) && AllStay(s, Sleep(s))
    ensures forall m | 0 <= m < |s.mutexes| :: HasActive(s) ==> AllStay(s, LockHeld(s, m))
    ensures SYSTEM < |s.threads| ==> AllStay(s, Wakeup(s, SYSTEM))
  {
  }

  /** No interrupt handler, and no lock or sleep that enters one, destroys a thread. */
  lemma HandlersDestroyNone(s: State, e: Event)
    requires Sound(s) && Enabled(s, e) && Checks(s, e)
    requires e.Tick? || e.Svc? || e.Lock? || e.Poll?
    ensures AllStay(s, Step(s, e))
  {
    hide Sound, Preempt, BlockCall, Dispatch, Wakeup, LockHeld, Sleep, Holders, CanDispatch, ParkChecks;
    SchedulingDestroysNone(s);
    match e
    case Tick => SchedulingDestroysNone(Preempt(s));
    case Svc =>
      BlockCallSound(s);
      SystemFacts(BlockCall(s));
      SchedulingDestroysNone(BlockCall(s));
      SchedulingDestroysNone(Wakeup(BlockCall(s), SYSTEM));
    case Lock(m) =>
      if s.mutexes[m].holder.Some? {
        SchedulingDestroysNone(LockHeld(s, m));
        SchedulingDestroysNone(Preempt(LockHeld(s, m)));
      }
    case Poll =>
      if |s.waiting| == 0 {
        SchedulingDestroysNone(Sleep(s));
        SchedulingDestroysNone(Preempt(Sleep(s)));
      }
  }

  /** Outside the default thread only an unlock by another thread than the holder can. */
  lemma OnlyDefaultDestroys(s: State, e: Event)
    requires Sound(s) && Enabled(s, e) && Checks(s, e)
    requires !e.DropThread? && (e.Unlock? ==> s.mutexes[e.mutex].holder == s.active)
    ensures AllStay(s, Step(s, e))
  {
    hide Sound, Preempt, Dispatch, Wakeup, LockHeld, Holders, At, CanDispatch, ScheduleChecks, ParkChecks;
    if e.Tick? || e.Svc? || e.Lock? || e.Poll? {
      HandlersDestroyNone(s, e);
    } else if e.Unlock? {
      UnlockDestroysNone(s, e.mutex);
    }
  }

  lemma UnlockDestroysNone(s: State, m: nat)
    requires Sound(s) && Enabled(s, Unlock(m)) && Checks(s, Unlock(m))
    requires s.mutexes[m].holder == s.active
    ensures AllStay(s, Step(s, Unlock(m)))
  {
    hide Sound, Holders, At;
    UnlockKeepsActive(s, m);
    ActiveFacts(s);
    UnlockChecks(s, m);
  }

  lemma UnlockKeepsActive(s: State, m: nat)
    requires Sound(s) && Enabled(s, Unlock(m)) && Checks(s, Unlock(m))
    ensures Alive(Step(s, Unlock(m)), s.active.value)
  {
    hide At, Count, Placed, Holding, Kinds, CallsInOrder, CallsReturnOnce;
    StepSound(s, Unlock(m));
    UnlockSound(s, m);
    ActiveFacts(Step(s, Unlock(m)));
  }

  // ------------------------------------------------------------------- places

  /**
   A thread of a process, or a worker, that has neither died nor exited is in exactly one
   place.  It is masked when it waits for a mutex or for its call to be taken, and not
   masked when it can run.
   */
  lemma InOnePlace(s: State, t: Tid)
    requires Sound(s) && Alive(s, t) && (s.threads[t].kind.Ordinary? || s.threads[t].kind.Worker?)
    requires !s.threads[t].phase.Dead?
    ensures At(s, t).Total() == 1
    ensures s.active == Some(t) || t in s.queued ==> !s.threads[t].masked
    ensures t in s.waiting || At(s, t).parked > 0 || s.threads[t].phase.Exited? ==> s.threads[t].masked
    ensures t !in s.dangling
  {
    hide Count;
    assert ThreadOk(t, s.threads[t], At(s, t), Holders(s, t), s.frames);
    CountIn(s.queued, t);
    CountIn(s.waiting, t);
    CountIn(s.dangling, t);
  }

  // ------------------------------------------------------------------- mutexes

  /** At most one thread is past lock and before unlock, and it is the holder. */
  lemma MutualExclusion(s: State, t: Tid, u: Tid, m: nat)
    requires Orderly(s) && m < |s.mutexes|
    requires Past(s, t, m) && Past(s, u, m)
    ensures t == u && s.mutexes[m].holder == Some(t)
  {
    hide Orderly;
    OrderlyExcludes(s);
  }

  // Nobody waits for a free mutex, and it is granted in the order of the calls to lock.
  predicate GrantedInOrder(mx: Mutex) {
    && mx.granted <= mx.asked && mx.asked[|mx.granted|..] == mx.waiting
    && (mx.holder.None? ==> mx.waiting == [])
    && (mx.holder.Some? ==> |mx.granted| > 0 && mx.holder.value == mx.granted[|mx.granted| - 1])
  }

  // -------------------------------------------------------------- system calls

  /** While a call waits, the SystemHandler thread is awake, unless it waits for a mutex. */
  lemma NoCallIsLost(s: State)
    requires Sound(s) && Awake(s) && |s.waiting| > 0
    ensures s.active == Some(SYSTEM) || SYSTEM in s.queued || At(s, SYSTEM).parked >= 1
  {
    hide Count;
    SpecialFacts(s);
    CountIn(s.queued, SYSTEM);
  }

  // Calls are taken in the order in which they were made, the k-th by the k-th worker.
  ghost predicate TakenInOrder(s: State) {
    && s.taken <= s.called && s.called[|s.taken|..] == s.waiting
    && |s.taken| - 1 <= |s.workers| <= |s.taken|
    && (forall k | 0 <= k < |s.workers| :: WorkerFor(s, s.workers[k], s.taken[k]))
    && (forall j, k | 0 <= j < k < |s.workers| :: s.workers[j] != s.workers[k])
  }

  /** A thread has made as many calls as have returned to it, or one more that is still open. */
  lemma CallsBalance(s: State, t: Tid)
    requires Sound(s) && Alive(s, t)
    ensures Count(s.called, t) == Returns(s.returned, t) + (if Open(s.threads[t]) then 1 else 0)
  {
    assert ReturnsOnce(s, t);
  }

  // ----------------------------------------------------------- on whole runs

  // What the state after any run satisfies
  ghost predicate Guaranteed(s: State) {
    && (forall t: Tid | Alive(s, t) :: s.threads[t].stash.Some? <==> s.active != Some(t))
    && (forall t: Tid :: Holders(s, t) > 0 <==> Alive(s, t))
    && (forall t | t in s.dangling :: Alive(s, t) && s.threads[t].masked && Holders(s, t) == 1)
    && (forall t: Tid | Alive(s, t) && (s.threads[t].kind.Ordinary? || s.threads[t].kind.Worker?) && !s.threads[t].phase.Dead? ::
         At(s, t).Total() == 1)
    && (forall m | 0 <= m < |s.mutexes| :: GrantedInOrder(s.mutexes[m]))
    && TakenInOrder(s)
    && (forall t: Tid | Alive(s, t) :: Count(s.called, t) == Returns(s.returned, t) + (if Open(s.threads[t]) then 1 else 0))
    && (|s.waiting| > 0 ==> s.active == Some(SYSTEM) || SYSTEM in s.queued || At(s, SYSTEM).parked >= 1)
    && (|s.mutexes| > DBGLN ==> s.mutexes[DBGLN].holder.None? && s.mutexes[DBGLN].waiting == [])
  }

  // What it satisfies when each step of the run was proper
  ghost predicate Protected(s: State) {
    && Exclusive(s)
    && (forall m: nat, t: Tid | m < |s.mutexes| && t in s.mutexes[m].waiting ::
         t < |s.threads| && s.threads[t].masked && s.active != Some(t) && (t != DEFAULT ==> t !in s.queued))
  }

  lemma SoundGuarantees(s: State)
    requires Sound(s) && Awake(s)
    ensures Guaranteed(s)
  {
    hide At, Holders, Count, Placed, Holding, Kinds, Counted, CallsReturnOnce, ThreadOk, CallsInOrder;
    forall t: Tid | Alive(s, t)
      ensures s.threads[t].stash.Some? <==> s.active != Some(t)
      ensures Count(s.called, t) == Returns(s.returned, t) + (if Open(s.threads[t]) then 1 else 0)
    {
      StashedUnlessActive(s, t);
      CallsBalance(s, t);
    }
    forall t | t in s.dangling
      ensures Alive(s, t) && s.threads[t].masked && Holders(s, t) == 1
    {
      DanglingIsLast(s, t);
    }
    forall t: Tid | Alive(s, t) && (s.threads[t].kind.Ordinary? || s.threads[t].kind.Worker?) && !s.threads[t].phase.Dead?
      ensures At(s, t).Total() == 1
    {
      InOnePlace(s, t);
    }
    forall m | 0 <= m < |s.mutexes|
      ensures GrantedInOrder(s.mutexes[m])
    {
      assert MutexFifo(s.mutexes[m]);
    }
    if |s.waiting| > 0 {
      NoCallIsLost(s);
    }
    CountedIs(s);
    OrderIs(s);
    if |s.mutexes| > DBGLN {
      LogIsFree(s);
    }
  }

  lemma CountedIs(s: State)
    requires Sound(s)
    ensures forall t: Tid :: Holders(s, t) > 0 <==> Alive(s, t)
  {
  }

  lemma OrderIs(s: State)
    requires Sound(s)
    ensures TakenInOrder(s)
  {
  }

  lemma OrderlyProtects(s: State)
    requires Orderly(s)
    ensures Protected(s)
  {
    hide Orderly, At;
    OrderlyExcludes(s);
    forall m: nat, t: Tid | m < |s.mutexes| && t in s.mutexes[m].waiting
      ensures t < |s.threads| && s.threads[t].masked && s.active != Some(t) && (t != DEFAULT ==> t !in s.queued)
    {
      ParkedDoesNotRun(s, t, m);
    }
  }

  /** All of this, after every run from the first step of the scheduler on. */
  lemma EveryRun(mutexes: nat, es: seq<Event>)
    ensures var r := After(Boot(mutexes), es);
            && (r.Some? ==> Guaranteed(r.value))
            && (r.Some? && ProperRun(Boot(mutexes), es) ==> Protected(r.value))
  {
    hide Sound, Orderly, Awake, Guaranteed, Protected, After, ProperRun, HasActive;
    Reachable(mutexes, es);
    if After(Boot(mutexes), es).Some? {
      SoundGuarantees(After(Boot(mutexes), es).value);
      if ProperRun(Boot(mutexes), es) {
        OrderlyProtects(After(Boot(mutexes), es).value);
      }
    }
  }

  // --------------------------------------------------- where exclusion ends

  // Every state of the run excludes.
  ghost predicate ExclusiveRun(s: State, es: seq<Event>)
    decreases |es|
  {
    && Exclusive(s)
    && (es == [] || (Enabled(s, es[0]) && Checks(s, es[0]) ==> ExclusiveRun(Step(s, es[0]), es[1..])))
  }

  // No thread locks a mutex that it holds.
  ghost predicate LocksOnceRun(s: State, es: seq<Event>)
    decreases |es|
  {
    es == [] || (
      && Enabled(s, es[0]) && LocksOnce(s, es[0])
      && (Checks(s, es[0]) ==> LocksOnceRun(Step(s, es[0]), es[1..])))
  }

  lemma {:induction false} ExclusiveFrom(s: State, es: seq<Event>)
    requires Orderly(s) && NoneSelfLocked(s) && After(s, es).Some? && LocksOnceRun(s, es)
    ensures ExclusiveRun(s, es) <==> ProperRun(s, es)
    decreases |es|
  {
    hide Orderly, NoneSelfLocked, Exclusive, Enabled, Checks, Step, Proper, LocksOnce;
    OrderlyExcludes(s);
    if es != [] {
      ProperExcludes(s, es[0]);
      OrderlyExactly(s, es[0]);
      NoneSelfLockedKept(s, es[0]);
      if Proper(s, es[0]) {
        ExclusiveFrom(Step(s, es[0]), es[1..]);
      }
    }
  }

  /** Over a run in which no thread locks a mutex twice, all states exclude exactly if all steps are proper. */
  lemma ExclusiveRuns(mutexes: nat, es: seq<Event>)
    requires After(Boot(mutexes), es).Some? && LocksOnceRun(Boot(mutexes), es)
    ensures ExclusiveRun(Boot(mutexes), es) <==> ProperRun(Boot(mutexes), es)
  {
    hide Orderly, After, ExclusiveRun, ProperRun, LocksOnceRun;
    BootOrderly(mutexes);
    assert NoneSelfLocked(Boot(mutexes));
    ExclusiveFrom(Boot(mutexes), es);
  }

  /** Whatever is locked, exclusion survives the step after a proper run except in these two cases. */
  lemma ExclusionAfter(mutexes: nat, es: seq<Event>, e: Event)
    requires After(Boot(mutexes), es).Some? && ProperRun(Boot(mutexes), es)
    requires var s := After(Boot(mutexes), es).value; Enabled(s, e) && Checks(s, e)
    ensures var s := After(Boot(mutexes), es).value;
            Exclusive(Step(s, e)) <==> !(e.Svc? && Waits(s, SYSTEM)) && !(TakesDefault(s, e) && DefaultWaits(s, e))
  {
    hide Orderly, After, ProperRun, Exclusive, Waits, TakesDefault, Enabled, Checks, Step;
    Reachable(mutexes, es);
    ExclusionExactly(After(Boot(mutexes), es).value, e);
  }

  /** A thread that has locked a mutex it held never runs again. */
  lemma {:induction false} SelfLockIsForever(s: State, es: seq<Event>, t: Tid, m: nat)
    requires Orderly(s) && SelfLocked(s, t, m) && ProperRun(s, es) && After(s, es).Some?
    ensures var s' := After(s, es).value; SelfLocked(s', t, m) && s'.active != Some(t)
    decreases |es|
  {
    hide Orderly, SelfLocked, Enabled, Checks, Step, Proper;
    if es == [] {
      SelfLockParks(s, t, m);
    } else {
      OrderlyExactly(s, es[0]);
      SelfLockStays(s, es[0], t, m);
      SelfLockIsForever(Step(s, es[0]), es[1..], t, m);
    }
  }

  lemma SelfLockParks(s: State, t: Tid, m: nat)
    requires Orderly(s) && SelfLocked(s, t, m)
    ensures s.active != Some(t)
  {
    hide Orderly;
    ParkedDoesNotRun(s, t, m);
  }
}
