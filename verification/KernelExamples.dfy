/** Two runs at whose end a mutex fails to exclude, one for each way in which that can happen. */
module KernelExamples {
  import opened Wrappers
  import opened KernelState
  import opened KernelInvariant
  import opened KernelSteps
  import opened KernelScheduling
  import opened KernelPrograms
  import opened KernelRuns
  import opened KernelLocking
  import opened KernelTheorems
  import opened KernelReturns

  // Only stashed contexts differ.
  ghost predicate SameRecords(s: State, s': State) {
    && |s'.threads| == |s.threads|
    && forall u | 0 <= u < |s.threads| :: s'.threads[u].(stash := None) == s.threads[u].(stash := None)
  }

  // The threads are as `s` has them, and the scheduler's queues as given.
  ghost predicate Queues(s: State, active: Tid, queued: seq<Tid>, dangling: seq<Tid>) {
    s.active == Some(active) && s.queued == queued && s.dangling == dangling
  }

  // A preempted thread goes to the end of the run queue.
  lemma TickRotates(s: State)
    requires Sound(s) && HasActive(s) && s.dangling == [] && |s.queued| < CAPACITY
    requires var th := s.threads[s.active.value]; !th.masked && !th.kind.Default? && !th.kind.Fallback?
    ensures Checks(s, Tick)
    ensures var all, s' := s.queued + [s.active.value], Step(s, Tick);
            && Queues(s', all[0], all[1..], []) && SameRecords(s, s')
            && s'.waiting == s.waiting && s'.mutexes == s.mutexes
            && Sound(s') && HasActive(s')
  {
    hide Sound, At, Holders;
    ChecksExact(s, Tick);
    StepSound(s, Tick);
    PreemptShape(s);
  }

  // The dummy thread is never seen again; the startup thread runs.
  lemma FirstTick(mutexes: nat)
    ensures var s := Boot(mutexes);
            && Enabled(s, Tick) && Checks(s, Tick)
            && (var s' := Step(s, Tick);
                && Orderly(s') && HasActive(s') && Queues(s', STARTUP, [], [])
                && SameRecords(s, s') && s'.waiting == [] && s'.mutexes == s.mutexes)
  {
    hide Sound, Calm, At, Holders;
    var s := Boot(mutexes);
    BootOrderly(mutexes);
    BootSpots(mutexes, DUMMY);
    assert HasActive(s);
    ChecksExact(s, Tick);
    StepSound(s, Tick);
    OrderlyExactly(s, Tick);
    PreemptShape(s);
  }

  // A dead thread without other references is left to the default thread.
  lemma TickBuries(s: State)
    requires Sound(s) && HasActive(s) && s.dangling == []
    requires var t := s.active.value; s.threads[t].masked && s.threads[t].phase.Dead? && Holders(s, t) == 1
    requires !s.threads[DEFAULT].masked
    ensures Checks(s, Tick)
    ensures var s' := Step(s, Tick);
            && Queues(s', DEFAULT, s.queued, [s.active.value]) && SameRecords(s, s')
            && s'.waiting == s.waiting && s'.mutexes == s.mutexes
            && Sound(s') && HasActive(s')
  {
    hide Sound, At, Holders;
    ChecksExact(s, Tick);
    StepSound(s, Tick);
    PreemptShape(s);
    KindsAre(s);
  }

  lemma KindsAre(s: State)
    requires Sound(s)
    ensures |s.threads| > STARTUP && s.threads[DEFAULT].kind.Default? && s.threads[SYSTEM].kind.SystemHandler?
    ensures forall t | 0 <= t < |s.threads| :: KindFits(s.threads[t], t)
  {
    assert KindFits(s.threads[DEFAULT], DEFAULT) && KindFits(s.threads[SYSTEM], SYSTEM);
  }

  // A system call by a thread while the SystemHandler thread is masked
  lemma SvcWakes(s: State)
    requires Sound(s) && Enabled(s, Svc) && s.dangling == [] && |s.queued| < CAPACITY && |s.waiting| < CAPACITY
    requires SYSTEM < |s.threads| && s.threads[SYSTEM].masked
    ensures Checks(s, Svc)
    ensures var all, t, s' := s.queued + [SYSTEM], s.active.value, Step(s, Svc);
            && t != SYSTEM
            && Queues(s', all[0], all[1..], []) && s'.mutexes == s.mutexes && s'.waiting == s.waiting + [t]
            && SameRecords(s.(threads := s.threads[t := s.threads[t].(masked := true, phase := InCall)]
                                                   [SYSTEM := s.threads[SYSTEM].(masked := false)]), s')
            && Sound(s') && HasActive(s')
  {
    hide Sound, At, Holders;
    KindsAre(s);
    ChecksExact(s, Svc);
    StepSound(s, Svc);
  }

  // The active thread parks on a mutex that another one holds.
  lemma LockParks(s: State, m: nat)
    requires Sound(s) && Enabled(s, Lock(m)) && s.dangling == [] && |s.queued| > 0
    requires s.mutexes[m].holder.Some? && |s.mutexes[m].waiting| < CAPACITY
    ensures Checks(s, Lock(m))
    ensures var t, s' := s.active.value, Step(s, Lock(m));
            && Queues(s', s.queued[0], s.queued[1..], []) && s'.waiting == s.waiting
            && |s'.mutexes| == |s.mutexes| && s'.mutexes[m].holder == s.mutexes[m].holder
            && s'.mutexes[m].waiting == s.mutexes[m].waiting + [t]
            && (forall k | 0 <= k < |s.mutexes| && k != m :: s'.mutexes[k] == s.mutexes[k])
            && SameRecords(s.(threads := s.threads[t := s.threads[t].(masked := true, entered := s.threads[t].entered + {m})]), s')
            && Sound(s') && HasActive(s')
  {
    hide Sound, At, Holders, Preempt, ParkChecks;
    ChecksExact(s, Lock(m));
    StepSound(s, Lock(m));
    BlockOnSound(s, m);
  }

  // ------------------------------------------------------------------- runs

  lemma {:induction false} RunExtends(s: State, es: seq<Event>, u: State, e: Event)
    requires After(s, es) == Some(u) && ProperRun(s, es)
    requires Enabled(u, e) && Checks(u, e) && Proper(u, e)
    ensures After(s, es + [e]) == Some(Step(u, e)) && ProperRun(s, es + [e])
    decreases |es|
  {
    hide Enabled, Checks, Proper, Step;
    if es == [] {
      assert [e][1..] == [];
    } else {
      RunExtends(Step(s, es[0]), es[1..], u, e);
      assert (es + [e])[1..] == es[1..] + [e];
    }
  }

  // A run so far: the state s after the events es
  ghost predicate Reached(mutexes: nat, es: seq<Event>, s: State) {
    After(Boot(mutexes), es) == Some(s) && ProperRun(Boot(mutexes), es) && Orderly(s) && HasActive(s)
  }

  lemma Go(mutexes: nat, es: seq<Event>, s: State, e: Event) returns (es': seq<Event>, s': State)
    requires Reached(mutexes, es, s) && Enabled(s, e) && Checks(s, e) && Proper(s, e)
    ensures es' == es + [e] && s' == Step(s, e) && Reached(mutexes, es', s')
  {
    hide Sound, Calm, Enabled, Checks, Proper, Step, After, ProperRun, HasActive;
    es', s' := es + [e], Step(s, e);
    RunExtends(Boot(mutexes), es, s, e);
    StepSound(s, e);
    OrderlyExactly(s, e);
  }

  lemma Start(mutexes: nat) returns (es: seq<Event>, s: State)
    ensures Reached(mutexes, es, s)
    ensures Queues(s, STARTUP, [], []) && SameRecords(Boot(mutexes), s) && s.waiting == [] && s.mutexes == Boot(mutexes).mutexes
  {
    hide Sound, Calm, Enabled, Checks, Step, HasActive, Proper, SameRecords, Orderly;
    FirstTick(mutexes);
    BootOrderly(mutexes);
    BootSound(mutexes);
    TickIsProper(Boot(mutexes));
    assert Reached(mutexes, [], Boot(mutexes));
    es, s := Go(mutexes, [], Boot(mutexes), Tick);
  }

  lemma TickIsProper(s: State)
    requires Enabled(s, Tick) && |s.queued| > 0 && s.queued[0] != DEFAULT
    ensures Proper(s, Tick)
  {
  }

  lemma {:induction false} OwnsNone(ms: seq<Mutex>, t: Tid)
    requires forall m | 0 <= m < |ms| :: ms[m].holder != Some(t)
    ensures Owned(ms, t) == 0
  {
    if ms != [] {
      OwnsNone(ms[1..], t);
    }
  }

  lemma DeadAlone(s: State)
    requires Sound(s) && HasActive(s)
    requires var t := s.active.value; t > SYSTEM && (s.threads[t].kind.Ordinary? || s.threads[t].kind.Worker?) && s.threads[t].phase.Dead?
    requires forall m | 0 <= m < |s.mutexes| :: s.mutexes[m].holder != s.active
    ensures Holders(s, s.active.value) == 1
  {
    hide Count, Kinds, Holding, CallsInOrder, CallsReturnOnce;
    ActiveFacts(s);
    OwnsNone(s.mutexes, s.active.value);
  }

  // A thread of a process, or the startup thread, that can run
  ghost predicate Ready(s: State, t: Tid) {
    t < |s.threads| && s.threads[t].kind.Ordinary? && s.threads[t].phase.Running? && !s.threads[t].masked
  }

  // -------------------------------------------------------------- the threads

  const MALLOC: nat := 1   // malloc_mutex
  const PAGES: nat := 2    // page_allocator_mutex

  // The queues, the waiting calls, malloc_mutex, and the two special threads
  ghost predicate Scene(s: State, threads: nat, active: Tid, queued: seq<Tid>, calls: seq<Tid>,
                        holder: Option<Tid>, masked: bool, phase: Phase) {
    && Queues(s, active, queued, []) && s.waiting == calls && |s.threads| == threads > STARTUP
    && |s.mutexes| == 3 && s.mutexes[MALLOC].holder == holder && s.mutexes[PAGES].holder.None?
    && (forall m | 0 <= m < 3 :: s.mutexes[m].waiting == [])
    && s.threads[SYSTEM].kind.SystemHandler? && s.threads[SYSTEM].masked == masked && s.threads[SYSTEM].phase == phase
    && Idle(s) && Ready(s, STARTUP)
  }

  // The default thread has nothing to do.
  ghost predicate Idle(s: State) {
    DEFAULT < |s.threads| && s.threads[DEFAULT].kind.Default? && s.threads[DEFAULT].phase.Running? && !s.threads[DEFAULT].masked
  }

  lemma Unparked(s: State, t: Tid)
    requires forall m | 0 <= m < |s.mutexes| :: t !in s.mutexes[m].waiting
    ensures At(s, t).parked == 0
  {
    if Parked(s.mutexes, t) > 0 {
      var m := ParkedWhere(s.mutexes, t);
    }
  }

  lemma OwnerAlive(s: State, m: nat)
    requires Sound(s) && m < |s.mutexes| && s.mutexes[m].holder.Some?
    ensures Alive(s, s.mutexes[m].holder.value)
  {
    OwnerFacts(s, m);
  }

  // The active thread locks and unlocks a free mutex.
  lemma Allocates(es0: seq<Event>, s0: State, m: nat) returns (es: seq<Event>, s: State)
    requires Reached(3, es0, s0) && Enabled(s0, Lock(m)) && s0.mutexes[m].holder.None? && m < |s0.mutexes| == 3
    ensures Reached(3, es, s) && s.threads == s0.threads && s == s0.(mutexes := s.mutexes) && |s.mutexes| == 3
    ensures s.mutexes[m].holder.None? && s.mutexes[m].waiting == []
    ensures forall k | 0 <= k < 3 && k != m :: s.mutexes[k] == s0.mutexes[k]
  {
    hide Sound, Calm, At, Holders, After, ProperRun, Checks;
    var t := s0.active.value;
    FreeIsIdle(s0, m);
    NotInside(s0, t, m);
    ChecksExact(s0, Lock(m));
    NoSwitchProper(s0, Lock(m));
    es, s := Go(3, es0, s0, Lock(m));
    ChecksExact(s, Unlock(m));
    NoSwitchProper(s, Unlock(m));
    UnlockKeepsActive(s, m);
    var s1 := s;
    es, s := Go(3, es, s, Unlock(m));
    assert s0.threads[t].entered + {m} - {m} == s0.threads[t].entered;
    assert s.threads == s0.threads;
  }

  lemma NotInside(s: State, t: Tid, m: nat)
    requires Orderly(s) && s.active == Some(t) && t < |s.threads| && m < |s.mutexes| && s.mutexes[m].holder.None?
    ensures m !in s.threads[t].entered
  {
    hide Calm, Sound;
    FreeIsIdle(s, m);
    ActiveFacts(s);
    OrderlyLock(s, t, m);
  }

  // The number of the system call that thread c has made
  ghost predicate Number(s: State, c: Tid, number: int) {
    && c < |s.threads| && s.threads[c].stash.Some? && s.threads[c].stash.value < |s.frames|
    && s.frames[s.threads[c].stash.value].r0 == number
  }

  lemma TickKeepsNumber(s: State, c: Tid, number: int)
    requires Sound(s) && Enabled(s, Tick) && Checks(s, Tick) && Number(s, c, number)
    requires s.active != Some(c) && Step(s, Tick).active != Some(c)
    ensures Number(Step(s, Tick), c, number)
  {
    hide Sound, Preempt, Holders;
    PreemptSound(s);
    SchedulingKeeps(s, c);
  }

  lemma SleepKeepsNumber(s: State, c: Tid, number: int)
    requires Sound(s) && Enabled(s, Poll) && Checks(s, Poll) && s.waiting == [] && Number(s, c, number)
    requires s.active != Some(c) && Step(s, Poll).active != Some(c)
    ensures Number(Step(s, Poll), c, number)
  {
    hide Sound, Preempt, Holders;
    SleepSound(s);
    SameActive(s, 0);
    SchedulingKeeps(s, c);
    SchedulingKeeps(Sleep(s), c);
  }

  // The SystemHandler thread finds no call waiting.
  lemma PollSleeps(s: State)
    requires Sound(s) && Enabled(s, Poll) && s.waiting == [] && s.dangling == [] && |s.queued| > 0
    ensures Checks(s, Poll)
    ensures var t, s' := s.active.value, Step(s, Poll);
            && Queues(s', s.queued[0], s.queued[1..], []) && s'.waiting == [] && s'.mutexes == s.mutexes
            && SameRecords(s.(threads := s.threads[t := s.threads[t].(masked := true)]), s')
            && Sound(s') && HasActive(s')
  {
    hide Sound, At, Holders, Preempt, ParkChecks;
    ChecksExact(s, Poll);
    StepSound(s, Poll);
    SleepSound(s);
  }

  // A worker in its call refers to its caller's stash.
  lemma HeldContext(s: State, w: Tid)
    requires Sound(s) && s.active == Some(w) && w < |s.threads| && s.threads[w].kind.Worker? && s.threads[w].phase.Call?
    ensures s.threads[w].hold.Some? && s.threads[w].hold.value < |s.threads|
    ensures s.threads[s.threads[w].hold.value].stash == Some(s.threads[w].context)
  {
    RunFacts(s);
  }

  lemma CallNumber(s: State)
    requires Sound(s) && Enabled(s, Svc) && Checks(s, Svc) && Step(s, Svc).active != s.active
    requires s.active != Some(SYSTEM)
    ensures Number(Step(s, Svc), s.active.value, s.r0)
  {
    hide Sound, At, Holders;
    BlockCallSound(s);
    SystemFacts(BlockCall(s));
  }

  // A process makes a call while the SystemHandler thread sleeps.
  lemma Call(es0: seq<Event>, s0: State, threads: nat, queued: seq<Tid>, holder: Option<Tid>) returns (es: seq<Event>, s: State)
    requires Reached(3, es0, s0) && s0.active.Some? && Enabled(s0, Svc) && s0.active != Some(STARTUP)
    requires Scene(s0, threads, s0.active.value, queued, [], holder, true, Running) && 0 < |queued| < CAPACITY
    requires queued[0] != s0.active.value && queued[0] != DEFAULT
    ensures Reached(3, es, s) && Scene(s, threads, queued[0], queued[1..] + [SYSTEM], [s0.active.value], holder, false, Running)
    ensures forall u | 0 <= u < threads && u != SYSTEM && u != s0.active.value ::
              s.threads[u].(stash := None) == s0.threads[u].(stash := None)
    ensures s.threads[s0.active.value].kind.Ordinary? && s.threads[s0.active.value].phase.InCall?
    ensures s.mutexes == s0.mutexes && Number(s, s0.active.value, s0.r0)
  {
    hide Sound, Calm, At, Holders, After, ProperRun, Checks, Step;
    Unparked(s0, SYSTEM);
    SvcWakes(s0);
    CallNumber(s0);
    es, s := Go(3, es0, s0, Svc);
    assert (queued + [SYSTEM])[1..] == queued[1..] + [SYSTEM];
  }

  // The active thread is preempted, and the next one runs.
  lemma Rotate(es0: seq<Event>, s0: State) returns (es: seq<Event>, s: State)
    requires Reached(3, es0, s0) && s0.dangling == [] && 0 < |s0.queued| < CAPACITY && s0.queued[0] != DEFAULT
    requires var th := s0.threads[s0.active.value]; !th.masked && !th.kind.Default? && !th.kind.Fallback?
    ensures Reached(3, es, s) && SameRecords(s0, s) && s.waiting == s0.waiting && s.mutexes == s0.mutexes
    ensures Queues(s, s0.queued[0], s0.queued[1..] + [s0.active.value], [])
    ensures Enabled(s0, Tick) && Checks(s0, Tick) && s == Step(s0, Tick)
  {
    hide Sound, Calm, At, Holders, After, ProperRun, Checks, Step, SameRecords;
    TickRotates(s0);
    TickIsProper(s0);
    es, s := Go(3, es0, s0, Tick);
    assert (s0.queued + [s0.active.value])[1..] == s0.queued[1..] + [s0.active.value];
  }

  const POSIX_SPAWN: int := 12

  // The first process has called, and the SystemHandler thread runs.
  lemma SceneOne() returns (es: seq<Event>, s: State)
    ensures Reached(3, es, s) && Scene(s, 6, SYSTEM, [STARTUP], [5], None, false, Running)
    ensures s.threads[5].kind.Ordinary? && s.threads[5].phase.InCall? && Number(s, 5, POSIX_SPAWN)
  {
    hide Sound, Calm, At, Holders, After, ProperRun, Checks;
    es, s := Start(3);
    ChecksExact(s, Spawn);
    es, s := Go(3, es, s, Spawn);
    es, s := Rotate(es, s);
    es, s := Allocates(es, s, MALLOC);
    ChecksExact(s, Compute(POSIX_SPAWN));
    es, s := Go(3, es, s, Compute(POSIX_SPAWN));
    assert Scene(s, 6, 5, [STARTUP], [], None, true, Running);
    es, s := Call(es, s, 6, [STARTUP], None);
    TickRotates(s);
    TickKeepsNumber(s, 5, POSIX_SPAWN);
    es, s := Rotate(es, s);
  }

  // A worker for that call is queued.
  lemma SceneTwo() returns (es: seq<Event>, s: State)
    ensures Reached(3, es, s) && Scene(s, 7, SYSTEM, [STARTUP, 6], [], None, false, Running)
    ensures s.threads[6].kind.Worker? && s.threads[6].phase.Call? && !s.threads[6].masked && s.threads[6].hold == Some(5)
    ensures s.threads[5].kind.Ordinary? && s.threads[5].phase.InCall? && Number(s, 5, POSIX_SPAWN)
    ensures s.threads[5].stash == Some(s.threads[6].context)
  {
    hide Sound, Calm, At, Holders, After, ProperRun, Checks;
    es, s := SceneOne();
    ChecksExact(s, Poll);
    es, s := Go(3, es, s, Poll);
    ChecksExact(s, TakeCall);
    es, s := Go(3, es, s, TakeCall);
    assert s.threads[SYSTEM].hold == Some(5);
    es, s := Allocates(es, s, MALLOC);
    ChecksExact(s, BuildWorker);
    es, s := Go(3, es, s, BuildWorker);
    ChecksExact(s, AddWorker);
    es, s := Go(3, es, s, AddWorker);
  }

  // The SystemHandler thread has gone to sleep, and the worker runs.
  lemma SceneThree() returns (es: seq<Event>, s: State)
    ensures Reached(3, es, s) && Scene(s, 7, 6, [STARTUP], [], None, true, Running)
    ensures s.threads[6].kind.Worker? && s.threads[6].phase.Call? && !s.threads[6].masked && s.threads[6].hold == Some(5)
    ensures s.threads[5].kind.Ordinary? && s.threads[5].phase.InCall? && Number(s, 5, POSIX_SPAWN)
  {
    hide Sound, Calm, At, Holders, After, ProperRun, Checks, Step;
    es, s := SceneTwo();
    PollSleeps(s);
    SleepKeepsNumber(s, 5, POSIX_SPAWN);
    es, s := Go(3, es, s, Poll);
    assert s.active == Some(STARTUP) && s.queued == [6];
    TickRotates(s);
    TickKeepsNumber(s, 5, POSIX_SPAWN);
    es, s := Rotate(es, s);
  }

  // The worker has created the second process, and the startup thread runs.
  lemma SceneFour() returns (es: seq<Event>, s: State)
    ensures Reached(3, es, s) && Scene(s, 8, STARTUP, [7, 6], [], None, true, Running)
    ensures s.threads[6].kind.Worker? && s.threads[6].phase.Call? && !s.threads[6].masked && s.threads[6].hold == Some(5)
    ensures s.threads[5].kind.Ordinary? && s.threads[5].phase.InCall? && Number(s, 5, POSIX_SPAWN) && Ready(s, 7)
  {
    hide Sound, Calm, At, Holders, After, ProperRun, Checks;
    es, s := SceneThree();
    HeldContext(s, 6);
    ChecksExact(s, Spawn);
    es, s := Go(3, es, s, Spawn);
    hide Step;
    assert s.active == Some(6) && s.queued == [STARTUP, 7];
    TickRotates(s);
    TickKeepsNumber(s, 5, POSIX_SPAWN);
    es, s := Rotate(es, s);
  }

  // The startup thread has released memory, the second process has allocated some, and the worker runs.
  lemma SceneFive() returns (es: seq<Event>, s: State)
    ensures Reached(3, es, s) && Scene(s, 8, 6, [STARTUP, 7], [], None, true, Running)
    ensures s.threads[6].kind.Worker? && s.threads[6].phase.Call? && !s.threads[6].masked && s.threads[6].hold == Some(5)
    ensures s.threads[5].kind.Ordinary? && s.threads[5].phase.InCall? && Number(s, 5, POSIX_SPAWN) && Ready(s, 7)
    ensures s.threads[5].stash == Some(s.threads[6].context)
  {
    hide Sound, Calm, At, Holders, After, ProperRun, Checks, Step;
    es, s := SceneFour();
    es, s := Allocates(es, s, MALLOC);
    TickRotates(s);
    TickKeepsNumber(s, 5, POSIX_SPAWN);
    es, s := Rotate(es, s);
    assert s.active == Some(7) && s.queued == [6, STARTUP];
    es, s := Allocates(es, s, MALLOC);
    TickRotates(s);
    TickKeepsNumber(s, 5, POSIX_SPAWN);
    es, s := Rotate(es, s);
    HeldContext(s, 6);
  }

  // ------------------------------------------------------------ the first run

  // The worker has given the first process its result; the startup thread takes the mutex.
  lemma Returned() returns (es: seq<Event>, s: State)
    ensures Reached(3, es, s) && Scene(s, 8, 6, [STARTUP, 7, 5], [], None, true, Running)
    ensures s.threads[6].kind.Worker? && s.threads[6].phase.Finished? && !s.threads[6].masked && Ready(s, 5) && Ready(s, 7)
  {
    hide Sound, Calm, At, Holders, After, ProperRun, Checks;
    es, s := SceneFive();
    ChecksExact(s, RunCall(0));
    es, s := Go(3, es, s, RunCall(0));
    ChecksExact(s, UnmaskCaller);
    es, s := Go(3, es, s, UnmaskCaller);
    ChecksExact(s, RequeueCaller);
    es, s := Go(3, es, s, RequeueCaller);
  }

  lemma Taken() returns (es: seq<Event>, s: State)
    ensures Reached(3, es, s) && Scene(s, 8, STARTUP, [7, 5, 6], [], Some(STARTUP), true, Running)
    ensures s.threads[6].kind.Worker? && s.threads[6].phase.Finished? && !s.threads[6].masked && Ready(s, 5) && Ready(s, 7) && MALLOC in s.threads[STARTUP].entered
  {
    hide Sound, Calm, At, Holders, After, ProperRun, Checks;
    es, s := Returned();
    es, s := Rotate(es, s);
    assert s.active == Some(STARTUP) && s.queued == [7, 5, 6];
    ChecksExact(s, Lock(MALLOC));
    es, s := Go(3, es, s, Lock(MALLOC));
  }

  // The second process has called.
  lemma CalledAgain() returns (es: seq<Event>, s: State)
    ensures Reached(3, es, s) && Scene(s, 8, 5, [6, STARTUP, SYSTEM], [7], Some(STARTUP), false, Running)
    ensures s.threads[6].kind.Worker? && !s.threads[6].masked && Ready(s, 5) && MALLOC in s.threads[STARTUP].entered
  {
    hide Sound, Calm, At, Holders, After, ProperRun, Checks, Step;
    es, s := Taken();
    es, s := Rotate(es, s);
    assert Scene(s, 8, 7, [5, 6, STARTUP], [], Some(STARTUP), true, Running);
    es, s := Call(es, s, 8, [5, 6, STARTUP], Some(STARTUP));
  }

  // The SystemHandler thread runs again.
  lemma HandlerRuns() returns (es: seq<Event>, s: State)
    ensures Reached(3, es, s) && Scene(s, 8, SYSTEM, [5, 6, STARTUP], [7], Some(STARTUP), false, Running)
    ensures s.threads[6].kind.Worker? && !s.threads[6].masked && Ready(s, 5) && MALLOC in s.threads[STARTUP].entered
  {
    hide Sound, Calm, At, Holders, After, ProperRun, Checks, Step;
    es, s := CalledAgain();
    es, s := Rotate(es, s);
    assert s.active == Some(6) && s.queued == [STARTUP, SYSTEM, 5];
    es, s := Rotate(es, s);
    assert s.active == Some(STARTUP) && s.queued == [SYSTEM, 5, 6];
    es, s := Rotate(es, s);
  }

  // It has taken the call, and waits for memory to build the worker from.
  lemma HandlerParks() returns (es: seq<Event>, s: State)
    ensures Reached(3, es, s) && Queues(s, 5, [6, STARTUP], []) && s.waiting == [] && |s.threads| == 8
    ensures |s.mutexes| == 3 && s.mutexes[MALLOC].holder == Some(STARTUP) && s.mutexes[MALLOC].waiting == [SYSTEM]
    ensures s.threads[SYSTEM].masked && MALLOC in s.threads[SYSTEM].entered
    ensures s.threads[6].kind.Worker? && !s.threads[6].masked && Ready(s, 5)
    ensures Ready(s, STARTUP) && MALLOC in s.threads[STARTUP].entered
  {
    hide Sound, Calm, At, Holders, After, ProperRun, Checks;
    es, s := HandlerRuns();
    ChecksExact(s, Poll);
    es, s := Go(3, es, s, Poll);
    ChecksExact(s, TakeCall);
    es, s := Go(3, es, s, TakeCall);
    hide Step;
    LockParks(s, MALLOC);
    es, s := Go(3, es, s, Lock(MALLOC));
  }

  /**
   The SystemHandler thread waits for malloc_mutex, which the startup thread holds; the call
   of another process wakes it; both are past lock.
   */
  lemma ExclusionCanFail() returns (s: State, es: seq<Event>)
    ensures After(Boot(3), es) == Some(s) && ProperRun(Boot(3), es) && Orderly(s) && Exclusive(s)
    ensures Enabled(s, Svc) && Checks(s, Svc) && Waits(s, SYSTEM)
    ensures var s' := Step(s, Svc);
            && !Exclusive(s') && Past(s', STARTUP, MALLOC) && Past(s', SYSTEM, MALLOC)
  {
    hide Sound, Calm, At, Holders, After, ProperRun, Checks, Step;
    es, s := HandlerParks();
    OrderlyExcludes(s);
    SvcWakes(s);
    OwnerAlive(Step(s, Svc), MALLOC);
    KindsAre(s);
    assert WaitsFor(s, SYSTEM, MALLOC);
    assert Past(Step(s, Svc), SYSTEM, MALLOC) by { SystemFacts(Step(s, Svc)); }
  }

  // ----------------------------------------------------------- the second run

  // The queues and the holders of the two mutexes, while the two processes and the default thread are there
  ghost predicate Stage(s: State, active: Tid, queued: seq<Tid>, dangling: seq<Tid>, malloc: Option<Tid>, pages: Option<Tid>) {
    && Queues(s, active, queued, dangling) && |s.threads| == 8 && |s.mutexes| == 3
    && s.mutexes[MALLOC].holder == malloc && s.mutexes[PAGES].holder == pages
    && s.mutexes[PAGES].waiting == []
    && s.threads[DEFAULT].kind.Default? && Ready(s, 5) && Ready(s, 7)
  }

  // The worker has died while the startup thread is releasing memory.
  lemma WorkerDies() returns (es: seq<Event>, s: State)
    ensures Reached(3, es, s) && Stage(s, 6, [STARTUP, 7, 5], [], Some(STARTUP), None) && s.mutexes[MALLOC].waiting == []
    ensures s.threads[6].kind.Worker? && s.threads[6].phase.Dead? && s.threads[6].masked && Idle(s)
    ensures Ready(s, STARTUP) && MALLOC in s.threads[STARTUP].entered
  {
    hide Sound, Calm, At, Holders, After, ProperRun, Checks;
    es, s := Taken();
    es, s := Rotate(es, s);
    assert s.active == Some(7) && s.queued == [5, 6, STARTUP];
    es, s := Rotate(es, s);
    assert s.active == Some(5) && s.queued == [6, STARTUP, 7];
    es, s := Rotate(es, s);
    assert s.active == Some(6) && s.queued == [STARTUP, 7, 5];
    ChecksExact(s, Die);
    es, s := Go(3, es, s, Die);
  }

  // The scheduler gives a dead thread to the default thread, which destroys it.
  lemma Buried(es0: seq<Event>, s0: State) returns (es: seq<Event>, s: State)
    requires Reached(3, es0, s0) && s0.dangling == [] && Idle(s0)
    requires var t := s0.active.value; t > SYSTEM && (s0.threads[t].kind.Ordinary? || s0.threads[t].kind.Worker?)
                                       && s0.threads[t].masked && s0.threads[t].phase.Dead?
    requires forall m | 0 <= m < |s0.mutexes| :: s0.mutexes[m].holder != s0.active
    ensures Reached(3, es, s) && Queues(s, DEFAULT, s0.queued, [s0.active.value])
    ensures SameRecords(s0, s) && s.waiting == s0.waiting && s.mutexes == s0.mutexes
  {
    hide Sound, Calm, At, After, ProperRun, Checks, Step, SameRecords;
    DeadAlone(s0);
    TickBuries(s0);
    assert Buries(s0, Tick);
    es, s := Go(3, es0, s0, Tick);
  }

  lemma Destroyed(es0: seq<Event>, s0: State, t: Tid) returns (es: seq<Event>, s: State)
    requires Reached(3, es0, s0) && Queues(s0, DEFAULT, s0.queued, [t]) && Idle(s0) && DEFAULT != t < |s0.threads|
    ensures Reached(3, es, s) && Queues(s, DEFAULT, s0.queued, []) && Idle(s) && |s.threads| == |s0.threads|
    ensures s.waiting == s0.waiting && s.mutexes == s0.mutexes
    ensures forall u | 0 <= u < |s.threads| && u != t && u != DEFAULT :: s.threads[u] == s0.threads[u]
    ensures s.threads[DEFAULT].entered == s0.threads[DEFAULT].entered
  {
    hide Sound, Calm, At, Holders, After, ProperRun, Checks;
    ChecksExact(s0, TakeDangling);
    es, s := Go(3, es0, s0, TakeDangling);
    assert s.threads[DEFAULT].hold == Some(t);
    ChecksExact(s, CheckLog);
    es, s := Go(3, es, s, CheckLog);
    ChecksExact(s, DropThread);
    es, s := Go(3, es, s, DropThread);
  }

  // The default thread has destroyed the worker, and waits to release its memory.
  lemma DefaultParks() returns (es: seq<Event>, s: State)
    ensures Reached(3, es, s) && Stage(s, STARTUP, [7, 5], [], Some(STARTUP), None) && s.mutexes[MALLOC].waiting == [DEFAULT]
    ensures s.threads[DEFAULT].masked && s.threads[DEFAULT].phase.Running? && MALLOC in s.threads[DEFAULT].entered
    ensures Ready(s, STARTUP) && MALLOC in s.threads[STARTUP].entered
  {
    hide Sound, Calm, At, Holders, After, ProperRun, Checks, Step;
    es, s := WorkerDies();
    NoneHeldBy(s, 6);
    es, s := Buried(es, s);
    es, s := Destroyed(es, s, 6);
    es, s := Allocates(es, s, PAGES);
    LockParks(s, MALLOC);
    es, s := Go(3, es, s, Lock(MALLOC));
  }

  lemma NoneHeldBy(s: State, t: Tid)
    requires Sound(s) && |s.mutexes| == 3 && s.mutexes[MALLOC].holder != Some(t) && s.mutexes[PAGES].holder != Some(t)
    ensures forall m | 0 <= m < |s.mutexes| :: s.mutexes[m].holder != Some(t)
  {
    LogIsFree(s);
  }

  // The second process is allocating a page, and the startup thread runs.
  lemma PageHeld() returns (es: seq<Event>, s: State)
    ensures Reached(3, es, s) && Stage(s, STARTUP, [7, 5], [], Some(STARTUP), Some(7)) && s.mutexes[MALLOC].waiting == [DEFAULT]
    ensures s.threads[DEFAULT].masked && s.threads[DEFAULT].phase.Running? && MALLOC in s.threads[DEFAULT].entered
    ensures Ready(s, STARTUP) && MALLOC in s.threads[STARTUP].entered && PAGES in s.threads[7].entered
  {
    hide Sound, Calm, At, Holders, After, ProperRun, Checks;
    es, s := DefaultParks();
    es, s := Rotate(es, s);
    assert s.active == Some(7) && s.queued == [5, STARTUP];
    ChecksExact(s, Lock(PAGES));
    NoSwitchProper(s, Lock(PAGES));
    es, s := Go(3, es, s, Lock(PAGES));
    hide Step;
    es, s := Rotate(es, s);
    assert s.active == Some(5) && s.queued == [STARTUP, 7];
    es, s := Rotate(es, s);
    assert s.active == Some(STARTUP) && s.queued == [7, 5];
  }

  // Unlock wakes the default thread.
  lemma UnlockWakes(s: State, m: nat)
    requires Orderly(s) && HasActive(s) && Enabled(s, Unlock(m)) && s.mutexes[m].waiting == [DEFAULT] && |s.queued| < CAPACITY
    requires s.active != Some(DEFAULT) && s.threads[DEFAULT].masked
    ensures Checks(s, Unlock(m))
    ensures var t, s' := s.active.value, Step(s, Unlock(m));
            && Queues(s', t, s.queued + [DEFAULT], s.dangling) && s'.waiting == s.waiting
            && |s'.mutexes| == |s.mutexes| && s'.mutexes[m].holder == Some(DEFAULT) && s'.mutexes[m].waiting == []
            && (forall k | 0 <= k < |s.mutexes| && k != m :: s'.mutexes[k] == s.mutexes[k])
            && s'.threads == s.threads[t := s.threads[t].(entered := s.threads[t].entered - {m})]
                                      [DEFAULT := s.threads[DEFAULT].(masked := false)]
  {
    hide Sound, Calm, At, Holders;
    ChecksExact(s, Unlock(m));
    UnlockerHolds(s, m);
    UnlockShape(s, m);
    UnlockKeepsActive(s, m);
    KindsAre(s);
  }

  // The startup thread has handed malloc_mutex to the default thread.
  lemma HandedOver() returns (es: seq<Event>, s: State)
    ensures Reached(3, es, s) && Stage(s, STARTUP, [7, 5, DEFAULT], [], Some(DEFAULT), Some(7)) && s.mutexes[MALLOC].waiting == []
    ensures Idle(s) && MALLOC in s.threads[DEFAULT].entered && PAGES in s.threads[7].entered && Ready(s, STARTUP)
  {
    hide Sound, Calm, At, Holders, After, ProperRun, Checks, Step;
    es, s := PageHeld();
    UnlockWakes(s, MALLOC);
    NoSwitchProper(s, Unlock(MALLOC));
    es, s := Go(3, es, s, Unlock(MALLOC));
  }

  // It has died, and the default thread runs although it is in the run queue.
  lemma StaleEntry() returns (es: seq<Event>, s: State)
    ensures Reached(3, es, s) && Stage(s, DEFAULT, [7, 5, DEFAULT], [STARTUP], Some(DEFAULT), Some(7)) && s.mutexes[MALLOC].waiting == []
    ensures Idle(s) && MALLOC in s.threads[DEFAULT].entered && PAGES in s.threads[7].entered
  {
    hide Sound, Calm, At, Holders, After, ProperRun, Checks;
    es, s := HandedOver();
    ChecksExact(s, Die);
    es, s := Go(3, es, s, Die);
    hide Step;
    NoneHeldBy(s, STARTUP);
    es, s := Buried(es, s);
  }

  // It has released the memory of the worker, and waits to release the pages of the startup thread.
  lemma StaleParks() returns (es: seq<Event>, s: State)
    ensures Reached(3, es, s) && Queues(s, 5, [DEFAULT, 7], []) && |s.threads| == 8 && |s.mutexes| == 3
    ensures s.mutexes[PAGES].holder == Some(7) && s.mutexes[PAGES].waiting == [DEFAULT]
    ensures Ready(s, 5) && Ready(s, 7) && PAGES in s.threads[7].entered && PAGES in s.threads[DEFAULT].entered
  {
    hide Sound, Calm, At, Holders, After, ProperRun, Checks;
    es, s := StaleEntry();
    ChecksExact(s, Unlock(MALLOC));
    NoSwitchProper(s, Unlock(MALLOC));
    UnlockKeepsActive(s, MALLOC);
    es, s := Go(3, es, s, Unlock(MALLOC));
    hide Step;
    es, s := Destroyed(es, s, STARTUP);
    LockParks(s, PAGES);
    es, s := Go(3, es, s, Lock(PAGES));
    assert s.active == Some(7) && s.queued == [5, DEFAULT];
    es, s := Rotate(es, s);
  }

  /**
   The default thread waits for page_allocator_mutex, which the second process holds.  An
   unlock has left it in the run queue, from which the scheduler takes it; both are past lock.
   */
  lemma DefaultCanFail() returns (s: State, es: seq<Event>)
    ensures After(Boot(3), es) == Some(s) && ProperRun(Boot(3), es) && Orderly(s) && Exclusive(s)
    ensures Enabled(s, Tick) && Checks(s, Tick) && TakesDefault(s, Tick) && DefaultWaits(s, Tick)
    ensures var s' := Step(s, Tick);
            && !Exclusive(s') && Past(s', 7, PAGES) && Past(s', DEFAULT, PAGES)
  {
    hide Sound, Calm, At, Holders, After, ProperRun, Checks, Step;
    es, s := StaleParks();
    OrderlyExcludes(s);
    TickRotates(s);
    OwnerAlive(Step(s, Tick), PAGES);
    KindsAre(s);
    assert WaitsFor(s, DEFAULT, PAGES);
    assert Past(Step(s, Tick), DEFAULT, PAGES) by { SpecialFacts(Step(s, Tick)); }
  }
}
