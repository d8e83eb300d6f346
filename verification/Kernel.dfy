/**
 The kernel as the source writes it: handlers and programs that update the queues, the
 flags and the reference counts in place.

 `refs` holds m_refcount of each thread and is changed by Ref and Unref alone, where the
 source copies and destroys RefPtr objects.  `locals` is the bag of RefPtr objects that
 are alive in the callers' frames at that moment.  Every method is proved against the
 step of KernelState.dfy that it carries out.
 */
module Kernel {
  import opened Wrappers
  import opened KernelState
  import opened KernelInvariant
  import opened KernelSteps
  import opened KernelScheduling
  import opened KernelPrograms
  import opened KernelRuns

  class Kernel {
    var threads: seq<Thread>
    var refs: seq<nat>
    var active: Option<Tid>
    var queued: seq<Tid>
    var dangling: seq<Tid>
    var waiting: seq<Tid>
    var mutexes: seq<Mutex>
    var frames: seq<Frame>
    var r0: int
    ghost var called: seq<Tid>
    ghost var taken: seq<Tid>
    ghost var workers: seq<Tid>
    ghost var returned: seq<Return>

    ghost function View(): State
      reads this
    {
      State(threads, active, queued, dangling, waiting, mutexes, frames, r0, called, taken, workers, returned)
    }

    // The counts are right when the RefPtr objects in `locals` are counted too.
    ghost predicate Counts(locals: multiset<Tid>)
      reads this
    {
      && |refs| == |threads|
      && forall t | 0 <= t < |refs| :: refs[t] == Holders(View(), t) + locals[t]
    }

    // Scheduler::loop has created its threads and enters the dummy thread.
    constructor (mutexes: nat)
      ensures Valid() && View() == Boot(mutexes)
    {
      threads := [
        Thread(Ordinary, true, true, None, Dead, None, 0, DUMMY, 0, {}),
        Thread(Default, true, false, Some(0), Running, None, 0, DEFAULT, 0, {}),
        Thread(Fallback, true, false, Some(1), Running, None, 0, FALLBACK, 0, {}),
        Thread(SystemHandler, true, true, Some(2), Running, None, 0, SYSTEM, 0, {}),
        Thread(Ordinary, true, false, Some(3), Running, None, 0, STARTUP, 0, {}) ];
      refs := [2, 1, 1, 1, 1];   // the dummy thread is active, and a local of the loop
      active, queued, dangling, waiting := Some(DUMMY), [STARTUP], [], [];
      this.mutexes := seq(mutexes, _ => Mutex(None, [], [], []));
      frames := [Frame(DEFAULT, 0), Frame(FALLBACK, 0), Frame(SYSTEM, 0), Frame(STARTUP, 0)];
      r0 := 0;
      called, taken, workers, returned := [], [], [], [];
      new;
      hide Holders, At, Sound;
      BootSound(mutexes);
      forall u | 0 <= u < |refs|
        ensures refs[u] == Holders(View(), u)
      {
        BootCounts(mutexes, u);
      }
    }

    // -------------------------------------------------------------- RefPtr

    method Ref(t: Tid, ghost locals: multiset<Tid>)
      requires Counts(locals) && t < |refs|
      requires refs[t] >= 1   // VERIFY in the source
      modifies this`refs
      ensures Counts(locals + multiset{t})
    {
      refs := refs[t := refs[t] + 1];
    }

    // The destructor runs when the last reference goes.
    method Unref(t: Tid, ghost locals: multiset<Tid>)
      requires Counts(locals) && t in locals && t < |refs|
      modifies this`refs, this`threads
      ensures Counts(locals - multiset{t})
      ensures View() == if Holders(old(View()), t) + locals[t] == 1
                        then SetThread(old(View()), t, old(threads[t]).(alive := false)) else old(View())
    {
      hide Holders, At;
      ghost var s := View();
      assert refs[t] == Holders(s, t) + locals[t];
      assert refs[t] > 0;   // VERIFY in the source
      refs := refs[t := refs[t] - 1];
      if refs[t] == 0 {
        threads := threads[t := threads[t].(alive := false)];
      }
      assert threads == s.threads[t := threads[t]];
      forall u | 0 <= u < |refs|
        ensures refs[u] == Holders(View(), u) + (locals - multiset{t})[u]
      {
        Rewritten(s, t, threads[t], u);
        assert locals[u] == (locals - multiset{t})[u] + (if u == t then 1 else 0);
      }
    }

    // ----------------------------------------------------------- Scheduler

    // The parameter is a RefPtr of its own: the queue gets a copy, then it is destroyed.
    method AddThread(t: Tid, ghost locals: multiset<Tid>)
      requires Counts(locals) && t in locals && t < |threads|
      requires |queued| < CAPACITY
      modifies this`refs, this`threads, this`queued
      ensures View() == old(View()).(queued := old(queued) + [t])
      ensures Counts(locals - multiset{t})
    {
      hide Holders, At;
      ghost var s := View();
      assert refs[t] >= 1;
      Ref(t, locals);
      queued := queued + [t];
      forall u | 0 <= u < |refs|
        ensures refs[u] == Holders(View(), u) + locals[u]
      {
        Enqueued(s, t, u);
      }
      Enqueued(s, t, t);
      Unref(t, locals);
    }

    method SetMasked(t: Tid, masked: bool, ghost locals: multiset<Tid>)
      requires Counts(locals) && t < |threads|
      modifies this`threads
      ensures View() == SetThread(old(View()), t, old(threads[t]).(masked := masked))
      ensures Counts(locals)
    {
      hide Holders, At;
      ghost var s := View();
      threads := threads[t := threads[t].(masked := masked)];
      forall u | 0 <= u < |refs|
        ensures refs[u] == Holders(View(), u) + locals[u]
      {
        Rewritten(s, t, threads[t], u);
      }
    }

    // Thread::wakeup
    method WakeUp(t: Tid, ghost locals: multiset<Tid>)
      requires Counts(locals) && WakeupChecks(View(), t) && refs[t] >= 1
      modifies this`threads, this`refs, this`queued
      ensures View() == Wakeup(old(View()), t) && Counts(locals)
    {
      hide Holders, At;
      assert active != Some(t);   // VERIFY in the source
      if threads[t].masked {
        SetMasked(t, false, locals);
        Ref(t, locals);
        AddThread(t, locals + multiset{t});
        assert locals + multiset{t} - multiset{t} == locals;
      }
    }

    // The caller still refers to the thread, so it is not destroyed here.
    method ClearActiveThread(ghost locals: multiset<Tid>)
      requires Counts(locals) && HasActive(View())
      requires refs[active.value] >= 2
      modifies this`active, this`refs, this`threads
      ensures View() == old(View()).(active := None) && Counts(locals)
    {
      hide Holders, At;
      ghost var s := View();
      var t := active.value;
      active := None;
      forall u | 0 <= u < |refs|
        ensures refs[u] == Holders(View(), u) + (locals + multiset{t})[u]
      {
        Activated(s, None, u);
      }
      Unref(t, locals + multiset{t});
      assert locals + multiset{t} - multiset{t} == locals;
    }

    // Returns a copy of one of the two permanent references.
    method ChooseDefaultThread(ghost locals: multiset<Tid>) returns (t: Tid)
      requires Counts(locals) && DEFAULT < |threads| && FALLBACK < |threads|
      requires !threads[DEFAULT].masked || !threads[FALLBACK].masked
      modifies this`refs
      ensures t == ChooseDefault(View()) && Counts(locals + multiset{t})
    {
      if threads[DEFAULT].masked {
        assert !threads[FALLBACK].masked;   // VERIFY in the source
        t := FALLBACK;
      } else {
        t := DEFAULT;
      }
      Ref(t, locals);
    }

    // The first half of schedule
    method PutAway()
      requires Counts(multiset{}) && HasActive(View()) && ParkChecks(View())
      modifies this`active, this`refs, this`threads, this`queued, this`dangling
      ensures View() == ParkActive(old(View())) && active.None? && Counts(multiset{})
    {
      hide Holders, At;
      ghost var s := View();
      var t := active.value;
      assert refs[t] == Holders(s, t);
      if threads[t].masked {
        if refs[t] >= 2 {
          ClearActiveThread(multiset{});
        } else {
          assert |dangling| < CAPACITY;   // ASSERT in enqueue
          dangling := dangling + [t];
          active := None;
        }
      } else if threads[t].kind.Default? || threads[t].kind.Fallback? {   // m_is_default_thread
        assert refs[t] >= 2;   // VERIFY in the source
        ClearActiveThread(multiset{});
      } else {
        assert |queued| < CAPACITY;   // ASSERT in enqueue
        queued := queued + [t];
        active := None;
      }
      forall u | 0 <= u < |refs|
        ensures refs[u] == Holders(View(), u)
      {
        Activated(s, None, u);
        Enqueued(s.(active := None), t, u);
      }
    }

    method Schedule()
      requires Counts(multiset{}) && (active.Some? ==> HasActive(View()) && ParkChecks(View()))
      requires ScheduleChecks(if active.Some? then ParkActive(View()) else View())
      modifies this`active, this`refs, this`threads, this`queued, this`dangling
      ensures View() == Choose(if old(active).Some? then ParkActive(old(View())) else old(View()))
      ensures Counts(multiset{})
    {
      hide Holders, At;
      if active.Some? {
        PutAway();
      }
      assert active.None?;   // VERIFY in the source
      ghost var s := View();
      ghost var locals := multiset{};
      var next: Tid;
      if |dangling| >= 1 || |queued| == 0 {
        next := ChooseDefaultThread(multiset{});
        locals := multiset{} + multiset{next};
      } else {
        next := queued[0];
        queued := queued[1..];
      }
      active := Some(next);
      forall u | 0 <= u < |refs|
        ensures refs[u] == Holders(View(), u)
      {
        if FromQueue(s) {
          Dequeued(s, u);
          Activated(s.(queued := s.queued[1..]), Some(next), u);
        } else {
          Activated(s, Some(next), u);
        }
      }
    }

    method StashContext(t: Tid, ghost locals: multiset<Tid>)
      requires Counts(locals) && t < |threads|
      requires threads[t].stash.None?   // VERIFY in the source
      modifies this`threads, this`frames
      ensures Counts(locals)
      ensures View() == SetThread(old(View()), t, old(threads[t]).(stash := Some(|old(frames)|))).(frames := old(frames) + [Frame(t, r0)])
    {
      hide Holders, At;
      ghost var s := View();
      threads := threads[t := threads[t].(stash := Some(|frames|))];
      frames := frames + [Frame(t, r0)];
      forall u | 0 <= u < |refs|
        ensures refs[u] == Holders(View(), u) + locals[u]
      {
        Rewritten(s, t, threads[t], u);
        Unrelated(SetThread(s, t, threads[t]), View(), u);
      }
    }

    // unstash_context, and the return from the handler to the thread
    method Resume()
      requires Counts(multiset{}) && HasActive(View())
      requires threads[active.value].stash.Some?   // must in the source
      requires threads[active.value].stash.value < |frames|
      modifies this`threads, this`r0
      ensures View() == Unstash(old(View())) && Counts(multiset{})
    {
      hide Holders, At;
      ghost var s := View();
      var t := active.value;
      r0 := frames[threads[t].stash.value].r0;
      threads := threads[t := threads[t].(stash := None)];
      forall u | 0 <= u < |refs|
        ensures refs[u] == Holders(View(), u)
      {
        Rewritten(s, t, threads[t], u);
        Unrelated(SetThread(s, t, threads[t]), View(), u);
      }
    }

    // scheduler_next: the PendSV handler
    method SchedulerNext()
      requires Counts(multiset{}) && PendChecks(View())
      modifies this
      ensures View() == Dispatch(Preempt(old(View()))) && Counts(multiset{})
    {
      hide Holders, At;
      StashContext(active.value, multiset{});
      Schedule();
      Resume();
    }

    ghost predicate Valid()
      reads this
    {
      Sound(View()) && HasActive(View()) && Counts(multiset{})
    }

    // PendSV, whatever thread is active
    method PendSV()
      requires Valid() && !Full(View(), Tick)
      modifies this
      ensures Valid() && Checks(old(View()), Tick) && View() == Step(old(View()), Tick)
    {
      hide Sound, Holders, At;
      ChecksExact(View(), Tick);
      StepSound(View(), Tick);
      SchedulerNext();
    }

    // -------------------------------------------------------- system calls

    // SystemHandler::notify_worker_thread.  The parameter moves into the queue.
    method NotifyWorkerThread(t: Tid)
      requires Counts(multiset{t}) && t < |threads| && t != SYSTEM && SYSTEM < |threads|
      requires |waiting| < CAPACITY && active.None?
      requires threads[SYSTEM].masked ==> |queued| < CAPACITY
      modifies this`threads, this`refs, this`waiting, this`queued, this`called
      ensures Counts(multiset{})
      ensures var blocked := SetThread(old(View()), t, old(threads[t]).(masked := true, phase := InCall))
                             .(waiting := old(waiting) + [t], called := old(called) + [t]);
              View() == Wakeup(blocked, SYSTEM)
    {
      hide Holders, At;
      ghost var s := View();
      SetMasked(t, true, multiset{t});
      threads := threads[t := threads[t].(phase := InCall)];
      assert |waiting| < CAPACITY;   // ASSERT in enqueue
      waiting, called := waiting + [t], called + [t];
      forall u | 0 <= u < |refs|
        ensures refs[u] == Holders(View(), u) + multiset{}[u]
      {
        Rewritten(s, t, threads[t], u);
        Enqueued(SetThread(s, t, threads[t]), t, u);
        Unrelated(SetThread(s, t, threads[t]).(waiting := waiting), View(), u);
      }
      PermanentCounted(View());
      WakeUp(SYSTEM, multiset{});
    }

    // The SVC handler
    method Syscall()
      requires Valid() && Enabled(View(), Svc) && !Full(View(), Svc)
      modifies this
      ensures Valid() && Checks(old(View()), Svc) && View() == Step(old(View()), Svc)
    {
      hide Sound, Holders, At;
      ghost var s := View();
      SyscallFacts(s);
      ChecksExact(s, Svc);
      StepSound(s, Svc);
      var t := active.value;
      Ref(t, multiset{});
      StashContext(t, multiset{t});
      ClearActiveThread(multiset{t});
      NotifyWorkerThread(t);
      Schedule();
      Resume();
    }

    // ------------------------------------------------------------- mutexes

    // m_holding_thread = *active_thread
    method Acquire(m: nat)
      requires Counts(multiset{}) && HasActive(View()) && m < |mutexes| && mutexes[m].holder.None?
      requires refs[active.value] >= 1
      modifies this`threads, this`refs, this`mutexes
      ensures View() == LockFree(old(View()), m) && Counts(multiset{})
    {
      hide Holders, At, Count;
      ghost var s := View();
      var t, mx := active.value, mutexes[m];
      Ref(t, multiset{});
      threads := threads[t := threads[t].(entered := threads[t].entered + {m})];
      mutexes := mutexes[m := Mutex(Some(t), mx.waiting, mx.asked + [t], mx.granted + [t])];
      forall u | 0 <= u < |refs|
        ensures refs[u] == Holders(View(), u)
      {
        Rewritten(s, t, threads[t], u);
        Remutexed(SetThread(s, t, threads[t]), m, mutexes[m], u);
      }
    }

    // The active thread is masked and waits.
    method Park(m: nat)
      requires Counts(multiset{}) && HasActive(View()) && m < |mutexes| && |mutexes[m].waiting| < CAPACITY
      requires refs[active.value] >= 1
      modifies this`threads, this`refs, this`mutexes
      ensures View() == LockHeld(old(View()), m) && Counts(multiset{})
    {
      hide Holders, At, Count;
      ghost var s := View();
      var t, mx := active.value, mutexes[m];
      Ref(t, multiset{});
      threads := threads[t := threads[t].(masked := true, entered := threads[t].entered + {m})];
      mutexes := mutexes[m := mx.(waiting := mx.waiting + [t], asked := mx.asked + [t])];
      forall u | 0 <= u < |refs|
        ensures refs[u] == Holders(View(), u)
      {
        Rewritten(s, t, threads[t], u);
        Remutexed(SetThread(s, t, threads[t]), m, mutexes[m], u);
        CountAppend(mx.waiting, t, u);
      }
    }

    method Lock(m: nat)
      requires Valid() && Enabled(View(), Event.Lock(m)) && !Full(View(), Event.Lock(m))
      modifies this
      ensures Valid() && Checks(old(View()), Event.Lock(m)) && View() == Step(old(View()), Event.Lock(m))
    {
      hide Sound, Holders, At, Count, LockFree, LockHeld;
      ghost var s := View();
      ActiveCounted(s);
      ChecksExact(s, Event.Lock(m));
      StepSound(s, Event.Lock(m));
      if mutexes[m].holder.None? {
        Acquire(m);
      } else {
        Park(m);
        // trigger: the handler runs as soon as the guard is released.
        SchedulerNext();
      }
    }

    // m_holding_thread.clear()
    method ClearHolder(m: nat)
      requires Counts(multiset{}) && m < |mutexes|
      requires mutexes[m].holder.Some? ==> mutexes[m].holder.value < |threads|
      modifies this`mutexes, this`refs, this`threads
      ensures View() == Release(old(View()), m) && Counts(multiset{})
    {
      hide Holders, At;
      ghost var s := View();
      var holder := mutexes[m].holder;
      if holder.Some? {
        mutexes := mutexes[m := mutexes[m].(holder := None)];
        forall u | 0 <= u < |refs|
          ensures refs[u] == Holders(View(), u) + multiset{holder.value}[u]
        {
          Remutexed(s, m, mutexes[m], u);
        }
        Unref(holder.value, multiset{holder.value});
      } else {
        assert mutexes[m].(holder := None) == mutexes[m];
      }
    }

    // The thread that has waited longest takes over and is woken.
    method GrantNext(m: nat)
      requires Counts(multiset{}) && m < |mutexes| && |mutexes[m].waiting| > 0 && mutexes[m].holder.None?
      requires WakeupChecks(View(), mutexes[m].waiting[0])
      modifies this`mutexes, this`refs, this`threads, this`queued
      ensures View() == Wakeup(Grant(old(View()), m), old(mutexes[m].waiting[0])) && Counts(multiset{})
    {
      hide Holders, At;
      ghost var s := View();
      var mx := mutexes[m];
      var next := mx.waiting[0];
      mutexes := mutexes[m := mx.(waiting := mx.waiting[1..])];
      forall u | 0 <= u < |refs|
        ensures refs[u] == Holders(View(), u) + multiset{next}[u]
      {
        Remutexed(s, m, mutexes[m], u);
        CountTail(mx.waiting, u);
      }
      Ref(next, multiset{next});
      ghost var s1 := View();
      mutexes := mutexes[m := Mutex(Some(next), mx.waiting[1..], mx.asked, mx.granted + [next])];
      forall u | 0 <= u < |refs|
        ensures refs[u] == Holders(View(), u) + multiset{next}[u]
      {
        Remutexed(s1, m, mutexes[m], u);
      }
      HolderCounted(View(), m);
      WakeUp(next, multiset{next});
      HolderCounted(View(), m);
      Unref(next, multiset{next});
    }

    method Unlock(m: nat)
      requires Valid() && Enabled(View(), Event.Unlock(m))
      requires !Full(View(), Event.Unlock(m)) && !WakesItself(View(), Event.Unlock(m))
      modifies this
      ensures Valid() && Checks(old(View()), Event.Unlock(m)) && View() == Step(old(View()), Event.Unlock(m))
    {
      hide Sound, Holders, At;
      ghost var s := View();
      ChecksExact(s, Event.Unlock(m));
      StepSound(s, Event.Unlock(m));
      var t := active.value;
      threads := threads[t := threads[t].(entered := threads[t].entered - {m})];
      assert View() == Leave(s, m);
      LeaveCounts(s, m);
      ClearHolder(m);
      assert View() == Release(Leave(s, m), m);
      if |mutexes[m].waiting| > 0 {
        GrantNext(m);
      }
    }

    // Thread::die, up to the trigger
    method Die()
      requires Valid() && Enabled(View(), Event.Die)
      modifies this
      ensures Valid() && Checks(old(View()), Event.Die) && View() == Step(old(View()), Event.Die)
    {
      hide Sound, Holders, At;
      ghost var s := View();
      ChecksExact(s, Event.Die);
      StepSound(s, Event.Die);
      var t := active.value;
      threads := threads[t := threads[t].(masked := true, phase := Dead)];
      assert threads == Step(s, Event.Die).threads;
      forall u | 0 <= u < |refs|
        ensures refs[u] == Holders(View(), u)
      {
        Rewritten(s, t, threads[t], u);
      }
    }

    // Thread::construct: the new object starts with the one reference that is returned.
    method Construct(th: Thread) returns (n: Tid)
      requires Valid() && th == NewThread(th.kind, th.phase, |frames|, None, th.context, th.caller)
      modifies this`threads, this`refs, this`frames
      ensures n == |old(threads)| && Counts(multiset{n})
      ensures View() == old(View()).(threads := old(threads) + [th], frames := old(frames) + [Frame(n, 0)])
    {
      hide Sound, Holders, At;
      ghost var s := View();
      n := |threads|;
      threads, refs, frames := threads + [th], refs + [1], frames + [Frame(n, 0)];
      NotBorn(s);
      forall u | 0 <= u < |refs|
        ensures refs[u] == Holders(View(), u) + multiset{n}[u]
      {
        Appended(s, th, u);
        Unrelated(s.(threads := threads), View(), u);
      }
    }

    // Process::create: a new thread, and add_thread
    method Spawn()
      requires Valid() && Enabled(View(), Event.Spawn) && !Full(View(), Event.Spawn)
      modifies this
      ensures Valid() && Checks(old(View()), Event.Spawn) && View() == Step(old(View()), Event.Spawn)
    {
      hide Sound, Holders, At;
      ghost var s := View();
      ChecksExact(s, Event.Spawn);
      StepSound(s, Event.Spawn);
      var n := Construct(NewThread(Ordinary, Running, |frames|, None, 0, |threads|));
      AddThread(n, multiset{n});
    }

    // ----------------------------------------------- the SystemHandler thread

    // The top of its loop, with interrupts disabled
    method Poll()
      requires Valid() && Enabled(View(), Event.Poll)
      modifies this
      ensures Valid() && Checks(old(View()), Event.Poll) && View() == Step(old(View()), Event.Poll)
    {
      hide Sound, Holders, At;
      ghost var s := View();
      ChecksExact(s, Event.Poll);
      StepSound(s, Event.Poll);
      var t := active.value;
      if |waiting| == 0 {
        SetMasked(t, true, multiset{});
        SchedulerNext();
        return;
      }
      threads := threads[t := threads[t].(phase := Take)];
      forall u | 0 <= u < |refs|
        ensures refs[u] == Holders(View(), u)
      {
        Rewritten(s, t, threads[t], u);
      }
    }

    // handle_next_waiting_thread: dequeue, build the worker, add it
    method TakeCall()
      requires Valid() && Enabled(View(), Event.TakeCall)
      modifies this
      ensures Valid() && Checks(old(View()), Event.TakeCall) && View() == Step(old(View()), Event.TakeCall)
    {
      hide Sound, Holders, At;
      ghost var s := View();
      ChecksExact(s, Event.TakeCall);
      StepSound(s, Event.TakeCall);
      var t := active.value;
      HoldsNone(s);
      var c := waiting[0];
      waiting, taken := waiting[1..], taken + [c];
      threads := threads[t := threads[t].(phase := Build, hold := Some(c))];
      forall u | 0 <= u < |refs|
        ensures refs[u] == Holders(View(), u)
      {
        Dequeued(s, u);
        Rewritten(s.(waiting := waiting), t, threads[t], u);
        Unrelated(SetThread(s.(waiting := waiting), t, threads[t]), View(), u);
      }
    }

    method BuildWorker()
      requires Valid() && Enabled(View(), Event.BuildWorker)
      modifies this
      ensures Valid() && Checks(old(View()), Event.BuildWorker) && View() == Step(old(View()), Event.BuildWorker)
    {
      hide Sound, Holders, At;
      ghost var s := View();
      ChecksExact(s, Event.BuildWorker);
      StepSound(s, Event.BuildWorker);
      var t := active.value;
      var c := threads[t].hold.value;
      var context := threads[c].stash.value;   // must in the source
      var n := Construct(NewThread(Worker, Call, |frames|, None, context, c));
      ghost var s1 := View();
      // The closure takes the caller over, and the local variable the worker.
      threads := threads[n := threads[n].(hold := Some(c))];
      threads := threads[t := threads[t].(phase := Add, hold := Some(n))];
      workers := workers + [n];
      forall u | 0 <= u < |refs|
        ensures refs[u] == Holders(View(), u)
      {
        Rewritten(s1, n, threads[n], u);
        Rewritten(SetThread(s1, n, threads[n]), t, threads[t], u);
        Unrelated(SetThread(SetThread(s1, n, threads[n]), t, threads[t]), View(), u);
      }
      assert threads == Step(s, Event.BuildWorker).threads;
    }

    method AddWorker()
      requires Valid() && Enabled(View(), Event.AddWorker) && !Full(View(), Event.AddWorker)
      modifies this
      ensures Valid() && Checks(old(View()), Event.AddWorker) && View() == Step(old(View()), Event.AddWorker)
    {
      hide Sound, Holders, At;
      ghost var s := View();
      ChecksExact(s, Event.AddWorker);
      StepSound(s, Event.AddWorker);
      var t := active.value;
      AddSound(s);
      var n := threads[t].hold.value;
      threads := threads[t := threads[t].(phase := Running, hold := None)];
      HeldCounts(s, n);
      AddThread(n, multiset{n});
    }

    // -------------------------------------------------------------- workers

    // The system call has run; its result goes into the caller's context.
    method RunCall(result: int)
      requires Valid() && Enabled(View(), Event.RunCall(result))
      modifies this
      ensures Valid() && Checks(old(View()), Event.RunCall(result)) && View() == Step(old(View()), Event.RunCall(result))
    {
      hide Sound, Holders, At;
      ghost var s := View();
      ChecksExact(s, Event.RunCall(result));
      StepSound(s, Event.RunCall(result));
      var t := active.value;
      var context := threads[t].context;
      var shouldReturn := frames[context].r0 != SC_EXIT;
      frames := frames[context := frames[context].(r0 := result)];
      threads := threads[t := threads[t].(result := result, phase := if shouldReturn then Unmask else ExitCheck)];
      forall u | 0 <= u < |refs|
        ensures refs[u] == Holders(View(), u)
      {
        Rewritten(s, t, threads[t], u);
        Unrelated(SetThread(s, t, threads[t]), View(), u);
      }
    }

    method UnmaskCaller()
      requires Valid() && Enabled(View(), Event.UnmaskCaller)
      modifies this
      ensures Valid() && Checks(old(View()), Event.UnmaskCaller) && View() == Step(old(View()), Event.UnmaskCaller)
    {
      hide Sound, Holders, At;
      ghost var s := View();
      ChecksExact(s, Event.UnmaskCaller);
      StepSound(s, Event.UnmaskCaller);
      var t := active.value;
      SetMasked(threads[t].hold.value, false, multiset{});
      ghost var s1 := View();
      threads := threads[t := threads[t].(phase := Requeue)];
      forall u | 0 <= u < |refs|
        ensures refs[u] == Holders(View(), u)
      {
        Rewritten(s1, t, threads[t], u);
      }
    }

    method RequeueCaller()
      requires Valid() && Enabled(View(), Event.RequeueCaller) && !Full(View(), Event.RequeueCaller)
      modifies this
      ensures Valid() && Checks(old(View()), Event.RequeueCaller) && View() == Step(old(View()), Event.RequeueCaller)
    {
      hide Sound, Holders, At;
      ghost var s := View();
      ChecksExact(s, Event.RequeueCaller);
      StepSound(s, Event.RequeueCaller);
      var t := active.value;
      var c := threads[t].hold.value;
      returned := returned + [Return(c, t, threads[t].result)];
      threads := threads[c := threads[c].(phase := Running)];
      ghost var s1 := View();
      threads := threads[t := threads[t].(phase := Finished, hold := None)];
      forall u | 0 <= u < |refs|
        ensures refs[u] == Holders(View(), u) + multiset{c}[u]
      {
        Rewritten(s, c, threads[c], u);
        Unrelated(SetThread(s, c, threads[c]), s1, u);
        Rewritten(s1, t, threads[t], u);
      }
      AddThread(c, multiset{c});
    }

    method LeaveExited()
      requires Valid() && Enabled(View(), Event.LeaveExited)
      modifies this
      ensures Valid() && Checks(old(View()), Event.LeaveExited) && View() == Step(old(View()), Event.LeaveExited)
    {
      hide Sound, Holders, At;
      ghost var s := View();
      ChecksExact(s, Event.LeaveExited);
      StepSound(s, Event.LeaveExited);
      var t := active.value;
      var c := threads[t].hold.value;
      assert threads[c].masked;   // VERIFY in the source
      threads := threads[c := threads[c].(phase := Exited)];
      threads := threads[t := threads[t].(phase := Finished)];
      forall u | 0 <= u < |refs|
        ensures refs[u] == Holders(View(), u)
      {
        Rewritten(s, c, s.threads[c].(phase := Exited), u);
        Rewritten(SetThread(s, c, s.threads[c].(phase := Exited)), t, threads[t], u);
      }
    }

    // ---------------------------------------------------- the default thread

    method TakeDangling()
      requires Valid() && Enabled(View(), Event.TakeDangling)
      modifies this
      ensures Valid() && Checks(old(View()), Event.TakeDangling) && View() == Step(old(View()), Event.TakeDangling)
    {
      hide Sound, Holders, At;
      ghost var s := View();
      ChecksExact(s, Event.TakeDangling);
      StepSound(s, Event.TakeDangling);
      var t := active.value;
      HoldsNone(s);
      var x := dangling[0];
      dangling := dangling[1..];
      threads := threads[t := threads[t].(phase := Check, hold := Some(x))];
      forall u | 0 <= u < |refs|
        ensures refs[u] == Holders(View(), u)
      {
        Dequeued(s, u);
        Rewritten(s.(dangling := dangling), t, threads[t], u);
      }
    }

    method CheckLog()
      requires Valid() && Enabled(View(), Event.CheckLog)
      modifies this
      ensures Valid() && Checks(old(View()), Event.CheckLog) && View() == Step(old(View()), Event.CheckLog)
    {
      hide Sound, Holders, At;
      ghost var s := View();
      ChecksExact(s, Event.CheckLog);
      StepSound(s, Event.CheckLog);
      var t := active.value;
      threads := threads[t := threads[t].(phase := Drop)];
      forall u | 0 <= u < |refs|
        ensures refs[u] == Holders(View(), u)
      {
        Rewritten(s, t, threads[t], u);
      }
    }

    method DropThread()
      requires Valid() && Enabled(View(), Event.DropThread)
      modifies this
      ensures Valid() && Checks(old(View()), Event.DropThread) && View() == Step(old(View()), Event.DropThread)
    {
      hide Sound, Holders, At;
      ghost var s := View();
      ChecksExact(s, Event.DropThread);
      StepSound(s, Event.DropThread);
      var t := active.value;
      var x := threads[t].hold.value;
      assert refs[x] == 1;   // VERIFY in the source
      threads := threads[t := threads[t].(phase := Running, hold := None)];
      HeldCounts(s, x);
      Unref(x, multiset{x});
      assert threads == Step(s, Event.DropThread).threads;
    }
  }

  lemma Enqueued(s: State, t: Tid, u: Tid)
    ensures Holders(s.(queued := s.queued + [t]), u) == Holders(s, u) + One(Some(t), u)
    ensures Holders(s.(dangling := s.dangling + [t]), u) == Holders(s, u) + One(Some(t), u)
    ensures Holders(s.(waiting := s.waiting + [t]), u) == Holders(s, u) + One(Some(t), u)
  {
    hide Count;
    CountAppend(s.queued, t, u);
    CountAppend(s.dangling, t, u);
    CountAppend(s.waiting, t, u);
  }

  lemma Dequeued(s: State, u: Tid)
    ensures |s.queued| > 0 ==> Holders(s.(queued := s.queued[1..]), u) + One(Some(s.queued[0]), u) == Holders(s, u)
    ensures |s.dangling| > 0 ==> Holders(s.(dangling := s.dangling[1..]), u) + One(Some(s.dangling[0]), u) == Holders(s, u)
    ensures |s.waiting| > 0 ==> Holders(s.(waiting := s.waiting[1..]), u) + One(Some(s.waiting[0]), u) == Holders(s, u)
  {
    hide Count;
    if |s.queued| > 0 {
      CountTail(s.queued, u);
    }
    if |s.dangling| > 0 {
      CountTail(s.dangling, u);
    }
    if |s.waiting| > 0 {
      CountTail(s.waiting, u);
    }
  }

  lemma Activated(s: State, next: Option<Tid>, u: Tid)
    ensures Holders(s.(active := next), u) + One(s.active, u) == Holders(s, u) + One(next, u)
  {
  }

  lemma Rewritten(s: State, t: Tid, th: Thread, u: Tid)
    requires t < |s.threads|
    ensures Holders(SetThread(s, t, th), u) + One(s.threads[t].hold, u) == Holders(s, u) + One(th.hold, u)
  {
    HeldSet(s.threads, t, th, u);
  }

  // Contexts, registers and history are no references.
  lemma Unrelated(s: State, s': State, u: Tid)
    requires s'.threads == s.threads && s'.active == s.active && s'.queued == s.queued
    requires s'.dangling == s.dangling && s'.waiting == s.waiting && s'.mutexes == s.mutexes
    ensures Holders(s', u) == Holders(s, u) && At(s', u) == At(s, u)
  {
  }

  lemma Remutexed(s: State, m: nat, mx: Mutex, u: Tid)
    requires m < |s.mutexes|
    ensures Holders(s.(mutexes := s.mutexes[m := mx]), u) + One(s.mutexes[m].holder, u) + Count(s.mutexes[m].waiting, u)
            == Holders(s, u) + One(mx.holder, u) + Count(mx.waiting, u)
  {
    ParkedSet(s.mutexes, m, mx, u);
    OwnedSet(s.mutexes, m, mx, u);
  }

  lemma ActiveCounted(s: State)
    requires Sound(s) && HasActive(s)
    ensures Holders(s, s.active.value) >= 1
  {
    ActiveFacts(s);
  }

  lemma SyscallFacts(s: State)
    requires Sound(s) && Enabled(s, Svc)
    ensures Holders(s, s.active.value) >= 1 && s.active.value != SYSTEM
  {
    ActiveFacts(s);
    SystemFacts(s);
  }

  lemma LeaveCounts(s: State, m: nat)
    requires Sound(s) && Enabled(s, Event.Unlock(m))
    ensures forall u :: Holders(Leave(s, m), u) == Holders(s, u)
    ensures s.mutexes[m].holder.Some? ==> s.mutexes[m].holder.value < |s.threads|
  {
    hide Holders, At;
    forall u: Tid
      ensures Holders(Leave(s, m), u) == Holders(s, u)
    {
      LeaveSpots(s, m, u);
    }
    if s.mutexes[m].holder.Some? {
      OwnerFacts(s, m);
    }
  }

  lemma HolderCounted(s: State, m: nat)
    requires m < |s.mutexes| && s.mutexes[m].holder.Some?
    ensures Holders(s, s.mutexes[m].holder.value) >= 1
  {
    OwnedAt(s.mutexes, m, s.mutexes[m].holder.value);
  }

  lemma PermanentCounted(s: State)
    ensures Holders(s, SYSTEM) >= 1
  {
  }

  lemma Appended(s: State, th: Thread, u: Tid)
    ensures Holders(s.(threads := s.threads + [th]), u) == Holders(s, u) + One(th.hold, u)
  {
    HeldAppend(s.threads, th, u);
  }

  lemma NotBorn(s: State)
    requires Sound(s)
    ensures Holders(s, |s.threads|) == 0
  {
    Unborn(s, |s.threads|);
  }

  lemma HoldsNone(s: State)
    requires Sound(s) && (Enabled(s, Event.TakeCall) || Enabled(s, Event.TakeDangling))
    ensures s.threads[s.active.value].hold.None?
  {
    ActiveFacts(s);
  }

  // The local RefPtr of the active thread is about to be used as a parameter.
  lemma HeldCounts(s: State, x: Tid)
    requires HasActive(s) && s.threads[s.active.value].hold == Some(x)
    ensures forall th: Thread, u: Tid | th.hold.None? ::
              Holders(SetThread(s, s.active.value, th), u) + One(Some(x), u) == Holders(s, u)
  {
    forall th: Thread, u: Tid | th.hold.None?
      ensures Holders(SetThread(s, s.active.value, th), u) + One(Some(x), u) == Holders(s, u)
    {
      Rewritten(s, s.active.value, th, u);
    }
  }

  lemma BootCounts(mutexes: nat, t: Tid)
    requires t <= STARTUP
    ensures Holders(Boot(mutexes), t) == if t == DUMMY then 2 else 1
  {
    hide Holders, At;
    BootSpots(mutexes, t);
  }
}
