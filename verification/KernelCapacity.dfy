/**
 With at most 16 threads that can run, entries of the default thread in the run queue
 counted too, no queue of threads overflows.
 */
module KernelCapacity {
  import opened Wrappers
  import opened KernelState
  import opened KernelInvariant
  import opened KernelSteps
  import opened KernelScheduling
  import opened KernelPrograms
  import opened KernelRuns
  import opened KernelLocking
  import opened KernelTheorems

  // Neither dead nor exited, and not one of the two threads that run when no other can
  ghost predicate Runnable(s: State, t: Tid) {
    && Alive(s, t)
    && !s.threads[t].kind.Default? && !s.threads[t].kind.Fallback?
    && !s.threads[t].phase.Dead? && !s.threads[t].phase.Exited?
  }

  ghost function Population(s: State): set<Tid> {
    set t: Tid | t < |s.threads| && Runnable(s, t)
  }

  // A mutex can also be waited for by the default thread, and the run queue can hold entries of it.
  ghost predicate Room(s: State, e: Event)
    requires Enabled(s, e)
  {
    if e.Lock? then |Population(s) + {DEFAULT}| <= 16
    else |Population(s)| + Count(s.queued, DEFAULT) + (if WakesDefault(s, e) then 1 else 0) <= 16
  }

  ghost predicate WakesDefault(s: State, e: Event)
    requires Enabled(s, e)
  {
    e.Unlock? && |s.mutexes[e.mutex].waiting| > 0 && s.mutexes[e.mutex].waiting[0] == DEFAULT
  }

  // Distinct threads from a set are no more than the set.
  lemma {:induction false} NoMore(q: seq<Tid>, members: set<Tid>)
    requires forall t | t in q :: t in members && Count(q, t) <= 1
    ensures |q| <= |members|
  {
    if q != [] {
      var x, rest := q[0], q[1..];
      forall t
        ensures Count(q, t) == (if t == x then 1 else 0) + Count(rest, t)
      {
        CountTail(q, t);
      }
      CountIn(q, x);
      CountIn(rest, x);
      forall t | t in rest
        ensures t in members - {x} && Count(rest, t) <= 1
      {
        assert t in q;
        CountIn(rest, t);
      }
      NoMore(rest, members - {x});
    }
  }

  // If they lack one of its members, they are fewer.
  lemma Fewer(q: seq<Tid>, members: set<Tid>, other: Tid)
    requires forall t | t in q :: t in members && Count(q, t) <= 1
    requires other in members && other !in q
    ensures |q| < |members|
  {
    NoMore(q, members - {other});
  }

  // The run queue holds runnable threads, each once, and the default thread.
  lemma QueueMembers(s: State, t: Tid)
    requires Orderly(s) && t in s.queued && t != DEFAULT
    ensures t in Population(s) && Count(s.queued, t) <= 1
  {
    hide Count, CallsInOrder, CallsReturnOnce, Locks;
    CountIn(s.queued, t);
    assert Holders(s, t) > 0;
    assert ThreadOk(t, s.threads[t], At(s, t), Holders(s, t), s.frames) && KindFits(s.threads[t], t);
  }

  // A queue without one thread
  function Without(q: seq<Tid>, x: Tid): seq<Tid> {
    if q == [] then [] else if q[0] == x then Without(q[1..], x) else [q[0]] + Without(q[1..], x)
  }

  lemma {:induction false} WithoutCounts(q: seq<Tid>, x: Tid, t: Tid)
    ensures |q| == |Without(q, x)| + Count(q, x)
    ensures Count(Without(q, x), t) == if t == x then 0 else Count(q, t)
  {
    if q != [] {
      CountTail(q, x);
      CountTail(q, t);
      WithoutCounts(q[1..], x, t);
    }
  }

  lemma QueueLength(s: State)
    requires Orderly(s)
    ensures |s.queued| <= |Population(s)| + Count(s.queued, DEFAULT)
    ensures forall t | t in Population(s) && t !in s.queued :: |s.queued| < |Population(s)| + Count(s.queued, DEFAULT)
  {
    hide Orderly, Population, Count;
    var q := Without(s.queued, DEFAULT);
    WithoutCounts(s.queued, DEFAULT, DEFAULT);
    forall t: Tid
      ensures t in q ==> t in Population(s) && t in s.queued && Count(q, t) <= 1
    {
      WithoutCounts(s.queued, DEFAULT, t);
      CountIn(q, t);
      CountIn(s.queued, t);
      if t in q {
        QueueMembers(s, t);
      }
    }
    NoMore(q, Population(s));
    forall t | t in Population(s) && t !in s.queued
      ensures |s.queued| < |Population(s)| + Count(s.queued, DEFAULT)
    {
      Fewer(q, Population(s), t);
    }
  }

  lemma QueueHasRoom(s: State, other: Tid)
    requires Orderly(s) && other in Population(s) && other !in s.queued
    requires |Population(s)| + Count(s.queued, DEFAULT) <= CAPACITY
    ensures |s.queued| < CAPACITY
  {
    hide Orderly, Population, Count;
    QueueLength(s);
  }

  lemma WaitingMembers(s: State, t: Tid)
    requires Sound(s) && t in s.waiting
    ensures t in Population(s) && Count(s.waiting, t) <= 1 && s.active != Some(t)
  {
    hide Count, CallsInOrder, CallsReturnOnce;
    CountIn(s.waiting, t);
    assert Holders(s, t) > 0;
    assert ThreadOk(t, s.threads[t], At(s, t), Holders(s, t), s.frames) && KindFits(s.threads[t], t);
  }

  lemma ParkedMembers(s: State, m: nat, t: Tid)
    requires Orderly(s) && m < |s.mutexes| && t in s.mutexes[m].waiting
    ensures t in Population(s) + {DEFAULT} && Count(s.mutexes[m].waiting, t) <= 1
  {
    hide Count, CallsInOrder, CallsReturnOnce, Locks, Parked;
    CountIn(s.mutexes[m].waiting, t);
    ParkedAt(s.mutexes, m, t);
    CountedParts(s, t);
    assert Holders(s, t) > 0;
    assert ThreadOk(t, s.threads[t], At(s, t), Holders(s, t), s.frames) && KindFits(s.threads[t], t);
  }

  lemma ActiveMember(s: State)
    requires Orderly(s) && HasActive(s) && !s.threads[s.active.value].phase.Dead?
    ensures var t := s.active.value;
            && (s.threads[t].kind.Default? || s.threads[t].kind.Fallback? || t in Population(s))
            && (s.threads[t].kind.Default? <==> t == DEFAULT)
            && (t != DEFAULT ==> t !in s.queued) && t !in s.waiting
            && (s.threads[t].kind.Ordinary? || s.threads[t].kind.Worker? ==> !s.threads[t].masked)
  {
    hide Count, CallsInOrder, CallsReturnOnce, Locks, Parked;
    ActiveFacts(s);
    CountIn(s.queued, s.active.value);
    CountIn(s.waiting, s.active.value);
  }

  // The head of a mutex queue is not in the run queue.
  lemma HeadMember(s: State, m: nat)
    requires Orderly(s) && m < |s.mutexes| && |s.mutexes[m].waiting| > 0
    ensures var n := s.mutexes[m].waiting[0];
            && s.active != Some(n)
            && (n != DEFAULT ==> n !in s.queued && n in Population(s))
  {
    hide Count, Population;
    ParkedDoesNotRun(s, s.mutexes[m].waiting[0], m);
    ParkedMembers(s, m, s.mutexes[m].waiting[0]);
  }

  lemma SystemMember(s: State)
    requires Orderly(s)
    ensures SYSTEM < |s.threads| && SYSTEM in Population(s) && (s.threads[SYSTEM].masked ==> SYSTEM !in s.queued)
  {
    hide Count, CallsInOrder, CallsReturnOnce, Locks, Parked;
    SpecialFacts(s);
    CountIn(s.queued, SYSTEM);
  }

  /** No enqueue overflows, and unlock does not wake the thread that calls it. */
  lemma NeverFull(s: State, e: Event)
    requires Orderly(s) && Enabled(s, e) && Room(s, e)
    ensures !Full(s, e) && !WakesItself(s, e)
  {
    hide Orderly, Population, Count, At;
    match e
    case Tick =>
      if !s.threads[s.active.value].masked {
        MaskedIfDead(s);
        ActiveMember(s);
        if s.active.value != DEFAULT && s.active.value in Population(s) {
          QueueHasRoom(s, s.active.value);
        }
      }
    case Svc =>
      ActiveMember(s);
      SystemMember(s);
      WaitingHasRoom(s, s.active.value);
      if s.threads[SYSTEM].masked {
        QueueHasRoom(s, SYSTEM);
      }
    case Lock(m) =>
      ActiveMember(s);
      ParkedHasRoom(s, m);
    case Unlock(m) =>
      if |s.mutexes[m].waiting| > 0 {
        HeadMember(s, m);
        if s.mutexes[m].waiting[0] == DEFAULT {
          QueueLength(s);
        } else {
          QueueHasRoom(s, s.mutexes[m].waiting[0]);
        }
      }
    case Spawn => ActiveMember(s); QueueHasRoom(s, s.active.value);
    case AddWorker => ActiveMember(s); QueueHasRoom(s, s.active.value);
    case RequeueCaller => ActiveMember(s); QueueHasRoom(s, s.active.value);
    case _ =>
  }

  lemma MaskedIfDead(s: State)
    requires Orderly(s) && HasActive(s)
    ensures s.threads[s.active.value].phase.Dead? ==> s.threads[s.active.value].masked
  {
    ActiveFacts(s);
  }

  lemma WaitingHasRoom(s: State, other: Tid)
    requires Orderly(s) && other in Population(s) && other !in s.waiting
    requires |Population(s)| <= CAPACITY
    ensures |s.waiting| < CAPACITY
  {
    hide Sound, Calm, Population, Count;
    forall t | t in s.waiting
      ensures t in Population(s) && Count(s.waiting, t) <= 1
    {
      WaitingMembers(s, t);
    }
    Fewer(s.waiting, Population(s), other);
  }

  lemma ParkedHasRoom(s: State, m: nat)
    requires Orderly(s) && Enabled(s, Lock(m)) && Room(s, Lock(m))
    ensures |s.mutexes[m].waiting| < CAPACITY
  {
    hide Orderly, Population, Count;
    var t := s.active.value;
    ActiveMember(s);
    if t in s.mutexes[m].waiting {
      ParkedDoesNotRun(s, t, m);
    }
    forall u | u in s.mutexes[m].waiting
      ensures u in Population(s) + {DEFAULT} && Count(s.mutexes[m].waiting, u) <= 1
    {
      ParkedMembers(s, m, u);
    }
    Fewer(s.mutexes[m].waiting, Population(s) + {DEFAULT}, t);
  }

  // A run of proper steps with room
  ghost predicate RoomyRun(s: State, es: seq<Event>)
    decreases |es|
  {
    es == [] || (
      && Enabled(s, es[0]) && Proper(s, es[0]) && Room(s, es[0])
      && (Checks(s, es[0]) ==> RoomyRun(Step(s, es[0]), es[1..])))
  }

  lemma {:induction false} RoomyRunFrom(s: State, es: seq<Event>)
    requires Orderly(s) && RoomyRun(s, es)
    ensures After(s, es).Some?
    decreases |es|
  {
    hide Orderly, Enabled, Checks, Step, Proper, Room;
    if es != [] {
      PassesChecks(s, es[0]);
      OrderlyExactly(s, es[0]);
      RoomyRunFrom(Step(s, es[0]), es[1..]);
    }
  }

  /** With room, every VERIFY and ASSERT on the way of a step holds. */
  lemma PassesChecks(s: State, e: Event)
    requires Orderly(s) && Enabled(s, e) && Room(s, e)
    ensures Checks(s, e)
  {
    hide Calm, Sound;
    NeverFull(s, e);
    ChecksExact(s, e);
  }

  /** In a run of proper steps with room no VERIFY and no ASSERT fails, from the first step of the scheduler on. */
  lemma NoCheckFails(mutexes: nat, es: seq<Event>)
    ensures RoomyRun(Boot(mutexes), es) ==> After(Boot(mutexes), es).Some?
  {
    hide Orderly, RoomyRun, After;
    BootOrderly(mutexes);
    if RoomyRun(Boot(mutexes), es) {
      RoomyRunFrom(Boot(mutexes), es);
    }
  }
}
