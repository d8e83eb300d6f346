/**
 Which system calls return.  The number of a call is what the caller had in r0; the worker
 looks at it after it has done the call, in the caller's own context.
 */
module KernelCalls {
  import opened Wrappers
  import opened KernelState
  import opened KernelInvariant
  import opened KernelSteps
  import opened KernelScheduling
  import opened KernelPrograms
  import opened KernelRuns
  import opened KernelLocking
  import opened KernelTheorems
  import opened KernelReturns

  ghost predicate Serves(s: State, w: Tid, c: Tid) {
    w < |s.threads| && s.threads[w].kind.Worker? && s.threads[w].hold == Some(c)
  }

  /** Thread c has made call `number`, and no worker has done it. */
  ghost predicate Asked(s: State, c: Tid, number: int) {
    Rests(s, c, number) && s.threads[c].phase.InCall? && NotDone(s, c)
  }

  ghost predicate NotDone(s: State, c: Tid) {
    forall w: Tid {:trigger Serves(s, w, c)} | Serves(s, w, c) :: s.threads[w].phase.Call?
  }

  /** Worker w has done the call of thread c, which is to return with `result`. */
  ghost predicate Answered(s: State, w: Tid, c: Tid, result: int) {
    && Serves(s, w, c) && (s.threads[w].phase.Unmask? || s.threads[w].phase.Requeue?) && s.threads[w].result == result
    && Alive(s, c) && s.threads[c].kind.Ordinary? && s.threads[c].phase.InCall?
  }

  /** Thread c has exited, or its worker is about to let it go. */
  ghost predicate Gone(s: State, c: Tid) {
    && Alive(s, c) && s.threads[c].kind.Ordinary?
    && (s.threads[c].phase.Exited? || (s.threads[c].phase.InCall? && exists w: Tid :: Leaves(s, w, c)))
  }

  ghost predicate Leaves(s: State, w: Tid, c: Tid) {
    Serves(s, w, c) && s.threads[w].phase.ExitCheck?
  }

  // ------------------------------------------------------------------ framing

  // A step of the worker's own program
  ghost predicate OfWorker(e: Event) {
    e.RunCall? || e.UnmaskCaller? || e.RequeueCaller? || e.LeaveExited? || e.Die?
  }

  // The scheduler is entered.
  ghost predicate Handles(s: State, e: Event)
    requires Enabled(s, e)
  {
    e.Tick? || e.Svc? || (e.Lock? && s.mutexes[e.mutex].holder.Some?) || (e.Poll? && |s.waiting| == 0)
  }

  ghost predicate SameWork(a: Thread, b: Thread) {
    b.kind == a.kind && b.phase == a.phase && b.hold == a.hold && b.result == a.result
  }

  ghost predicate Workers(s: State, s': State) {
    && |s'.threads| == |s.threads|
    && forall u {:trigger s'.threads[u]} | 0 <= u < |s.threads| ::
         s'.threads[u].kind == s.threads[u].kind && (s.threads[u].kind.Worker? ==> SameWork(s.threads[u], s'.threads[u]))
  }

  lemma SchedulingWorks(s: State)
    ensures CanDispatch(s) ==> Workers(s, Dispatch(s))
    ensures HasActive(s) ==> Workers(s, Preempt(s)) && Workers(s, Sleep(s))
    ensures SYSTEM < |s.threads| ==> Workers(s, Wakeup(s, SYSTEM))
  {
  }

  lemma ParkingWorks(s: State)
    requires HasActive(s)
    ensures !s.threads[s.active.value].kind.Worker? ==> Workers(s, BlockCall(s))
    ensures forall m | 0 <= m < |s.mutexes| :: Workers(s, LockHeld(s, m))
  {
  }

  lemma HandlersWork(s: State, e: Event)
    requires Sound(s) && Enabled(s, e) && Checks(s, e)
    requires Handles(s, e)
    ensures Workers(s, Step(s, e))
  {
    hide Sound, Preempt, BlockCall, Dispatch, Wakeup, LockHeld, Sleep, Holders, CanDispatch, ParkChecks;
    SchedulingWorks(s);
    ParkingWorks(s);
    match e
    case Tick => SchedulingWorks(Preempt(s));
    case Svc =>
      BlockCallSound(s);
      SystemFacts(BlockCall(s));
      SchedulingWorks(BlockCall(s));
      SchedulingWorks(Wakeup(BlockCall(s), SYSTEM));
    case Lock(m) =>
      SchedulingWorks(LockHeld(s, m));
      SchedulingWorks(Preempt(LockHeld(s, m)));
    case Poll =>
      SchedulingWorks(Sleep(s));
      SchedulingWorks(Preempt(Sleep(s)));
  }

  lemma UnlockWorks(s: State, m: nat)
    requires Sound(s) && Enabled(s, Unlock(m)) && Checks(s, Unlock(m))
    ensures Workers(s, Step(s, Unlock(m)))
  {
    hide Sound, At, Holders;
    UnlockChecks(s, m);
  }

  // What a worker does is its own affair.
  lemma WorkKept(s: State, e: Event, w: Tid)
    requires Sound(s) && Enabled(s, e) && Checks(s, e)
    requires w < |s.threads| && s.threads[w].kind.Worker? && (s.active == Some(w) ==> !OfWorker(e))
    ensures w < |Step(s, e).threads| && SameWork(s.threads[w], Step(s, e).threads[w])
  {
    hide Sound, At, Holders, Preempt, BlockCall, Dispatch, LockHeld, Sleep, CanDispatch, ParkChecks;
    if Handles(s, e) {
      HandlersWork(s, e);
    } else if e.Unlock? {
      UnlockWorks(s, e.mutex);
    } else {
      ProgramWork(s, e, w);
    }
  }

  lemma ProgramWork(s: State, e: Event, w: Tid)
    requires Sound(s) && Enabled(s, e) && Checks(s, e) && !Handles(s, e) && !e.Unlock?
    requires w < |s.threads| && s.threads[w].kind.Worker? && (s.active == Some(w) ==> !OfWorker(e))
    ensures w < |Step(s, e).threads| && SameWork(s.threads[w], Step(s, e).threads[w])
  {
    hide At, Holders, Count, Placed, Holding, Counted, CallsInOrder, CallsReturnOnce, Kinds;
    ActiveFacts(s);
  }

  // A worker that serves c after a step did so before, or is new.
  lemma ServedBefore(s: State, e: Event, w: Tid, c: Tid)
    requires Sound(s) && Enabled(s, e) && Checks(s, e) && Serves(Step(s, e), w, c)
    ensures Serves(s, w, c) || (w >= |s.threads| && Step(s, e).threads[w].phase.Call?)
  {
    hide Sound, At, Holders, Preempt, BlockCall, Dispatch, LockHeld, Sleep, CanDispatch, ParkChecks;
    if Handles(s, e) {
      HandlersWork(s, e);
    } else if e.Unlock? {
      UnlockWorks(s, e.mutex);
    } else {
      ProgramServed(s, e, w, c);
    }
  }

  lemma ProgramServed(s: State, e: Event, w: Tid, c: Tid)
    requires Sound(s) && Enabled(s, e) && Checks(s, e) && !Handles(s, e) && !e.Unlock? && Serves(Step(s, e), w, c)
    ensures Serves(s, w, c) || (w >= |s.threads| && Step(s, e).threads[w].phase.Call?)
  {
    hide At, Holders, Count, Placed, Holding, Counted, CallsInOrder, CallsReturnOnce, Kinds;
    ActiveFacts(s);
  }

  // ------------------------------------------------------------- before the call

  // A thread in a call is not active.
  lemma InCallWaits(s: State, c: Tid)
    requires Sound(s) && Alive(s, c) && s.threads[c].kind.Ordinary? && (s.threads[c].phase.InCall? || s.threads[c].phase.Exited?)
    ensures s.active != Some(c) && c !in s.queued && At(s, c).held <= 1
    ensures s.threads[c].phase.InCall? ==> At(s, c).waiting + At(s, c).held == 1
  {
    hide Count, Kinds, Holding, CallsInOrder, CallsReturnOnce;
    PlacedAt(s, c);
    CountIn(s.queued, c);
  }

  lemma {:induction false} HeldWhere(ts: seq<Thread>, t: Tid) returns (h: Tid)
    requires Held(ts, t) > 0
    ensures h < |ts| && ts[h].hold == Some(t)
  {
    if ts[0].hold == Some(t) {
      h := 0;
    } else {
      h := HeldWhere(ts[1..], t);
      h := h + 1;
    }
  }

  /** Until its call has been done, the caller is masked, and neither active nor queued. */
  lemma AskedWaits(s: State, c: Tid, number: int)
    requires Sound(s) && Asked(s, c, number)
    ensures s.threads[c].masked && s.active != Some(c) && c !in s.queued
  {
    hide Count, Kinds, CallsInOrder, CallsReturnOnce, ThreadOk;
    InCallWaits(s, c);
    if At(s, c).waiting == 1 {
      WaitingMasked(s, c);
    } else {
      var h := HeldWhere(s.threads, c);
      HolderMasks(s, h, c);
    }
  }

  lemma WaitingMasked(s: State, c: Tid)
    requires Sound(s) && Alive(s, c) && s.threads[c].kind.Ordinary? && s.threads[c].phase.InCall? && At(s, c).waiting == 1
    ensures s.threads[c].masked
  {
    PlacedAt(s, c);
  }

  lemma HolderMasks(s: State, h: Tid, c: Tid)
    requires Sound(s) && h < |s.threads| && s.threads[h].hold == Some(c) && c < |s.threads|
    requires s.threads[c].kind.Ordinary? && s.threads[c].phase.InCall? && NotDone(s, c)
    ensures s.threads[c].masked
  {
    assert HoldFits(s, h);
    assert s.threads[h].kind.Worker? ==> Serves(s, h, c);
  }

  /** The call a thread makes is the number it has in r0. */
  lemma SvcAsks(s: State)
    requires Sound(s) && Enabled(s, Svc) && Checks(s, Svc)
    ensures Asked(Step(s, Svc), s.active.value, s.r0)
  {
    hide Sound, At, Holders, Count, Dispatch, CanDispatch, ScheduleChecks, BlockCall, Wakeup, RestsOrRuns;
    var c := s.active.value;
    ActiveFacts(s);
    BlockCallSound(s);
    CallerRests(s);
    SystemFacts(BlockCall(s));
    WakeSystemSound(BlockCall(s));
    InactiveAfterCall(s);
    NextFacts(Wakeup(BlockCall(s), SYSTEM));
    DispatchShows(Wakeup(BlockCall(s), SYSTEM), c, s.r0);
    StepSound(s, Svc);
    AskedAfter(s, c);
  }

  lemma CallerRests(s: State)
    requires Sound(s) && Enabled(s, Svc) && SYSTEM < |BlockCall(s).threads|
    ensures var s1 := Wakeup(BlockCall(s), SYSTEM);
            Rests(s1, s.active.value, s.r0) && s1.threads[s.active.value].phase.InCall?
  {
    hide At, Holders, Count, Placed, Holding, Counted, CallsInOrder, CallsReturnOnce;
    ActiveFacts(s);
  }

  lemma AskedAfter(s: State, c: Tid)
    requires Sound(s) && Enabled(s, Svc) && Checks(s, Svc) && s.active == Some(c) && Sound(Step(s, Svc))
    requires SYSTEM < |BlockCall(s).threads| && c < |Wakeup(BlockCall(s), SYSTEM).threads|
    requires Wakeup(BlockCall(s), SYSTEM).threads[c].phase.InCall?
    requires RestsOrRuns(Wakeup(BlockCall(s), SYSTEM), Step(s, Svc), c, s.r0)
    ensures Asked(Step(s, Svc), c, s.r0)
  {
    hide Sound, At, Holders, Checks, Step;
    InCallWaits(Step(s, Svc), c);
    HandlersWork(s, Svc);
    ActiveFacts(s);
    NobodyServes(s, Step(s, Svc), c);
  }

  lemma NobodyServes(s: State, s': State, c: Tid)
    requires Unheld(s, c) && Workers(s, s')
    ensures forall w: Tid :: !Serves(s', w, c)
  {
  }

  /** The number stays where it is until a worker has done the call. */
  lemma AskedStays(s: State, e: Event, c: Tid, number: int)
    requires Sound(s) && Asked(s, c, number) && Enabled(s, e) && Checks(s, e)
    requires !(e.RunCall? && s.threads[s.active.value].hold == Some(c))
    ensures Asked(Step(s, e), c, number)
  {
    hide Sound, Checks, Step, Rests, Sees;
    assert s.threads[s.active.value].kind.Worker? && s.threads[s.active.value].hold == Some(c) ==> Serves(s, s.active.value, c);
    StepRests(s, e, c, number);
    StepSound(s, e);
    InCallWaits(Step(s, e), c);
    assert Rests(Step(s, e), c, number) by { NotSeen(Step(s, e), c, number); }
    forall w: Tid | Serves(Step(s, e), w, c)
      ensures Step(s, e).threads[w].phase.Call?
    {
      ServedBefore(s, e, w, c);
      if Serves(s, w, c) {
        WorkKept(s, e, w);
      }
    }
  }

  lemma NotSeen(s: State, c: Tid, value: int)
    requires s.active != Some(c)
    ensures !Sees(s, c, value)
  {
  }

  // --------------------------------------------------------------- after the call

  /** The worker gives the result to the caller, and goes on by the number: 10 is exit. */
  lemma RunDecides(s: State, result: int, c: Tid, number: int)
    requires Sound(s) && Asked(s, c, number) && Enabled(s, RunCall(result)) && Checks(s, RunCall(result))
    requires s.threads[s.active.value].hold == Some(c)
    ensures number != 10 ==> Answered(Step(s, RunCall(result)), s.active.value, c, result) && !Gone(Step(s, RunCall(result)), c)
    ensures number == 10 ==> Gone(Step(s, RunCall(result)), c)
  {
    hide At, Holders, Count, Placed, Holding, Counted, CallsInOrder, CallsReturnOnce, Kinds;
    RunFacts(s);
    HeldFacts(s);
    ActiveFacts(s);
    var t, s' := s.active.value, Step(s, RunCall(result));
    if number == 10 {
      assert Leaves(s', t, c);
    } else {
      forall w: Tid
        ensures !Leaves(s', w, c)
      {
        assert w != t && Serves(s', w, c) ==> Serves(s, w, c);
      }
    }
  }

  /** A call that is to return is returned by the worker's next two steps. */
  lemma NextSteps(s: State, e: Event, w: Tid, c: Tid, result: int)
    requires Answered(s, w, c, result) && s.active == Some(w) && Enabled(s, e)
    ensures OfWorker(e) || e.Svc? || e.Spawn? ==> e == if s.threads[w].phase.Unmask? then UnmaskCaller else RequeueCaller
  {
  }

  /** Nothing else ends that; the second of them puts the caller back with its result. */
  lemma AnsweredStays(s: State, e: Event, w: Tid, c: Tid, result: int)
    requires Sound(s) && Answered(s, w, c, result) && Enabled(s, e) && Checks(s, e)
    ensures e.RequeueCaller? && s.active == Some(w) ==> WillSee(Step(s, e), c, result) && !Step(s, e).threads[c].masked && c in Step(s, e).queued
    ensures !(e.RequeueCaller? && s.active == Some(w)) ==> Answered(Step(s, e), w, c, result)
    ensures e.UnmaskCaller? && s.active == Some(w) ==> Step(s, e).threads[w].phase.Requeue?
  {
    hide Sound, Checks, Step, Rests, Sees, WillSee;
    if e.RequeueCaller? && s.active == Some(w) {
      RequeueReturns(s);
      CallerIs(s, w, c);
    } else if e.UnmaskCaller? && s.active == Some(w) {
      UnmaskStays(s, w, c, result);
    } else {
      OnlyServer(s, w, c);
      CallerContext(s, c);
      StepRests(s, e, c, s.frames[s.threads[c].stash.value].r0);
      WorkKept(s, e, w);
    }
  }

  lemma CallerIs(s: State, w: Tid, c: Tid)
    requires Sound(s) && Serves(s, w, c) && c < |s.threads| && s.threads[c].phase.InCall?
    ensures s.threads[w].caller == c
  {
    assert HoldFits(s, w);
  }

  lemma UnmaskStays(s: State, w: Tid, c: Tid, result: int)
    requires Sound(s) && Answered(s, w, c, result) && Enabled(s, UnmaskCaller) && Checks(s, UnmaskCaller) && s.active == Some(w)
    ensures Answered(Step(s, UnmaskCaller), w, c, result) && Step(s, UnmaskCaller).threads[w].phase.Requeue?
  {
    hide Sound, At, Holders;
  }

  // A caller has one worker.
  lemma OnlyServer(s: State, w: Tid, c: Tid)
    requires Sound(s) && HasActive(s) && Serves(s, w, c) && Alive(s, c) && s.threads[c].kind.Ordinary? && s.threads[c].phase.InCall?
    ensures s.threads[s.active.value].hold == Some(c) ==> s.active == Some(w)
  {
    hide Count, Kinds, Holding, CallsInOrder, CallsReturnOnce;
    InCallWaits(s, c);
    var h := s.active.value;
    if s.threads[h].hold == Some(c) && h != w {
      HeldTwice(s.threads, if h < w then h else w, if h < w then w else h, c);
    }
  }

  lemma CallerContext(s: State, c: Tid)
    requires Sound(s) && Alive(s, c) && s.threads[c].kind.Ordinary? && (s.threads[c].phase.InCall? || s.threads[c].phase.Exited?)
    ensures s.threads[c].stash.Some? && s.threads[c].stash.value < |s.frames|
    ensures Rests(s, c, s.frames[s.threads[c].stash.value].r0)
  {
    PlacedAt(s, c);
  }

  // ------------------------------------------------------------------------ exit

  /** A thread that has exited is masked, and neither active nor queued. */
  lemma GoneWaits(s: State, c: Tid)
    requires Sound(s) && Gone(s, c)
    ensures s.threads[c].masked && s.active != Some(c) && c !in s.queued
  {
    hide Count, Kinds, CallsInOrder, CallsReturnOnce;
    InCallWaits(s, c);
    PlacedAt(s, c);
    if s.threads[c].phase.InCall? {
      var w: Tid :| Leaves(s, w, c);
      assert HoldFits(s, w);
    }
  }

  /** No step brings it back. */
  lemma GoneStays(s: State, e: Event, c: Tid)
    requires Sound(s) && Gone(s, c) && Enabled(s, e) && Checks(s, e)
    ensures Gone(Step(s, e), c)
  {
    hide Sound, Checks, Step, Rests, Sees;
    CallerContext(s, c);
    var value := s.frames[s.threads[c].stash.value].r0;
    if s.threads[c].phase.Exited? {
      ExitedHolder(s, e, c);
      StepRests(s, e, c, value);
    } else {
      var w: Tid :| Leaves(s, w, c);
      OnlyServer(s, w, c);
      if e.LeaveExited? && s.active == Some(w) {
        LeaveGone(s, c);
      } else {
        StepRests(s, e, c, value);
        WorkKept(s, e, w);
        assert Leaves(Step(s, e), w, c);
      }
    }
  }

  // The worker of a thread that has exited is done with it.
  lemma ExitedHolder(s: State, e: Event, c: Tid)
    requires Sound(s) && Enabled(s, e) && c < |s.threads| && s.threads[c].phase.Exited?
    ensures !EndsCall(s, e, c)
  {
    hide Holders, At;
    if s.threads[s.active.value].hold == Some(c) {
      assert HoldFits(s, s.active.value);
    }
  }

  lemma LeaveGone(s: State, c: Tid)
    requires Sound(s) && Enabled(s, LeaveExited) && Checks(s, LeaveExited) && s.threads[s.active.value].hold == Some(c)
    requires Gone(s, c)
    ensures Gone(Step(s, LeaveExited), c)
  {
    hide Sound, At, Holders;
  }

  // ------------------------------------------------------------------- whole runs

  // The result that a worker computes for thread c in the run
  ghost function Answer(s: State, es: seq<Event>, c: Tid): Option<int>
    decreases |es|
  {
    if es == [] || !Enabled(s, es[0]) then None
    else if es[0].RunCall? && s.threads[s.active.value].hold == Some(c) then Some(es[0].result)
    else if Checks(s, es[0]) then Answer(Step(s, es[0]), es[1..], c)
    else None
  }

  lemma {:induction false} AnsweredArrives(s: State, es: seq<Event>, w: Tid, c: Tid, result: int)
    requires Sound(s) && HasActive(s) && Answered(s, w, c, result) && FirstActiveAtEnd(s, es, c)
    ensures After(s, es).Some? && Sees(After(s, es).value, c, result)
    decreases |es|
  {
    hide Sound, Enabled, Checks, Step, Answered, Sees;
    NotActive(s, w, c, result);
    StepSound(s, es[0]);
    AnsweredStays(s, es[0], w, c, result);
    if es[0].RequeueCaller? && s.active == Some(w) {
      ResultArrives(Step(s, es[0]), es[1..], c, result);
    } else {
      AnsweredArrives(Step(s, es[0]), es[1..], w, c, result);
    }
  }

  lemma NotActive(s: State, w: Tid, c: Tid, result: int)
    requires Sound(s) && Answered(s, w, c, result)
    ensures s.active != Some(c)
  {
    InCallWaits(s, c);
  }

  lemma {:induction false} GoneForever(s: State, es: seq<Event>, c: Tid)
    requires Sound(s) && HasActive(s) && Gone(s, c)
    ensures After(s, es).Some? ==> Sound(After(s, es).value) && Gone(After(s, es).value, c)
    ensures !FirstActiveAtEnd(s, es, c)
    decreases |es|
  {
    hide Sound, Enabled, Checks, Step, Gone, HasActive;
    GoneWaits(s, c);
    if es != [] && Enabled(s, es[0]) && Checks(s, es[0]) {
      StepSound(s, es[0]);
      GoneStays(s, es[0], c);
      GoneForever(Step(s, es[0]), es[1..], c);
    }
  }

  // A worker does the call of thread c.
  ghost predicate Does(s: State, e: Event, c: Tid)
    requires Enabled(s, e)
  {
    e.RunCall? && s.threads[s.active.value].hold == Some(c)
  }

  lemma {:induction false} AskedArrives(s: State, es: seq<Event>, c: Tid, number: int)
    requires Sound(s) && HasActive(s) && Asked(s, c, number) && FirstActiveAtEnd(s, es, c)
    ensures number != 10 && After(s, es).Some? && Answer(s, es, c).Some? && Sees(After(s, es).value, c, Answer(s, es, c).value)
    decreases |es|
  {
    hide Sound, Checks, Step, Asked, Answered, Gone, Sees;
    AskedWaits(s, c, number);
    var e := es[0];
    StepSound(s, e);
    if Does(s, e, c) {
      RunDecides(s, e.result, c, number);
      if number == 10 {
        GoneForever(Step(s, e), es[1..], c);
      } else {
        AnsweredArrives(Step(s, e), es[1..], s.active.value, c, e.result);
      }
    } else {
      AskedStays(s, e, c, number);
      AskedArrives(Step(s, e), es[1..], c, number);
    }
  }

  /**
   When a thread runs again after a system call, the number it had in r0 was not 10, a worker
   has done the call, and what the worker computed is in r0.
   */
  lemma CallReturns(s: State, es: seq<Event>)
    requires Sound(s) && Enabled(s, Svc) && Checks(s, Svc)
    requires FirstActiveAtEnd(Step(s, Svc), es, s.active.value)
    ensures var c, s' := s.active.value, Step(s, Svc);
            && s.r0 != 10
            && Answer(s', es, c).Some? && After(s', es).Some?
            && After(s', es).value.active == Some(c) && After(s', es).value.r0 == Answer(s', es, c).value
  {
    hide Sound, Checks, Step, Asked, FirstActiveAtEnd, Answer, After;
    StepSound(s, Svc);
    SvcAsks(s);
    AskedArrives(Step(s, Svc), es, s.active.value, s.r0);
  }

  /** A thread that calls with 10 in r0 is masked after every run, and neither active nor queued. */
  lemma ExitIsForever(s: State, es: seq<Event>)
    requires Sound(s) && Enabled(s, Svc) && Checks(s, Svc) && s.r0 == 10
    ensures After(Step(s, Svc), es).Some? ==>
      var c := s.active.value;
      var s' := After(Step(s, Svc), es).value;
      Alive(s', c) && s'.threads[c].masked && s'.active != Some(c) && c !in s'.queued
  {
    hide Sound, Checks, Step, Asked, After;
    StepSound(s, Svc);
    SvcAsks(s);
    LastCall(Step(s, Svc), es, s.active.value);
  }

  lemma AskedAlive(s: State, c: Tid, number: int)
    requires Asked(s, c, number)
    ensures Alive(s, c)
  {
  }

  lemma GoneAlive(s: State, c: Tid)
    requires Gone(s, c)
    ensures Alive(s, c)
  {
  }

  lemma {:induction false} LastCall(s: State, es: seq<Event>, c: Tid)
    requires Sound(s) && HasActive(s) && Asked(s, c, 10)
    ensures After(s, es).Some? ==>
      var s' := After(s, es).value;
      Alive(s', c) && s'.threads[c].masked && s'.active != Some(c) && c !in s'.queued
    decreases |es|
  {
    hide Sound, Checks, Step, Asked, Gone;
    AskedWaits(s, c, 10);
    assert Alive(s, c) by { AskedAlive(s, c, 10); }
    if es != [] && Enabled(s, es[0]) && Checks(s, es[0]) {
      StepSound(s, es[0]);
      if Does(s, es[0], c) {
        RunDecides(s, es[0].result, c, 10);
        GoneForever(Step(s, es[0]), es[1..], c);
        if After(s, es).Some? {
          GoneWaits(After(s, es).value, c);
          assert Alive(After(s, es).value, c) by { GoneAlive(After(s, es).value, c); }
        }
      } else {
        AskedStays(s, es[0], c, 10);
        LastCall(Step(s, es[0]), es[1..], c);
      }
    }
  }

  // Where a call that is to return has got to, as long as the caller has not run again
  ghost predicate OnTheWay(s: State, c: Tid, number: int) {
    || Asked(s, c, number)
    || (exists w: Tid, result: int :: Answered(s, w, c, result))
    || (exists result: int :: WillSee(s, c, result))
  }

  lemma OnTheWayStays(s: State, e: Event, c: Tid, number: int)
    requires Sound(s) && Enabled(s, e) && Checks(s, e) && number != 10 && OnTheWay(s, c, number)
    ensures OnTheWay(Step(s, e), c, number) || Step(s, e).active == Some(c)
  {
    hide Sound, Checks, Step, Asked, Answered, WillSee;
    if Asked(s, c, number) {
      if Does(s, e, c) {
        RunDecides(s, e.result, c, number);
        assert Answered(Step(s, e), s.active.value, c, e.result);
      } else {
        AskedStays(s, e, c, number);
      }
    } else if exists w: Tid, result: int :: Answered(s, w, c, result) {
      var w: Tid, result: int :| Answered(s, w, c, result);
      AnsweredStays(s, e, w, c, result);
    } else {
      var result: int :| WillSee(s, c, result);
      StepKeeps(s, e, c, result);
    }
  }

  // Thread c is active in no state of the run.
  ghost predicate Resting(s: State, es: seq<Event>, c: Tid)
    decreases |es|
  {
    s.active != Some(c) && (es == [] || (Enabled(s, es[0]) && Checks(s, es[0]) ==> Resting(Step(s, es[0]), es[1..], c)))
  }

  /** A call that is not exit is never lost: over every run it is still to be done, done and to return, or has returned. */
  lemma {:induction false} StaysOnTheWay(s: State, es: seq<Event>, c: Tid, number: int)
    requires Sound(s) && HasActive(s) && number != 10 && OnTheWay(s, c, number)
    requires After(s, es).Some? && Resting(s, es, c)
    ensures OnTheWay(After(s, es).value, c, number)
    decreases |es|
  {
    hide Sound, Enabled, Checks, Step, OnTheWay, HasActive;
    if es != [] {
      StepSound(s, es[0]);
      OnTheWayStays(s, es[0], c, number);
      StaysOnTheWay(Step(s, es[0]), es[1..], c, number);
    }
  }
}
