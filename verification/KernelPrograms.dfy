/** The steps of the SystemHandler thread, the workers and the default thread keep the invariant. */
module KernelPrograms {
  import opened Wrappers
  import opened KernelState
  import opened KernelInvariant
  import opened KernelSteps
  import opened KernelScheduling

  // Only the active thread's record changes, and nothing moves.
  lemma RecordSpots(s: State, s': State, u: Tid)
    requires HasActive(s)
    requires var t := s.active.value;
             && t < |s'.threads| && s'.threads == s.threads[t := s'.threads[t]]
             && s'.threads[t].hold == s.threads[t].hold
    requires s'.active == s.active && s'.queued == s.queued && s'.dangling == s.dangling
    requires s'.waiting == s.waiting && s'.mutexes == s.mutexes
    ensures At(s', u) == At(s, u) && Holders(s', u) == Holders(s, u)
  {
    HeldSet(s.threads, s.active.value, s'.threads[s.active.value], u);
  }

  lemma ComputeSound(s: State, value: int)
    requires Sound(s) && HasActive(s)
    ensures Sound(s.(r0 := value))
  {
    hide At, Holders, Count, CallsInOrder, CallsReturnOnce, Kinds, Placed, Holding, HoldFits;
    ActiveFacts(s);
    var t, s' := s.active.value, s.(r0 := value);
    assert s'.threads == s.threads[t := s'.threads[t]];
    forall u: Tid
      ensures At(s', u) == At(s, u) && Holders(s', u) == Holders(s, u)
    {
      RecordSpots(s, s', u);
    }
    RolesKept(s, s', t);
    OwnHold(s, s', t);
    AssembleOne(s, s', t);
  }

  lemma DieSound(s: State)
    requires Sound(s) && Enabled(s, Die)
    ensures Sound(Step(s, Die)) && HasActive(Step(s, Die))
  {
    hide At, Holders, Count, CallsInOrder, CallsReturnOnce, Kinds, Placed, Holding, HoldFits;
    ActiveFacts(s);
    var t, s' := s.active.value, Step(s, Die);
    forall u: Tid
      ensures At(s', u) == At(s, u) && Holders(s', u) == Holders(s, u)
    {
      RecordSpots(s, s', u);
    }
    KindsKept(s, s', t);
    OrderKept(s, s', t);
    ReturnsKept(s, s', t);
    DieHold(s);
    AssembleOne(s, s', t);
  }

  lemma DieHold(s: State)
    requires Sound(s) && Enabled(s, Die)
    ensures HoldFine(Step(s, Die), s.active.value)
  {
    hide Count, CallsInOrder, CallsReturnOnce, Counted, Placed, ThreadOk;
    ActiveFacts(s);
    if s.threads[s.active.value].hold.Some? {
      HoldsAnother(s, s.active.value);
    }
  }

  lemma TakePhaseSound(s: State)
    requires Sound(s) && Enabled(s, Poll) && |s.waiting| > 0
    ensures Sound(SetPhase(s, Take)) && HasActive(SetPhase(s, Take))
  {
    hide At, Holders, Count, CallsReturnOnce, Kinds, Placed, Holding, HoldFits;
    ActiveFacts(s);
    var t, s' := s.active.value, SetPhase(s, Take);
    forall u: Tid
      ensures At(s', u) == At(s, u) && Holders(s', u) == Holders(s, u)
    {
      RecordSpots(s, s', u);
    }
    KindsKept(s, s', t);
    TakePhaseOrder(s);
    ReturnsKept(s, s', t);
    AssembleOne(s, s', t);
  }

  lemma TakePhaseOrder(s: State)
    requires Kinds(s) && CallsInOrder(s) && Enabled(s, Poll) && |s.waiting| > 0
    ensures CallsInOrder(SetPhase(s, Take))
  {
    var s' := SetPhase(s, Take);
    assert KindFits(s.threads[s.active.value], s.active.value);
    forall k | 0 <= k < |s'.workers|
      ensures WorkerFor(s', s'.workers[k], s'.taken[k])
    {
      assert WorkerFor(s, s.workers[k], s.taken[k]);
    }
  }

  lemma CheckLogSound(s: State)
    requires Sound(s) && Enabled(s, CheckLog)
    ensures Sound(SetPhase(s, Drop)) && HasActive(SetPhase(s, Drop))
  {
    hide At, Holders, Count, CallsInOrder, CallsReturnOnce, Kinds, Placed, Holding, HoldFits;
    ActiveFacts(s);
    var t, s' := s.active.value, SetPhase(s, Drop);
    forall u: Tid
      ensures At(s', u) == At(s, u) && Holders(s', u) == Holders(s, u)
    {
      RecordSpots(s, s', u);
    }
    KindsKept(s, s', t);
    OrderKept(s, s', t);
    ReturnsKept(s, s', t);
    CheckLogHold(s);
    AssembleOne(s, s', t);
  }

  lemma CheckLogHold(s: State)
    requires Sound(s) && Enabled(s, CheckLog)
    ensures HoldFine(SetPhase(s, Drop), s.active.value)
  {
    hide Count, CallsInOrder, CallsReturnOnce, Counted, Placed, Kinds;
    ActiveFacts(s);
    HoldsAnother(s, s.active.value);
    RecordSpots(s, SetPhase(s, Drop), s.threads[s.active.value].hold.value);
  }

  // ------------------------------------------------------------ new threads

  // A number that no thread has yet is nowhere.
  lemma Unborn(s: State, n: Tid)
    requires Sound(s) && n >= |s.threads|
    ensures Holders(s, n) == 0 && At(s, n) == Spots(0, 0, 0, 0, 0, 0) && ReturnsOnce(s, n)
    ensures forall h: Tid | h < |s.threads| :: s.threads[h].hold != Some(n)
  {
    hide Placed, Holding, Kinds, CallsInOrder, Fifo, Parked, Owned, Count;
    assert !Alive(s, n);
    assert Holders(s, n) == 0;
    assert ReturnsOnce(s, n);
    forall h: Tid | h < |s.threads|
      ensures s.threads[h].hold != Some(n)
    {
      HeldAt(s.threads, h, n);
    }
  }

  lemma SpawnSpots(s: State, u: Tid)
    ensures var n, s' := |s.threads|, SpawnThread(s);
            && FramesKept(s, s')
            && (u != n ==> Untouched(s, s', u))
            && At(s', n) == At(s, n).(queued := At(s, n).queued + 1)
            && Holders(s', n) == Holders(s, n) + 1
  {
    hide Count;
    var n, s' := |s.threads|, SpawnThread(s);
    HeldAppend(s.threads, s'.threads[n], u);
    HeldAppend(s.threads, s'.threads[n], n);
    CountAppend(s.queued, n, u);
    CountAppend(s.queued, n, n);
  }

  lemma SpawnLogs(s: State)
    requires Sound(s)
    ensures Kinds(SpawnThread(s)) && CallsInOrder(SpawnThread(s)) && CallsReturnOnce(SpawnThread(s))
  {
    hide At, Holders, Count, ThreadOk, Counted, Placed, Holding;
    var n, s' := |s.threads|, SpawnThread(s);
    forall u | 0 <= u < |s'.threads|
      ensures KindFits(s'.threads[u], u)
    {
      assert u < n ==> KindFits(s.threads[u], u);
    }
    forall k | 0 <= k < |s'.workers|
      ensures WorkerFor(s', s'.workers[k], s'.taken[k])
    {
      assert WorkerFor(s, s.workers[k], s.taken[k]);
    }
    Unborn(s, n);
    forall u: Tid
      ensures ReturnsOnce(s', u)
    {
      assert ReturnsOnce(s, u);
    }
  }

  lemma SpawnSound(s: State)
    requires Sound(s) && HasActive(s)
    ensures Sound(SpawnThread(s)) && HasActive(SpawnThread(s))
  {
    hide At, Holders, Count, CallsInOrder, CallsReturnOnce, Kinds, Placed, Holding, HoldFits;
    var n, s' := |s.threads|, SpawnThread(s);
    Unborn(s, n);
    forall u: Tid
      ensures u != n ==> Untouched(s, s', u)
    {
      SpawnSpots(s, u);
    }
    SpawnSpots(s, n);
    SpawnLogs(s);
    assert s'.threads[n] == NewThread(Ordinary, Running, |s.frames|, None, 0, n);
    assert HoldFine(s', n);
    Assemble(s, s', {n});
  }

  lemma BuildFacts(s: State)
    requires Sound(s) && Enabled(s, BuildWorker)
    ensures var t := s.active.value;
            && t == SYSTEM && s.threads[t].hold.Some?
            && (var c := s.threads[t].hold.value;
                && Alive(s, c) && c != t && s.threads[c].kind.Ordinary? && s.threads[c].phase.InCall?
                && s.threads[c].masked && s.threads[c].stash.Some? && At(s, c).held == 1)
    ensures Checks(s, BuildWorker)
  {
    hide Count, CallsInOrder, CallsReturnOnce;
    ActiveFacts(s);
    var t := s.active.value;
    var c := s.threads[t].hold.value;
    HoldsAnother(s, t);
    HeldAt(s.threads, t, c);
    assert Holders(s, c) > 0;
    assert ThreadOk(c, s.threads[c], At(s, c), Holders(s, c), s.frames);
  }

  lemma BuildSpots(s: State, c: Tid, u: Tid)
    requires HasActive(s) && s.threads[s.active.value].hold == Some(c)
    requires c < |s.threads| && s.threads[c].stash.Some?
    ensures var t, n, s' := s.active.value, |s.threads|, Build1(s);
            && FramesKept(s, s')
            && At(s', u) == At(s, u).(held := At(s, u).held + (if u == n then 1 else 0))
            && Holders(s', u) == Holders(s, u) + (if u == n then 1 else 0)
            && (u != n && u != t ==> Untouched(s, s', u))
  {
    hide Count;
    var t, n, s' := s.active.value, |s.threads|, Build1(s);
    var mid := s.threads[t := s'.threads[t]];
    HeldSet(s.threads, t, s'.threads[t], u);
    HeldAppend(mid, s'.threads[n], u);
    assert s'.threads == mid + [s'.threads[n]];
  }

  lemma BuildLogs(s: State)
    requires Sound(s) && Enabled(s, BuildWorker) && Checks(s, BuildWorker)
    ensures Kinds(Build1(s)) && CallsInOrder(Build1(s)) && CallsReturnOnce(Build1(s))
  {
    hide At, Holders, Count, ThreadOk, Counted, Placed, Holding;
    BuildFacts(s);
    var n, s' := |s.threads|, Build1(s);
    forall u | 0 <= u < |s'.threads|
      ensures KindFits(s'.threads[u], u)
    {
      assert u < n ==> KindFits(s.threads[u], u);
    }
    forall k | 0 <= k < |s'.workers|
      ensures WorkerFor(s', s'.workers[k], s'.taken[k])
      ensures k < |s.workers| ==> s'.workers[k] < n
    {
      assert k < |s.workers| ==> WorkerFor(s, s.workers[k], s.taken[k]);
    }
    Unborn(s, n);
    forall u: Tid
      ensures ReturnsOnce(s', u)
    {
      assert ReturnsOnce(s, u);
    }
  }

  lemma BuildSound(s: State)
    requires Sound(s) && Enabled(s, BuildWorker)
    ensures Checks(s, BuildWorker) && Sound(Build1(s)) && HasActive(Build1(s))
  {
    hide At, Holders, Count, CallsInOrder, CallsReturnOnce, Kinds, Placed, Holding, Checks;
    BuildFacts(s);
    BuildBefore(s);
    var t, n, s' := s.active.value, |s.threads|, Build1(s);
    ActiveFacts(s);
    Unborn(s, n);
    forall u: Tid
      ensures u != n && u != t ==> Untouched(s, s', u)
    {
      BuildSpots(s, s.threads[t].hold.value, u);
    }
    BuildSpots(s, s.threads[t].hold.value, n);
    BuildSpots(s, s.threads[t].hold.value, t);
    BuildLogs(s);
    assert Good(s', t);
    assert Good(s', n);
    Assemble(s, s', {t, n});
  }

  lemma BuildBefore(s: State)
    requires Sound(s) && Enabled(s, BuildWorker)
    ensures HasActive(s) && s.threads[s.active.value].kind.SystemHandler? && s.threads[s.active.value].phase.Build?
  {
  }

  // ------------------------------------------------- a thread and what it holds

  // The active thread t refers to x, and nothing else does so locally.
  lemma HeldFacts(s: State)
    requires Sound(s) && HasActive(s) && s.threads[s.active.value].hold.Some?
    ensures HoldsOther(s)
    ensures var t := s.active.value;
            var x := s.threads[t].hold.value;
            && Alive(s, x) && At(s, x).held == 1 && HoldFits(s, t)
            && ThreadOk(x, s.threads[x], At(s, x), Holders(s, x), s.frames)
            && At(s, x).Total() <= Holders(s, x)
            && forall g: Tid | g < |s.threads| && g != t :: s.threads[g].hold != Some(x)
  {
    hide Count, CallsInOrder, CallsReturnOnce;
    ActiveFacts(s);
    var t := s.active.value;
    var x := s.threads[t].hold.value;
    HoldsAnother(s, t);
    HeldAt(s.threads, t, x);
    PlacedCounted(s, x);
    assert Holders(s, x) > 0;
    assert ThreadOk(x, s.threads[x], At(s, x), Holders(s, x), s.frames);
    HeldAtMostOnce(x, s.threads[x], At(s, x), Holders(s, x), s.frames);
    HeldOnce(s, t, x);
  }

  lemma HeldAtMostOnce(t: Tid, th: Thread, p: Spots, refs: nat, frames: seq<Frame>)
    requires ThreadOk(t, th, p, refs, frames)
    ensures p.held <= 1
  {
  }

  // Two records change, and thread x moves from the hands of t to the run queue or stays.
  lemma PairSpots(s: State, s': State, x: Tid, queue: bool, u: Tid)
    requires HoldsOther(s) && s.threads[s.active.value].hold == Some(x)
    requires var t := s.active.value;
             && |s'.threads| == |s.threads|
             && s'.threads == s.threads[x := s'.threads[x]][t := s'.threads[t]]
             && s'.threads[x].hold == s.threads[x].hold
             && s'.threads[t].hold == if queue then None else Some(x)
    requires s'.queued == if queue then s.queued + [x] else s.queued
    requires s'.active == s.active && s'.dangling == s.dangling
    requires s'.waiting == s.waiting && s'.mutexes == s.mutexes && s'.frames == s.frames
    ensures var moved := if queue && u == x then 1 else 0;
            && At(s, u).held >= moved
            && At(s', u) == At(s, u).(held := At(s, u).held - moved, queued := At(s, u).queued + moved)
            && Holders(s', u) == Holders(s, u)
            && (u != x && u != s.active.value ==> Untouched(s, s', u))
  {
    hide Count;
    var t := s.active.value;
    var mid := s.threads[x := s'.threads[x]];
    HeldAt(s.threads, t, u);
    HeldSet(s.threads, x, s'.threads[x], u);
    HeldSet(mid, t, s'.threads[t], u);
    CountAppend(s.queued, x, u);
  }

  // The rest of a step of this kind: x is no caller of its own, and its new record is in place.
  lemma AssemblePair(s: State, s': State, x: Tid)
    requires Sound(s) && HoldsOther(s) && s.threads[s.active.value].hold == Some(x)
    requires s'.frames == s.frames && s'.mutexes == s.mutexes
    requires forall u: Tid | u != x && u != s.active.value :: Untouched(s, s', u)
    requires Good(s', x) && Good(s', s.active.value)
    requires Kinds(s') && Reaping(s') && CallsInOrder(s') && CallsReturnOnce(s')
    ensures Sound(s')
  {
    hide At, Holders, Untouched, Good, Kinds, Reaping, CallsInOrder, CallsReturnOnce, HoldFine, ThreadOk;
    HeldFacts(s);
    ActiveFacts(s);
    Assemble(s, s', {s.active.value, x});
  }

  // What x itself holds is kept.
  lemma PairHold(s: State, s': State, x: Tid)
    requires Sound(s) && HoldsOther(s) && s.threads[s.active.value].hold == Some(x)
    requires FramesKept(s, s') && |s'.threads| == |s.threads| && SameHold(s.threads[x], s'.threads[x])
    requires forall u: Tid | u != x && u != s.active.value :: Untouched(s, s', u)
    ensures HoldFine(s', x)
  {
    hide At, Holders, Untouched, ThreadOk, HoldFits, Kinds, CallsInOrder, CallsReturnOnce, Counted, Placed;
    HeldFacts(s);
    ActiveFacts(s);
    if s.threads[x].hold.Some? {
      HoldsAnother(s, x);
      KeptHold(s, s', x);
    }
  }

  lemma ReturnsSame(s: State, s': State)
    requires CallsReturnOnce(s) && s'.called == s.called && s'.returned == s.returned
    requires forall u: Tid :: (Alive(s', u) && Open(s'.threads[u])) == (Alive(s, u) && Open(s.threads[u]))
    ensures CallsReturnOnce(s')
  {
    forall u: Tid
      ensures ReturnsOnce(s', u)
    {
      assert ReturnsOnce(s, u);
    }
  }

  lemma PairLogs(s: State, s': State, x: Tid)
    requires Kinds(s) && CallsInOrder(s)
    requires HoldsOther(s) && s.threads[s.active.value].hold == Some(x) && SameCalls(s, s')
    requires var t := s.active.value;
             && |s'.threads| == |s.threads|
             && s'.threads == s.threads[x := s'.threads[x]][t := s'.threads[t]]
             && s'.threads[x].kind == s.threads[x].kind && s'.threads[x].caller == s.threads[x].caller
             && s'.threads[t].kind == s.threads[t].kind && s'.threads[t].caller == s.threads[t].caller
    requires x != SYSTEM
    requires s.active.value == SYSTEM ==> s.threads[SYSTEM].phase.Add? && s'.threads[SYSTEM].phase.Running?
    ensures Kinds(s') && CallsInOrder(s')
  {
    forall u | 0 <= u < |s'.threads|
      ensures KindFits(s'.threads[u], u)
    {
      assert KindFits(s.threads[u], u);
    }
    forall k | 0 <= k < |s'.workers|
      ensures WorkerFor(s', s'.workers[k], s'.taken[k])
    {
      assert WorkerFor(s, s.workers[k], s.taken[k]);
    }
  }

  lemma AddSound(s: State)
    requires Sound(s) && Enabled(s, AddWorker)
    ensures HoldsOther(s) && Sound(Add1(s)) && HasActive(Add1(s))
  {
    hide At, Holders, Count, CallsInOrder, CallsReturnOnce, Kinds, Placed, Holding;
    ActiveFacts(s);
    HeldFacts(s);
    var t, s' := s.active.value, Add1(s);
    var x := s.threads[t].hold.value;
    forall u: Tid
      ensures u != x && u != t ==> Untouched(s, s', u)
    {
      PairSpots(s, s', x, true, u);
    }
    PairSpots(s, s', x, true, t);
    PairSpots(s, s', x, true, x);
    PairLogs(s, s', x);
    ReturnsSame(s, s');
    PairHold(s, s', x);
    AssemblePair(s, s', x);
  }

  // The active thread is a worker that has a caller.
  ghost predicate AtWorker(s: State, phase: Phase) {
    && HasActive(s) && s.threads[s.active.value].kind.Worker?
    && s.threads[s.active.value].phase == phase && (phase.Unmask? || phase.Requeue? || phase.ExitCheck?)
  }

  lemma CallerFacts(s: State)
    requires Sound(s)
    requires HasActive(s) && AtWorker(s, s.threads[s.active.value].phase)
    ensures HoldsOther(s) && Unheld(s, s.active.value)
    ensures var t := s.active.value;
            var x := s.threads[t].hold.value;
            && Alive(s, t) && Alive(s, x) && t != SYSTEM && x != SYSTEM
            && At(s, x).held == 1 && HoldFits(s, t)
            && ThreadOk(x, s.threads[x], At(s, x), Holders(s, x), s.frames)
            && ThreadOk(t, s.threads[t], At(s, t), Holders(s, t), s.frames)
            && HoldOk(s.threads[t], s.threads[x], Holders(s, x), s.frames)
            && s.threads[x].kind.Ordinary? && s.threads[x].phase.InCall? && s.threads[x].hold.None?
            && Holders(s, t) > 0 && Holders(s, x) > 0
  {
    hide At, Holders, Count, CallsInOrder, CallsReturnOnce, Placed, Holding;
    ActiveFacts(s);
    HeldFacts(s);
    assert Kinds(s);
    assert KindFits(s.threads[s.threads[s.active.value].hold.value], s.threads[s.active.value].hold.value);
  }

  // The new records of the worker and of its caller fit.
  lemma PairOk(t: Tid, th: Thread, p: Spots, refs: nat, x: Tid, other: Thread, q: Spots, rest: nat, frames: seq<Frame>)
    requires ThreadOk(t, th, p, refs, frames) && th.kind.Worker? && th.hold == Some(x)
    requires ThreadOk(x, other, q, rest, frames) && other.kind.Ordinary? && other.phase.InCall? && q.held == 1
    requires HoldOk(th, other, rest, frames)
    ensures th.phase.Unmask? ==>
      var th', other' := th.(phase := Requeue), other.(masked := false);
      ThreadOk(t, th', p, refs, frames) && ThreadOk(x, other', q, rest, frames) && HoldOk(th', other', rest, frames)
    ensures th.phase.Requeue? ==>
      && ThreadOk(t, th.(phase := Finished, hold := None), p, refs, frames)
      && ThreadOk(x, other.(phase := Running), q.(held := 0, queued := q.queued + 1), rest, frames)
    ensures th.phase.ExitCheck? ==>
      var th', other' := th.(phase := Finished), other.(phase := Exited);
      && other.masked
      && ThreadOk(t, th', p, refs, frames) && ThreadOk(x, other', q, rest, frames) && HoldOk(th', other', rest, frames)
  {
  }

  lemma PairGood(s: State, s': State, x: Tid)
    requires HoldsOther(s) && s.threads[s.active.value].hold == Some(x)
    requires Holders(s, x) > 0 && Holders(s, s.active.value) > 0
    requires |s'.threads| == |s.threads| && s'.threads[x].alive && s'.threads[s.active.value].alive
    requires Holders(s', x) == Holders(s, x) && Holders(s', s.active.value) == Holders(s, s.active.value)
    requires ThreadOk(x, s'.threads[x], At(s', x), Holders(s', x), s'.frames) && s'.threads[x].hold.None?
    requires var t := s.active.value;
             && ThreadOk(t, s'.threads[t], At(s', t), Holders(s', t), s'.frames)
             && (s'.threads[t].hold.Some? ==> s'.threads[t].hold == Some(x) && HoldOk(s'.threads[t], s'.threads[x], Holders(s', x), s'.frames))
    ensures Good(s', x) && Good(s', s.active.value)
  {
    hide At, Holders, ThreadOk, HoldOk;
  }

  lemma UnmaskSound(s: State)
    requires Sound(s) && AtWorker(s, Unmask)
    ensures HoldsOther(s) && Sound(Unmask1(s)) && HasActive(Unmask1(s))
  {
    hide At, Holders, Count, CallsInOrder, CallsReturnOnce, Kinds, Placed, Holding, ThreadOk, HoldFits;
    CallerFacts(s);
    var t, s' := s.active.value, Unmask1(s);
    var x := s.threads[t].hold.value;
    forall u: Tid
      ensures u != x && u != t ==> Untouched(s, s', u)
    {
      PairSpots(s, s', x, false, u);
    }
    PairSpots(s, s', x, false, t);
    PairSpots(s, s', x, false, x);
    PairLogs(s, s', x);
    ReturnsSame(s, s');
    PairOk(t, s.threads[t], At(s, t), Holders(s, t), x, s.threads[x], At(s, x), Holders(s, x), s.frames);
    PairGood(s, s', x);
    AssemblePair(s, s', x);
  }

  lemma RequeueSound(s: State)
    requires Sound(s) && AtWorker(s, Requeue)
    ensures HoldsOther(s) && Sound(Requeue1(s)) && HasActive(Requeue1(s))
  {
    hide At, Holders, Count, CallsInOrder, CallsReturnOnce, Kinds, Placed, Holding, ThreadOk, HoldFits;
    CallerFacts(s);
    var t, s' := s.active.value, Requeue1(s);
    var x := s.threads[t].hold.value;
    forall u: Tid
      ensures u != x && u != t ==> Untouched(s, s', u)
    {
      PairSpots(s, s', x, true, u);
    }
    PairSpots(s, s', x, true, t);
    PairSpots(s, s', x, true, x);
    PairLogs(s, s', x);
    RequeueBalance(s);
    PairOk(t, s.threads[t], At(s, t), Holders(s, t), x, s.threads[x], At(s, x), Holders(s, x), s.frames);
    PairGood(s, s', x);
    AssemblePair(s, s', x);
  }

  lemma RequeueBalance(s: State)
    requires Sound(s) && AtWorker(s, Requeue) && HoldsOther(s)
    ensures CallsReturnOnce(Requeue1(s))
  {
    hide At, Holders, Count, CallsInOrder, Kinds, Placed, Holding;
    ActiveFacts(s);
    HeldFacts(s);
    var t, s' := s.active.value, Requeue1(s);
    assert s'.returned[..|s.returned|] == s.returned;
    forall u: Tid
      ensures ReturnsOnce(s', u)
    {
      assert ReturnsOnce(s, u);
    }
  }

  lemma ExitSound(s: State)
    requires Sound(s) && AtWorker(s, ExitCheck)
    ensures HoldsOther(s) && s.threads[s.threads[s.active.value].hold.value].masked && Sound(Exit1(s)) && HasActive(Exit1(s))
  {
    hide At, Holders, Count, CallsInOrder, CallsReturnOnce, Kinds, Placed, Holding, ThreadOk, HoldFits;
    CallerFacts(s);
    var t, s' := s.active.value, Exit1(s);
    var x := s.threads[t].hold.value;
    forall u: Tid
      ensures u != x && u != t ==> Untouched(s, s', u)
    {
      PairSpots(s, s', x, false, u);
    }
    PairSpots(s, s', x, false, t);
    PairSpots(s, s', x, false, x);
    PairLogs(s, s', x);
    ReturnsSame(s, s');
    PairOk(t, s.threads[t], At(s, t), Holders(s, t), x, s.threads[x], At(s, x), Holders(s, x), s.frames);
    PairGood(s, s', x);
    AssemblePair(s, s', x);
  }

  // -------------------------------------------------- taking from a queue

  lemma HeadFacts(s: State, x: Tid)
    requires Sound(s) && (At(s, x).waiting > 0 || At(s, x).dangling > 0)
    ensures Alive(s, x) && Holders(s, x) > 0 && At(s, x).held == 0 && At(s, x).active == 0 && x != SYSTEM
    ensures ThreadOk(x, s.threads[x], At(s, x), Holders(s, x), s.frames)
    ensures At(s, x).waiting > 0 ==>
      s.threads[x].kind.Ordinary? && s.threads[x].phase.InCall? && s.threads[x].masked && s.threads[x].hold.None?
    ensures At(s, x).dangling > 0 ==>
      s.threads[x].phase.Dead? && s.threads[x].masked && Holders(s, x) == 1
    ensures Unheld(s, x)
  {
    hide Count, CallsInOrder, CallsReturnOnce;
    assert Holders(s, x) > 0;
    assert ThreadOk(x, s.threads[x], At(s, x), Holders(s, x), s.frames);
    assert KindFits(s.threads[x], x);
    NotHeld(s, x);
  }

  lemma TakeSpots(s: State, u: Tid)
    requires HasActive(s) && |s.waiting| > 0 && s.threads[s.active.value].hold.None?
    ensures var t, x, s' := s.active.value, s.waiting[0], Take1(s);
            && At(s, x).waiting >= 1
            && (var moved := if u == x then 1 else 0;
                && At(s, u).waiting >= moved
                && At(s', u) == At(s, u).(waiting := At(s, u).waiting - moved, held := At(s, u).held + moved)
                && Holders(s', u) == Holders(s, u))
            && (u != x && u != t ==> Untouched(s, s', u))
  {
    hide Count;
    var t, s' := s.active.value, Take1(s);
    HeldSet(s.threads, t, s'.threads[t], u);
    CountTail(s.waiting, u);
    CountTail(s.waiting, s.waiting[0]);
  }

  lemma TakeOrder(s: State)
    requires Sound(s) && Enabled(s, TakeCall) && |s.waiting| > 0
    ensures CallsInOrder(Take1(s))
  {
    hide At, Holders, Count, ThreadOk, Counted, Placed, Holding;
    ActiveFacts(s);
    var s' := Take1(s);
    forall k | 0 <= k < |s'.workers|
      ensures WorkerFor(s', s'.workers[k], s'.taken[k])
    {
      assert WorkerFor(s, s.workers[k], s.taken[k]);
    }
    assert s'.called == s'.taken + s'.waiting;
  }

  lemma TakeSound(s: State)
    requires Sound(s) && Enabled(s, TakeCall)
    ensures |s.waiting| > 0 && Sound(Take1(s)) && HasActive(Take1(s))
  {
    hide At, Holders, Count, CallsReturnOnce, Placed, Holding;
    ActiveFacts(s);
    var t, x := s.active.value, s.waiting[0];
    var s' := Take1(s);
    forall u: Tid
      ensures u != x && u != t ==> Untouched(s, s', u)
    {
      TakeSpots(s, u);
    }
    TakeSpots(s, t);
    TakeSpots(s, x);
    HeadFacts(s, x);
    KindsKept(s, s', t);
    TakeOrder(s);
    ReturnsKept(s, s', t);
    assert s.threads[x] == s'.threads[x];
    assert Good(s', x);
    assert Good(s', t);
    Assemble(s, s', {t, x});
  }

  lemma DanglingSpots(s: State, u: Tid)
    requires HasActive(s) && |s.dangling| > 0 && s.threads[s.active.value].hold.None?
    ensures var t, x, s' := s.active.value, s.dangling[0], Dangling1(s);
            && At(s, x).dangling >= 1
            && (var moved := if u == x then 1 else 0;
                && At(s, u).dangling >= moved
                && At(s', u) == At(s, u).(dangling := At(s, u).dangling - moved, held := At(s, u).held + moved)
                && Holders(s', u) == Holders(s, u))
            && (u != x && u != t ==> Untouched(s, s', u))
  {
    hide Count;
    var t, s' := s.active.value, Dangling1(s);
    HeldSet(s.threads, t, s'.threads[t], u);
    CountTail(s.dangling, u);
    CountTail(s.dangling, s.dangling[0]);
  }

  lemma DanglingOk(t: Tid, th: Thread, p: Spots, refs: nat, frames: seq<Frame>, x: Tid)
    requires ThreadOk(t, th, p, refs, frames)
    ensures p.dangling >= 1 ==> ThreadOk(t, th, p.(dangling := p.dangling - 1, held := p.held + 1), refs, frames)
    ensures th.kind.Default? ==> ThreadOk(t, th.(phase := Check, hold := Some(x)), p, refs, frames)
  {
  }

  lemma DanglingSound(s: State)
    requires Sound(s) && Enabled(s, TakeDangling)
    ensures Sound(Dangling1(s)) && HasActive(Dangling1(s))
  {
    hide At, Holders, Count, CallsReturnOnce, CallsInOrder, Kinds, Placed, Holding, HoldFits, ThreadOk;
    ActiveFacts(s);
    HeadWaits(s);
    DefaultHoldsNone(s);
    var t, x := s.active.value, s.dangling[0];
    var s' := Dangling1(s);
    forall u: Tid
      ensures u != x && u != t ==> Untouched(s, s', u)
    {
      DanglingSpots(s, u);
    }
    DanglingSpots(s, t);
    DanglingSpots(s, x);
    HeadFacts(s, x);
    KindsKept(s, s', t);
    OrderKept(s, s', t);
    ReturnsKept(s, s', t);
    assert s.threads[x] == s'.threads[x];
    DanglingHolds(s);
    DanglingOk(x, s.threads[x], At(s, x), Holders(s, x), s.frames, x);
    DanglingOk(t, s.threads[t], At(s, t), Holders(s, t), s.frames, x);
    assert Good(s', x) by {
      assert Fine(s', x);
    }
    assert Good(s', t);
    Assemble(s, s', {t, x});
  }

  lemma DefaultHoldsNone(s: State)
    requires Sound(s) && Enabled(s, TakeDangling)
    ensures s.threads[s.active.value].hold.None?
  {
    ActiveFacts(s);
  }

  lemma HeadWaits(s: State)
    ensures |s.waiting| > 0 ==> At(s, s.waiting[0]).waiting > 0
    ensures |s.dangling| > 0 ==> At(s, s.dangling[0]).dangling > 0
  {
  }

  lemma DanglingHolds(s: State)
    requires Sound(s) && Enabled(s, TakeDangling)
    ensures HoldFine(Dangling1(s), s.active.value) && HoldFine(Dangling1(s), s.dangling[0])
  {
    hide At, Holders, Count, CallsReturnOnce, CallsInOrder, Kinds, Placed, Counted, Holding;
    ActiveFacts(s);
    var t, x := s.active.value, s.dangling[0];
    var s' := Dangling1(s);
    DanglingSpots(s, x);
    HeadFacts(s, x);
    if s.threads[x].hold.Some? {
      HoldsAnother(s, x);
      DanglingSpots(s, s.threads[x].hold.value);
      assert Holding(s);
      KeptHold(s, s', x);
    }
  }

  lemma DropSpots(s: State, u: Tid)
    requires HoldsOther(s)
    ensures var t, x, s' := s.active.value, s.threads[s.active.value].hold.value, Drop1(s);
            && (var moved := if u == x then 1 else 0;
                && At(s, u).held >= moved
                && At(s', u) == At(s, u).(held := At(s, u).held - moved)
                && Holders(s', u) == Holders(s, u) - moved)
            && (u != x && u != t ==> Untouched(s, s', u))
  {
    hide Count;
    var t, s' := s.active.value, Drop1(s);
    var x := s.threads[t].hold.value;
    var mid := s.threads[x := s'.threads[x]];
    HeldAt(s.threads, t, u);
    HeldSet(s.threads, x, s'.threads[x], u);
    HeldSet(mid, t, s'.threads[t], u);
  }

  lemma DropFacts(s: State)
    requires Sound(s) && Enabled(s, DropThread)
    ensures HoldsOther(s) && s.active.value == DEFAULT && Unheld(s, DEFAULT) && Holders(s, DEFAULT) > 1
    ensures ThreadOk(DEFAULT, s.threads[DEFAULT], At(s, DEFAULT), Holders(s, DEFAULT), s.frames)
    ensures s.threads[DEFAULT].kind.Default? && s.threads[DEFAULT].phase.Drop? && s.threads[DEFAULT].alive
    ensures var x := s.threads[DEFAULT].hold.value;
            Holders(s, x) == 1 && s.threads[x].phase.Dead? && x != SYSTEM
  {
    hide At, Count, CallsReturnOnce, CallsInOrder, Placed, Counted, Holding;
    ActiveFacts(s);
    HeldFacts(s);
    RefsOfPermanent(s);
  }

  lemma RefsOfPermanent(s: State)
    requires Sound(s)
    ensures forall x: Tid | At(s, x).held > 0 && Holders(s, x) == 1 :: x != SYSTEM
  {
  }

  lemma DropSound(s: State)
    requires Sound(s) && Enabled(s, DropThread)
    ensures Checks(s, DropThread) && Sound(Drop1(s)) && HasActive(Drop1(s))
  {
    hide At, Holders, Count, CallsReturnOnce, CallsInOrder, Kinds, Placed, Holding, HoldFits;
    DropFacts(s);
    var t, s' := s.active.value, Drop1(s);
    var x := s.threads[t].hold.value;
    forall u: Tid
      ensures u != x && u != t ==> Untouched(s, s', u)
    {
      DropSpots(s, u);
    }
    DropSpots(s, t);
    DropSpots(s, x);
    PairLogs(s, s', x);
    ReturnsSame(s, s');
    PairHold(s, s', x);
    assert Good(s', t);
    assert Good(s', x);
    AssemblePair(s, s', x);
  }

  // -------------------------------------------------------------- a call runs

  lemma RunFacts(s: State)
    requires Sound(s) && HasActive(s)
    requires s.threads[s.active.value].kind.Worker? && s.threads[s.active.value].phase.Call?
    ensures HoldsOther(s)
    ensures var t := s.active.value;
            var th := s.threads[t];
            && s.threads[th.hold.value].stash == Some(th.context) && th.context < |s.frames|
            && s.frames[th.context].owner == th.hold.value && t != SYSTEM
  {
    hide At, Holders, Count, CallsReturnOnce, CallsInOrder, Placed, Counted, Holding;
    ActiveFacts(s);
    HeldFacts(s);
  }

  // Only the frame of the caller changes, and no other worker looks at it.
  lemma RunHolding(s: State, result: int, g: Tid)
    requires Sound(s) && HasActive(s)
    requires s.threads[s.active.value].kind.Worker? && s.threads[s.active.value].phase.Call?
    requires HoldsOther(s) && s.threads[s.active.value].context < |s.frames|
    requires g < |s.threads| && g != s.active.value && s.threads[g].hold.Some?
    ensures HoldFits(Run1(s, result), g)
  {
    hide At, Count, CallsReturnOnce, CallsInOrder, Placed, Counted, ThreadOk;
    var t := s.active.value;
    RunFacts(s);
    HeldFacts(s);
    ActiveFacts(s);
    assert HoldFits(s, g);
    var y := s.threads[g].hold.value;
    assert y != s.threads[t].hold.value && y != t;
    if s.threads[y].stash.Some? && y < |s.threads| {
      HolderStash(s, g);
    }
    RunSpots(s, result, y);
  }

  lemma HolderStash(s: State, g: Tid)
    requires Sound(s) && g < |s.threads| && s.threads[g].hold.Some? && s.threads[g].hold.value < |s.threads|
    ensures var y := s.threads[g].hold.value;
            s.threads[y].stash.Some? ==> s.threads[y].stash.value < |s.frames| && s.frames[s.threads[y].stash.value].owner == y
  {
    var y := s.threads[g].hold.value;
    HeldAt(s.threads, g, y);
    assert Holders(s, y) > 0;
    assert ThreadOk(y, s.threads[y], At(s, y), Holders(s, y), s.frames);
  }

  lemma RunSpots(s: State, result: int, u: Tid)
    requires HasActive(s) && s.threads[s.active.value].context < |s.frames|
    ensures var s' := Run1(s, result); At(s', u) == At(s, u) && Holders(s', u) == Holders(s, u)
  {
    RecordSpots(s, Run1(s, result), u);
  }

  lemma RunFine(s: State, result: int, u: Tid)
    requires Sound(s) && HasActive(s)
    requires s.threads[s.active.value].kind.Worker? && s.threads[s.active.value].phase.Call?
    requires HoldsOther(s) && s.threads[s.active.value].context < |s.frames|
    ensures Fine(Run1(s, result), u)
    ensures Holders(Run1(s, result), u) > 0 <==> Alive(Run1(s, result), u)
  {
    hide At, Holders, Count, CallsReturnOnce, CallsInOrder, Kinds, Holding;
    RunSpots(s, result, u);
    if Alive(s, u) {
      assert ThreadOk(u, s.threads[u], At(s, u), Holders(s, u), s.frames);
    }
    if u == s.active.value {
      ActiveFacts(s);
    }
  }

  lemma RunSound(s: State, result: int)
    requires Sound(s) && Enabled(s, RunCall(result))
    ensures Checks(s, RunCall(result)) && Sound(Run1(s, result)) && HasActive(Run1(s, result))
  {
    hide At, Holders, Count, CallsReturnOnce, CallsInOrder, Kinds, HoldFits, ThreadOk, Fine;
    RunFacts(s);
    HeldFacts(s);
    var t, s' := s.active.value, Run1(s, result);
    forall u: Tid
      ensures Fine(s', u) && (Holders(s', u) > 0 <==> Alive(s', u))
    {
      RunFine(s, result, u);
    }
    forall h: Tid | h < |s'.threads| && s'.threads[h].hold.Some?
      ensures HoldFits(s', h)
    {
      if h == t {
        RunOwn(s, result);
      } else {
        RunHolding(s, result, h);
      }
    }
    KindsKept(s, s', t);
    OrderKept(s, s', t);
    ReturnsKept(s, s', t);
    AllFine(s');
  }

  lemma AllFine(s: State)
    requires forall u: Tid :: Fine(s, u)
    ensures Placed(s)
  {
    forall t: Tid | Alive(s, t)
      ensures ThreadOk(t, s.threads[t], At(s, t), Holders(s, t), s.frames)
    {
      assert Fine(s, t);
    }
  }

  lemma RunOwn(s: State, result: int)
    requires Sound(s) && HasActive(s)
    requires s.threads[s.active.value].kind.Worker? && s.threads[s.active.value].phase.Call?
    requires HoldsOther(s) && s.threads[s.active.value].context < |s.frames|
    ensures HoldFits(Run1(s, result), s.active.value)
  {
    hide At, Holders, Count, CallsReturnOnce, CallsInOrder, Kinds, ThreadOk;
    HeldFacts(s);
  }
}
