/** Every step keeps the invariant of KernelInvariant.dfy. */
module KernelSteps {
  import opened Wrappers
  import opened KernelState
  import opened KernelInvariant

  // ------------------------------------------------------------ framing

  // The step touches the threads in X only, and adds threads and contexts at most.
  ghost predicate Untouched(s: State, s': State, u: Tid) {
    && (u < |s.threads| <==> u < |s'.threads|)
    && (u < |s.threads| ==> s'.threads[u] == s.threads[u])
    && At(s', u) == At(s, u) && Holders(s', u) == Holders(s, u)
  }

  ghost predicate FramesKept(s: State, s': State) {
    && |s.frames| <= |s'.frames|
    && forall f | 0 <= f < |s.frames| :: s'.frames[f] == s.frames[f]
  }

  ghost predicate Fine(s: State, t: Tid) {
    Alive(s, t) ==> ThreadOk(t, s.threads[t], At(s, t), Holders(s, t), s.frames)
  }

  ghost predicate HoldFine(s: State, h: Tid) {
    h < |s.threads| && s.threads[h].hold.Some? ==> HoldFits(s, h)
  }

  // Nobody's local RefPtr refers to t.
  ghost predicate Unheld(s: State, t: Tid) {
    forall h: Tid | h < |s.threads| :: s.threads[h].hold != Some(t)
  }

  lemma NotHeld(s: State, t: Tid)
    requires At(s, t).held == 0
    ensures Unheld(s, t)
  {
    forall h: Tid | h < |s.threads|
      ensures s.threads[h].hold != Some(t)
    {
      HeldAt(s.threads, h, t);
    }
  }

  // Only h holds t.
  lemma HeldOnce(s: State, h: Tid, t: Tid)
    requires h < |s.threads| && s.threads[h].hold == Some(t) && Held(s.threads, t) == 1
    ensures forall g: Tid | g < |s.threads| && g != h :: s.threads[g].hold != Some(t)
  {
    forall g: Tid | g < |s.threads| && g != h
      ensures s.threads[g].hold != Some(t)
    {
      if s.threads[g].hold == Some(t) {
        HeldTwice(s.threads, if g < h then g else h, if g < h then h else g, t);
      }
    }
  }

  lemma Kept(s: State, s': State, X: set<Tid>)
    requires Placed(s) && Holding(s) && FramesKept(s, s')
    requires forall u: Tid | u !in X :: Untouched(s, s', u)
    requires forall u | u in X :: Fine(s', u)
    requires forall h | h in X :: HoldFine(s', h)
    requires forall h: Tid | h !in X && h < |s.threads| && s.threads[h].hold.Some? && s.threads[h].hold.value in X :: HoldFine(s', h)
    ensures Placed(s') && Holding(s')
  {
    forall t: Tid | Alive(s', t)
      ensures ThreadOk(t, s'.threads[t], At(s', t), Holders(s', t), s'.frames)
    {
      if t in X {
        assert Fine(s', t);
      } else {
        KeptThread(s, s', t);
      }
    }
    forall h: Tid | h < |s'.threads| && s'.threads[h].hold.Some?
      ensures HoldFits(s', h)
    {
      if h in X {
        assert HoldFine(s', h);
      } else {
        assert Untouched(s, s', h);
        if s.threads[h].hold.value in X {
          assert HoldFine(s', h);
        } else {
          KeptHold(s, s', h);
        }
      }
    }
  }

  lemma KeptThread(s: State, s': State, t: Tid)
    requires Placed(s) && FramesKept(s, s') && Untouched(s, s', t) && Alive(s', t)
    ensures ThreadOk(t, s'.threads[t], At(s', t), Holders(s', t), s'.frames)
  {
    hide At, Holders;
    assert ThreadOk(t, s.threads[t], At(s, t), Holders(s, t), s.frames);
  }

  predicate SameHold(a: Thread, b: Thread) {
    && b.kind == a.kind && b.phase == a.phase && b.hold == a.hold && b.caller == a.caller
    && b.context == a.context && b.result == a.result
  }

  lemma KeptHold(s: State, s': State, h: Tid)
    requires Holding(s) && FramesKept(s, s')
    requires h < |s.threads| && s.threads[h].hold.Some?
    requires h < |s'.threads| && SameHold(s.threads[h], s'.threads[h]) && Untouched(s, s', s.threads[h].hold.value)
    ensures HoldFits(s', h)
  {
    hide At, Holders;
    assert HoldFits(s, h);
  }

  // What is known of the active thread
  lemma ActiveFacts(s: State)
    requires Sound(s) && HasActive(s)
    ensures var t := s.active.value;
            && Alive(s, t) && At(s, t).active == 1 && Unheld(s, t) && At(s, t).held == 0
            && ThreadOk(t, s.threads[t], At(s, t), Holders(s, t), s.frames)
            && KindFits(s.threads[t], t)
            && Holders(s, t) >= 1
            && (s.threads[t].kind.Default? || s.threads[t].kind.Fallback? || s.threads[t].kind.SystemHandler? ==> Holders(s, t) >= 2)
            && (s.threads[t].hold.Some? ==> HoldFits(s, t))
  {
    var t := s.active.value;
    assert Holders(s, t) > 0;
    assert ThreadOk(t, s.threads[t], At(s, t), Holders(s, t), s.frames);
    NotHeld(s, t);
  }

  // The reference that t holds is kept while only t is touched.
  lemma OwnHold(s: State, s': State, t: Tid)
    requires Holding(s) && FramesKept(s, s') && Unheld(s, t)
    requires forall u: Tid | u != t :: Untouched(s, s', u)
    requires t < |s.threads| && t < |s'.threads| && SameHold(s.threads[t], s'.threads[t])
    ensures HoldFine(s', t)
  {
    hide Untouched, HoldFits;
    if s.threads[t].hold.Some? {
      KeptHold(s, s', t);
    }
  }

  // What is left to show of a step that touches the threads in X
  ghost predicate Good(s: State, u: Tid) {
    Fine(s, u) && HoldFine(s, u) && (Holders(s, u) > 0 <==> Alive(s, u))
  }

  lemma Assemble(s: State, s': State, X: set<Tid>)
    requires Core(s) && FramesKept(s, s')
    requires forall u: Tid | u !in X :: Untouched(s, s', u)
    requires forall u | u in X :: Good(s', u)
    requires forall h: Tid | h !in X && h < |s.threads| && s.threads[h].hold.Some? && s.threads[h].hold.value in X :: HoldFine(s', h)
    requires Kinds(s') && Reaping(s') && CallsInOrder(s') && CallsReturnOnce(s')
    ensures Core(s')
  {
    hide At, Holders, Count, ThreadOk, HoldFits, Placed, Holding, Kinds, CallsInOrder, CallsReturnOnce, Reaping, Fine, HoldFine;
    forall u | u in X
      ensures Fine(s', u) && HoldFine(s', u)
    {
      assert Good(s', u);
    }
    Kept(s, s', X);
    forall t: Tid
      ensures Holders(s', t) > 0 <==> Alive(s', t)
    {
      if t in X {
        assert Good(s', t);
      } else {
        assert Untouched(s, s', t);
      }
    }
  }

  // Thread t, which nobody holds, is the only one touched.
  lemma AssembleOne(s: State, s': State, t: Tid)
    requires Core(s) && FramesKept(s, s') && Unheld(s, t)
    requires forall u: Tid | u != t :: Untouched(s, s', u)
    requires Good(s', t)
    requires Kinds(s') && Reaping(s') && CallsInOrder(s') && CallsReturnOnce(s')
    ensures Core(s')
  {
    hide Core, FramesKept, Untouched, Good, Kinds, CallsInOrder, CallsReturnOnce, Reaping;
    Assemble(s, s', {t});
  }

  // Steps that change one thread, but neither its kind nor its caller
  ghost predicate OneThread(s: State, s': State, t: Tid) {
    && t < |s.threads| && |s'.threads| == |s.threads|
    && (forall u | 0 <= u < |s.threads| && u != t :: s'.threads[u] == s.threads[u])
    && s'.threads[t].kind == s.threads[t].kind && s'.threads[t].caller == s.threads[t].caller
  }

  lemma KindsKept(s: State, s': State, t: Tid)
    requires Kinds(s) && OneThread(s, s', t)
    ensures Kinds(s')
  {
    forall u | 0 <= u < |s'.threads|
      ensures KindFits(s'.threads[u], u)
    {
      assert KindFits(s.threads[u], u);
    }
  }

  ghost predicate SameCalls(s: State, s': State) {
    s'.waiting == s.waiting && s'.called == s.called && s'.taken == s.taken && s'.workers == s.workers
  }

  lemma OrderKept(s: State, s': State, t: Tid)
    requires Kinds(s) && CallsInOrder(s) && OneThread(s, s', t) && SameCalls(s, s')
    requires t == SYSTEM ==> s'.threads[t].phase == s.threads[t].phase && s'.threads[t].hold == s.threads[t].hold
    ensures CallsInOrder(s')
  {
    forall k | 0 <= k < |s'.workers|
      ensures WorkerFor(s', s'.workers[k], s'.taken[k])
    {
      assert WorkerFor(s, s.workers[k], s.taken[k]);
    }
  }

  lemma ReturnsKept(s: State, s': State, t: Tid)
    requires CallsReturnOnce(s) && OneThread(s, s', t)
    requires s'.called == s.called && s'.returned == s.returned
    requires (Alive(s', t) && Open(s'.threads[t])) == (Alive(s, t) && Open(s.threads[t]))
    ensures CallsReturnOnce(s')
  {
    forall u: Tid
      ensures ReturnsOnce(s', u)
    {
      assert ReturnsOnce(s, u);
    }
  }

  // A thread changes while its part in calls does not.
  lemma RolesKept(s: State, s': State, t: Tid)
    requires Kinds(s) && CallsInOrder(s) && CallsReturnOnce(s)
    requires OneThread(s, s', t) && SameCalls(s, s') && s'.returned == s.returned
    requires s'.threads[t].phase == s.threads[t].phase && s'.threads[t].hold == s.threads[t].hold
    requires s'.threads[t].alive == s.threads[t].alive
    ensures Kinds(s') && CallsInOrder(s') && CallsReturnOnce(s')
  {
    hide Kinds, CallsInOrder, CallsReturnOnce;
    KindsKept(s, s', t);
    OrderKept(s, s', t);
    ReturnsKept(s, s', t);
  }

  // -------------------------------------------------------------- preemption

  lemma StashSpots(s: State, u: Tid)
    requires HasActive(s)
    ensures At(StashActive(s), u) == At(s, u) && Holders(StashActive(s), u) == Holders(s, u)
  {
    HeldSet(s.threads, s.active.value, StashActive(s).threads[s.active.value], u);
  }

  lemma ParkSpots(s: State, u: Tid)
    requires HasActive(s)
    ensures var t, s' := s.active.value, ParkActive(s);
            && At(s', u) == At(s, u).(active := 0,
                queued := At(s, u).queued + (if s'.queued != s.queued && u == t then 1 else 0),
                dangling := At(s, u).dangling + (if s'.dangling != s.dangling && u == t then 1 else 0))
            && (u != t ==> Holders(s', u) == Holders(s, u))
  {
    hide Count;
    CountAppend(s.queued, s.active.value, u);
    CountAppend(s.dangling, s.active.value, u);
  }

  lemma PreemptSpots(s: State, u: Tid)
    requires HasActive(s)
    ensures var t, s' := s.active.value, Preempt(s);
            && FramesKept(s, s')
            && At(s', u) == At(s, u).(active := 0,
                queued := At(s, u).queued + (if s'.queued != s.queued && u == t then 1 else 0),
                dangling := At(s, u).dangling + (if s'.dangling != s.dangling && u == t then 1 else 0))
            && Owned(s'.mutexes, u) == Owned(s.mutexes, u)
            && (u != t ==> Untouched(s, s', u))
  {
    hide Count, Held, Parked, Owned;
    StashSpots(s, u);
    ParkSpots(StashActive(s), u);
  }

  lemma PreemptHolders(s: State, u: Tid)
    requires HasActive(s)
    ensures var t, s' := s.active.value, Preempt(s);
            Holders(s', u) == Holders(s, u) -
              (if u == t && s'.queued == s.queued && s'.dangling == s.dangling then 1 else 0)
  {
    PreemptSpots(s, u);
  }

  // What Preempt does, field by field
  lemma PreemptShape(s: State)
    requires HasActive(s) && ParkChecks(StashActive(s))
    ensures var t, s' := s.active.value, Preempt(s);
            var th := s.threads[t];
            && s'.threads == s.threads[t := th.(stash := Some(|s.frames|))]
            && s'.frames == s.frames + [Frame(t, s.r0)]
            && s'.active.None? && s'.mutexes == s.mutexes && s'.waiting == s.waiting
            && s'.queued == (if !th.masked && !th.kind.Default? && !th.kind.Fallback? then s.queued + [t] else s.queued)
            && s'.dangling == (if th.masked && Holders(s, t) < 2 then s.dangling + [t] else s.dangling)
            && (!th.masked && (th.kind.Default? || th.kind.Fallback?) ==> Holders(s, t) >= 2)
  {
    hide At, Holders;
    StashSpots(s, s.active.value);
  }

  lemma ParkedOk(t: Tid, th: Thread, p: Spots, refs: nat, frames: seq<Frame>, r0: int)
    requires ThreadOk(t, th, p, refs, frames) && p.active == 1
    requires th.kind.Default? || th.kind.Fallback? || th.kind.SystemHandler? ==> refs >= 2
    requires refs >= 1
    ensures var th', frames' := th.(stash := Some(|frames|)), frames + [Frame(t, r0)];
            if th.masked then
              if refs >= 2 then ThreadOk(t, th', p.(active := 0), refs - 1, frames')
              else ThreadOk(t, th', p.(active := 0, dangling := p.dangling + 1), refs, frames')
            else if th.kind.Default? || th.kind.Fallback? then ThreadOk(t, th', p.(active := 0), refs - 1, frames')
            else ThreadOk(t, th', p.(active := 0, queued := p.queued + 1), refs, frames')
  {
  }

  lemma PreemptFine(s: State)
    requires Sound(s) && HasActive(s) && ParkChecks(StashActive(s))
    ensures Fine(Preempt(s), s.active.value)
    ensures Reaping(Preempt(s))
  {
    hide At, Holders, Count, CallsInOrder, CallsReturnOnce, Kinds, Counted, Placed, Holding, Fifo, Preempt, StashActive, ParkChecks, ThreadOk, HoldFits;
    var t, s' := s.active.value, Preempt(s);
    ActiveFacts(s);
    PreemptShape(s);
    PreemptSpots(s, t);
    PreemptHolders(s, t);
    ParkedOk(t, s.threads[t], At(s, t), Holders(s, t), s.frames, s.r0);
  }

  lemma PreemptCounted(s: State, u: Tid)
    requires Counted(s) && HasActive(s) && ParkChecks(StashActive(s))
    ensures Holders(Preempt(s), u) > 0 <==> Alive(Preempt(s), u)
  {
    hide At, Holders, Preempt, StashActive, ParkChecks;
    PreemptShape(s);
    PreemptHolders(s, u);
    assert Alive(Preempt(s), u) <==> Alive(s, u);
    assert |s.queued + [s.active.value]| > |s.queued| && |s.dangling + [s.active.value]| > |s.dangling|;
  }

  lemma PreemptSound(s: State)
    requires Sound(s) && HasActive(s) && ParkChecks(StashActive(s))
    ensures Sound(Preempt(s)) && Preempt(s).active.None?
  {
    hide At, Holders, Count, CallsInOrder, CallsReturnOnce, Kinds, Placed, Holding, HoldFits, ThreadOk, Fine, HoldFine;
    var t, s' := s.active.value, Preempt(s);
    ActiveFacts(s);
    RolesKept(s, s', t);
    forall u: Tid
      ensures u != t ==> Untouched(s, s', u)
    {
      PreemptSpots(s, u);
    }
    PreemptFine(s);
    PreemptCounted(s, t);
    OwnHold(s, s', t);
    AssembleOne(s, s', t);
  }
}
