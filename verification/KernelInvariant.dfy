/**
 What holds in every state a run of the kernel can reach, whatever its threads do: who
 has a register context, who refers to whom, where each thread is, and the order in which
 calls and locks are served.
 */
module KernelInvariant {
  import opened Wrappers
  import opened KernelState

  // ----------------------------------------------------------------- counting

  lemma CountAppend(q: seq<Tid>, x: Tid, t: Tid)
    ensures Count(q + [x], t) == Count(q, t) + (if t == x then 1 else 0)
  {
  }

  lemma CountTail(q: seq<Tid>, t: Tid)
    requires |q| > 0
    ensures Count(q, t) == (if t == q[0] then 1 else 0) + Count(q[1..], t)
  {
    assert q == [q[0]] + q[1..];
  }

  lemma CountIn(q: seq<Tid>, t: Tid)
    ensures t in q <==> Count(q, t) > 0
  {
  }

  lemma {:induction false} ParkedSet(ms: seq<Mutex>, m: nat, x: Mutex, t: Tid)
    requires m < |ms|
    ensures Parked(ms[m := x], t) + Count(ms[m].waiting, t) == Parked(ms, t) + Count(x.waiting, t)
  {
    if m > 0 {
      ParkedSet(ms[1..], m - 1, x, t);
      assert ms[m := x][1..] == ms[1..][m - 1 := x];
    } else {
      assert ms[m := x][1..] == ms[1..];
    }
  }

  lemma {:induction false} OwnedSet(ms: seq<Mutex>, m: nat, x: Mutex, t: Tid)
    requires m < |ms|
    ensures Owned(ms[m := x], t) + One(ms[m].holder, t) == Owned(ms, t) + One(x.holder, t)
  {
    if m > 0 {
      OwnedSet(ms[1..], m - 1, x, t);
      assert ms[m := x][1..] == ms[1..][m - 1 := x];
    } else {
      assert ms[m := x][1..] == ms[1..];
    }
  }

  lemma {:induction false} HeldSet(ts: seq<Thread>, h: nat, x: Thread, t: Tid)
    requires h < |ts|
    ensures Held(ts[h := x], t) + One(ts[h].hold, t) == Held(ts, t) + One(x.hold, t)
  {
    if h > 0 {
      HeldSet(ts[1..], h - 1, x, t);
      assert ts[h := x][1..] == ts[1..][h - 1 := x];
    } else {
      assert ts[h := x][1..] == ts[1..];
    }
  }

  lemma {:induction false} HeldAppend(ts: seq<Thread>, x: Thread, t: Tid)
    ensures Held(ts + [x], t) == Held(ts, t) + One(x.hold, t)
  {
    if ts == [] {
      assert ts + [x] == [x];
      assert Held([x][1..], t) == 0;
    } else {
      HeldAppend(ts[1..], x, t);
      assert (ts + [x])[1..] == ts[1..] + [x];
    }
  }

  lemma {:induction false} ParkedAt(ms: seq<Mutex>, m: nat, t: Tid)
    requires m < |ms|
    ensures Count(ms[m].waiting, t) <= Parked(ms, t)
  {
    if m > 0 {
      ParkedAt(ms[1..], m - 1, t);
    }
  }

  // Two mutexes on which the same thread waits count it twice.
  lemma {:induction false} ParkedTwice(ms: seq<Mutex>, m: nat, n: nat, t: Tid)
    requires m < n < |ms| && t in ms[m].waiting && t in ms[n].waiting
    ensures Parked(ms, t) >= 2
  {
    CountIn(ms[m].waiting, t);
    CountIn(ms[n].waiting, t);
    if m > 0 {
      ParkedTwice(ms[1..], m - 1, n - 1, t);
    } else {
      ParkedAt(ms[1..], n - 1, t);
    }
  }

  lemma {:induction false} ParkedWhere(ms: seq<Mutex>, t: Tid) returns (m: nat)
    requires Parked(ms, t) > 0
    ensures m < |ms| && t in ms[m].waiting
  {
    CountIn(ms[0].waiting, t);
    if t in ms[0].waiting {
      m := 0;
    } else {
      m := ParkedWhere(ms[1..], t);
      m := m + 1;
    }
  }

  lemma {:induction false} OwnedAt(ms: seq<Mutex>, m: nat, t: Tid)
    requires m < |ms|
    ensures One(ms[m].holder, t) <= Owned(ms, t)
  {
    if m > 0 {
      OwnedAt(ms[1..], m - 1, t);
    }
  }

  lemma {:induction false} HeldAt(ts: seq<Thread>, h: nat, t: Tid)
    requires h < |ts|
    ensures One(ts[h].hold, t) <= Held(ts, t)
  {
    if h > 0 {
      HeldAt(ts[1..], h - 1, t);
    }
  }

  lemma {:induction false} HeldTwice(ts: seq<Thread>, g: nat, h: nat, t: Tid)
    requires g < h < |ts| && ts[g].hold == Some(t) == ts[h].hold
    ensures Held(ts, t) >= 2
  {
    if g > 0 {
      HeldTwice(ts[1..], g - 1, h - 1, t);
    } else {
      HeldAt(ts[1..], h - 1, t);
    }
  }

  // --------------------------------------------------------- one thread's view

  predicate DeadOk(th: Thread, p: Spots) {
    th.masked && p.queued == p.parked == p.waiting == 0 && p.Total() <= 1
  }

  predicate OrdinaryOk(th: Thread, p: Spots) {
    && th.hold.None?
    && match th.phase
       case Dead => DeadOk(th, p)
       case Running => p.Total() == 1 && p.waiting == p.dangling == p.held == 0 && (th.masked <==> p.parked == 1)
       case InCall => p.Total() == 1 && p.waiting + p.held == 1 && (p.waiting == 1 ==> th.masked)
       case Exited => p.Total() == p.held == 1 && th.masked
       case _ => false
  }

  predicate WorkerOk(th: Thread, p: Spots) {
    if th.phase.Dead? then DeadOk(th, p)
    else
      && p.Total() == 1 && p.waiting == p.dangling == 0 && (th.masked <==> p.parked == 1)
      && match th.phase
         case Call => th.hold.Some?
         case Unmask => p.held == 0 && th.hold.Some?
         case Requeue => p.held == 0 && th.hold.Some?
         case ExitCheck => p.held == 0 && th.hold.Some?
         case Finished => p.held == 0
         case _ => false
  }

  predicate SystemOk(th: Thread, p: Spots) {
    && p.waiting == p.dangling == p.held == 0
    && p.active + p.queued == (if th.masked then 0 else 1)
    && (th.phase.Running? || th.phase.Take? || th.phase.Build? || th.phase.Add?)
    && (th.hold.Some? <==> th.phase.Build? || th.phase.Add?)
  }

  predicate DefaultOk(th: Thread, p: Spots) {
    && p.waiting == p.dangling == p.held == 0
    && (th.phase.Running? || th.phase.Check? || th.phase.Drop?)
    && (th.hold.Some? <==> !th.phase.Running?)
  }

  predicate FallbackOk(th: Thread, p: Spots) {
    p.Total() == p.active && !th.masked && th.phase.Running? && th.hold.None?
  }

  // refs is the reference count, frames the register contexts on the stacks
  predicate ThreadOk(t: Tid, th: Thread, p: Spots, refs: nat, frames: seq<Frame>) {
    && p.active <= 1
    && (th.stash.Some? <==> p.active == 0)
    && (th.stash.Some? ==> th.stash.value < |frames| && frames[th.stash.value].owner == t)
    && (p.dangling > 0 ==> th.masked && refs == 1)
    && match th.kind
       case Ordinary => OrdinaryOk(th, p)
       case Worker => WorkerOk(th, p)
       case SystemHandler => SystemOk(th, p)
       case Default => DefaultOk(th, p)
       case Fallback => FallbackOk(th, p)
  }

  // What the local RefPtr of `th` refers to
  predicate HoldOk(th: Thread, other: Thread, refs: nat, frames: seq<Frame>)
    requires th.hold.Some?
  {
    match th.kind
    case SystemHandler =>
      if th.phase.Build? then other.kind.Ordinary? && other.phase.InCall? && other.masked
      else other.kind.Worker? && other.phase.Call? && !other.masked
    case Worker =>
      && th.hold.value == th.caller && other.kind.Ordinary?
      && (match th.phase
          case Call => other.phase.InCall? && other.masked && other.stash == Some(th.context)
          case ExitCheck => other.phase.InCall? && other.masked && other.stash == Some(th.context)
          case Unmask => other.phase.InCall? && other.masked && HasResult(th, other, frames)
          case Requeue => other.phase.InCall? && !other.masked && HasResult(th, other, frames)
          case _ => other.phase.Exited?)
    case Default => other.masked && other.phase.Dead? && refs == 1
    case _ => false
  }

  predicate HasResult(th: Thread, other: Thread, frames: seq<Frame>) {
    other.stash == Some(th.context) && th.context < |frames| && frames[th.context].r0 == th.result
  }

  // ---------------------------------------------------------------- invariant

  ghost predicate Alive(s: State, t: Tid) {
    t < |s.threads| && s.threads[t].alive
  }

  ghost predicate Kinds(s: State) {
    && |s.threads| > STARTUP
    && forall t {:trigger KindFits(s.threads[t], t)} | 0 <= t < |s.threads| :: KindFits(s.threads[t], t)
  }

  predicate KindFits(th: Thread, t: Tid) {
    && (th.kind.Default? <==> t == DEFAULT)
    && (th.kind.Fallback? <==> t == FALLBACK)
    && (th.kind.SystemHandler? <==> t == SYSTEM)
  }

  /** A thread exists exactly as long as something refers to it. */
  ghost predicate Counted(s: State) {
    forall t: Tid {:trigger Holders(s, t)} :: Holders(s, t) > 0 <==> Alive(s, t)
  }

  ghost predicate Placed(s: State) {
    forall t: Tid {:trigger ThreadOk(t, s.threads[t], At(s, t), Holders(s, t), s.frames)} | Alive(s, t) ::
      ThreadOk(t, s.threads[t], At(s, t), Holders(s, t), s.frames)
  }

  ghost predicate Holding(s: State) {
    forall h: Tid {:trigger HoldFits(s, h)} | h < |s.threads| && s.threads[h].hold.Some? :: HoldFits(s, h)
  }

  ghost predicate HoldFits(s: State, h: Tid)
    requires h < |s.threads| && s.threads[h].hold.Some?
  {
    var x := s.threads[h].hold.value;
    x < |s.threads| && HoldOk(s.threads[h], s.threads[x], Holders(s, x), s.frames)
  }

  ghost predicate Reaping(s: State) {
    && |s.dangling| <= 1
    && (|s.dangling| == 1 ==> s.active == None || s.active == Some(DEFAULT) || s.active == Some(FALLBACK))
  }

  /** Each mutex is granted in the order in which it was asked for. */
  ghost predicate MutexFifo(mx: Mutex) {
    && mx.asked == mx.granted + mx.waiting
    && (mx.holder.None? ==> mx.waiting == [])
    && (mx.holder.Some? ==> |mx.granted| > 0 && mx.granted[|mx.granted| - 1] == mx.holder.value)
  }

  ghost predicate Fifo(s: State) {
    forall m | 0 <= m < |s.mutexes| :: MutexFifo(s.mutexes[m])
  }

  /** Calls are taken in the order in which they were made, each by a worker of its own. */
  ghost predicate CallsInOrder(s: State)
    requires SYSTEM < |s.threads|
  {
    var system := s.threads[SYSTEM];
    && s.called == s.taken + s.waiting
    && |s.workers| + (if system.phase.Build? then 1 else 0) == |s.taken|
    && (system.phase.Build? ==> system.hold == Some(s.taken[|s.taken| - 1]))
    && (system.phase.Take? ==> |s.waiting| > 0)
    && (forall k | 0 <= k < |s.workers| :: WorkerFor(s, s.workers[k], s.taken[k]))
    && (forall j, k | 0 <= j < k < |s.workers| :: s.workers[j] < s.workers[k])
    && (forall w: Tid {:trigger w in s.workers} | w < |s.threads| && s.threads[w].kind.Worker? :: w in s.workers)
  }

  ghost predicate WorkerFor(s: State, w: Tid, c: Tid) {
    w < |s.threads| && s.threads[w].kind.Worker? && s.threads[w].caller == c
  }

  function Returns(rs: seq<Return>, t: Tid): nat {
    if rs == [] then 0 else Returns(rs[..|rs| - 1], t) + (if rs[|rs| - 1].caller == t then 1 else 0)
  }

  // Thread t is in a call that will return, or is in its last one.
  predicate Open(th: Thread) {
    th.phase.InCall? || th.phase.Exited?
  }

  /** Every call has returned once, or is still open. */
  ghost predicate CallsReturnOnce(s: State) {
    forall t: Tid :: ReturnsOnce(s, t)
  }

  ghost predicate ReturnsOnce(s: State, t: Tid) {
    Count(s.called, t) == Returns(s.returned, t) + (if Alive(s, t) && Open(s.threads[t]) then 1 else 0)
  }

  ghost predicate Core(s: State) {
    && Kinds(s) && Counted(s) && Placed(s) && Holding(s) && Reaping(s)
    && CallsInOrder(s) && CallsReturnOnce(s)
  }

  /** Nobody holds dbgln_mutex. */
  ghost predicate LogFree(s: State) {
    |s.mutexes| > DBGLN ==> s.mutexes[DBGLN].holder.None?
  }

  ghost predicate Sound(s: State) {
    Core(s) && Fifo(s) && LogFree(s)
  }
}
