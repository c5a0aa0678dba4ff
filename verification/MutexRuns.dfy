/** Whole runs: any sequence of mutex calls, timeouts, sleeps and wake-ups by any threads. */
module MutexRuns {
  import opened Chains
  import opened Common
  import opened Lists
  import opened MutexObjects
  import opened WaitGraph
  import opened InheritanceProofs
  import opened MutexSteps
  import opened WaitOrder
  import opened MutexKernel
  import opened Exactness
  import opened Deadlock

  datatype Op =
    | Take(thread: Thread, mutex: Mutex, timeout: int)
    | Release(thread: Thread, mutex: Mutex)
    | Abandon(thread: Thread)
    | SetCeiling(mutex: Mutex, priority: Priority, priorityMax: nat)
    | Sleep(thread: Thread)
    | Wake(thread: Thread)

  ghost predicate KnownThread(s: State, op: Op) {
    !op.SetCeiling? ==> op.thread in s.th
  }

  ghost predicate KnownMutex(s: State, op: Op) {
    op.Take? || op.Release? || op.SetCeiling? ==> op.mutex in s.mx
  }

  ghost predicate Known(s: State, op: Op) {
    KnownThread(s, op) && KnownMutex(s, op)
  }

  // ---- What one event does ----

  /** A call by a thread that cannot make it now does nothing. */
  ghost predicate Next(s: State, op: Op, n: State)
    requires s.Valid() && Known(s, op)
  {
    match op
    case Take(t, m, timeout) => if s.th[t].suspended then n == s else NextTake(s, t, m, timeout, n)
    case Release(t, m) => if s.th[t].suspended then n == s else NextRelease(s, t, m, n)
    case Abandon(t) => if s.th[t].pending == null then n == s else NextAbandon(s, t, n)
    case SetCeiling(m, p, max) => Settles(if p < max then WithCeiling(s, m, p) else s, n)
    case Sleep(t) => n == if s.th[t].pending == null then Rewaited(s, t, true, null) else s
    case Wake(t) => n == if s.th[t].pending == null then Rewaited(s, t, false, null) else s
  }

  ghost predicate NextTake(s: State, t: Thread, m: Mutex, timeout: int, n: State)
    requires s.Valid() && t in s.th && m in s.mx
  {
    AtMutex(s, m);
    var v := s.mx[m];
    if v.owner == t then n == if v.hold < MUTEX_HOLD_MAX then Relocked(s, m, v.hold + 1) else s
    else if v.owner == null then n == Acquired(s, t, m).SetCurr(t, Min(s.th[t].curr, v.ceiling))
    else if timeout == 0 then n == s
    else Settles(Blocked(s, t, m), n)
  }

  ghost predicate NextRelease(s: State, t: Thread, m: Mutex, n: State)
    requires s.Valid() && t in s.th && m in s.mx
  {
    AtMutex(s, m);
    var v := s.mx[m];
    if v.owner != t then n == s
    else if v.hold > 1 then n == Relocked(s, m, v.hold - 1)
    else if v.waiters == [] then t in n.th && n == Freed(s, t, m, n.th[t].curr)
    else t in n.th && n == HandedOver(s, t, m, n.th[t].curr, v.waiters[0])
  }

  ghost predicate NextAbandon(s: State, t: Thread, n: State)
    requires s.Valid() && t in s.th && s.th[t].pending != null
  {
    AtThread(s, t);
    AtMutex(s, s.th[t].pending);
    Settles(Unqueued(s, t, s.th[t].pending), n)
  }

  /** The call makes its thread wait, through others, for itself. */
  ghost predicate Closes(s: State, op: Op)
    requires Known(s, op)
  {
    && op.Take? && !s.th[op.thread].suspended && op.timeout != 0
    && s.mx[op.mutex].owner != null && s.mx[op.mutex].owner != op.thread
    && var o: Thread := s.mx[op.mutex].owner; Waits(s.Waiting(), o, op.thread)
  }

  /** The call hands a mutex to a waiter that is less urgent than the ceiling. */
  ghost predicate PastCeiling(s: State, op: Op)
    requires s.Valid() && Known(s, op)
  {
    && op.Release? && !s.th[op.thread].suspended && HandsOver(s, op.thread, op.mutex)
    && HeadPriority(s.th, s.mx[op.mutex].waiters) > s.mx[op.mutex].ceiling
  }

  ghost predicate HandsOver(s: State, t: Thread, m: Mutex)
    requires s.Valid() && m in s.mx
    ensures forall w | w in s.mx[m].waiters :: w in s.th
  {
    AtMutex(s, m);
    s.mx[m].owner == t && s.mx[m].hold == 1 && s.mx[m].waiters != []
  }

  lemma RewaitedFrame(s: State, t: Thread, suspended: bool)
    requires t in s.th
    ensures var r := Rewaited(s, t, suspended, null);
      && r.mx == s.mx && r.th.Keys == s.th.Keys && r.th[t].pending == null
      && (forall u | u in s.th ::
            r.th[u].init == s.th[u].init && r.th[u].curr == s.th[u].curr && r.th[u].taken == s.th[u].taken)
      && (forall u | u in s.th && u != t :: r.th[u] == s.th[u])
  {}

  lemma SameStructure(s: State, r: State, t: Thread)
    requires s.Valid() && r.mx == s.mx && r.th.Keys == s.th.Keys && t in s.th
    requires s.th[t].pending == null && r.th[t].pending == null
    requires forall u | u in s.th :: r.th[u].taken == s.th[u].taken
    requires forall u | u in s.th && u != t :: r.th[u] == s.th[u]
    ensures r.Structured() && r.Waiting() == s.Waiting()
  {
    hide State.Valid, State.Structured, State.ThreadStructured, State.MutexStructured;
    forall k | k in r.mx ensures r.MutexStructured(k) {
      AtMutex(s, k);
      SameMutex(s, r, k);
    }
    forall u | u in r.th ensures r.ThreadStructured(u) {
      AtThread(s, u);
      SameThread(s, r, t, u);
    }
    AllStructured(r);
  }

  lemma SameMutex(s: State, r: State, k: Mutex)
    requires k in s.mx && s.MutexStructured(k) && r.mx == s.mx && r.th.Keys == s.th.Keys
    requires forall u | u in s.th :: r.th[u].pending == s.th[u].pending && r.th[u].taken == s.th[u].taken
    ensures r.MutexStructured(k)
  {}

  lemma SameThread(s: State, r: State, t: Thread, u: Thread)
    requires u in s.th && s.ThreadStructured(u) && r.mx == s.mx && r.th.Keys == s.th.Keys
    requires r.th[u].taken == s.th[u].taken && (u == t ==> r.th[u].pending == null) && (u != t ==> r.th[u] == s.th[u])
    ensures r.ThreadStructured(u)
  {}

  /** Priorities, taken lists and queues did not change, so neither did the equations. */
  lemma SameEquations(s: State, r: State)
    requires s.QueuesRight(s.th) && s.ThreadsRightExcept(null) && r.mx == s.mx && r.th.Keys == s.th.Keys
    requires forall u | u in s.th ::
      r.th[u].init == s.th[u].init && r.th[u].curr == s.th[u].curr && r.th[u].taken == s.th[u].taken
    ensures r.QueuesRight(r.th) && r.ThreadsRightExcept(null)
  {
    forall k | k in r.mx ensures r.QueueRight(r.th, k) {
      assert s.QueueRight(s.th, k);
      SortedElsewhere(s.th, r.th, s.mx[k].waiters);
    }
    forall u | u in r.th ensures r.ThreadRight(u) {
      assert s.ThreadRight(u);
      SameBest(s, r, u, s.th[u].curr);
    }
  }

  lemma SleepValid(s: State, t: Thread, suspended: bool)
    requires s.Valid() && t in s.th && s.th[t].pending == null
    ensures Rewaited(s, t, suspended, null).Valid() && Rewaited(s, t, suspended, null).Waiting() == s.Waiting()
  {
    var r := Rewaited(s, t, suspended, null);
    hide *;
    ValidParts(s);
    RewaitedFrame(s, t, suspended);
    SameStructure(s, r, t);
    SameEquations(s, r);
    ValidParts(r);
  }

  // ---- Cycles ----

  /** An event closes a cycle exactly when it makes a thread wait, through others, for itself. */
  lemma NextAcyclic(s: State, op: Op, n: State)
    requires s.Valid() && Known(s, op) && Next(s, op, n) && Acyclic(s.Waiting())
    ensures Acyclic(n.Waiting()) <==> !Closes(s, op)
  {
    hide Acyclic, State.Valid, State.Waiting, SameGraph, OrderKept, Waits, NextTake, NextRelease, NextAbandon, Rewaited,
      WithCeiling;
    match op {
      case Take(t, m, timeout) => if !s.th[t].suspended { TakeAcyclic(s, t, m, timeout, n); }
      case Release(t, m) => if !s.th[t].suspended { ReleaseAcyclic(s, t, m, n); }
      case Abandon(t) =>
        if s.th[t].pending != null { AbandonAcyclic(s, t, n); }
      case SetCeiling(m, p, max) =>
        if p < max { CeilingWaiting(s, m, p, n); } else { SameGraphWaiting(s, n); }
      case Sleep(t) => if s.th[t].pending == null { SleepValid(s, t, true); }
      case Wake(t) => if s.th[t].pending == null { SleepValid(s, t, false); }
    }
  }

  lemma TakeAcyclic(s: State, t: Thread, m: Mutex, timeout: int, n: State)
    requires s.Valid() && t in s.th && m in s.mx && !s.th[t].suspended && Acyclic(s.Waiting())
    requires NextTake(s, t, m, timeout, n)
    ensures Acyclic(n.Waiting()) <==> !Closes(s, Take(t, m, timeout))
  {
    hide Acyclic, State.Valid, State.Waiting, SameGraph, OrderKept, Waits;
    AtMutex(s, m);
    NotPending(s, t);
    var v := s.mx[m];
    if v.owner == t {
      RelockedWaiting(s, m, v.hold + 1);
    } else if v.owner == null {
      AcquiredFrame(s, t, m);
      AcquiredWaiting(s, t, m, Min(s.th[t].curr, v.ceiling));
    } else if timeout != 0 {
      BlockingClosesCycle(s, t, m, n);
    }
  }

  lemma ReleaseAcyclic(s: State, t: Thread, m: Mutex, n: State)
    requires s.Valid() && t in s.th && m in s.mx && !s.th[t].suspended && Acyclic(s.Waiting())
    requires NextRelease(s, t, m, n)
    ensures Acyclic(n.Waiting())
  {
    hide Acyclic, State.Valid, State.Waiting, HandedOver, Freed, Relocked;
    AtMutex(s, m);
    NotPending(s, t);
    var v := s.mx[m];
    if v.owner == t {
      if v.hold > 1 { RelockedWaiting(s, m, v.hold - 1); }
      else if v.waiters == [] { FreedAcyclic(s, t, m, n.th[t].curr); }
      else { HandedOverAcyclic(s, t, m, n.th[t].curr, v.waiters[0]); }
    }
  }

  lemma AbandonAcyclic(s: State, t: Thread, n: State)
    requires s.Valid() && t in s.th && s.th[t].pending != null && Acyclic(s.Waiting()) && NextAbandon(s, t, n)
    ensures Acyclic(n.Waiting())
  {
    hide Acyclic, State.Valid, State.Waiting, SameGraph, OrderKept;
    AtThread(s, t);
    AtMutex(s, s.th[t].pending);
    UnqueuedAcyclic(s, t, s.th[t].pending, n);
  }

  /**
   * A history that follows the calls: each state but the last is right, and each next one is what the call makes of the
   * one before.
   */
  ghost predicate Follows(ops: seq<Op>, trace: seq<State>) {
    && 0 < |trace| <= |ops| + 1
    && (forall i :: 0 <= i < |trace| - 1 ==> FollowsAt(ops, trace, i))
  }

  ghost predicate FollowsAt(ops: seq<Op>, trace: seq<State>, i: nat)
    requires i + 1 < |trace| <= |ops| + 1
  {
    trace[i].Valid() && Known(trace[i], ops[i]) && Next(trace[i], ops[i], trace[i + 1])
  }

  ghost predicate ClosesAt(ops: seq<Op>, trace: seq<State>, i: nat)
    requires i + 1 < |trace| <= |ops| + 1 && FollowsAt(ops, trace, i)
  {
    Closes(trace[i], ops[i])
  }

  /** From an acyclic start, a history without a closing call has no deadlock at any moment. */
  lemma {:induction false} StaysAcyclic(ops: seq<Op>, trace: seq<State>, n: nat)
    requires Follows(ops, trace) && Acyclic(trace[0].Waiting()) && n < |trace|
    requires forall i: nat :: i < n ==> !ClosesAt(ops, trace, i)
    ensures Acyclic(trace[n].Waiting())
  {
    hide State.Valid, State.Waiting, Acyclic, Next, Closes, Known;
    if n > 0 {
      StaysAcyclic(ops, trace, n - 1);
      assert FollowsAt(ops, trace, n - 1) && !ClosesAt(ops, trace, n - 1);
      NextAcyclic(trace[n - 1], ops[n - 1], trace[n]);
    }
  }

  // ---- The calls ----

  ghost predicate Part(k: Kernel, op: Op) {
    (!op.SetCeiling? ==> op.thread in k.threads)
      && (op.Take? || op.Release? || op.SetCeiling? ==> op.mutex in k.mutexes)
  }

  /** What `Take` promises is what `NextTake` says. */
  lemma TakeNext(s: State, t: Thread, m: Mutex, timeout: int, r: TakeResult, n: State)
    requires s.Valid() && t in s.th && m in s.mx
    requires r == Taken || r == Full <==> s.mx[m].owner == null || s.mx[m].owner == t
    requires r == Full <==> s.mx[m].owner == t && s.mx[m].hold == MUTEX_HOLD_MAX
    requires r == TimedOut <==> s.mx[m].owner != null && s.mx[m].owner != t && timeout == 0
    requires r == Full || r == TimedOut ==> n == s
    requires r == Taken ==>
      n == if s.mx[m].owner == t then Relocked(s, m, s.mx[m].hold + 1)
           else Acquired(s, t, m).SetCurr(t, Min(s.th[t].curr, s.mx[m].ceiling))
    requires r == Waiting ==>
      (forall w | w in s.mx[m].waiters :: w in s.th) && Settles(Blocked(s, t, m), n)
    ensures NextTake(s, t, m, timeout, n)
  {
    hide Settles, Relocked, Acquired, Blocked, State.SetCurr, Min, State.Valid, State.MutexStructured, State.QueueRight,
      Sorted, Distinct;
    AtMutex(s, m);
    HoldAtMost(s, m);
  }

  lemma HoldAtMost(s: State, m: Mutex)
    requires s.Valid() && m in s.mx
    ensures s.mx[m].hold <= MUTEX_HOLD_MAX && (s.mx[m].owner != null <==> s.mx[m].hold > 0)
  {
    AtMutex(s, m);
  }

  method TakeStep(k: Kernel, t: Thread, m: Mutex, timeout: int)
    requires k.Snap().Valid() && t in k.threads && m in k.mutexes && !t.suspended
    modifies m`owner, m`hold, t`taken, t`suspended, t`pending
    modifies k.threads`currPriority, k.mutexes`waiters, k.mutexes`priority
    ensures t in old(k.Snap()).th && m in old(k.Snap()).mx
    ensures k.Snap().Valid() && NextTake(old(k.Snap()), t, m, timeout, k.Snap())
  {
    hide *;
    ghost var s := k.Snap();
    k.View(t);
    k.MutexIn(m);
    var r := k.Take(t, m, timeout);
    TakeNext(s, t, m, timeout, r, k.Snap());
  }

  /**
   * What `Release` promises is what `NextRelease` says, and the ceiling is passed over exactly when it breaks an
   * equation.
   */
  lemma ReleaseNext(s: State, t: Thread, m: Mutex, r: ReleaseResult, c: Priority, n: State)
    requires s.Valid() && t in s.th && m in s.mx && t in n.th && n.th[t].curr == c
    requires r == NotOwner <==> s.mx[m].owner != t
    requires r == NotOwner ==> n == s
    requires r == StillHeld <==> s.mx[m].owner == t && s.mx[m].hold > 1
    requires r == StillHeld ==> n == Relocked(s, m, s.mx[m].hold - 1)
    requires r == Released ==> s.mx[m].waiters == [] && n == Freed(s, t, m, c)
    requires r.HandedTo? ==>
      && s.mx[m].waiters != [] && r.next == s.mx[m].waiters[0] && r.next in s.th && r.next != t
      && (forall w | w in s.mx[m].waiters :: w in s.th) && n == HandedOver(s, t, m, c, r.next)
    requires n.Valid() <==> r.HandedTo? ==> s.th[r.next].curr <= s.mx[m].ceiling
    ensures NextRelease(s, t, m, n) && (r.HandedTo? <==> HandsOver(s, t, m))
    ensures n.Valid() <==> (HandsOver(s, t, m) ==> HeadPriority(s.th, s.mx[m].waiters) <= s.mx[m].ceiling)
  {
    hide Settles, Relocked, HandedOver, Freed, State.Valid;
    AtMutex(s, m);
    HoldAtMost(s, m);
  }

  method ReleaseStep(k: Kernel, t: Thread, m: Mutex) returns (past: bool)
    requires k.Snap().Valid() && t in k.threads && m in k.mutexes && !t.suspended
    modifies m`owner, m`priority, m`hold, m`waiters
    modifies t`currPriority, k.threads`taken, k.threads`suspended, k.threads`pending
    ensures t in old(k.Snap()).th && m in old(k.Snap()).mx
    ensures NextRelease(old(k.Snap()), t, m, k.Snap())
    ensures past <==> HandsOver(old(k.Snap()), t, m)
                      && HeadPriority(old(k.Snap()).th, old(k.Snap()).mx[m].waiters) > old(k.Snap()).mx[m].ceiling
    ensures k.Snap().Valid() <==> !past
  {
    hide *;
    ghost var s := k.Snap();
    k.View(t);
    k.MutexIn(m);
    AtMutex(s, m);
    var next := if m.waiters == [] then t else m.waiters[0];
    var urgency := if m.waiters == [] then NO_PRIORITY else next.currPriority;
    HeadIs(k, m, next);
    var r := k.Release(t, m);
    k.View(t);
    past := r.HandedTo? && urgency > m.ceiling;
    ReleaseNext(s, t, m, r, t.currPriority, k.Snap());
  }

  lemma HeadIs(k: Kernel, m: Mutex, next: Thread)
    requires k.Snap().Valid() && m in k.mutexes && (m.waiters != [] ==> next == m.waiters[0])
    ensures m in k.Snap().mx && forall w | w in k.Snap().mx[m].waiters :: w in k.Snap().th
    ensures m.waiters != [] ==> HeadPriority(k.Snap().th, k.Snap().mx[m].waiters) == next.currPriority
  {
    k.MutexIn(m);
    AtMutex(k.Snap(), m);
    if m.waiters != [] {
      assert next in m.waiters && next in k.Snap().th;
      k.View(next);
    }
  }

  method AbandonStep(k: Kernel, t: Thread)
    requires k.Snap().Valid() && t in k.threads && t.pending != null
    modifies t`suspended, t`pending, k.threads`currPriority, k.mutexes`waiters, k.mutexes`priority
    ensures k.Snap().Valid() && t in old(k.Snap()).th && old(k.Snap()).th[t].pending != null
    ensures NextAbandon(old(k.Snap()), t, k.Snap())
  {
    hide *;
    ghost var s := k.Snap();
    k.View(t);
    k.Abandon(t);
    AbandonNext(s, t, k.Snap());
  }

  lemma AbandonNext(s: State, t: Thread, n: State)
    requires s.Valid() && t in s.th && s.th[t].pending != null
    requires var m: Mutex := s.th[t].pending;
      m in s.mx && (forall w | w in s.mx[m].waiters :: w in s.th) && Settles(Unqueued(s, t, m), n)
    ensures NextAbandon(s, t, n)
  {}

  /** `rt_thread_suspend` and `rt_thread_resume` of a thread that waits for no mutex. */
  method RestStep(k: Kernel, t: Thread, suspended: bool)
    requires k.Snap().Valid() && t in k.threads && t.pending == null
    modifies t`suspended, t`pending
    ensures t in old(k.Snap()).th && k.Snap().Valid() && k.Snap() == Rewaited(old(k.Snap()), t, suspended, null)
  {
    hide *;
    ghost var s := k.Snap();
    k.View(t);
    SleepValid(s, t, suspended);
    k.SetWait(t, suspended, null);
  }

  lemma PartKnown(k: Kernel, op: Op)
    requires Part(k, op)
    ensures Known(k.Snap(), op)
    ensures !op.SetCeiling? ==> op.thread in k.Snap().th && k.Snap().th[op.thread].suspended == op.thread.suspended
                                && k.Snap().th[op.thread].pending == op.thread.pending
  {}

  /** One event, as `Next` has it; only a hand-over past the ceiling leaves a state that is not right. */
  method Step(k: Kernel, op: Op) returns (past: bool)
    requires k.Snap().Valid() && Part(k, op)
    modifies k.threads, k.mutexes
    ensures Known(old(k.Snap()), op) && Next(old(k.Snap()), op, k.Snap())
    ensures past <==> PastCeiling(old(k.Snap()), op)
    ensures k.Snap().Valid() <==> !past
  {
    hide State.Valid, Kernel.Snap, NextTake, NextRelease, NextAbandon, Settles, HandsOver, WithCeiling, Rewaited,
      HeadPriority;
    past := false;
    PartKnown(k, op);
    match op {
      case Take(t, m, timeout) =>
        if !t.suspended { TakeStep(k, t, m, timeout); }
      case Release(t, m) =>
        if !t.suspended { past := ReleaseStep(k, t, m); }
      case Abandon(t) =>
        if t.pending != null { AbandonStep(k, t); }
      case SetCeiling(m, p, max) =>
        var previous := k.SetCeiling(m, p, max);
      case Sleep(t) =>
        if t.pending == null { RestStep(k, t, true); }
      case Wake(t) =>
        if t.pending == null { RestStep(k, t, false); }
    }
  }

  /**
   * Whole runs, up to a hand-over past the ceiling: `trace` is the history, all of it right but for a last state that
   * such a hand-over made. Whenever nobody waits for itself, be it that no cycle was closed or that a time-out broke
   * it, every thread runs at exactly the priority that it should inherit.
   */
  method Run(k: Kernel, ops: seq<Op>) returns (ghost trace: seq<State>)
    requires k.Snap().Valid() && forall op | op in ops :: Part(k, op)
    modifies k.threads, k.mutexes
    ensures Follows(ops, trace) && trace[0] == old(k.Snap()) && trace[|trace| - 1] == k.Snap()
    ensures k.Snap().Valid() ==> |trace| == |ops| + 1
    ensures !k.Snap().Valid() ==> |trace| > 1 && PastAt(ops, trace, |trace| - 2)
    ensures forall i: nat :: i + 2 < |trace| ==> !PastAt(ops, trace, i)
    ensures k.Snap().Valid() && Acyclic(k.Snap().Waiting()) ==>
      forall t | t in k.threads :: t in k.Snap().th && Exact(k.Snap(), t)
  {
    hide Acyclic, State.Valid, State.Waiting, Kernel.Snap, Exact, Next, PastCeiling, Known;
    trace := [k.Snap()];
    var past := false;
    var i := 0;
    while i < |ops| && !past
      invariant i <= |ops| && |trace| == i + 1 && Follows(ops, trace) && trace[0] == old(k.Snap())
        && trace[i] == k.Snap()
      invariant k.Snap().Valid() <==> !past
      invariant past ==> i > 0 && PastAt(ops, trace, i - 1)
      invariant forall j: nat :: j + 1 < i || (j < i && !past) ==> !PastAt(ops, trace, j)
    {
      assert ops[i] in ops;
      ghost var was := trace;
      past := Step(k, ops[i]);
      trace := trace + [k.Snap()];
      Extends(ops, was, k.Snap());
      i := i + 1;
    }
    if !past && Acyclic(k.Snap().Waiting()) {
      forall t | t in k.threads ensures t in k.Snap().th && Exact(k.Snap(), t) {
        k.View(t);
        InheritanceExact(k.Snap(), t);
      }
    }
  }

  ghost predicate PastAt(ops: seq<Op>, trace: seq<State>, i: nat)
    requires i + 1 < |trace| <= |ops| + 1 && Follows(ops, trace)
  {
    assert FollowsAt(ops, trace, i);
    PastCeiling(trace[i], ops[i])
  }

  lemma Extends(ops: seq<Op>, trace: seq<State>, n: State)
    requires Follows(ops, trace) && |trace| <= |ops|
    requires var last := |trace| - 1;
      trace[last].Valid() && Known(trace[last], ops[last]) && Next(trace[last], ops[last], n)
    ensures Follows(ops, trace + [n])
    ensures forall j: nat :: j < |trace| - 1 ==> (PastAt(ops, trace + [n], j) <==> PastAt(ops, trace, j))
    ensures PastAt(ops, trace + [n], |trace| - 1) <==> PastCeiling(trace[|trace| - 1], ops[|trace| - 1])
  {
    hide State.Valid, Known, Next, PastCeiling;
    var more := trace + [n];
    forall i: nat | i < |more| - 1 ensures FollowsAt(ops, more, i) {
      if i < |trace| - 1 { assert FollowsAt(ops, trace, i); }
    }
  }

  // ---- What happens ----

  /** Two threads, of priorities 5 and 10, and a free mutex. */
  ghost function CeilingStart(first: Thread, second: Thread, m: Mutex, ceiling: Priority): State {
    State(map[first := ThreadView(5, 5, false, null, []), second := ThreadView(10, 10, false, null, [])],
          map[m := MutexView(null, NO_PRIORITY, 0, ceiling, [])])
  }

  /** The first holds the mutex, and the second may wait for it. */
  ghost function CeilingExample(first: Thread, second: Thread, m: Mutex, waits: bool): State {
    State(map[first := ThreadView(5, 3, false, null, [m]),
              second := ThreadView(10, 10, waits, if waits then m else null, [])],
          map[m := MutexView(first, if waits then 10 else NO_PRIORITY, 1, 3, if waits then [second] else [])])
  }

  /** With the mutex handed over, the second runs at its own priority, not at the ceiling. */
  ghost function CeilingBroken(first: Thread, second: Thread, m: Mutex): State {
    State(map[first := ThreadView(5, 5, false, null, []), second := ThreadView(10, 10, false, null, [m])],
          map[m := MutexView(second, NO_PRIORITY, 1, 3, [])])
  }

  lemma StartValid(first: Thread, second: Thread, m: Mutex, ceiling: Priority)
    requires first != second
    ensures CeilingStart(first, second, m, ceiling).Valid()
  {}

  lemma ExampleValid(first: Thread, second: Thread, m: Mutex, waits: bool)
    requires first != second
    ensures CeilingExample(first, second, m, waits).Valid()
  {
    var s := CeilingExample(first, second, m, waits);
    assert s.Structured();
    assert s.QueuesRight(s.th);
    assert s.ThreadRight(first) by { assert s.Lends(m) == 3 && m in s.th[first].taken; }
    assert s.ThreadRight(second);
  }

  lemma BrokenInvalid(first: Thread, second: Thread, m: Mutex)
    requires first != second
    ensures !CeilingBroken(first, second, m).Valid()
  {
    hide State.Structured, State.QueuesRight;
    var s := CeilingBroken(first, second, m);
    assert m in s.th[second].taken && s.Lends(m) == 3;
    assert !s.ThreadRight(second);
  }

  /** The four calls: a ceiling of 3, both threads take the mutex, and the first gives it up. */
  ghost function CeilingCalls(first: Thread, second: Thread, m: Mutex): seq<Op> {
    [SetCeiling(m, 3, 32), Take(first, m, -1), Take(second, m, -1), Release(first, m)]
  }

  lemma CeilingSteps(first: Thread, second: Thread, m: Mutex)
    requires first != second
    ensures var s, t := CeilingStart(first, second, m, NO_PRIORITY), CeilingStart(first, second, m, 3);
      s.Valid() && t == WithCeiling(s, m, 3) && Settles(WithCeiling(s, m, 3), t)
    ensures var t, u := CeilingStart(first, second, m, 3), CeilingExample(first, second, m, false);
      t.Valid() && u == Acquired(t, first, m).SetCurr(first, 3)
    ensures var u, v := CeilingExample(first, second, m, false), CeilingExample(first, second, m, true);
      u.Valid() && v == Blocked(u, second, m) && Settles(Blocked(u, second, m), v)
  {
    hide State.Valid, Settles;
    StartValid(first, second, m, NO_PRIORITY);
    StartValid(first, second, m, 3);
    ExampleValid(first, second, m, false);
    NothingMoved(CeilingStart(first, second, m, 3));
    NothingMoved(CeilingExample(first, second, m, true));
    CeilingTaken(first, second, m);
    var u := CeilingExample(first, second, m, false);
    assert Enqueued(u.th, [], second) == [second];
  }

  lemma CeilingTaken(first: Thread, second: Thread, m: Mutex)
    requires first != second
    ensures CeilingExample(first, second, m, false)
         == Acquired(CeilingStart(first, second, m, 3), first, m).SetCurr(first, 3)
  {
    var u, r := CeilingExample(first, second, m, false), Acquired(CeilingStart(first, second, m, 3), first, m);
    assert [m] + [] == [m];
    assert r.SetCurr(first, 3).th == u.th;
    assert r.SetCurr(first, 3).mx == u.mx;
  }

  lemma CeilingReleased(first: Thread, second: Thread, m: Mutex)
    requires first != second
    ensures var v, w := CeilingExample(first, second, m, true), CeilingBroken(first, second, m);
      v.Valid() && w == HandedOver(v, first, m, 5, second)
  {
    hide State.Valid;
    ExampleValid(first, second, m, true);
    assert Remove([second], second) == [] && Remove([m], m) == [];
    var r, w := HandedOver(CeilingExample(first, second, m, true), first, m, 5, second),
      CeilingBroken(first, second, m);
    assert [m] + [] == [m];
    assert r.th == w.th;
    assert r.mx == w.mx;
  }

  /** So it happens, from a fresh start: a hand-over that leaves the new owner less urgent than the ceiling. */
  lemma CeilingIgnored(first: Thread, second: Thread, m: Mutex) returns (trace: seq<State>)
    requires first != second
    ensures var ops := CeilingCalls(first, second, m);
      && Follows(ops, trace) && |trace| == 5 && PastAt(ops, trace, 3)
      && trace[0] == CeilingStart(first, second, m, NO_PRIORITY) && trace[4] == CeilingBroken(first, second, m)
      && !trace[4].Valid() && trace[4].th[second].curr == 10 && trace[4].mx[m].owner == second
      && trace[4].mx[m].ceiling == 3
  {
    hide State.Valid, Settles, HandedOver, Blocked, Acquired, WithCeiling;
    var ops := CeilingCalls(first, second, m);
    var s, t := CeilingStart(first, second, m, NO_PRIORITY), CeilingStart(first, second, m, 3);
    var u, v := CeilingExample(first, second, m, false), CeilingExample(first, second, m, true);
    var w := CeilingBroken(first, second, m);
    trace := [s, t, u, v, w];
    CeilingSteps(first, second, m);
    CeilingReleased(first, second, m);
    BrokenInvalid(first, second, m);
    assert FollowsAt(ops, trace, 0) && FollowsAt(ops, trace, 1) && FollowsAt(ops, trace, 2) && FollowsAt(ops, trace, 3);
  }

  /** `second` holds `n` and waits for `m`, which `first` holds. */
  ghost function DeadlockExample(first: Thread, second: Thread, m: Mutex, n: Mutex): State {
    State(map[first := ThreadView(10, 10, false, null, [m]), second := ThreadView(10, 10, true, m, [n])],
          map[m := MutexView(first, 10, 1, NO_PRIORITY, [second]),
            n := MutexView(second, NO_PRIORITY, 1, NO_PRIORITY, [])])
  }

  /** Nothing stops the first from waiting for `n` then: whatever the call makes of this state has a cycle. */
  lemma DeadlockHappens(first: Thread, second: Thread, m: Mutex, n: Mutex, timeout: int, after: State)
    requires first != second && m != n && timeout != 0
    ensures var s := DeadlockExample(first, second, m, n);
      && s.Valid() && Acyclic(s.Waiting())
      && (Next(s, Take(first, n, timeout), after) ==> !Acyclic(after.Waiting()))
  {
    hide Settles, State.Valid, Acyclic, Waits, Next, State.Waiting;
    var s := DeadlockExample(first, second, m, n);
    DeadlockValid(first, second, m, n);
    DeadlockGraph(first, second, m, n);
    OneEdge(second, first);
    if Next(s, Take(first, n, timeout), after) { NextAcyclic(s, Take(first, n, timeout), after); }
  }

  lemma DeadlockGraph(first: Thread, second: Thread, m: Mutex, n: Mutex)
    requires first != second && m != n
    ensures DeadlockExample(first, second, m, n).Waiting() == map[second := first]
  {}

  lemma OneEdge<T>(u: T, t: T)
    requires u != t
    ensures Acyclic(map[u := t]) && Waits(map[u := t], u, t)
  {
    var g := map[u := t];
    forall x, k: nat | x in g && k > 0 ensures !Reaches(g, x, x, k) {}
    assert Reaches(g, t, t, 0);
    assert Reaches(g, u, t, 1);
  }

  lemma DeadlockValid(first: Thread, second: Thread, m: Mutex, n: Mutex)
    requires first != second && m != n
    ensures DeadlockExample(first, second, m, n).Valid()
  {
    var s := DeadlockExample(first, second, m, n);
    assert s.Lends(m) == 10 && s.Lends(n) == NO_PRIORITY;
    assert s.ThreadRight(first) by { assert m in s.th[first].taken; }
  }
}
