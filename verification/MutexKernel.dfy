/** The mutex operations themselves, on threads and mutexes updated in place. */
module MutexKernel {
  import opened Common
  import opened Lists
  import opened MutexObjects
  import opened WaitGraph
  import opened InheritanceProofs
  import opened MutexSteps
  import opened WaitOrder

  ghost function SumCurr(th: map<Thread, ThreadView>, ts: seq<Thread>): nat
    requires forall t | t in ts :: t in th
  {
    if ts == [] then 0 else th[ts[0]].curr + SumCurr(th, ts[1..])
  }

  lemma SumMoves(a: map<Thread, ThreadView>, x: Thread, p: Priority, ts: seq<Thread>)
    requires x in a && forall t | t in ts :: t in a
    ensures var b := a[x := a[x].(curr := p)];
      && (p <= a[x].curr ==> SumCurr(b, ts) <= SumCurr(a, ts))
      && (p >= a[x].curr ==> SumCurr(b, ts) >= SumCurr(a, ts))
      && (p < a[x].curr && x in ts ==> SumCurr(b, ts) < SumCurr(a, ts))
      && (p > a[x].curr && x in ts ==> SumCurr(b, ts) > SumCurr(a, ts))
  {
    if ts != [] { SumMoves(a, x, p, ts[1..]); }
  }

  lemma SumBound(th: map<Thread, ThreadView>, ts: seq<Thread>)
    requires forall t | t in ts :: t in th
    ensures SumCurr(th, ts) <= 0xff * |ts|
  {}

  /** What is left for the walk: priorities only move one way, and they are bounded. */
  ghost function Room(th: map<Thread, ThreadView>, ts: seq<Thread>, up: bool): nat
    requires forall t | t in ts :: t in th
  {
    SumBound(th, ts);
    if up then 0xff * |ts| - SumCurr(th, ts) else SumCurr(th, ts)
  }

  lemma RoomFalls(s: State, x: Thread, p: Priority, ts: seq<Thread>)
    requires x in ts && forall t | t in ts :: t in s.th
    ensures forall t | t in ts :: t in s.SetCurr(x, p).th
    ensures p < s.th[x].curr ==> Room(s.SetCurr(x, p).th, ts, false) < Room(s.th, ts, false)
    ensures p > s.th[x].curr ==> Room(s.SetCurr(x, p).th, ts, true) < Room(s.th, ts, true)
  {
    SumMoves(s.th, x, p, ts);
  }

  datatype TakeResult = Taken | Full | TimedOut | Waiting
  datatype ReleaseResult = NotOwner | StillHeld | Released | HandedTo(next: Thread)

  lemma EnqueuedOrder(s: State, m: Mutex, p: Priority, x: Thread)
    requires x in s.th && m in s.mx && forall w | w in Remove(s.mx[m].waiters, x) :: w in s.th
    ensures var r := s.SetQueue(m, p, Enqueued(s.th, Remove(s.mx[m].waiters, x), x));
      OrderKept(s, r, {x}) && Drifts(s, r, {}, true) && Drifts(s, r, {}, false)
  {
    RequeuedOrder(s, m, p, InsertPos(s.th, Remove(s.mx[m].waiters, x), s.th[x].curr), x);
  }

  lemma OwnerMoves(s: State, r: State, x: Thread, owner: Thread, p: Priority, up: bool)
    requires OrderKept(s, r, {x}) && Drifts(s, r, {}, true) && Drifts(s, r, {}, false) && owner in r.th
    requires if up then p > r.th[owner].curr else p < r.th[owner].curr
    ensures OrderKept(s, r.SetCurr(owner, p), {x}) && Drifts(s, r.SetCurr(owner, p), {owner}, up)
  {}

  /**
   * A queue that `t` has joined: behind all that are at least as urgent and before all others, up to the places of
   * threads whose priority propagation has changed.
   */
  ghost predicate Joined(s: State, n: State, t: Thread, m: Mutex) {
    && m in s.mx && m in n.mx && t in s.th && (forall w | w in s.mx[m].waiters :: w in s.th)
    && var w := s.mx[m].waiters;
    exists i: nat ::
      && PlaceOf(s.th, w, t, i)
      && Without(n.mx[m].waiters, Changed(s, n)) == Without(w[..i] + [t] + w[i..], Changed(s, n))
  }

  lemma BlockedJoined(s: State, t: Thread, m: Mutex, n: State)
    requires s.Valid() && t in s.th && m in s.mx && (forall w | w in s.mx[m].waiters :: w in s.th)
    requires Settles(Blocked(s, t, m), n)
    ensures Joined(s, n, t, m)
  {
    hide State.Valid, Without, Blocked, PlaceOf;
    BlockedIs(s, t, m);
    assert Changed(Blocked(s, t, m), n) == Changed(s, n);
    var i := JoinsAt(s.th, s.mx[m].waiters, t, Blocked(s, t, m).mx[m].waiters);
  }

  lemma JoinsAt(th: map<Thread, ThreadView>, w: seq<Thread>, x: Thread, v: seq<Thread>) returns (n: nat)
    requires x in th && (forall t | t in w :: t in th) && Joins(th, w, x, v)
    ensures PlaceOf(th, w, x, n) && n <= |w| && v == w[..n] + [x] + w[n..]
  {
    n :| PlaceOf(th, w, x, n) && v == w[..n] + [x] + w[n..];
  }

  /** A queue that `t` has left; the others keep their order, up to threads whose priority propagation has changed. */
  ghost predicate Left(s: State, n: State, t: Thread, m: Mutex) {
    && m in s.mx && m in n.mx && t !in n.mx[m].waiters
    && var w := s.mx[m].waiters;
    exists i: nat ::
      && i < |w| && w[i] == t
      && Without(n.mx[m].waiters, Changed(s, n)) == Without(w[..i] + w[i + 1..], Changed(s, n))
  }

  lemma UnqueuedLeft(s: State, t: Thread, m: Mutex, n: State)
    requires s.Valid() && t in s.th && s.th[t].pending == m
    requires m in s.mx && (forall w | w in s.mx[m].waiters :: w in s.th) && Settles(Unqueued(s, t, m), n)
    ensures Left(s, n, t, m)
  {
    hide State.Valid, Without, Unqueued;
    AtThread(s, t);
    UnqueuedIs(s, t, m);
    assert Changed(Unqueued(s, t, m), n) == Changed(s, n);
    SettledMembers(Unqueued(s, t, m), n, m);
  }

  lemma SettledMembers(s: State, n: State, m: Mutex)
    requires Settles(s, n) && m in s.mx
    ensures m in n.mx && forall x :: x in n.mx[m].waiters <==> x in s.mx[m].waiters
  {
    assert multiset(n.mx[m].waiters) == multiset(s.mx[m].waiters);
    forall x ensures x in n.mx[m].waiters <==> x in s.mx[m].waiters {
      assert x in multiset(n.mx[m].waiters) <==> x in multiset(s.mx[m].waiters);
    }
  }

  lemma AcquiredAt(k: Kernel, s: State, t: Thread, m: Mutex, p: Priority)
    requires t in k.threads && m in k.mutexes && t in s.th && m in s.mx && k.Snap() == Acquired(s, t, m).SetCurr(t, p)
    ensures t.currPriority == p && m.waiters == s.mx[m].waiters
  {
    hide Acquired, State.SetCurr;
    AcquiredIs(s, t, m, p);
    k.MutexIn(m);
    k.View(t);
  }

  lemma FreedAt(k: Kernel, s: State, t: Thread, m: Mutex, c: Priority)
    requires t in k.threads && m in k.mutexes && s.Valid() && t in s.th && m in s.mx
    requires k.Snap() == Freed(s, t, m, c)
    ensures m.owner == null && m.hold == 0
    ensures forall j | j in k.mutexes :: j in t.taken <==> j in s.th[t].taken && j != m
  {
    hide Freed, State.Valid;
    FreedIs(s, t, m, c);
    k.MutexIn(m);
    k.View(t);
  }

  lemma HandedOverAt(k: Kernel, s: State, t: Thread, m: Mutex, c: Priority, n: Thread)
    requires t in k.threads && m in k.mutexes && n in k.threads
    requires s.Valid() && t in s.th && m in s.mx && s.mx[m].waiters != []
    requires n == s.mx[m].waiters[0] && n in s.th && n != t
    requires (forall w | w in s.mx[m].waiters :: w in s.th) && k.Snap() == HandedOver(s, t, m, c, n)
    ensures m.owner == n && m.hold == 1 && m.waiters == s.mx[m].waiters[1..]
    ensures n.taken == [m] + s.th[n].taken && !n.suspended && n.pending == null
    ensures forall j | j in k.mutexes :: j in t.taken <==> j in s.th[t].taken && j != m
  {
    hide HandedOver, State.Valid;
    HandedOverIs(s, t, m, c, n);
    k.MutexIn(m);
    k.View(t);
    k.View(n);
  }

  class Kernel {
    const threads: seq<Thread>
    const mutexes: seq<Mutex>

    ghost function Snap(): (s: State)
      reads threads, mutexes
      ensures (forall t | t in threads :: t in s.th) && (forall t | t in s.th :: t in threads)
      ensures (forall m | m in mutexes :: m in s.mx) && (forall m | m in s.mx :: m in mutexes)
    {
      State(map t | t in threads :: ThreadView(t.initPriority, t.currPriority, t.suspended, t.pending, t.taken),
            map m | m in mutexes :: MutexView(m.owner, m.priority, m.hold, m.ceiling, m.waiters))
    }

    /** `rt_sched_thread_change_priority`, as far as the mutex code sees it. */
    method ChangePriority(thread: Thread, priority: Priority)
      requires thread in threads
      modifies thread`currPriority
      ensures thread.currPriority == priority
      ensures Snap() == old(Snap()).SetCurr(thread, priority)
    {
      thread.currPriority := priority;
    }

    lemma View(t: Thread)
      requires t in threads
      ensures t in Snap().th && Snap().th[t] == ThreadView(t.initPriority, t.currPriority, t.suspended, t.pending,
        t.taken)
    {}

    lemma MutexIn(m: Mutex)
      requires m in mutexes
      ensures m in Snap().mx && Snap().mx[m] == MutexView(m.owner, m.priority, m.hold, m.ceiling, m.waiters)
    {}

    method SetWaiters(mutex: Mutex, waiters: seq<Thread>)
      requires mutex in mutexes
      modifies mutex`waiters
      ensures mutex.waiters == waiters
      ensures Snap() == old(Snap()).SetQueue(mutex, mutex.priority, waiters)
    {
      mutex.waiters := waiters;
    }

    /** `rt_susp_list_enqueue` with RT_IPC_FLAG_PRIO. */
    method Enqueue(mutex: Mutex, thread: Thread)
      requires thread in threads && mutex in mutexes
      requires forall w | w in mutex.waiters :: w in threads
      modifies mutex`waiters
      ensures mutex.waiters == Enqueued(old(Snap()).th, old(mutex.waiters), thread)
      ensures Snap() == old(Snap()).SetQueue(mutex, mutex.priority, mutex.waiters)
      ensures exists n: nat ::
        && n <= |old(mutex.waiters)| && mutex.waiters == old(mutex.waiters)[..n] + [thread] + old(mutex.waiters)[n..]
        && (forall i :: 0 <= i < n ==> old(mutex.waiters)[i].currPriority <= thread.currPriority)
        && (n < |old(mutex.waiters)| ==> old(mutex.waiters)[n].currPriority > thread.currPriority)
        && (Sorted(old(Snap()).th, old(mutex.waiters)) ==>
              forall i :: n <= i < |old(mutex.waiters)| ==> old(mutex.waiters)[i].currPriority > thread.currPriority)
    {
      hide Sorted, InsertPos, Enqueued;
      var n := FindPlace(mutex, thread);
      SetWaiters(mutex, InsertAt(mutex.waiters, n, thread));
    }

    /** The scan: past every waiter that is at least as urgent. */
    method FindPlace(mutex: Mutex, thread: Thread) returns (n: nat)
      requires thread in threads && mutex in mutexes
      requires forall w | w in mutex.waiters :: w in threads
      ensures n <= |mutex.waiters|
      ensures forall i :: 0 <= i < n ==> mutex.waiters[i].currPriority <= thread.currPriority
      ensures n < |mutex.waiters| ==> mutex.waiters[n].currPriority > thread.currPriority
      ensures Sorted(Snap().th, mutex.waiters) ==>
        forall i :: n <= i < |mutex.waiters| ==> mutex.waiters[i].currPriority > thread.currPriority
      ensures Enqueued(Snap().th, mutex.waiters, thread) == InsertAt(mutex.waiters, n, thread)
    {
      hide Kernel.Snap, Sorted, InsertPos, Enqueued;
      n := 0;
      while n < |mutex.waiters| && mutex.waiters[n].currPriority <= thread.currPriority
        invariant n <= |mutex.waiters|
        invariant forall j :: 0 <= j < n ==> mutex.waiters[j].currPriority <= thread.currPriority
      {
        n := n + 1;
      }
      Urgencies(mutex.waiters);
      View(thread);
      PlaceIs(Snap().th, mutex.waiters, thread, n);
    }

    lemma Urgencies(w: seq<Thread>)
      requires forall x | x in w :: x in threads
      ensures forall i :: 0 <= i < |w| ==> w[i] in Snap().th && Snap().th[w[i]].curr == w[i].currPriority
    {}

    /** `_mutex_update_priority`. */
    method RefreshMutex(mutex: Mutex)
      requires mutex in mutexes && forall w | w in mutex.waiters :: w in threads
      modifies mutex`priority
      ensures mutex.priority == HeadPriority(old(Snap()).th, mutex.waiters)
      ensures Snap() == old(Snap()).SetQueue(mutex, mutex.priority, mutex.waiters)
    {
      if mutex.waiters != [] {
        mutex.priority := mutex.waiters[0].currPriority;
      } else {
        mutex.priority := NO_PRIORITY;
      }
    }

    /** `_thread_get_mutex_priority`. */
    method BestPriority(thread: Thread) returns (priority: Priority)
      requires thread in threads && forall m | m in thread.taken :: m in mutexes
      ensures Snap().IsBest(thread, priority)
    {
      ghost var s := Snap();
      priority := thread.initPriority;
      for i := 0 to |thread.taken|
        invariant priority <= thread.initPriority
        invariant forall m | m in thread.taken[..i] :: priority <= s.Lends(m)
        invariant priority == thread.initPriority || exists m | m in thread.taken[..i] :: priority == s.Lends(m)
      {
        var m := thread.taken[i];
        assert thread.taken[..i + 1] == thread.taken[..i] + [m];
        var lent := if m.priority < m.ceiling then m.priority else m.ceiling;
        assert m in thread.taken && lent == s.Lends(m);
        if priority > lent {
          priority := lent;
          assert m in thread.taken[..i + 1];
        }
      }
      assert thread.taken[..|thread.taken|] == thread.taken;
    }

    /** Put a suspended thread back into its wait list and refresh the mutex (the body of the walk). */
    method Requeue(thread: Thread, mutex: Mutex)
      requires thread in threads && mutex in mutexes && forall w | w in mutex.waiters :: w in threads
      modifies mutex`waiters, mutex`priority
      ensures forall w | w in Remove(old(mutex.waiters), thread) :: w in threads
      ensures var s := old(Snap());
        var v := Enqueued(s.th, Remove(old(mutex.waiters), thread), thread);
        && (forall w | w in v :: w in s.th)
        && Snap() == s.SetQueue(mutex, HeadPriority(s.th, v), v)
      ensures OrderKept(old(Snap()), Snap(), {thread}) && Drifts(old(Snap()), Snap(), {}, true)
        && Drifts(old(Snap()), Snap(), {}, false)
    {
      hide *;
      ghost var s := Snap();
      MutexIn(mutex);
      RemoveSubset(mutex.waiters, thread);
      SetWaiters(mutex, Remove(mutex.waiters, thread));
      SetQueueValue(s, mutex, mutex.priority, mutex.waiters);
      Enqueue(mutex, thread);
      SetQueueValue(s, mutex, mutex.priority, mutex.waiters);
      EnqueuedSubset(s.th, Remove(old(mutex.waiters), thread), thread);
      RefreshMutex(mutex);
      EnqueuedOrder(s, mutex, mutex.priority, thread);
    }

    /** One round of the loop in `_thread_update_priority`, at a thread that waits for a mutex. */
    method Propagate(x: Thread, ghost before: Priority, ghost up: bool) returns (owner: Thread, changed: bool)
      requires x in threads && x.pending != null && WalkInvariant(Snap(), x, before)
      requires if up then x.currPriority >= before else x.currPriority <= before
      modifies threads`currPriority, mutexes`waiters, mutexes`priority
      ensures SameGraph(old(Snap()), Snap())
      ensures !changed ==> Snap().Valid() && Room(Snap().th, threads, up) == Room(old(Snap()).th, threads, up)
      ensures changed ==>
        && owner in threads && WalkInvariant(Snap(), owner, old(owner.currPriority))
        && (if up then owner.currPriority > old(owner.currPriority) else owner.currPriority < old(owner.currPriority))
        && Room(Snap().th, threads, up) < Room(old(Snap()).th, threads, up)
      ensures OrderKept(old(Snap()), Snap(), {x}) && Drifts(old(Snap()), Snap(), if changed then {owner} else {}, up)
    {
      hide *;
      ghost var s := Snap();
      View(x);
      PendingMember(s, x, before);
      var mutex: Mutex := x.pending;
      MutexIn(mutex);
      RequeueResorts(s, x, before, mutex);
      RequeueIs(s, x, before, mutex);
      Requeue(x, mutex);
      ghost var r := Snap();
      MutexIn(mutex);
      owner := mutex.owner;
      View(owner);
      var p := BestPriority(owner);
      WalkStep(s, r, x, before, mutex, p);
      changed := p != owner.currPriority;
      if changed {
        ChangePriority(owner, p);
        RoomFalls(r, owner, p, threads);
        SameGraphTransitive(s, r, Snap());
        OwnerMoves(s, r, x, owner, p, up);
      }
    }

    /**
     * `_thread_update_priority`: give `thread` its new priority and follow the chain of owners as long as priorities
     * change. The equations may be broken at `thread` on entry and hold everywhere on exit, whatever the wait graph
     * looks like.
     */
    method UpdatePriority(thread: Thread, priority: Priority)
      requires thread in threads
      requires var s := Snap();
        s.Structured() && s.QueuesRight(s.th) && s.ThreadsRightExcept(thread) && s.IsBest(thread, priority)
      modifies threads`currPriority, mutexes`waiters, mutexes`priority
      ensures Snap().Valid() && SameGraph(old(Snap()), Snap())
      ensures !old(thread.suspended) ==> Snap() == old(Snap()).SetCurr(thread, priority)
      ensures priority != old(thread.currPriority) ==> Settles(old(Snap()), Snap())
    {
      hide *;
      ghost var start := Snap();
      ghost var before := thread.currPriority;
      ghost var up := priority > before;
      View(thread);
      ChangeStartsWalk(start, thread, priority);
      SetCurrStructured(start, thread, priority);
      ChangePriority(thread, priority);
      SetCurrValue(start, thread, priority);
      ghost var shifts, moved := priority != before, {thread};
      if shifts { FirstMove(start, thread, priority); }
      var x, going := thread, true;
      while going && x.suspended
        invariant shifts ==> OrderKept(start, Snap(), moved) && Drifts(start, Snap(), moved, up)
        invariant going ==> x in moved
        invariant x in threads && SameGraph(start, Snap())
        invariant !start.th[thread].suspended ==> going && x == thread && Snap() == start.SetCurr(thread, priority)
        invariant going ==> WalkInvariant(Snap(), x, before)
        invariant going ==> if up then x.currPriority >= before else x.currPriority <= before
        invariant !going ==> Snap().Valid()
        decreases Room(Snap().th, threads, up), going
      {
        ghost var s := Snap();
        View(x);
        if x.pending == null {
          WalkEndsUnlinked(s, x, before);
          going := false;
        } else {
          label Round:
          var owner, changed := Propagate(x, before, up);
          SameGraphTransitive(start, s, Snap());
          if shifts { NextRound(start, s, Snap(), x, owner, changed, moved, up); }
          if changed {
            moved := moved + {owner};
            before := old@Round(owner.currPriority);
            x := owner;
          } else {
            going := false;
          }
        }
      }
      if going {
        View(x);
        NotSuspended(Snap(), x, before);
        WalkEndsUnlinked(Snap(), x, before);
      }
      if shifts { Settled(start, Snap(), moved, up); }
    }

    /** Threads that were just created, and mutexes that were just initialised. */
    constructor (threads: seq<Thread>, mutexes: seq<Mutex>)
      requires forall t | t in threads :: t.currPriority == t.initPriority && t.pending == null && t.taken == []
      requires forall m | m in mutexes ::
                 m.owner == null && m.priority == NO_PRIORITY && m.hold == 0 && m.waiters == []
      ensures this.threads == threads && this.mutexes == mutexes && Snap().Valid()
    {
      this.threads, this.mutexes := threads, mutexes;
    }

    // ---- Single writes, each with its effect on the snapshot ----

    method WriteCeiling(mutex: Mutex, priority: Priority)
      requires mutex in mutexes
      modifies mutex`ceiling
      ensures mutex.ceiling == priority && Snap() == WithCeiling(old(Snap()), mutex, priority)
    {
      mutex.ceiling := priority;
    }

    method SetHold(mutex: Mutex, hold: nat)
      requires mutex in mutexes
      modifies mutex`hold
      ensures mutex.hold == hold && Snap() == Relocked(old(Snap()), mutex, hold)
    {
      mutex.hold := hold;
    }

    method Acquire(thread: Thread, mutex: Mutex)
      requires thread in threads && mutex in mutexes
      modifies mutex`owner, mutex`priority, mutex`hold, thread`taken
      ensures mutex.owner == thread && mutex.hold == 1 && thread.taken == [mutex] + old(thread.taken)
      ensures Snap() == Acquired(old(Snap()), thread, mutex)
    {
      mutex.owner := thread;
      mutex.priority := NO_PRIORITY;
      mutex.hold := 1;
      thread.taken := [mutex] + thread.taken;
    }

    method SetWait(thread: Thread, suspended: bool, pending: Mutex?)
      requires thread in threads
      modifies thread`suspended, thread`pending
      ensures thread.suspended == suspended && thread.pending == pending
      ensures Snap() == Rewaited(old(Snap()), thread, suspended, pending)
    {
      thread.suspended := suspended;
      thread.pending := pending;
    }

    method SetPriority(mutex: Mutex, priority: Priority)
      requires mutex in mutexes
      modifies mutex`priority
      ensures Snap() == old(Snap()).SetQueue(mutex, priority, mutex.waiters)
    {
      mutex.priority := priority;
    }

    method Suspend(thread: Thread, mutex: Mutex)
      requires thread in threads && mutex in mutexes && (forall w | w in mutex.waiters :: w in threads)
      modifies mutex`waiters, mutex`priority, thread`suspended, thread`pending
      ensures forall w | w in old(mutex.waiters) :: w in old(Snap()).th
      ensures thread.suspended && thread.pending == mutex
      ensures Snap() == Blocked(old(Snap()), thread, mutex)
    {
      hide *;
      ghost var s := Snap();
      View(thread);
      MutexIn(mutex);
      BlockedParts(s, thread, mutex);
      Enqueue(mutex, thread);
      SetQueueValue(s, mutex, mutex.priority, mutex.waiters);
      if thread.currPriority < mutex.priority {
        SetPriority(mutex, thread.currPriority);
      }
      SetQueueValue(s, mutex, mutex.priority, mutex.waiters);
      SetWait(thread, true, mutex);
    }

    method DropTaken(thread: Thread, mutex: Mutex)
      requires thread in threads
      modifies thread`taken
      ensures Snap() == Untaken(old(Snap()), thread, mutex, thread.currPriority)
    {
      thread.taken := Remove(thread.taken, mutex);
    }

    method ClearOwner(mutex: Mutex)
      requires mutex in mutexes
      modifies mutex`owner, mutex`priority, mutex`hold
      ensures Snap() == Unowned(old(Snap()), mutex)
    {
      mutex.owner := null;
      mutex.priority := NO_PRIORITY;
      mutex.hold := 0;
    }

    method SetOwner(mutex: Mutex, thread: Thread)
      requires thread in threads && mutex in mutexes
      modifies mutex`owner, mutex`hold, thread`taken
      ensures Snap() == Reowned(old(Snap()), mutex, thread)
    {
      mutex.owner := thread;
      mutex.hold := 1;
      thread.taken := [mutex] + thread.taken;
    }

    /** The part of `_rt_mutex_take` for a mutex that another thread owns. */
    method Wait(thread: Thread, mutex: Mutex)
      requires Snap().Valid() && thread in threads && mutex in mutexes && !thread.suspended
      requires mutex.owner != null && mutex.owner != thread
      modifies thread`suspended, thread`pending, threads`currPriority, mutexes`waiters, mutexes`priority
      ensures Snap().Valid() && thread.suspended && thread.pending == mutex
      ensures forall w | w in old(mutex.waiters) :: w in old(Snap()).th
      ensures Settles(Blocked(old(Snap()), thread, mutex), Snap()) && Joined(old(Snap()), Snap(), thread, mutex)
    {
      hide *;
      ghost var s := Snap();
      View(thread);
      MutexIn(mutex);
      AtMutex(s, mutex);
      NotPending(s, thread);
      BlockedRights(s, thread, mutex);
      BlockedOwner(s, thread, mutex);
      var owner: Thread := mutex.owner;
      View(owner);
      var before := mutex.priority;
      Suspend(thread, mutex);
      if thread.currPriority < before && thread.currPriority < owner.currPriority {
        UpdatePriority(owner, thread.currPriority);
      } else {
        NothingElseWrong(Snap(), owner);
        NothingMoved(Snap());
      }
      BlockedJoined(s, thread, mutex, Snap());
    }

    // ---- The operations ----

    /**
     * `_rt_mutex_take` up to the point where the calling thread either returns or is switched out. A thread that has to
     * wait goes on in `Release` (it is handed the mutex) or in `Abandon`.
     */
    method Take(thread: Thread, mutex: Mutex, timeout: int) returns (r: TakeResult)
      requires Snap().Valid() && thread in threads && mutex in mutexes && !thread.suspended
      modifies mutex`owner, mutex`hold, thread`taken, thread`suspended, thread`pending
      modifies threads`currPriority, mutexes`waiters, mutexes`priority
      ensures Snap().Valid()
      ensures r == Taken || r == Full <==> old(mutex.owner) == null || old(mutex.owner) == thread
      ensures r == Full <==> old(mutex.owner) == thread && old(mutex.hold) == MUTEX_HOLD_MAX
      ensures r == TimedOut <==> old(mutex.owner) != null && old(mutex.owner) != thread && timeout == 0
      ensures r == Full || r == TimedOut ==> Snap() == old(Snap())
      ensures r == Taken ==>
        Snap() == if old(mutex.owner) == thread then Relocked(old(Snap()), mutex, old(mutex.hold) + 1)
                  else
                    var urgency := Min(old(thread.currPriority), mutex.ceiling);
                    Acquired(old(Snap()), thread, mutex).SetCurr(thread, urgency)
      ensures r == Waiting ==>
        && (forall w | w in old(mutex.waiters) :: w in old(Snap()).th)
        && Settles(Blocked(old(Snap()), thread, mutex), Snap())
      ensures r == Taken && old(mutex.owner) == thread ==> mutex.owner == thread && mutex.hold == old(mutex.hold) + 1
      ensures r == Taken && old(mutex.owner) == null ==>
        && mutex.owner == thread && mutex.hold == 1 && thread.taken == [mutex] + old(thread.taken)
        && thread.currPriority == Min(old(thread.currPriority), mutex.ceiling)
      ensures r == Taken ==> mutex.waiters == old(mutex.waiters)
      ensures r == Waiting ==>
        && thread.suspended && thread.pending == mutex
        && mutex.owner == old(mutex.owner) && mutex.hold == old(mutex.hold)
        && Joined(old(Snap()), Snap(), thread, mutex)
    {
      hide *;
      ghost var s := Snap();
      View(thread);
      MutexIn(mutex);
      AtMutex(s, mutex);
      NotPending(s, thread);
      if mutex.owner == thread {
        if mutex.hold < MUTEX_HOLD_MAX {
          OwnedMutex(s, mutex);
          RelockedValid(s, mutex, mutex.hold + 1);
          SetHold(mutex, mutex.hold + 1);
          return Taken;
        } else {
          return Full;
        }
      } else if mutex.owner == null {
        AcquiredRights(s, thread, mutex);
        AcquiredOwner(s, thread, mutex);
        Acquire(thread, mutex);
        r := Taken;
        if mutex.ceiling != NO_PRIORITY && mutex.ceiling < thread.currPriority {
          UpdatePriority(thread, mutex.ceiling);
        } else {
          NothingElseWrong(Snap(), thread);
          SameCurr(Snap(), thread);
        }
        AcquiredAt(this, s, thread, mutex, Min(s.th[thread].curr, mutex.ceiling));
      } else if timeout == 0 {
        return TimedOut;
      } else {
        Wait(thread, mutex);
        r := Waiting;
      }
    }

    /** `_check_and_update_prio`, after the mutex left the thread's taken list. */
    method CheckPriority(thread: Thread, mutex: Mutex, ghost s: State)
      requires thread in threads && mutex in mutexes && s.Valid()
      requires thread in s.th && s.th[thread].pending == null && mutex in s.mx && s.mx[mutex].owner == thread
      requires Snap() == Untaken(s, thread, mutex, s.th[thread].curr)
      modifies thread`currPriority
      ensures Snap() == Untaken(s, thread, mutex, thread.currPriority)
      ensures Untaken(s, thread, mutex, thread.currPriority).IsBest(thread, thread.currPriority)
    {
      hide *;
      View(thread);
      MutexIn(mutex);
      UntakenView(s, thread, mutex, s.th[thread].curr);
      if mutex.ceiling != NO_PRIORITY || thread.currPriority == mutex.priority {
        ValidParts(s);
        UntakenList(s, thread, mutex);
        var priority := BestPriority(thread);
        UntakenBest(s, thread, mutex, s.th[thread].curr, priority);
        ChangePriority(thread, priority);
      } else {
        UntakenKeeps(s, thread, mutex);
      }
    }

    /** The hand-over inside `rt_mutex_release`. */
    method HandOver(thread: Thread, mutex: Mutex, next: Thread, ghost s: State)
      requires thread in threads && mutex in mutexes && next in threads && next != thread
      requires thread in s.th && mutex in s.mx && next in s.th
      requires forall w | w in s.mx[mutex].waiters :: w in s.th && w != thread
      requires Snap() == Untaken(s, thread, mutex, thread.currPriority)
      modifies mutex`owner, mutex`priority, mutex`hold, mutex`waiters, next`taken, next`suspended, next`pending
      ensures Snap() == HandedOver(s, thread, mutex, old(thread.currPriority), next)
    {
      hide *;
      ghost var c := thread.currPriority;
      MutexIn(mutex);
      UntakenView(s, thread, mutex, c);
      HandedOverParts(s, thread, mutex, c, next);
      SetWaiters(mutex, Remove(mutex.waiters, next));
      SetWait(next, false, null);
      SetOwner(mutex, next);
      RefreshMutex(mutex);
    }

    /** The part of `rt_mutex_release` after the owner's last release: nobody or the first waiter owns the mutex now. */
    method GiveUp(thread: Thread, mutex: Mutex) returns (r: ReleaseResult)
      requires Snap().Valid() && thread in threads && mutex in mutexes
      requires thread.pending == null && mutex.owner == thread
      modifies mutex`owner, mutex`priority, mutex`hold, mutex`waiters
      modifies thread`currPriority, threads`taken, threads`suspended, threads`pending
      ensures r == Released || r.HandedTo?
      ensures r == Released ==>
        && old(mutex.waiters) == [] && Snap() == Freed(old(Snap()), thread, mutex, thread.currPriority)
        && mutex.owner == null && mutex.hold == 0
      ensures r.HandedTo? ==>
        && old(mutex.waiters) != [] && r.next == old(mutex.waiters)[0] && r.next in old(Snap()).th && r.next != thread
        && (forall w | w in old(mutex.waiters) :: w in old(Snap()).th
              && old(Snap()).th[r.next].curr <= old(Snap()).th[w].curr)
        && Snap() == HandedOver(old(Snap()), thread, mutex, thread.currPriority, r.next)
        && Snap().Structured() && Snap().QueuesRight(Snap().th) && Snap().ThreadsRightExcept(r.next)
      ensures r.HandedTo? ==>
        && mutex.owner == r.next && mutex.hold == 1 && mutex.waiters == old(mutex.waiters)[1..]
        && r.next.taken == [mutex] + old(r.next.taken) && !r.next.suspended && r.next.pending == null
      ensures forall k | k in mutexes :: k in thread.taken <==> k in old(thread.taken) && k != mutex
      ensures Snap().Valid() <==> r.HandedTo? ==> old(Snap()).th[r.next].curr <= mutex.ceiling
    {
      hide *;
      ghost var s := Snap();
      View(thread);
      MutexIn(mutex);
      if mutex.waiters != [] {
        ReleaseHead(s, thread, mutex);
        View(mutex.waiters[0]);
      }
      DropTaken(thread, mutex);
      CheckPriority(thread, mutex, s);
      ghost var c := thread.currPriority;
      if mutex.waiters == [] {
        FreedParts(s, thread, mutex, c);
        FreedValid(s, thread, mutex, c);
        ClearOwner(mutex);
        FreedAt(this, s, thread, mutex, c);
        r := Released;
      } else {
        var next := mutex.waiters[0];
        HandedOverRights(s, thread, mutex, c, next);
        HandedOverFrame(s, thread, mutex, c, next);
        RightExceptOne(HandedOver(s, thread, mutex, c, next), next);
        HandOver(thread, mutex, next, s);
        HandedOverAt(this, s, thread, mutex, c, next);
        r := HandedTo(next);
      }
    }

    /**
     * `rt_mutex_release`. With waiters, the mutex goes straight to the first of them. Every equation holds again
     * afterwards, except that a hand-over ignores the ceiling: the new owner's equation holds if and only if its
     * priority is at least as urgent as the ceiling.
     */
    method Release(thread: Thread, mutex: Mutex) returns (r: ReleaseResult)
      requires Snap().Valid() && thread in threads && mutex in mutexes && !thread.suspended
      modifies mutex`owner, mutex`priority, mutex`hold, mutex`waiters
      modifies thread`currPriority, threads`taken, threads`suspended, threads`pending
      ensures r == NotOwner <==> old(mutex.owner) != thread
      ensures r == NotOwner ==> Snap() == old(Snap())
      ensures r == StillHeld <==> old(mutex.owner) == thread && old(mutex.hold) > 1
      ensures r == StillHeld ==> Snap() == Relocked(old(Snap()), mutex, old(mutex.hold) - 1)
      ensures r == Released ==>
        old(mutex.waiters) == [] && Snap() == Freed(old(Snap()), thread, mutex, thread.currPriority)
      ensures r.HandedTo? ==>
        && old(mutex.waiters) != [] && r.next == old(mutex.waiters)[0] && r.next in old(Snap()).th && r.next != thread
        && (forall w | w in old(mutex.waiters) :: w in old(Snap()).th
              && old(Snap()).th[r.next].curr <= old(Snap()).th[w].curr)
        && Snap() == HandedOver(old(Snap()), thread, mutex, thread.currPriority, r.next)
        && Snap().Structured() && Snap().QueuesRight(Snap().th) && Snap().ThreadsRightExcept(r.next)
      ensures r == StillHeld ==> mutex.owner == thread && mutex.hold == old(mutex.hold) - 1
      ensures r == Released ==> mutex.owner == null && mutex.hold == 0
      ensures r.HandedTo? ==>
        && mutex.owner == r.next && mutex.hold == 1 && mutex.waiters == old(mutex.waiters)[1..]
        && r.next.taken == [mutex] + old(r.next.taken) && !r.next.suspended && r.next.pending == null
      ensures r == Released || r.HandedTo? ==>
        forall k | k in mutexes :: k in thread.taken <==> k in old(thread.taken) && k != mutex
      ensures Snap().Valid() <==> r.HandedTo? ==> old(Snap()).th[r.next].curr <= mutex.ceiling
    {
      hide *;
      ghost var s := Snap();
      View(thread);
      MutexIn(mutex);
      NotPending(s, thread);
      if mutex.owner != thread {
        return NotOwner;
      }
      OwnedMutex(s, mutex);
      if mutex.hold > 1 {
        RelockedValid(s, mutex, mutex.hold - 1);
        SetHold(mutex, mutex.hold - 1);
        return StillHeld;
      }
      r := GiveUp(thread, mutex);
    }

    /** A waiting thread is taken out of the queue, and the mutex records who is first now. */
    method Leave(thread: Thread, mutex: Mutex)
      requires thread in threads && mutex in mutexes && forall w | w in mutex.waiters :: w in threads
      modifies mutex`waiters, mutex`priority, thread`suspended, thread`pending
      ensures forall w | w in old(mutex.waiters) :: w in old(Snap()).th
      ensures Snap() == Unqueued(old(Snap()), thread, mutex)
      ensures !thread.suspended && thread.pending == null
    {
      hide *;
      ghost var s := Snap();
      View(thread);
      MutexIn(mutex);
      UnqueuedParts(s, thread, mutex);
      RemoveSubset(mutex.waiters, thread);
      SetWaiters(mutex, Remove(mutex.waiters, thread));
      SetWait(thread, false, null);
      RefreshMutex(mutex);
    }

    /**
     * A waiting thread leaves the queue without the mutex: it timed out or was interrupted (the failure path of
     * `_rt_mutex_take`), or it was closed (`rt_mutex_drop_thread`). Waking the thread and the clean-up it then runs are
     * one step here.
     */
    method Abandon(thread: Thread)
      requires Snap().Valid() && thread in threads && thread.pending != null
      modifies thread`suspended, thread`pending
      modifies threads`currPriority, mutexes`waiters, mutexes`priority
      ensures Snap().Valid()
      ensures var m: Mutex := old(thread.pending);
        && m in old(Snap()).mx && (forall w | w in old(Snap()).mx[m].waiters :: w in old(Snap()).th)
        && Settles(Unqueued(old(Snap()), thread, m), Snap()) && Left(old(Snap()), Snap(), thread, m)
      ensures !thread.suspended && thread.pending == null
    {
      hide *;
      ghost var s := Snap();
      View(thread);
      WaitingFor(s, thread);
      var mutex: Mutex := thread.pending;
      MutexIn(mutex);
      UnqueuedRights(s, thread, mutex);
      UnqueuedOwner(s, thread, mutex);
      var owner: Thread := mutex.owner;
      View(owner);

      Leave(thread, mutex);
      var needUpdate := owner.currPriority == thread.currPriority;
      ghost var r := Snap();
      View(owner);
      if needUpdate {
        ValidStructure(r, owner);
        var priority := BestPriority(owner);
        if priority != owner.currPriority {
          UpdatePriority(owner, priority);
        } else {
          BestNow(r, owner, priority);
          NothingElseWrong(r, owner);
          NothingMoved(r);
        }
      } else {
        NothingElseWrong(r, owner);
        NothingMoved(r);
      }
      UnqueuedLeft(s, thread, mutex, Snap());
    }

    /** `rt_mutex_setprioceiling`. */
    method SetCeiling(mutex: Mutex, priority: Priority, priorityMax: nat) returns (previous: Priority)
      requires Snap().Valid() && mutex in mutexes
      modifies mutex`ceiling, threads`currPriority, mutexes`waiters, mutexes`priority
      ensures Snap().Valid()
      ensures mutex.ceiling == if priority < priorityMax then priority else old(mutex.ceiling)
      ensures previous == if priority < priorityMax then old(mutex.ceiling) else NO_PRIORITY
      ensures Settles(if priority < priorityMax then WithCeiling(old(Snap()), mutex, priority) else old(Snap()), Snap())
    {
      hide *;
      ghost var s := Snap();
      MutexIn(mutex);
      if priority < priorityMax {
        previous := mutex.ceiling;
        CeilingRights(s, mutex, priority);
        WriteCeiling(mutex, priority);
        ghost var r := Snap();
        if mutex.owner != null {
          var owner: Thread := mutex.owner;
          OwnedMutex(s, mutex);
          View(owner);
          ValidStructure(r, owner);
          var highest := BestPriority(owner);
          if highest != owner.currPriority {
            UpdatePriority(owner, highest);
          } else {
            BestNow(r, owner, highest);
            NothingElseWrong(r, owner);
            NothingMoved(r);
          }
        } else {
          NothingElseWrong(r, null);
          NothingMoved(r);
        }
      } else {
        NothingMoved(s);
        return NO_PRIORITY;
      }
    }
  }
}
