/** Which operations can close a cycle of waiting threads. */
module Deadlock {
  import opened Chains
  import opened Lists
  import opened MutexObjects
  import opened WaitGraph
  import opened InheritanceProofs
  import opened MutexSteps

  lemma SameGraphWaiting(s: State, r: State)
    requires SameGraph(s, r)
    ensures r.Waiting() == s.Waiting()
  {}

  /** Waiting for a mutex keeps the wait graph acyclic exactly when its owner does not wait for the caller. */
  lemma BlockingClosesCycle(s: State, t: Thread, m: Mutex, r: State)
    requires s.Valid() && Acyclic(s.Waiting()) && t in s.th && m in s.mx && s.th[t].pending == null
    requires s.mx[m].owner != null && forall w | w in s.mx[m].waiters :: w in s.th
    requires SameGraph(Blocked(s, t, m), r)
    ensures var o: Thread := s.mx[m].owner; Acyclic(r.Waiting()) <==> !Waits(s.Waiting(), o, t)
  {
    hide *;
    SameGraphWaiting(Blocked(s, t, m), r);
    BlockedWaiting(s, t, m);
    var o: Thread := s.mx[m].owner;
    WiderAcyclic(s.Waiting(), t, o);
  }

  lemma BlockedWaiting(s: State, t: Thread, m: Mutex)
    requires t in s.th && m in s.mx && s.th[t].pending == null
    requires s.mx[m].owner != null && forall w | w in s.mx[m].waiters :: w in s.th
    ensures var o: Thread := s.mx[m].owner; t !in s.Waiting() && Blocked(s, t, m).Waiting() == s.Waiting()[t := o]
  {
    var r := Blocked(s, t, m);
    assert r.th == s.th[t := s.th[t].(suspended := true, pending := m)];
    assert forall k | k in s.mx :: r.mx[k].owner == s.mx[k].owner;
    hide Blocked;
  }

  /** Leaving a queue closes no cycle. */
  lemma UnqueuedAcyclic(s: State, t: Thread, m: Mutex, r: State)
    requires s.Valid() && Acyclic(s.Waiting()) && t in s.th && m in s.mx && s.th[t].pending == m
    requires forall w | w in s.mx[m].waiters :: w in s.th
    requires SameGraph(Unqueued(s, t, m), r)
    ensures Acyclic(r.Waiting())
  {
    SameGraphWaiting(Unqueued(s, t, m), r);
    NarrowerAcyclic(s.Waiting(), r.Waiting(), t);
  }

  /** Nor does handing a mutex over. */
  lemma HandedOverAcyclic(s: State, t: Thread, m: Mutex, c: Priority, n: Thread)
    requires s.Valid() && Acyclic(s.Waiting()) && t in s.th && m in s.mx && s.mx[m].owner == t
    requires n in s.th && n != t && forall w | w in s.mx[m].waiters :: w in s.th
    ensures Acyclic(HandedOver(s, t, m, c, n).Waiting())
  {
    NarrowerAcyclic(s.Waiting(), HandedOver(s, t, m, c, n).Waiting(), n);
  }

  /** Nor does freeing a mutex. */
  lemma FreedAcyclic(s: State, t: Thread, m: Mutex, c: Priority)
    requires s.Valid() && Acyclic(s.Waiting()) && t in s.th && m in s.mx && s.th[t].pending == null
    ensures Acyclic(Freed(s, t, m, c).Waiting())
  {
    NarrowerAcyclic(s.Waiting(), Freed(s, t, m, c).Waiting(), t);
  }

  lemma RelockedWaiting(s: State, m: Mutex, hold: nat)
    requires m in s.mx
    ensures Relocked(s, m, hold).Waiting() == s.Waiting()
  {}

  /** Taking a free mutex adds no waiter: nobody waits for a mutex without an owner. */
  lemma AcquiredWaiting(s: State, t: Thread, m: Mutex, p: Priority)
    requires s.Valid() && t in s.th && m in s.mx && s.mx[m].owner == null && t in Acquired(s, t, m).th
    ensures Acquired(s, t, m).SetCurr(t, p).Waiting() == s.Waiting()
  {
    hide State.Valid;
    NobodyWaits(s, m);
    var r := Acquired(s, t, m).SetCurr(t, p);
    assert forall u | u in s.th :: r.th[u].pending == s.th[u].pending;
    assert forall k | k in s.mx && k != m :: r.mx[k].owner == s.mx[k].owner;
    assert r.th.Keys == s.th.Keys && r.mx.Keys == s.mx.Keys;
    hide Acquired, State.SetCurr;
  }

  lemma NobodyWaits(s: State, m: Mutex)
    requires s.Valid() && m in s.mx && s.mx[m].owner == null
    ensures forall u | u in s.th :: s.th[u].pending != m
  {
    forall u | u in s.th ensures s.th[u].pending != m {
      AtThread(s, u);
      AtMutex(s, m);
    }
  }

  lemma CeilingWaiting(s: State, m: Mutex, p: Priority, r: State)
    requires m in s.mx && SameGraph(WithCeiling(s, m, p), r)
    ensures r.Waiting() == s.Waiting()
  {
    hide *;
    SameGraphWaiting(WithCeiling(s, m, p), r);
    CeilingSame(s, m, p);
  }

  lemma CeilingSame(s: State, m: Mutex, p: Priority)
    requires m in s.mx
    ensures WithCeiling(s, m, p).Waiting() == s.Waiting()
  {
    var r := WithCeiling(s, m, p);
    assert r.th == s.th && r.mx.Keys == s.mx.Keys && forall k | k in s.mx :: r.mx[k].owner == s.mx[k].owner;
    hide WithCeiling;
  }
}
