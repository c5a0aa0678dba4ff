/** Why local repairs of queues and priorities restore the equations everywhere. */
module InheritanceProofs {
  import opened Lists
  import opened MutexObjects
  import opened WaitGraph

  /** `rt_susp_list_enqueue`, priority flag: before the first less urgent waiter, else last. */
  ghost function InsertPos(th: map<Thread, ThreadView>, w: seq<Thread>, p: Priority): (i: nat)
    requires forall t | t in w :: t in th
    ensures i <= |w|
    ensures forall j :: 0 <= j < i ==> th[w[j]].curr <= p
    ensures i < |w| ==> p < th[w[i]].curr
  {
    if w == [] || p < th[w[0]].curr then 0 else 1 + InsertPos(th, w[1..], p)
  }

  lemma InsertPosIs(th: map<Thread, ThreadView>, w: seq<Thread>, p: Priority, n: nat)
    requires (forall t | t in w :: t in th) && n <= |w|
    requires (forall j :: 0 <= j < n ==> th[w[j]].curr <= p) && (n < |w| ==> p < th[w[n]].curr)
    ensures InsertPos(th, w, p) == n
  {}

  ghost function Enqueued(th: map<Thread, ThreadView>, w: seq<Thread>, x: Thread): seq<Thread>
    requires x in th && forall t | t in w :: t in th
  {
    InsertAt(w, InsertPos(th, w, th[x].curr), x)
  }

  /** The place of `x` in `w`: behind all that are at least as urgent and before all others. */
  ghost predicate PlaceOf(th: map<Thread, ThreadView>, w: seq<Thread>, x: Thread, n: nat)
    requires x in th && forall t | t in w :: t in th
  {
    && n <= |w|
    && (forall i :: 0 <= i < n ==> th[w[i]].curr <= th[x].curr)
    && (forall i :: n <= i < |w| ==> th[w[i]].curr > th[x].curr)
  }

  /** `v` is `w` with `x` at its place. */
  ghost predicate Joins(th: map<Thread, ThreadView>, w: seq<Thread>, x: Thread, v: seq<Thread>)
    requires x in th && forall t | t in w :: t in th
  {
    exists n: nat :: PlaceOf(th, w, x, n) && v == w[..n] + [x] + w[n..]
  }

  /**
   * A place found by a scan is where the thread is enqueued, and in a sorted queue only less urgent ones are behind it.
   */
  lemma PlaceIs(th: map<Thread, ThreadView>, w: seq<Thread>, x: Thread, n: nat)
    requires x in th && (forall i :: 0 <= i < |w| ==> w[i] in th) && n <= |w|
    requires (forall j :: 0 <= j < n ==> th[w[j]].curr <= th[x].curr) && (n < |w| ==> th[x].curr < th[w[n]].curr)
    ensures forall t | t in w :: t in th
    ensures Enqueued(th, w, x) == InsertAt(w, n, x)
    ensures Sorted(th, w) ==> forall i :: n <= i < |w| ==> th[w[i]].curr > th[x].curr
  {
    InsertPosIs(th, w, th[x].curr, n);
    if Sorted(th, w) {
      forall i | n <= i < |w| ensures th[w[i]].curr > th[x].curr { assert th[w[n]].curr <= th[w[i]].curr; }
    }
  }

  lemma EnqueuedJoins(th: map<Thread, ThreadView>, w: seq<Thread>, x: Thread)
    requires x in th && (forall t | t in w :: t in th) && Sorted(th, w)
    ensures Joins(th, w, x, Enqueued(th, w, x))
  {
    var n := InsertPos(th, w, th[x].curr);
    assert Enqueued(th, w, x) == w[..n] + [x] + w[n..];
    forall i | n <= i < |w| ensures th[w[i]].curr > th[x].curr { assert th[w[n]].curr <= th[w[i]].curr; }
    assert PlaceOf(th, w, x, n);
  }

  lemma EnqueuedSorted(th: map<Thread, ThreadView>, w: seq<Thread>, x: Thread)
    requires x in th && (forall t | t in w :: t in th) && x !in w && Distinct(w) && Sorted(th, w)
    ensures Distinct(Enqueued(th, w, x))
    ensures forall y | y in Enqueued(th, w, x) :: y in w || y == x
    ensures (forall y | y in w :: y in Enqueued(th, w, x)) && x in Enqueued(th, w, x)
    ensures Sorted(th, Enqueued(th, w, x))
  {
    InsertMembers(w, InsertPos(th, w, th[x].curr), x);
  }

  lemma RemoveSorted(th: map<Thread, ThreadView>, w: seq<Thread>, x: Thread)
    requires (forall t | t in w :: t in th) && Distinct(w) && Sorted(th, w)
    ensures Distinct(Remove(w, x)) && x !in Remove(w, x)
    ensures forall y :: y in Remove(w, x) <==> y in w && y != x
    ensures Sorted(th, Remove(w, x))
  {
    RemoveMembers(w, x);
    var r := Remove(w, x);
    if x in w {
      var k := IndexOf(w, x);
      forall i, j | 0 <= i < j < |r| ensures th[r[i]].curr <= th[r[j]].curr {
        RemoveAt(w, x, i);
        RemoveAt(w, x, j);
      }
    }
  }

  /** The head of a sorted queue is its most urgent waiter. */
  lemma HeadIsLeast(th: map<Thread, ThreadView>, w: seq<Thread>, t: Thread)
    requires (forall t | t in w :: t in th) && Sorted(th, w) && t in w
    ensures HeadPriority(th, w) <= th[t].curr
  {
    var i :| 0 <= i < |w| && w[i] == t;
  }

  /** Re-inserting the one thread whose priority moved sorts the queue again. */
  lemma RequeuedSorted(th: map<Thread, ThreadView>, was: map<Thread, ThreadView>, w: seq<Thread>, x: Thread)
    requires (forall t | t in w :: t in th && t in was) && x in w
    requires Distinct(w) && Sorted(was, w)
    requires forall t | t in w && t != x :: th[t].curr == was[t].curr
    ensures forall y | y in Remove(w, x) :: y in w && y != x
    ensures forall y | y in w && y != x :: y in Remove(w, x)
    ensures Distinct(Remove(w, x)) && Sorted(th, Remove(w, x))
  {
    RemoveSorted(was, w, x);
    var u := Remove(w, x);
    assert forall i :: 0 <= i < |u| ==> u[i] in u && th[u[i]].curr == was[u[i]].curr;
  }

  lemma Requeued(th: map<Thread, ThreadView>, w: seq<Thread>, x: Thread)
    requires (forall t | t in w :: t in th) && x in w
    requires (forall y | y in Remove(w, x) :: y in w && y != x) && forall y | y in w && y != x :: y in Remove(w, x)
    requires Distinct(Remove(w, x)) && Sorted(th, Remove(w, x))
    ensures var v := Enqueued(th, Remove(w, x), x);
      && Distinct(v) && v != []
      && (forall y | y in w :: y in v) && (forall y | y in v :: y in w)
      && Sorted(th, v)
  {
    EnqueuedSorted(th, Remove(w, x), x);
  }

  lemma EnqueuedMultiset(th: map<Thread, ThreadView>, w: seq<Thread>, x: Thread)
    requires x in th && x in w && forall y | y in Remove(w, x) :: y in th
    ensures multiset(Enqueued(th, Remove(w, x), x)) == multiset(w)
  {
    RemoveMultiset(w, x);
    InsertMultiset(Remove(w, x), InsertPos(th, Remove(w, x), th[x].curr), x);
  }

  lemma HeadMoves(th: map<Thread, ThreadView>, was: map<Thread, ThreadView>, w: seq<Thread>, v: seq<Thread>, x: Thread)
    requires (forall t | t in w :: t in th && t in was) && x in w
    requires Sorted(was, w) && v != [] && (forall y | y in w :: y in v) && (forall y | y in v :: y in w)
      && Sorted(th, v)
    requires forall t | t in w && t != x :: th[t].curr == was[t].curr
    ensures th[x].curr <= was[x].curr ==> HeadPriority(th, v) <= HeadPriority(was, w)
    ensures th[x].curr >= was[x].curr ==> HeadPriority(th, v) >= HeadPriority(was, w)
  {
    assert w[0] in v && v[0] in w;
    HeadIsLeast(was, w, v[0]);
    HeadIsLeast(th, v, w[0]);
  }

  /** What is best for a thread depends on its own priority, its taken list and those mutexes only. */
  lemma SameBest(s: State, r: State, t: Thread, p: Priority)
    requires t in s.th && t in r.th && r.th[t].init == s.th[t].init && r.th[t].taken == s.th[t].taken
    requires forall m | m in s.th[t].taken ::
               m in s.mx && m in r.mx && r.mx[m].priority == s.mx[m].priority && r.mx[m].ceiling == s.mx[m].ceiling
    ensures s.IsBest(t, p) <==> r.IsBest(t, p)
  {
    assert forall m | m in s.th[t].taken :: r.Lends(m) == s.Lends(m);
  }

  lemma MutexAt(s: State, m: Mutex)
    requires s.Structured() && m in s.mx
    ensures s.MutexStructured(m)
  {}

  lemma ThreadAt(s: State, t: Thread)
    requires s.Structured() && t in s.th
    ensures s.ThreadStructured(t)
  {}

  lemma QueueAt(s: State, m: Mutex)
    requires s.QueuesRight(s.th) && m in s.mx
    ensures s.QueueRight(s.th, m)
  {}

  lemma AllStructured(s: State)
    requires (forall k | k in s.mx :: s.MutexStructured(k)) && forall u | u in s.th :: s.ThreadStructured(u)
    ensures s.Structured()
  {}

  // ---- One thread takes a new priority ----

  ghost function Before(s: State, x: Thread, before: Priority): map<Thread, ThreadView>
    requires x in s.th
  {
    s.th[x := s.th[x].(curr := before)]
  }

  /** Queues are right for the priority `x` had before it changed to what it has now. */
  ghost predicate WalkInvariant(s: State, x: Thread, before: Priority) {
    && s.Structured() && x in s.th
    && s.ThreadsRightExcept(null)
    && s.QueuesRight(Before(s, x, before))
  }

  lemma SetCurrStructured(s: State, x: Thread, p: Priority)
    requires s.Structured() && x in s.th
    ensures s.SetCurr(x, p).Structured() && SameGraph(s, s.SetCurr(x, p))
  {
    hide State.Structured, State.QueuesRight, State.ThreadsRightExcept, State.Valid;
    var r := s.SetCurr(x, p);
    forall t | t in r.th ensures r.ThreadStructured(t) { ThreadAt(s, t); }
    forall m | m in r.mx ensures r.MutexStructured(m) { MutexAt(s, m); }
    AllStructured(r);
  }

  lemma SameQueues(s: State, r: State)
    requires s.QueuesRight(s.th) && r.mx == s.mx
    ensures r.QueuesRight(s.th)
  {
    forall m | m in r.mx ensures r.QueueRight(s.th, m) { QueueAt(s, m); }
  }

  lemma ChangedRight(s: State, x: Thread, p: Priority, t: Thread)
    requires x in s.th && t in s.th && s.Structured() && s.ThreadsRightExcept(x) && s.IsBest(x, p)
    ensures s.SetCurr(x, p).ThreadRight(t)
  {
    ThreadAt(s, t);
    hide State.Structured, State.IsBest;
    SameBest(s, s.SetCurr(x, p), t, s.SetCurr(x, p).th[t].curr);
    if t != x { assert s.ThreadRight(t); }
  }

  lemma AllRight(s: State)
    requires forall t | t in s.th :: s.ThreadRight(t)
    ensures s.ThreadsRightExcept(null)
  {}

  lemma ChangeStartsWalk(s: State, x: Thread, p: Priority)
    requires s.Structured() && s.QueuesRight(s.th) && x in s.th
    requires s.ThreadsRightExcept(x) && s.IsBest(x, p)
    ensures WalkInvariant(s.SetCurr(x, p), x, s.th[x].curr)
  {
    hide State.Structured, State.QueuesRight, State.ThreadsRightExcept, State.ThreadRight, State.IsBest;
    var r := s.SetCurr(x, p);
    SetCurrStructured(s, x, p);
    assert Before(r, x, s.th[x].curr) == s.th;
    SameQueues(s, r);
    forall t | t in r.th ensures r.ThreadRight(t) { ChangedRight(s, x, p, t); }
    AllRight(r);
  }

  lemma WalkEndsUnlinked(s: State, x: Thread, before: Priority)
    requires WalkInvariant(s, x, before) && s.th[x].pending == null
    ensures s.Valid()
  {
    forall m | m in s.mx ensures s.QueueRight(s.th, m) {
      OtherQueueRight(s, x, before, m);
    }
  }

  /** The repair of the queue `x` waits in: re-sort it and re-read its head. */
  ghost function Requeue(s: State, x: Thread, m: Mutex): State
    requires s.Structured() && x in s.th && m in s.mx
  {
    var w := Enqueued(s.th, Remove(s.mx[m].waiters, x), x);
    s.SetQueue(m, if w == [] then NO_PRIORITY else s.th[w[0]].curr, w)
  }

  /** `r` is `s` with the queue of `m` re-ordered, sorted, and its head's priority recorded. */
  ghost predicate Resorted(s: State, r: State, m: Mutex) {
    && m in s.mx && m in r.mx
    && r == s.SetQueue(m, r.mx[m].priority, r.mx[m].waiters)
    && Distinct(r.mx[m].waiters)
    && multiset(r.mx[m].waiters) == multiset(s.mx[m].waiters)
    && (forall y | y in r.mx[m].waiters :: y in s.mx[m].waiters)
    && (forall y | y in s.mx[m].waiters :: y in r.mx[m].waiters)
    && r.QueueRight(r.th, m)
  }

  lemma SetQueueResorts(s: State, m: Mutex, v: seq<Thread>)
    requires m in s.mx && Distinct(v) && v != [] && multiset(v) == multiset(s.mx[m].waiters)
    requires (forall y | y in s.mx[m].waiters :: y in s.th) && (forall y | y in v :: y in s.th) && Sorted(s.th, v)
    ensures Resorted(s, s.SetQueue(m, s.th[v[0]].curr, v), m)
  {
    forall y | y in v ensures y in s.mx[m].waiters { assert y in multiset(v); }
    forall y | y in s.mx[m].waiters ensures y in v { assert y in multiset(s.mx[m].waiters); }
  }

  lemma RequeueResorts(s: State, x: Thread, before: Priority, m: Mutex)
    requires WalkInvariant(s, x, before) && s.th[x].pending == m
    ensures Resorted(s, Requeue(s, x, m), m)
    ensures s.th[x].curr <= before ==> Requeue(s, x, m).mx[m].priority <= s.mx[m].priority
    ensures s.th[x].curr >= before ==> Requeue(s, x, m).mx[m].priority >= s.mx[m].priority
  {
    var b, w := Before(s, x, before), s.mx[m].waiters;
    assert x in w && Distinct(w) && (forall y | y in w :: y in s.th) && Sorted(b, w)
           && s.mx[m].priority == HeadPriority(b, w) by {
      assert s.QueueRight(b, m) && s.MutexStructured(m) && s.ThreadStructured(x);
    }
    var v := RequeuedMoves(s.th, b, w, x);
    SetQueueResorts(s, m, v);
  }

  lemma RequeuedMoves(th: map<Thread, ThreadView>, was: map<Thread, ThreadView>, w: seq<Thread>, x: Thread)
    returns (v: seq<Thread>)
    requires (forall t | t in w :: t in th && t in was) && x in w
    requires Distinct(w) && Sorted(was, w)
    requires forall t | t in w && t != x :: th[t].curr == was[t].curr
    ensures (forall y | y in Remove(w, x) :: y in w) && v == Enqueued(th, Remove(w, x), x)
    ensures Distinct(v) && v != [] && multiset(v) == multiset(w) && (forall y | y in v :: y in w) && Sorted(th, v)
    ensures th[x].curr <= was[x].curr ==> HeadPriority(th, v) <= HeadPriority(was, w)
    ensures th[x].curr >= was[x].curr ==> HeadPriority(th, v) >= HeadPriority(was, w)
  {
    hide *;
    RequeuedSorted(th, was, w, x);
    Requeued(th, w, x);
    EnqueuedMultiset(th, w, x);
    v := Enqueued(th, Remove(w, x), x);
    HeadMoves(th, was, w, v, x);
  }

  lemma ResortedStructured(s: State, r: State, m: Mutex)
    requires s.Structured() && Resorted(s, r, m)
    ensures r.Structured() && SameGraph(s, r)
  {
    hide State.Structured, State.QueuesRight, State.ThreadsRightExcept, State.Valid;
    forall k | k in r.mx ensures r.MutexStructured(k) { MutexAt(s, k); }
    forall t | t in r.th ensures r.ThreadStructured(t) { ThreadAt(s, t); }
    AllStructured(r);
    assert r.mx[m].owner == null ==> r.mx[m].waiters == [] by {
      if r.mx[m].waiters != [] { assert r.mx[m].waiters[0] in s.mx[m].waiters; }
    }
  }

  lemma OtherQueueRight(s: State, x: Thread, before: Priority, k: Mutex)
    requires WalkInvariant(s, x, before) && k in s.mx && s.th[x].pending != k
    ensures s.QueueRight(s.th, k)
  {
    var b, w := Before(s, x, before), s.mx[k].waiters;
    assert s.QueueRight(b, k) && s.MutexStructured(k);
    assert x !in w;
    assert forall i :: 0 <= i < |w| ==> w[i] in w && s.th[w[i]] == b[w[i]];
  }

  lemma ResortedQueuesRight(s: State, r: State, x: Thread, before: Priority, m: Mutex)
    requires WalkInvariant(s, x, before) && s.th[x].pending == m && Resorted(s, r, m)
    ensures r.QueuesRight(r.th)
  {
    forall k | k in r.mx ensures r.QueueRight(r.th, k) {
      if k != m { OtherQueueRight(s, x, before, k); }
    }
  }

  /** A mutex only matters to the equation of the thread that owns it. */
  lemma OthersRight(s: State, r: State, m: Mutex)
    requires s.Structured() && m in s.mx && m in r.mx && s.ThreadsRightExcept(s.mx[m].owner)
    requires r.th == s.th && forall k | k in s.mx && k != m :: k in r.mx && r.mx[k] == s.mx[k]
    ensures r.ThreadsRightExcept(s.mx[m].owner)
  {
    forall t | t in r.th && t != s.mx[m].owner ensures r.ThreadRight(t) {
      assert s.ThreadRight(t) && s.ThreadStructured(t);
      SameBest(s, r, t, s.th[t].curr);
    }
  }

  lemma WalkParts(s: State, x: Thread, before: Priority)
    requires WalkInvariant(s, x, before)
    ensures s.Structured() && x in s.th && (forall t | t in s.th :: s.ThreadRight(t))
    ensures forall o: Thread? :: s.ThreadsRightExcept(o)
  {}

  /** Requeueing mends every queue; only the owner's equation is left open. */
  lemma RequeueRepairs(s: State, r: State, x: Thread, before: Priority, m: Mutex)
    requires WalkInvariant(s, x, before) && s.th[x].pending == m && Resorted(s, r, m)
    ensures r.Structured() && SameGraph(s, r) && r.QueuesRight(r.th)
    ensures r.ThreadsRightExcept(s.mx[m].owner)
  {
    hide WalkInvariant, State.Structured, State.QueuesRight, State.ThreadsRightExcept;
    WalkParts(s, x, before);
    ResortedStructured(s, r, m);
    ResortedQueuesRight(s, r, x, before, m);
    OthersRight(s, r, m);
  }

  /** The owner's priority has to follow the mutex it lends to. */
  lemma LendsDirection(s: State, r: State, m: Mutex, o: Thread, c: Priority, p: Priority)
    requires o in s.th && o in r.th && r.th[o].init == s.th[o].init && r.th[o].taken == s.th[o].taken
    requires m in s.th[o].taken && m in s.mx && m in r.mx && r.mx[m].ceiling == s.mx[m].ceiling
    requires forall k | k in s.th[o].taken && k != m :: k in s.mx && k in r.mx && r.mx[k] == s.mx[k]
    requires s.IsBest(o, c) && r.IsBest(o, p)
    ensures r.mx[m].priority <= s.mx[m].priority ==> p <= c
    ensures r.mx[m].priority >= s.mx[m].priority ==> p >= c
  {
    assert forall k | k in s.th[o].taken && k != m :: r.Lends(k) == s.Lends(k);
  }

  lemma EnqueuedSubset(th: map<Thread, ThreadView>, w: seq<Thread>, x: Thread)
    requires x in th && forall t | t in w :: t in th
    ensures forall t | t in Enqueued(th, w, x) :: t in th
  {}

  lemma SetQueueValue(s: State, m: Mutex, p: Priority, w: seq<Thread>)
    requires m in s.mx
    ensures var r := s.SetQueue(m, p, w);
      && r.th == s.th && m in r.mx && r.mx[m].waiters == w && r.mx[m].priority == p
      && forall q, v :: r.SetQueue(m, q, v) == s.SetQueue(m, q, v)
  {}

  lemma SetCurrValue(s: State, x: Thread, p: Priority)
    requires x in s.th
    ensures s.SetCurr(x, p).th == s.th[x := s.th[x].(curr := p)] && s.SetCurr(x, p).mx == s.mx
  {}

  lemma SameGraphTransitive(a: State, b: State, c: State)
    requires SameGraph(a, b) && SameGraph(b, c)
    ensures SameGraph(a, c)
  {}

  /** Where the walk goes from a waiting thread. */
  lemma PendingMember(s: State, x: Thread, before: Priority)
    requires WalkInvariant(s, x, before) && s.th[x].pending != null
    ensures var m: Mutex := s.th[x].pending;
      && m in s.mx && s.mx[m].owner != null && s.mx[m].owner in s.th
      && (forall w | w in s.mx[m].waiters :: w in s.th)
      && (forall k | k in s.th[s.mx[m].owner].taken :: k in s.mx)
  {
    assert s.ThreadStructured(x);
    var m: Mutex := s.th[x].pending;
    assert s.MutexStructured(m) && s.ThreadStructured(s.mx[m].owner);
  }

  lemma NotSuspended(s: State, x: Thread, before: Priority)
    requires WalkInvariant(s, x, before) && !s.th[x].suspended
    ensures s.th[x].pending == null
  {
    assert s.ThreadStructured(x);
  }

  lemma RequeueIs(s: State, x: Thread, before: Priority, m: Mutex)
    requires WalkInvariant(s, x, before) && s.th[x].pending == m && m in s.mx
    ensures forall w | w in Remove(s.mx[m].waiters, x) :: w in s.th
    ensures var v, r := Enqueued(s.th, Remove(s.mx[m].waiters, x), x), Requeue(s, x, m);
      && (forall w | w in v :: w in s.th) && r == s.SetQueue(m, HeadPriority(s.th, v), v)
      && r.th == s.th
  {
    assert s.MutexStructured(m);
    RemoveSubset(s.mx[m].waiters, x);
    EnqueuedSubset(s.th, Remove(s.mx[m].waiters, x), x);
  }

  /** One round of the walk: either every equation holds again, or only the owner's queue is left. */
  lemma WalkStep(s: State, r: State, x: Thread, before: Priority, m: Mutex, p: Priority)
    requires WalkInvariant(s, x, before) && s.th[x].pending == m && Resorted(s, r, m)
    requires s.th[x].curr <= before ==> r.mx[m].priority <= s.mx[m].priority
    requires s.th[x].curr >= before ==> r.mx[m].priority >= s.mx[m].priority
    requires s.mx[m].owner != null && s.mx[m].owner in r.th && r.IsBest(s.mx[m].owner, p)
    ensures var o: Thread := s.mx[m].owner;
      && o in s.th && r.th == s.th && r.mx[m].owner == o && SameGraph(s, r)
      && (s.th[x].curr <= before ==> p <= s.th[o].curr)
      && (s.th[x].curr >= before ==> p >= s.th[o].curr)
      && (p == s.th[o].curr ==> r.Valid())
      && WalkInvariant(r.SetCurr(o, p), o, r.th[o].curr) && SameGraph(r, r.SetCurr(o, p))
  {
    hide WalkInvariant, State.Structured, State.QueuesRight, State.IsBest, SameGraph;
    var o: Thread := s.mx[m].owner;
    RequeueRepairs(s, r, x, before, m);
    ChangeStartsWalk(r, o, p);
    SetCurrStructured(r, o, p);
    WalkParts(s, x, before);
    OwnerTakes(s, m);
    if p == s.th[o].curr { assert r.ThreadRight(o); }
    LendsDirection(s, r, m, o, s.th[o].curr, p);
  }

  lemma OwnerTakes(s: State, m: Mutex)
    requires s.Structured() && m in s.mx && s.mx[m].owner != null
    ensures s.mx[m].owner in s.th && m in s.th[s.mx[m].owner].taken
    ensures forall k | k in s.th[s.mx[m].owner].taken :: k in s.mx
  {
    assert s.MutexStructured(m);
    assert s.ThreadStructured(s.mx[m].owner);
  }
}
