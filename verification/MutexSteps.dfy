/** What each mutex operation does to the state before priorities are propagated. */
module MutexSteps {
  import opened Common
  import opened Lists
  import opened MutexObjects
  import opened WaitGraph
  import opened InheritanceProofs

  /** The owner takes the mutex once more. */
  ghost function Relocked(s: State, m: Mutex, hold: nat): State
    requires m in s.mx
  {
    s.(mx := s.mx[m := s.mx[m].(hold := hold)])
  }

  /** `t` becomes the owner of the free mutex `m`. */
  ghost function Acquired(s: State, t: Thread, m: Mutex): State
    requires t in s.th && m in s.mx
  {
    State(s.th[t := s.th[t].(taken := [m] + s.th[t].taken)],
          s.mx[m := s.mx[m].(owner := t, priority := NO_PRIORITY, hold := 1)])
  }

  /** `t` joins the queue of `m`. */
  ghost function Blocked(s: State, t: Thread, m: Mutex): State
    requires t in s.th && m in s.mx && forall w | w in s.mx[m].waiters :: w in s.th
  {
    State(s.th[t := s.th[t].(suspended := true, pending := m)],
          s.mx[m := s.mx[m].(waiters := Enqueued(s.th, s.mx[m].waiters, t),
            priority := Min(s.mx[m].priority, s.th[t].curr))])
  }

  /** `t` leaves the queue of `m`. */
  ghost function Unqueued(s: State, t: Thread, m: Mutex): State
    requires t in s.th && m in s.mx && forall w | w in s.mx[m].waiters :: w in s.th
  {
    var rest := Remove(s.mx[m].waiters, t);
    State(s.th[t := s.th[t].(suspended := false, pending := null)],
          s.mx[m := s.mx[m].(waiters := rest,
                             priority := if rest == [] || rest[0] !in s.th then NO_PRIORITY else s.th[rest[0]].curr)])
  }

  /** `t`, whose priority becomes `c`, gives up `m`; nobody owns it. */
  ghost function Freed(s: State, t: Thread, m: Mutex, c: Priority): State
    requires t in s.th && m in s.mx
  {
    State(s.th[t := s.th[t].(taken := Remove(s.th[t].taken, m), curr := c)],
          s.mx[m := s.mx[m].(owner := null, priority := NO_PRIORITY, hold := 0)])
  }

  /** `t`, whose priority becomes `c`, hands `m` over to `n`, the first in its queue. */
  ghost function HandedOver(s: State, t: Thread, m: Mutex, c: Priority, n: Thread): State
    requires t in s.th && m in s.mx && n in s.th && n != t
    requires forall w | w in s.mx[m].waiters :: w in s.th
  {
    var rest := Remove(s.mx[m].waiters, n);
    State(s.th[t := s.th[t].(taken := Remove(s.th[t].taken, m), curr := c)]
              [n := s.th[n].(taken := [m] + s.th[n].taken, suspended := false, pending := null)],
          s.mx[m := s.mx[m].(owner := n, hold := 1, waiters := rest,
                             priority := if rest == [] || rest[0] !in s.th then NO_PRIORITY else s.th[rest[0]].curr)])
  }

  // ---- What the steps come to, field by field ----

  lemma AcquiredIs(s: State, t: Thread, m: Mutex, p: Priority)
    requires t in s.th && m in s.mx
    ensures var n := Acquired(s, t, m).SetCurr(t, p);
      && n.mx[m].owner == t && n.mx[m].hold == 1 && n.mx[m].waiters == s.mx[m].waiters
      && n.th[t].taken == [m] + s.th[t].taken && n.th[t].curr == p
      && n.th[t].suspended == s.th[t].suspended && n.th[t].pending == s.th[t].pending
    ensures forall u | u in s.th && u != t :: Acquired(s, t, m).SetCurr(t, p).th[u] == s.th[u]
    ensures forall k | k in s.mx && k != m :: Acquired(s, t, m).SetCurr(t, p).mx[k] == s.mx[k]
  {}

  lemma BlockedIs(s: State, t: Thread, m: Mutex)
    requires s.Valid() && t in s.th && m in s.mx
    ensures forall w | w in s.mx[m].waiters :: w in s.th
    ensures var n := Blocked(s, t, m);
      && n.th.Keys == s.th.Keys && n.mx.Keys == s.mx.Keys
      && n.th[t] == s.th[t].(suspended := true, pending := m)
      && n.mx[m].owner == s.mx[m].owner && n.mx[m].hold == s.mx[m].hold && n.mx[m].ceiling == s.mx[m].ceiling
      && Joins(s.th, s.mx[m].waiters, t, n.mx[m].waiters)
    ensures forall u | u in s.th && u != t :: Blocked(s, t, m).th[u] == s.th[u]
    ensures forall k | k in s.mx && k != m :: Blocked(s, t, m).mx[k] == s.mx[k]
  {
    hide State.Valid, Joins, Enqueued;
    AtMutex(s, m);
    EnqueuedJoins(s.th, s.mx[m].waiters, t);
  }

  lemma UnqueuedIs(s: State, t: Thread, m: Mutex)
    requires s.Valid() && t in s.th && m in s.mx && t in s.mx[m].waiters
    ensures forall w | w in s.mx[m].waiters :: w in s.th
    ensures var n := Unqueued(s, t, m);
      && n.th.Keys == s.th.Keys && n.mx.Keys == s.mx.Keys
      && n.th[t] == s.th[t].(suspended := false, pending := null)
      && n.mx[m].owner == s.mx[m].owner && n.mx[m].hold == s.mx[m].hold && n.mx[m].ceiling == s.mx[m].ceiling
      && t !in n.mx[m].waiters
      && exists i: nat :: i < |s.mx[m].waiters| && s.mx[m].waiters[i] == t
                          && n.mx[m].waiters == s.mx[m].waiters[..i] + s.mx[m].waiters[i + 1..]
    ensures forall u | u in s.th && u != t :: Unqueued(s, t, m).th[u] == s.th[u]
    ensures forall k | k in s.mx && k != m :: Unqueued(s, t, m).mx[k] == s.mx[k]
  {
    hide State.Valid, Distinct, Sorted, Remove, IndexOf;
    AtMutex(s, m);
    LeftQueue(s.mx[m].waiters, t);
  }

  lemma LeftQueue(w: seq<Thread>, t: Thread)
    requires Distinct(w) && t in w
    ensures var v := Remove(w, t);
      t !in v && exists i: nat :: i < |w| && w[i] == t && v == w[..i] + w[i + 1..]
  {
    RemoveMembers(w, t);
    var i := IndexOf(w, t);
    assert Remove(w, t) == w[..i] + w[i + 1..];
  }

  lemma FreedIs(s: State, t: Thread, m: Mutex, c: Priority)
    requires s.Valid() && t in s.th && m in s.mx
    ensures var n := Freed(s, t, m, c);
      && n.mx[m].owner == null && n.mx[m].hold == 0 && n.mx[m].waiters == s.mx[m].waiters
      && (forall k :: k in n.th[t].taken <==> k in s.th[t].taken && k != m)
    ensures forall u | u in s.th && u != t :: Freed(s, t, m, c).th[u] == s.th[u]
    ensures forall k | k in s.mx && k != m :: Freed(s, t, m, c).mx[k] == s.mx[k]
  {
    AtThread(s, t);
    RemoveMembers(s.th[t].taken, m);
  }

  lemma HandedOverIs(s: State, t: Thread, m: Mutex, c: Priority, n: Thread)
    requires s.Valid() && t in s.th && m in s.mx && s.mx[m].waiters != []
    requires n == s.mx[m].waiters[0] && n in s.th && n != t
    ensures forall w | w in s.mx[m].waiters :: w in s.th
    ensures var r := HandedOver(s, t, m, c, n);
      && r.mx[m].owner == n && r.mx[m].hold == 1 && r.mx[m].waiters == s.mx[m].waiters[1..]
      && (forall k :: k in r.th[t].taken <==> k in s.th[t].taken && k != m)
      && r.th[n].taken == [m] + s.th[n].taken && !r.th[n].suspended && r.th[n].pending == null
      && r.th[n].curr == s.th[n].curr
    ensures forall u | u in s.th && u != t && u != n :: HandedOver(s, t, m, c, n).th[u] == s.th[u]
    ensures forall k | k in s.mx && k != m :: HandedOver(s, t, m, c, n).mx[k] == s.mx[k]
  {
    hide State.Valid, Distinct, Sorted, Remove, IndexOf;
    AtThread(s, t);
    AtMutex(s, m);
    ListDistinct(s, t);
    RemoveMembers(s.th[t].taken, m);
    RemoveHead(s.mx[m].waiters);
  }

  lemma ListDistinct(s: State, t: Thread)
    requires s.Valid() && t in s.th
    ensures Distinct(s.th[t].taken)
  {
    AtThread(s, t);
  }

  lemma RemoveHead<T>(w: seq<T>)
    requires w != []
    ensures Remove(w, w[0]) == w[1..]
  {
    assert w[..0] + w[1..] == w[1..];
  }

  lemma CeilingIs(s: State, m: Mutex, p: Priority)
    requires m in s.mx
    ensures var n := WithCeiling(s, m, p);
      && n.th == s.th && n.mx.Keys == s.mx.Keys && n.mx[m].ceiling == p && n.mx[m].waiters == s.mx[m].waiters
      && n.mx[m].owner == s.mx[m].owner && n.mx[m].hold == s.mx[m].hold
    ensures forall k | k in s.mx && k != m :: WithCeiling(s, m, p).mx[k] == s.mx[k]
  {}

  // ---- What the invariant says about one object ----

  lemma ValidParts(s: State)
    ensures s.Valid() <==> s.Structured() && s.QueuesRight(s.th) && s.ThreadsRightExcept(null)
  {}

  lemma AtMutex(s: State, m: Mutex)
    requires s.Valid() && m in s.mx
    ensures s.MutexStructured(m) && s.QueueRight(s.th, m)
    ensures Distinct(s.mx[m].waiters) && Sorted(s.th, s.mx[m].waiters)
    ensures forall w | w in s.mx[m].waiters :: w in s.th && s.th[w].pending == m && w != s.mx[m].owner
  {}

  lemma AtThread(s: State, t: Thread)
    requires s.Valid() && t in s.th
    ensures s.ThreadStructured(t) && s.ThreadRight(t)
    ensures forall k | k in s.th[t].taken :: k in s.mx && s.mx[k].owner == t
  {}

  lemma NotPending(s: State, t: Thread)
    requires s.Valid() && t in s.th && !s.th[t].suspended
    ensures s.th[t].pending == null && forall m | m in s.mx :: t !in s.mx[m].waiters
  {
    assert s.ThreadStructured(t);
  }

  lemma NothingElseWrong(s: State, x: Thread?)
    requires s.Structured() && s.QueuesRight(s.th) && s.ThreadsRightExcept(x)
    requires x != null && x in s.th ==> s.ThreadRight(x)
    ensures s.Valid()
  {}

  // ---- What a change leaves alone ----

  /** Only the queue of `m` may change, and only a thread `x` that waits nowhere may change its priority. */
  lemma QueuesTransfer(s: State, r: State, m: Mutex, x: Thread?)
    requires s.QueuesRight(s.th) && (m in r.mx ==> r.QueueRight(r.th, m))
    requires forall k | k in r.mx && k != m ::
               k in s.mx && r.mx[k].priority == s.mx[k].priority && r.mx[k].waiters == s.mx[k].waiters
    requires forall t | t in s.th && t != x :: t in r.th && r.th[t].curr == s.th[t].curr
    requires x != null ==> s.Structured() && x in s.th && s.th[x].pending == null
    ensures r.QueuesRight(r.th)
  {
    forall k | k in r.mx ensures r.QueueRight(r.th, k) {
      if k != m {
        assert s.QueueRight(s.th, k);
        if x != null { assert s.MutexStructured(k) && x !in s.mx[k].waiters; }
        SortedElsewhere(s.th, r.th, s.mx[k].waiters);
      }
    }
  }

  /** What happens to `m` can only unsettle the thread `o`. */
  lemma RightsTransfer(s: State, r: State, m: Mutex, o: Thread?)
    requires s.Structured() && s.ThreadsRightExcept(o) && m in s.mx
    requires forall t | t in r.th && t != o ::
               t in s.th && r.th[t].curr == s.th[t].curr && r.th[t].init == s.th[t].init
                 && r.th[t].taken == s.th[t].taken
    requires forall k | k in s.mx && k != m :: k in r.mx && r.mx[k] == s.mx[k]
    requires o == s.mx[m].owner || s.mx[m].owner == null
             || (m in r.mx && r.mx[m].priority == s.mx[m].priority && r.mx[m].ceiling == s.mx[m].ceiling)
    ensures r.ThreadsRightExcept(o)
  {
    forall t | t in r.th && t != o ensures r.ThreadRight(t) {
      assert s.ThreadRight(t) && s.ThreadStructured(t);
      SameBest(s, r, t, s.th[t].curr);
    }
  }

  /** Only its owner has `m` on its taken list. */
  lemma OnlyOwnerTakes(s: State, m: Mutex)
    requires s.Structured() && m in s.mx
    ensures forall t | t in s.th && t != s.mx[m].owner :: m !in s.th[t].taken
    ensures forall t, k | t in s.th && k in s.th[t].taken :: k in s.mx
  {
    forall t | t in s.th ensures forall k | k in s.th[t].taken :: k in s.mx && s.mx[k].owner == t {
      assert s.ThreadStructured(t);
    }
  }

  // ---- Each change, step by step ----

  ghost function Rewaited(s: State, t: Thread, suspended: bool, pending: Mutex?): State
    requires t in s.th
  {
    s.(th := s.th[t := s.th[t].(suspended := suspended, pending := pending)])
  }

  lemma BlockedParts(s: State, t: Thread, m: Mutex)
    requires t in s.th && m in s.mx && forall w | w in s.mx[m].waiters :: w in s.th
    ensures var q := s.SetQueue(m, Min(s.mx[m].priority, s.th[t].curr), Enqueued(s.th, s.mx[m].waiters, t));
      t in q.th && Blocked(s, t, m) == Rewaited(q, t, true, m)
    ensures Min(s.mx[m].priority, s.th[t].curr)
         == if s.th[t].curr < s.mx[m].priority then s.th[t].curr else s.mx[m].priority
  {}

  lemma OwnedMutex(s: State, m: Mutex)
    requires s.Valid() && m in s.mx && s.mx[m].owner != null
    ensures 0 < s.mx[m].hold <= MUTEX_HOLD_MAX && s.mx[m].owner in s.th
  {}

  lemma SameCurr(s: State, t: Thread)
    requires t in s.th
    ensures s.SetCurr(t, s.th[t].curr) == s
  {}

  lemma RelockedValid(s: State, m: Mutex, hold: nat)
    requires s.Valid() && m in s.mx && s.mx[m].owner != null && 0 < hold <= MUTEX_HOLD_MAX
    ensures Relocked(s, m, hold).Valid()
  {
    hide State.Structured, State.QueuesRight, State.ThreadsRightExcept, State.Valid;
    ValidParts(s);
    var r := Relocked(s, m, hold);
    forall k | k in r.mx ensures r.MutexStructured(k) { MutexAt(s, k); }
    forall t | t in r.th ensures r.ThreadStructured(t) { ThreadAt(s, t); }
    AllStructured(r);
    QueueAt(s, m);
    QueuesTransfer(s, r, m, null);
    RightsTransfer(s, r, m, null);
    ValidParts(r);
  }

  lemma AcquiredStructured(s: State, t: Thread, m: Mutex)
    requires s.Structured() && t in s.th && m in s.mx && s.mx[m].owner == null
    ensures Acquired(s, t, m).Structured()
  {
    hide State.Structured, State.QueuesRight, State.ThreadsRightExcept, State.Valid;
    var r := Acquired(s, t, m);
    MutexAt(s, m);
    forall k | k in r.mx ensures r.MutexStructured(k) { MutexAt(s, k); }
    OnlyOwnerTakes(s, m);
    forall u | u in r.th ensures r.ThreadStructured(u) { ThreadAt(s, u); }
    AllStructured(r);
  }

  lemma AcquiredFrame(s: State, t: Thread, m: Mutex)
    requires t in s.th && m in s.mx
    ensures var r := Acquired(s, t, m);
      && r.th == s.th[t := s.th[t].(taken := [m] + s.th[t].taken)] && r.mx.Keys == s.mx.Keys
      && (forall k | k in s.mx && k != m :: r.mx[k] == s.mx[k] && r.Lends(k) == s.Lends(k))
      && r.Lends(m) == s.mx[m].ceiling
      && (s.mx[m].waiters == [] ==> r.QueueRight(r.th, m))
  {}

  lemma AcquiredRights(s: State, t: Thread, m: Mutex)
    requires s.Valid() && t in s.th && m in s.mx && s.mx[m].owner == null
    ensures var r := Acquired(s, t, m);
      r.Structured() && r.QueuesRight(r.th) && r.ThreadsRightExcept(t)
      && r.IsBest(t, Min(s.th[t].curr, s.mx[m].ceiling))
  {
    hide *;
    ValidParts(s);
    AcquiredStructured(s, t, m);
    AtThread(s, t);
    FreeMutex(s, m);
    AcquiredFrame(s, t, m);
    TakingLends(s, Acquired(s, t, m), t, m);
    QueuesTransfer(s, Acquired(s, t, m), m, null);
    RightsWiden(s, t);
    RightsTransfer(s, Acquired(s, t, m), m, t);
  }

  lemma AcquiredOwner(s: State, t: Thread, m: Mutex)
    requires s.Valid() && t in s.th && m in s.mx && s.mx[m].owner == null
    ensures var r, p, c := Acquired(s, t, m), s.th[t].curr, s.mx[m].ceiling;
      && t in r.th && r.th[t].curr == p && r.th[t].suspended == s.th[t].suspended
      && if c != NO_PRIORITY && c < p then Min(p, c) == c && r.IsBest(t, c) else Min(p, c) == p && r.ThreadRight(t)
  {
    AcquiredRights(s, t, m);
    assert Acquired(s, t, m).th[t].curr == s.th[t].curr;
  }

  lemma FreeMutex(s: State, m: Mutex)
    requires s.Structured() && m in s.mx && s.mx[m].owner == null
    ensures s.mx[m].waiters == [] && forall t | t in s.th :: m !in s.th[t].taken
  {
    assert s.MutexStructured(m);
    OnlyOwnerTakes(s, m);
  }

  lemma RightsWiden(s: State, x: Thread?)
    requires s.ThreadsRightExcept(null)
    ensures s.ThreadsRightExcept(x)
  {}

  lemma TakingLends(s: State, r: State, t: Thread, m: Mutex)
    requires t in s.th && t in r.th && r.th[t].init == s.th[t].init && r.th[t].taken == [m] + s.th[t].taken
    requires m in r.mx && forall k | k in s.th[t].taken :: k in s.mx && k in r.mx && r.Lends(k) == s.Lends(k)
    requires s.ThreadRight(t)
    ensures r.IsBest(t, Min(s.th[t].curr, r.Lends(m)))
  {
    assert m in r.th[t].taken;
  }

  lemma BlockedQueue(s: State, t: Thread, m: Mutex)
    requires t in s.th && m in s.mx && s.QueueRight(s.th, m) && Distinct(s.mx[m].waiters) && t !in s.mx[m].waiters
    ensures var r := Blocked(s, t, m);
      && r.QueueRight(r.th, m) && Distinct(r.mx[m].waiters)
      && (forall y | y in r.mx[m].waiters :: y in s.mx[m].waiters || y == t)
      && (forall y | y in s.mx[m].waiters :: y in r.mx[m].waiters) && t in r.mx[m].waiters
  {
    var r, w, v := Blocked(s, t, m), s.mx[m].waiters, Enqueued(s.th, s.mx[m].waiters, t);
    EnqueuedSorted(s.th, w, t);
    SortedElsewhere(s.th, r.th, v);
  }

  lemma SortedElsewhere(a: map<Thread, ThreadView>, b: map<Thread, ThreadView>, v: seq<Thread>)
    requires forall y | y in v :: y in a && y in b && a[y].curr == b[y].curr
    requires Sorted(a, v)
    ensures Sorted(b, v) && HeadPriority(b, v) == HeadPriority(a, v)
  {
    assert forall i :: 0 <= i < |v| ==> v[i] in v && a[v[i]].curr == b[v[i]].curr;
  }

  lemma BlockedStructured(s: State, t: Thread, m: Mutex)
    requires s.Structured() && s.QueuesRight(s.th) && t in s.th && m in s.mx && s.th[t].pending == null
    requires s.mx[m].owner != null && s.mx[m].owner != t
    ensures Blocked(s, t, m).Structured() && Blocked(s, t, m).QueueRight(Blocked(s, t, m).th, m)
  {
    hide State.Structured, State.QueuesRight, State.ThreadStructured, Blocked, State.QueueRight;
    MutexAt(s, m);
    QueueAt(s, m);
    BlockedQueue(s, t, m);
    hide State.MutexStructured;
    var r := Blocked(s, t, m);
    BlockedKeys(s, t, m);
    forall k | k in r.mx ensures r.MutexStructured(k) { BlockedMutex(s, t, m, k); }
    forall u | u in r.th ensures r.ThreadStructured(u) { BlockedThread(s, t, m, u); }
    AllStructured(r);
  }

  lemma BlockedKeys(s: State, t: Thread, m: Mutex)
    requires t in s.th && m in s.mx && forall w | w in s.mx[m].waiters :: w in s.th
    ensures Blocked(s, t, m).th.Keys == s.th.Keys && Blocked(s, t, m).mx.Keys == s.mx.Keys
  {}

  lemma BlockedMutex(s: State, t: Thread, m: Mutex, k: Mutex)
    requires s.Structured() && s.QueuesRight(s.th) && t in s.th && m in s.mx && s.th[t].pending == null && k in s.mx
    requires s.mx[m].owner != null && s.mx[m].owner != t
    ensures (forall w | w in s.mx[m].waiters :: w in s.th) && Blocked(s, t, m).MutexStructured(k)
  {
    hide State.Structured, State.QueuesRight;
    MutexAt(s, m);
    MutexAt(s, k);
    QueueAt(s, m);
    BlockedQueue(s, t, m);
    hide Sorted, Enqueued, State.QueueRight;
  }

  lemma BlockedThread(s: State, t: Thread, m: Mutex, u: Thread)
    requires s.Structured() && s.QueuesRight(s.th) && t in s.th && m in s.mx && s.th[t].pending == null && u in s.th
    requires s.mx[m].owner != null && s.mx[m].owner != t
    ensures (forall w | w in s.mx[m].waiters :: w in s.th) && Blocked(s, t, m).ThreadStructured(u)
  {
    hide State.Structured, State.QueuesRight;
    MutexAt(s, m);
    ThreadAt(s, u);
    QueueAt(s, m);
    BlockedQueue(s, t, m);
  }

  lemma BlockedFrame(s: State, t: Thread, m: Mutex)
    requires t in s.th && m in s.mx && forall w | w in s.mx[m].waiters :: w in s.th
    ensures var r := Blocked(s, t, m);
      && r.th.Keys == s.th.Keys && r.mx.Keys == s.mx.Keys
      && (forall u | u in s.th ::
            r.th[u].curr == s.th[u].curr && r.th[u].init == s.th[u].init && r.th[u].taken == s.th[u].taken)
      && (forall k | k in s.mx && k != m :: r.mx[k] == s.mx[k])
  {}

  lemma BlockedRights(s: State, t: Thread, m: Mutex)
    requires s.Valid() && t in s.th && m in s.mx && s.th[t].pending == null
    requires s.mx[m].owner != null && s.mx[m].owner != t
    ensures var r := Blocked(s, t, m);
      r.Structured() && r.QueuesRight(r.th) && r.ThreadsRightExcept(s.mx[m].owner)
  {
    BlockedStructured(s, t, m);
    BlockedFrame(s, t, m);
    hide *;
    QueuesTransfer(s, Blocked(s, t, m), m, null);
    RightsTransfer(s, Blocked(s, t, m), m, s.mx[m].owner);
  }

  /** The two tests in the blocking branch of `_rt_mutex_take` catch every case that needs propagation. */
  lemma BlockedOwner(s: State, t: Thread, m: Mutex)
    requires s.Valid() && t in s.th && m in s.mx && s.th[t].pending == null
    requires s.mx[m].owner != null && s.mx[m].owner != t
    ensures var r, p, o := Blocked(s, t, m), s.th[t].curr, s.mx[m].owner;
      if p < s.mx[m].priority && p < s.th[o].curr then r.IsBest(o, p) else r.ThreadRight(o)
  {
    var o: Thread := s.mx[m].owner;
    assert s.MutexStructured(m) && s.ThreadStructured(o) && s.ThreadRight(o);
    LowerLends(s, Blocked(s, t, m), m, o, s.th[t].curr);
  }

  lemma LowerLends(s: State, r: State, m: Mutex, o: Thread, p: Priority)
    requires o in s.th && o in r.th && m in s.th[o].taken
    requires r.th[o].init == s.th[o].init && r.th[o].curr == s.th[o].curr && r.th[o].taken == s.th[o].taken
    requires forall k | k in s.th[o].taken :: k in s.mx && k in r.mx
    requires forall k | k in s.th[o].taken && k != m :: r.mx[k] == s.mx[k]
    requires r.mx[m].priority == Min(s.mx[m].priority, p) && r.mx[m].ceiling == s.mx[m].ceiling
    requires s.ThreadRight(o)
    ensures if p < s.mx[m].priority && p < s.th[o].curr then r.IsBest(o, p) else r.ThreadRight(o)
  {
    assert forall k | k in s.th[o].taken && k != m :: r.Lends(k) == s.Lends(k);
  }

  lemma UnqueuedQueue(s: State, t: Thread, m: Mutex)
    requires t in s.th && m in s.mx && s.QueueRight(s.th, m) && Distinct(s.mx[m].waiters) && t in s.mx[m].waiters
    ensures var r := Unqueued(s, t, m);
      && r.QueueRight(r.th, m) && Distinct(r.mx[m].waiters)
      && (forall y | y in r.mx[m].waiters :: y in s.mx[m].waiters && y != t)
      && (forall y | y in s.mx[m].waiters && y != t :: y in r.mx[m].waiters)
  {
    var v := Remove(s.mx[m].waiters, t);
    RemoveSorted(s.th, s.mx[m].waiters, t);
    SortedElsewhere(s.th, Unqueued(s, t, m).th, v);
  }

  /** The recorded priority only loses urgency, and only when the leaver was the head. */
  lemma UnqueuedPriority(s: State, t: Thread, m: Mutex)
    requires t in s.th && m in s.mx && s.QueueRight(s.th, m) && Distinct(s.mx[m].waiters) && t in s.mx[m].waiters
    ensures var p := Unqueued(s, t, m).mx[m].priority;
      s.mx[m].priority <= p && (p == s.mx[m].priority || s.mx[m].priority == s.th[t].curr)
  {
    var w, v := s.mx[m].waiters, Remove(s.mx[m].waiters, t);
    RemoveSorted(s.th, w, t);
    if v != [] {
      HeadIsLeast(s.th, w, v[0]);
      if w[0] != t { HeadIsLeast(s.th, v, w[0]); }
    }
  }

  lemma UnqueuedStructured(s: State, t: Thread, m: Mutex)
    requires s.Structured() && s.QueuesRight(s.th) && t in s.th && m in s.mx && s.th[t].pending == m
    ensures Unqueued(s, t, m).Structured() && Unqueued(s, t, m).QueueRight(Unqueued(s, t, m).th, m)
  {
    hide State.Structured, State.QueuesRight, State.MutexStructured, State.ThreadStructured, State.QueueRight, Unqueued;
    UnqueuedReady(s, t, m);
    UnqueuedQueue(s, t, m);
    var r := Unqueued(s, t, m);
    UnqueuedKeys(s, t, m);
    forall k | k in r.mx ensures r.MutexStructured(k) { UnqueuedMutex(s, t, m, k); }
    forall u | u in r.th ensures r.ThreadStructured(u) { UnqueuedThread(s, t, m, u); }
    AllStructured(r);
  }

  lemma UnqueuedReady(s: State, t: Thread, m: Mutex)
    requires s.Structured() && s.QueuesRight(s.th) && t in s.th && m in s.mx && s.th[t].pending == m
    ensures s.QueueRight(s.th, m) && Distinct(s.mx[m].waiters) && t in s.mx[m].waiters
    ensures forall w | w in s.mx[m].waiters :: w in s.th
  {
    hide State.Structured, State.QueuesRight;
    MutexAt(s, m);
    ThreadAt(s, t);
    QueueAt(s, m);
  }

  lemma UnqueuedKeys(s: State, t: Thread, m: Mutex)
    requires t in s.th && m in s.mx && forall w | w in s.mx[m].waiters :: w in s.th
    ensures Unqueued(s, t, m).th.Keys == s.th.Keys && Unqueued(s, t, m).mx.Keys == s.mx.Keys
  {}

  lemma UnqueuedMutex(s: State, t: Thread, m: Mutex, k: Mutex)
    requires s.Structured() && s.QueuesRight(s.th) && t in s.th && m in s.mx && s.th[t].pending == m && k in s.mx
    ensures (forall w | w in s.mx[m].waiters :: w in s.th) && Unqueued(s, t, m).MutexStructured(k)
  {
    hide State.Structured, State.QueuesRight, State.QueueRight, Remove;
    UnqueuedReady(s, t, m);
    UnqueuedQueue(s, t, m);
    MutexAt(s, m);
    MutexAt(s, k);
  }

  lemma UnqueuedThread(s: State, t: Thread, m: Mutex, u: Thread)
    requires s.Structured() && s.QueuesRight(s.th) && t in s.th && m in s.mx && s.th[t].pending == m && u in s.th
    ensures (forall w | w in s.mx[m].waiters :: w in s.th) && Unqueued(s, t, m).ThreadStructured(u)
  {
    hide State.Structured, State.QueuesRight, State.QueueRight, Remove;
    UnqueuedReady(s, t, m);
    UnqueuedQueue(s, t, m);
    ThreadAt(s, u);
  }

  lemma UnqueuedFrame(s: State, t: Thread, m: Mutex)
    requires t in s.th && m in s.mx && forall w | w in s.mx[m].waiters :: w in s.th
    ensures var r := Unqueued(s, t, m);
      && r.th.Keys == s.th.Keys && r.mx.Keys == s.mx.Keys
      && (forall u | u in s.th ::
            r.th[u].curr == s.th[u].curr && r.th[u].init == s.th[u].init && r.th[u].taken == s.th[u].taken)
      && (forall k | k in s.mx && k != m :: r.mx[k] == s.mx[k])
  {}

  lemma UnqueuedRights(s: State, t: Thread, m: Mutex)
    requires s.Valid() && t in s.th && m in s.mx && s.th[t].pending == m
    ensures var r := Unqueued(s, t, m);
      r.Structured() && r.QueuesRight(r.th) && r.ThreadsRightExcept(s.mx[m].owner)
  {
    UnqueuedStructured(s, t, m);
    UnqueuedFrame(s, t, m);
    hide *;
    QueuesTransfer(s, Unqueued(s, t, m), m, null);
    RightsTransfer(s, Unqueued(s, t, m), m, s.mx[m].owner);
  }

  /** Only an owner as urgent as the leaver can have owed its priority to it. */
  lemma UnqueuedOwner(s: State, t: Thread, m: Mutex)
    requires s.Valid() && t in s.th && m in s.mx && s.th[t].pending == m
    ensures s.mx[m].owner != null
    ensures s.th[s.mx[m].owner].curr != s.th[t].curr ==> Unqueued(s, t, m).ThreadRight(s.mx[m].owner)
  {
    assert s.ThreadStructured(t) && s.MutexStructured(m) && s.QueueRight(s.th, m);
    var o: Thread := s.mx[m].owner;
    UnqueuedPriority(s, t, m);
    assert s.ThreadStructured(o) && s.ThreadRight(o);
    HigherLends(s, Unqueued(s, t, m), m, o, s.th[t].curr);
  }

  lemma HigherLends(s: State, r: State, m: Mutex, o: Thread, p: Priority)
    requires o in s.th && o in r.th && m in s.th[o].taken
    requires r.th[o].init == s.th[o].init && r.th[o].curr == s.th[o].curr && r.th[o].taken == s.th[o].taken
    requires forall k | k in s.th[o].taken :: k in s.mx && k in r.mx
    requires forall k | k in s.th[o].taken && k != m :: r.mx[k] == s.mx[k]
    requires r.mx[m].ceiling == s.mx[m].ceiling && s.mx[m].priority <= r.mx[m].priority
    requires r.mx[m].priority == s.mx[m].priority || s.mx[m].priority == p
    requires s.ThreadRight(o)
    ensures s.th[o].curr != p ==> r.ThreadRight(o)
  {
    assert forall k | k in s.th[o].taken && k != m :: r.Lends(k) == s.Lends(k);
  }

  // ---- Release ----

  /** `t` with `m` off its taken list and priority `c`; the mutex is not touched yet. */
  ghost function Untaken(s: State, t: Thread, m: Mutex, c: Priority): State
    requires t in s.th
  {
    s.(th := s.th[t := s.th[t].(taken := Remove(s.th[t].taken, m), curr := c)])
  }

  lemma UntakenList(s: State, t: Thread, m: Mutex)
    requires s.Structured() && t in s.th && m in s.mx && s.mx[m].owner == t
    ensures Distinct(Remove(s.th[t].taken, m)) && m !in Remove(s.th[t].taken, m)
    ensures forall k :: k in Remove(s.th[t].taken, m) <==> k in s.th[t].taken && k != m
    ensures forall k | k in s.th[t].taken :: k in s.mx && s.mx[k].owner == t
    ensures forall k | k in Remove(s.th[t].taken, m) :: k in s.mx && k != m && s.mx[k].owner == t
  {
    assert s.ThreadStructured(t);
    RemoveMembers(s.th[t].taken, m);
  }

  /** `_check_and_update_prio` may keep the old priority when the mutex was not the one that lent it. */
  lemma UntakenKeeps(s: State, t: Thread, m: Mutex)
    requires s.Valid() && t in s.th && m in s.mx && s.mx[m].owner == t
    requires s.mx[m].ceiling == NO_PRIORITY && s.th[t].curr != s.mx[m].priority
    ensures Untaken(s, t, m, s.th[t].curr).IsBest(t, s.th[t].curr)
  {
    hide State.Valid, State.Structured, State.MutexStructured, State.ThreadStructured, State.QueueRight, Distinct,
      Sorted, Remove;
    ValidParts(s);
    var r := Untaken(s, t, m, s.th[t].curr);
    UntakenList(s, t, m);
    AtThread(s, t);
    assert forall k | k in r.th[t].taken :: r.Lends(k) == s.Lends(k);
    if s.th[t].curr != s.th[t].init {
      var k :| k in s.th[t].taken && s.th[t].curr == s.Lends(k);
      assert k in r.th[t].taken;
    }
  }

  lemma FreedStructured(s: State, t: Thread, m: Mutex, c: Priority)
    requires s.Structured() && t in s.th && m in s.mx && s.mx[m].owner == t && s.mx[m].waiters == []
    ensures Freed(s, t, m, c).Structured()
  {
    hide State.Structured, State.QueuesRight, State.ThreadsRightExcept, State.Valid;
    var r := Freed(s, t, m, c);
    UntakenList(s, t, m);
    forall k | k in r.mx ensures r.MutexStructured(k) { MutexAt(s, k); }
    forall u | u in r.th ensures r.ThreadStructured(u) { ThreadAt(s, u); }
    AllStructured(r);
  }

  lemma FreedFrame(s: State, t: Thread, m: Mutex, c: Priority)
    requires t in s.th && m in s.mx && s.mx[m].waiters == []
    ensures var r := Freed(s, t, m, c);
      && r.th == Untaken(s, t, m, c).th && Untaken(s, t, m, c).mx == s.mx && r.mx.Keys == s.mx.Keys
      && t in Untaken(s, t, m, c).th && Untaken(s, t, m, c).th[t].taken == Remove(s.th[t].taken, m)
      && r.th[t].taken == Remove(s.th[t].taken, m) && r.th[t].curr == c
      && (forall u | u in s.th && u != t :: u in r.th && r.th[u] == s.th[u]) && r.th.Keys == s.th.Keys
      && (forall k | k in s.mx && k != m :: r.mx[k] == s.mx[k])
      && r.QueueRight(r.th, m)
  {}

  lemma FreedValid(s: State, t: Thread, m: Mutex, c: Priority)
    requires s.Valid() && t in s.th && m in s.mx && s.mx[m].owner == t && s.mx[m].waiters == []
    requires s.th[t].pending == null && Untaken(s, t, m, c).IsBest(t, c)
    ensures Freed(s, t, m, c).Valid()
  {
    hide *;
    ValidParts(s);
    FreedStructured(s, t, m, c);
    FreedFrame(s, t, m, c);
    UntakenList(s, t, m);
    QueuesTransfer(s, Freed(s, t, m, c), m, t);
    RightsWiden(s, t);
    RightsTransfer(s, Freed(s, t, m, c), m, t);
    BestIsRight(Untaken(s, t, m, c), Freed(s, t, m, c), t, c);
    NothingElseWrong(Freed(s, t, m, c), t);
  }

  lemma BestIsRight(s: State, r: State, t: Thread, c: Priority)
    requires t in s.th && t in r.th && r.th[t] == s.th[t] && r.th[t].curr == c && s.IsBest(t, c)
    requires forall k | k in s.th[t].taken :: k in s.mx && k in r.mx && r.mx[k] == s.mx[k]
    ensures r.ThreadRight(t)
  {
    SameBest(s, r, t, c);
  }

  lemma HeadWaiter(s: State, m: Mutex)
    requires s.Structured() && s.QueuesRight(s.th) && m in s.mx && s.mx[m].waiters != []
    ensures var n := s.mx[m].waiters[0];
      && n in s.th && s.th[n].pending == m && n != s.mx[m].owner && s.mx[m].owner != null
      && m !in s.th[n].taken && (forall w | w in s.mx[m].waiters :: w in s.th)
      && Distinct(s.mx[m].waiters) && Sorted(s.th, s.mx[m].waiters)
  {
    assert s.MutexStructured(m) && s.QueueRight(s.th, m);
    var n := s.mx[m].waiters[0];
    assert n in s.mx[m].waiters;
    assert s.ThreadStructured(n);
  }

  lemma HandedOverQueue(s: State, t: Thread, m: Mutex, c: Priority, n: Thread)
    requires s.Structured() && s.QueuesRight(s.th) && t in s.th && s.th[t].pending == null
    requires m in s.mx && s.mx[m].owner == t && s.mx[m].waiters != [] && n == s.mx[m].waiters[0] && n in s.th
    ensures n != t && (forall w | w in s.mx[m].waiters :: w in s.th)
    ensures var r := HandedOver(s, t, m, c, n);
      && r.QueueRight(r.th, m) && Distinct(r.mx[m].waiters) && n !in r.mx[m].waiters
      && (forall y | y in r.mx[m].waiters :: y in s.mx[m].waiters && y != n && y != t)
      && (forall y | y in s.mx[m].waiters && y != n :: y in r.mx[m].waiters)
      && s.th[n].curr <= r.mx[m].priority
  {
    HeadWaiter(s, m);
    assert t !in s.mx[m].waiters by { assert s.MutexStructured(m); }
    var w := s.mx[m].waiters;
    var v := Remove(w, n);
    RemoveSorted(s.th, w, n);
    SortedElsewhere(s.th, HandedOver(s, t, m, c, n).th, v);
    if v != [] { HeadIsLeast(s.th, w, v[0]); }
  }

  lemma HandedOverStructured(s: State, t: Thread, m: Mutex, c: Priority, n: Thread)
    requires s.Valid() && t in s.th && s.th[t].pending == null
    requires m in s.mx && s.mx[m].owner == t && s.mx[m].waiters != [] && n == s.mx[m].waiters[0] && n in s.th
    ensures n != t && (forall w | w in s.mx[m].waiters :: w in s.th)
    ensures HandedOver(s, t, m, c, n).Structured()
  {
    hide *;
    ValidParts(s);
    HandedOverQueue(s, t, m, c, n);
    HandedOverFrame(s, t, m, c, n);
    var r := HandedOver(s, t, m, c, n);
    forall k | k in r.mx ensures r.MutexStructured(k) { HandedOverMutexes(s, t, m, c, n, k); }
    forall u | u in r.th ensures r.ThreadStructured(u) { HandedOverThreads(s, t, m, c, n, u); }
    AllStructured(r);
  }

  lemma HandedOverMutexes(s: State, t: Thread, m: Mutex, c: Priority, n: Thread, k: Mutex)
    requires s.Valid() && t in s.th && s.th[t].pending == null && k in s.mx
    requires m in s.mx && s.mx[m].owner == t && s.mx[m].waiters != [] && n == s.mx[m].waiters[0] && n in s.th
    ensures n != t && (forall w | w in s.mx[m].waiters :: w in s.th)
    ensures HandedOver(s, t, m, c, n).MutexStructured(k)
  {
    hide HandedOver, State.Valid, State.Structured, State.QueuesRight, State.ThreadsRightExcept, State.ThreadStructured,
      Untaken, State.QueueRight, Sorted, HeadPriority;
    ValidParts(s);
    AtMutex(s, k);
    HandedOverQueue(s, t, m, c, n);
    HandedOverFrame(s, t, m, c, n);
    HeadWaiter(s, m);
    UntakenList(s, t, m);
    OnlyOwnerTakes(s, m);
  }

  lemma HandedOverThreads(s: State, t: Thread, m: Mutex, c: Priority, n: Thread, u: Thread)
    requires s.Valid() && t in s.th && s.th[t].pending == null && u in s.th
    requires m in s.mx && s.mx[m].owner == t && s.mx[m].waiters != [] && n == s.mx[m].waiters[0] && n in s.th
    ensures n != t && (forall w | w in s.mx[m].waiters :: w in s.th)
    ensures HandedOver(s, t, m, c, n).ThreadStructured(u)
  {
    hide *;
    ValidParts(s);
    AtThread(s, u);
    HandedOverQueue(s, t, m, c, n);
    HandedOverFrame(s, t, m, c, n);
    HeadWaiter(s, m);
    var r := HandedOver(s, t, m, c, n);
    if u == t {
      UntakenList(s, t, m);
      ThreadFreed(r, t);
    } else if u == n {
      TakenExtended(s, n, m);
      ThreadFreed(r, n);
    } else {
      ThreadKept(s, r, t, m, n, u);
    }
  }

  lemma ThreadFreed(r: State, t: Thread)
    requires t in r.th && Distinct(r.th[t].taken) && r.th[t].pending == null
    requires forall k | k in r.th[t].taken :: k in r.mx && r.mx[k].owner == t
    ensures r.ThreadStructured(t)
  {}

  lemma TakenExtended(s: State, n: Thread, m: Mutex)
    requires n in s.th && s.ThreadStructured(n) && m !in s.th[n].taken
    ensures Distinct([m] + s.th[n].taken)
  {}

  lemma ThreadKept(s: State, r: State, t: Thread, m: Mutex, n: Thread, u: Thread)
    requires u in s.th && s.ThreadStructured(u) && u != t && u != n && u in r.th && r.th[u] == s.th[u]
    requires m in s.mx && s.mx[m].owner == t && r.mx.Keys == s.mx.Keys
    requires forall k | k in s.mx && k != m :: r.mx[k] == s.mx[k]
    requires forall y | y in s.mx[m].waiters && y != n :: y in r.mx[m].waiters
    ensures r.ThreadStructured(u)
  {}

  /** Handing over keeps every equation but the new owner's, and that one unless a ceiling is in its way. */
  lemma HandedOverRights(s: State, t: Thread, m: Mutex, c: Priority, n: Thread)
    requires s.Valid() && t in s.th && s.th[t].pending == null
    requires m in s.mx && s.mx[m].owner == t && s.mx[m].waiters != [] && n == s.mx[m].waiters[0] && n in s.th
    requires Untaken(s, t, m, c).IsBest(t, c)
    ensures n != t && (forall w | w in s.mx[m].waiters :: w in s.th)
    ensures var r := HandedOver(s, t, m, c, n);
      && r.Structured() && r.QueuesRight(r.th) && r.ThreadsRightExcept(n)
      && (r.ThreadRight(n) <==> s.th[n].curr <= s.mx[m].ceiling)
  {
    hide *;
    ValidParts(s);
    HandedOverQueue(s, t, m, c, n);
    HandedOverStructured(s, t, m, c, n);
    HeadWaiter(s, m);
    HandedOverFrame(s, t, m, c, n);
    var r := HandedOver(s, t, m, c, n);
    AtThread(s, n);
    HandedOverOwner(s, r, n, m);
    UntakenList(s, t, m);
    BestIsRight(Untaken(s, t, m, c), r, t, c);
    HandedOverOthers(s, r, t, m, n);
    QueuesTransfer(s, r, m, t);
  }

  lemma HandedOverOthers(s: State, r: State, t: Thread, m: Mutex, n: Thread)
    requires s.Valid() && m in s.mx && s.mx[m].owner == t && r.th.Keys == s.th.Keys && r.mx.Keys == s.mx.Keys
    requires forall u | u in s.th && u != t && u != n :: r.th[u] == s.th[u]
    requires forall k | k in s.mx && k != m :: r.mx[k] == s.mx[k]
    requires t in r.th && r.ThreadRight(t)
    ensures r.ThreadsRightExcept(n)
  {
    forall v | v in r.th && v != n ensures r.ThreadRight(v) {
      if v != t {
        AtThread(s, v);
        SameBest(s, r, v, s.th[v].curr);
      }
    }
  }

  lemma HandedOverFrame(s: State, t: Thread, m: Mutex, c: Priority, n: Thread)
    requires t in s.th && m in s.mx && n in s.th && n != t
    requires forall w | w in s.mx[m].waiters :: w in s.th
    ensures var r := HandedOver(s, t, m, c, n);
      && r.th.Keys == s.th.Keys && r.mx.Keys == s.mx.Keys
      && (forall u | u in s.th && u != t && u != n :: r.th[u] == s.th[u])
      && (forall k | k in s.mx && k != m :: r.mx[k] == s.mx[k])
      && t in Untaken(s, t, m, c).th && r.th[t] == Untaken(s, t, m, c).th[t] && Untaken(s, t, m, c).mx == s.mx
      && r.th[t] == s.th[t].(taken := Remove(s.th[t].taken, m), curr := c)
      && r.th[n] == s.th[n].(taken := [m] + s.th[n].taken, suspended := false, pending := null)
      && r.mx[m].owner == n && r.mx[m].hold == 1
      && r.mx[m].ceiling == s.mx[m].ceiling
  {}

  lemma HandedOverOwner(s: State, r: State, n: Thread, m: Mutex)
    requires n in s.th && n in r.th && m in s.mx && m in r.mx && m !in s.th[n].taken
    requires r.th[n].curr == s.th[n].curr && r.th[n].init == s.th[n].init && r.th[n].taken == [m] + s.th[n].taken
    requires forall k | k in s.th[n].taken :: k in s.mx && k in r.mx && r.mx[k] == s.mx[k]
    requires s.ThreadRight(n) && s.th[n].curr <= r.mx[m].priority
    ensures r.ThreadRight(n) <==> s.th[n].curr <= r.mx[m].ceiling
  {
    assert m in r.th[n].taken;
    assert forall k | k in s.th[n].taken :: k in r.th[n].taken && r.Lends(k) == s.Lends(k);
  }

  lemma UntakenView(s: State, t: Thread, m: Mutex, c: Priority)
    requires t in s.th
    ensures var r := Untaken(s, t, m, c);
      && r.th.Keys == s.th.Keys && r.mx == s.mx
      && r.th[t] == s.th[t].(taken := Remove(s.th[t].taken, m), curr := c)
      && (forall p: Priority :: r.SetCurr(t, p) == Untaken(s, t, m, p))
  {}

  lemma UntakenBest(s: State, t: Thread, m: Mutex, c: Priority, p: Priority)
    requires t in s.th && Untaken(s, t, m, c).IsBest(t, p)
    ensures Untaken(s, t, m, p).IsBest(t, p)
  {
    SameBest(Untaken(s, t, m, c), Untaken(s, t, m, p), t, p);
  }

  ghost function Unowned(s: State, m: Mutex): State
    requires m in s.mx
  {
    s.(mx := s.mx[m := s.mx[m].(owner := null, priority := NO_PRIORITY, hold := 0)])
  }

  ghost function Reowned(s: State, m: Mutex, n: Thread): State
    requires m in s.mx && n in s.th
  {
    State(s.th[n := s.th[n].(taken := [m] + s.th[n].taken)], s.mx[m := s.mx[m].(owner := n, hold := 1)])
  }

  lemma FreedParts(s: State, t: Thread, m: Mutex, c: Priority)
    requires t in s.th && m in s.mx
    ensures m in Untaken(s, t, m, c).mx && Freed(s, t, m, c) == Unowned(Untaken(s, t, m, c), m)
  {}

  /** The writes of a hand-over, in the order the code makes them. */
  lemma HandedOverParts(s: State, t: Thread, m: Mutex, c: Priority, n: Thread)
    requires t in s.th && m in s.mx && n in s.th && n != t && forall w | w in s.mx[m].waiters :: w in s.th && w != t
    ensures forall w | w in Remove(s.mx[m].waiters, n) :: w in s.th
    ensures var rest := Remove(s.mx[m].waiters, n);
      var u := Untaken(s, t, m, c);
      && m in u.mx && n in u.th
      && var q := u.SetQueue(m, s.mx[m].priority, rest);
      && n in q.th
      && var w := Rewaited(q, n, false, null);
      && m in w.mx && n in w.th
      && var o := Reowned(w, m, n);
      && m in o.mx && (forall w | w in rest :: w in o.th) && o.mx[m].waiters == rest
      && o.SetQueue(m, HeadPriority(o.th, rest), rest) == HandedOver(s, t, m, c, n)
  {
    RemoveSubset(s.mx[m].waiters, n);
    if Remove(s.mx[m].waiters, n) != [] { assert Remove(s.mx[m].waiters, n)[0] in s.th; }
  }

  lemma HeadBeforeAll(th: map<Thread, ThreadView>, w: seq<Thread>)
    requires (forall t | t in w :: t in th) && Sorted(th, w) && w != []
    ensures forall t | t in w :: th[w[0]].curr <= th[t].curr
  {
    forall t | t in w ensures th[w[0]].curr <= th[t].curr { HeadIsLeast(th, w, t); }
  }

  lemma RightExceptOne(s: State, n: Thread)
    requires s.Structured() && s.QueuesRight(s.th) && s.ThreadsRightExcept(n) && n in s.th
    ensures s.Valid() <==> s.ThreadRight(n)
  {}

  lemma ReleaseHead(s: State, t: Thread, m: Mutex)
    requires s.Valid() && t in s.th && m in s.mx && s.mx[m].owner == t && s.mx[m].waiters != []
    ensures s.mx[m].waiters[0] in s.th && s.mx[m].waiters[0] != t
    ensures forall w | w in s.mx[m].waiters :: w in s.th && w != t && s.th[s.mx[m].waiters[0]].curr <= s.th[w].curr
  {
    AtMutex(s, m);
    HeadWaiter(s, m);
    HeadBeforeAll(s.th, s.mx[m].waiters);
  }

  // ---- Priority ceiling ----

  ghost function WithCeiling(s: State, m: Mutex, p: Priority): State
    requires m in s.mx
  {
    s.(mx := s.mx[m := s.mx[m].(ceiling := p)])
  }

  lemma CeilingRights(s: State, m: Mutex, p: Priority)
    requires s.Valid() && m in s.mx
    ensures var r := WithCeiling(s, m, p);
      m in r.mx && r.mx[m].owner == s.mx[m].owner
      && r.Structured() && r.QueuesRight(r.th) && r.ThreadsRightExcept(s.mx[m].owner)
  {
    hide State.Structured, State.QueuesRight, State.ThreadsRightExcept, State.Valid;
    ValidParts(s);
    var r := WithCeiling(s, m, p);
    forall k | k in r.mx ensures r.MutexStructured(k) { MutexAt(s, k); }
    forall t | t in r.th ensures r.ThreadStructured(t) { ThreadAt(s, t); }
    AllStructured(r);
    QueueAt(s, m);
    QueuesTransfer(s, r, m, null);
    RightsWiden(s, s.mx[m].owner);
    RightsTransfer(s, r, m, s.mx[m].owner);
  }

  // ---- Leaving a queue ----

  lemma WaitingFor(s: State, t: Thread)
    requires s.Valid() && t in s.th && s.th[t].pending != null
    ensures var m: Mutex := s.th[t].pending;
      && m in s.mx && s.mx[m].owner != null && s.mx[m].owner in s.th && s.mx[m].owner != t
      && (forall w | w in s.mx[m].waiters :: w in s.th)
  {
    assert s.ThreadStructured(t);
    assert s.MutexStructured(s.th[t].pending);
  }

  lemma UnqueuedParts(s: State, t: Thread, m: Mutex)
    requires t in s.th && m in s.mx && (forall w | w in s.mx[m].waiters :: w in s.th)
    ensures forall w | w in Remove(s.mx[m].waiters, t) :: w in s.th
    ensures var rest := Remove(s.mx[m].waiters, t);
      var q := s.SetQueue(m, s.mx[m].priority, rest);
      && t in q.th
      && var w := Rewaited(q, t, false, null);
      && m in w.mx && w.mx[m].waiters == rest && (forall w | w in rest :: w in s.th)
      && (forall u | u in rest :: u in w.th)
      && w.SetQueue(m, HeadPriority(w.th, rest), rest) == Unqueued(s, t, m)
  {
    RemoveSubset(s.mx[m].waiters, t);
    if Remove(s.mx[m].waiters, t) != [] { assert Remove(s.mx[m].waiters, t)[0] in s.th; }
  }

  lemma ValidStructure(s: State, t: Thread)
    requires s.Structured() && t in s.th
    ensures forall k | k in s.th[t].taken :: k in s.mx
  {
    assert s.ThreadStructured(t);
  }

  lemma BestNow(s: State, t: Thread, p: Priority)
    requires t in s.th && s.IsBest(t, p) && p == s.th[t].curr
    ensures s.ThreadRight(t)
  {}
}
