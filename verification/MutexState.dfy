/** The objects of the mutex code and the value-level view of all of them that the proofs work on. */
module MutexObjects {

  /** `rt_uint8_t` priorities: a smaller number is more urgent. */
  type Priority = p: nat | p <= 0xff

  /** What a mutex nobody waits for, and a mutex without a ceiling, carry. */
  const NO_PRIORITY: Priority := 0xff
  const MUTEX_HOLD_MAX: nat := 0xff

  class Thread {
    const initPriority: Priority
    var currPriority: Priority
    var suspended: bool
    var pending: Mutex?
    var taken: seq<Mutex>

    constructor (priority: Priority)
      ensures initPriority == currPriority == priority
      ensures !suspended && pending == null && taken == []
    {
      initPriority, currPriority := priority, priority;
      suspended, pending, taken := false, null, [];
    }
  }

  class Mutex {
    var owner: Thread?
    var priority: Priority
    var hold: nat
    var ceiling: Priority
    var waiters: seq<Thread>

    constructor ()
      ensures owner == null && priority == ceiling == NO_PRIORITY && hold == 0 && waiters == []
    {
      owner, priority, hold, ceiling, waiters := null, NO_PRIORITY, 0, NO_PRIORITY, [];
    }
  }
}

/** Which thread waits for which, and the equations the priorities have to satisfy. */
module WaitGraph {
  import opened Lists
  import opened MutexObjects

  datatype ThreadView = ThreadView(init: Priority, curr: Priority, suspended: bool, pending: Mutex?, taken: seq<Mutex>)
  datatype MutexView = MutexView(owner: Thread?, priority: Priority, hold: nat, ceiling: Priority, waiters: seq<Thread>)

  ghost predicate Sorted(th: map<Thread, ThreadView>, w: seq<Thread>)
    requires forall t | t in w :: t in th
  {
    forall i, j :: 0 <= i < j < |w| ==> th[w[i]].curr <= th[w[j]].curr
  }

  ghost function HeadPriority(th: map<Thread, ThreadView>, w: seq<Thread>): Priority
    requires forall t | t in w :: t in th
  {
    if w == [] then NO_PRIORITY else th[w[0]].curr
  }

  /** All threads and mutexes at one instant. */
  datatype State = State(th: map<Thread, ThreadView>, mx: map<Mutex, MutexView>) {

    ghost function SetCurr(t: Thread, p: Priority): State
      requires t in th
    {
      this.(th := th[t := th[t].(curr := p)])
    }

    ghost function SetQueue(m: Mutex, p: Priority, w: seq<Thread>): State
      requires m in mx
    {
      this.(mx := mx[m := mx[m].(priority := p, waiters := w)])
    }

    /** Ownership and waiting agree from both ends. */
    ghost predicate Structured() {
      && (forall t | t in th :: ThreadStructured(t))
      && (forall m | m in mx :: MutexStructured(m))
    }

    ghost predicate ThreadStructured(t: Thread)
      requires t in th
    {
      && Distinct(th[t].taken)
      && (forall m | m in th[t].taken :: m in mx && mx[m].owner == t)
      && (th[t].pending != null ==>
            th[t].suspended && th[t].pending in mx && t in mx[th[t].pending].waiters)
    }

    ghost predicate MutexStructured(m: Mutex)
      requires m in mx
    {
      var v := mx[m];
      && Distinct(v.waiters)
      && (forall w | w in v.waiters :: w in th && th[w].pending == m && v.owner != w)
      && (v.owner != null ==> v.owner in th && m in th[v.owner].taken)
      && (v.owner != null <==> v.hold > 0)
      && v.hold <= MUTEX_HOLD_MAX
      && (v.owner == null ==> v.waiters == [])
    }

    /** Under the priorities in `p`: most urgent waiter first, and the mutex records its priority. */
    ghost predicate QueueRight(p: map<Thread, ThreadView>, m: Mutex)
      requires m in mx
    {
      && (forall w | w in mx[m].waiters :: w in p)
      && Sorted(p, mx[m].waiters)
      && mx[m].priority == HeadPriority(p, mx[m].waiters)
    }

    ghost predicate QueuesRight(p: map<Thread, ThreadView>) {
      forall m | m in mx :: QueueRight(p, m)
    }

    /** What a taken mutex lends its owner: its best waiter's priority or its ceiling. */
    ghost function Lends(m: Mutex): Priority
      requires m in mx
    {
      if mx[m].priority < mx[m].ceiling then mx[m].priority else mx[m].ceiling
    }

    /** `p` is the most urgent of the thread's own priority and what its taken mutexes lend it. */
    ghost predicate IsBest(t: Thread, p: Priority)
      requires t in th
    {
      && p <= th[t].init
      && (forall m | m in th[t].taken :: m in mx && p <= Lends(m))
      && (p == th[t].init || exists m | m in th[t].taken :: p == Lends(m))
    }

    ghost predicate ThreadRight(t: Thread)
      requires t in th
    {
      IsBest(t, th[t].curr)
    }

    ghost predicate ThreadsRightExcept(x: Thread?) {
      forall t | t in th && t != x :: ThreadRight(t)
    }

    /** The invariant of the mutex code between two calls. */
    ghost predicate Valid() {
      Structured() && QueuesRight(th) && ThreadsRightExcept(null)
    }

    /** The wait graph: every waiting thread, and the owner of the mutex it waits for. */
    ghost function Waiting(): (g: map<Thread, Thread>)
      ensures forall u | u in g :: u in th && th[u].pending != null && th[u].pending in mx
                                   && mx[th[u].pending].owner == g[u]
    {
      map u | u in th && th[u].pending != null && th[u].pending in mx && mx[th[u].pending].owner != null
        :: (var o: Thread := mx[th[u].pending].owner; o)
    }
  }

  /** Who owns and awaits what is the same in both; only priorities and queue orders may differ. */
  ghost predicate SameGraph(s: State, r: State) {
    && s.th.Keys == r.th.Keys && s.mx.Keys == r.mx.Keys
    && (forall t | t in s.th :: r.th[t] == s.th[t].(curr := r.th[t].curr))
    && (forall m | m in s.mx ::
          && r.mx[m] == s.mx[m].(priority := r.mx[m].priority, waiters := r.mx[m].waiters)
          && multiset(r.mx[m].waiters) == multiset(s.mx[m].waiters))
  }
}
