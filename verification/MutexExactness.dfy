/** What the equations mean: priority inheritance is exact and transitive. */
module Exactness {
  import opened Chains
  import opened Lists
  import opened MutexObjects
  import opened WaitGraph
  import opened InheritanceProofs
  import opened MutexSteps

  /** A priority that thread `u` brings in by itself: its own, or the ceiling of a mutex it holds. */
  ghost predicate Brings(s: State, u: Thread, p: Priority)
    requires u in s.th
  {
    p == s.th[u].init || exists m | m in s.th[u].taken :: m in s.mx && p == s.mx[m].ceiling
  }

  /**
   * `t` runs at the most urgent priority among all that it and the threads waiting for it, directly or through others,
   * bring in.
   */
  ghost predicate Exact(s: State, t: Thread)
    requires t in s.th
  {
    && (forall u, p: Priority | u in s.th && Waits(s.Waiting(), u, t) && Brings(s, u, p) :: s.th[t].curr <= p)
    && (exists u | u in s.th && Waits(s.Waiting(), u, t) :: Brings(s, u, s.th[t].curr))
  }

  /** The owner is at least as urgent as each thread that waits for one of its mutexes. */
  lemma OwnerAtLeast(s: State, u: Thread)
    requires s.Valid() && u in s.Waiting()
    ensures s.Waiting()[u] in s.th && s.th[s.Waiting()[u]].curr <= s.th[u].curr
  {
    hide State.Structured, State.QueuesRight, State.ThreadsRightExcept, State.Valid;
    AtThread(s, u);
    var m: Mutex := s.th[u].pending;
    AtMutex(s, m);
    var o: Thread := s.mx[m].owner;
    AtThread(s, o);
    assert u in s.mx[m].waiters && m in s.th[o].taken;
    HeadIsLeast(s.th, s.mx[m].waiters, u);
    assert s.th[o].curr <= s.Lends(m);
  }

  /** Waiting for a thread never leaves it less urgent than the waiter, cycle or no cycle. */
  lemma {:induction false} NoInversion(s: State, u: Thread, t: Thread, n: nat)
    requires s.Valid() && u in s.th && Reaches(s.Waiting(), u, t, n)
    ensures t in s.th && s.th[t].curr <= s.th[u].curr
    decreases n
  {
    hide State.Valid, State.Waiting;
    if n > 0 {
      OwnerAtLeast(s, u);
      NoInversion(s, s.Waiting()[u], t, n - 1);
    }
  }

  /** If neither its own priority nor a ceiling explains a thread's priority, its most urgent waiter does. */
  lemma UrgentWaiter(s: State, x: Thread) returns (w: Thread)
    requires s.Valid() && x in s.th && !Brings(s, x, s.th[x].curr)
    ensures w in s.Waiting() && s.Waiting()[w] == x && s.th[w].curr == s.th[x].curr
  {
    AtThread(s, x);
    var m :| m in s.th[x].taken && s.th[x].curr == s.Lends(m);
    AtMutex(s, m);
    w := s.mx[m].waiters[0];
    assert w in s.mx[m].waiters;
    AtThread(s, w);
  }

  /** Following the most urgent waiter back from `t` finds who brought its priority in. */
  lemma {:induction false} FindSource(s: State, t: Thread, x: Thread, n: nat, seen: set<Thread>) returns (u: Thread)
    requires s.Valid() && Acyclic(s.Waiting()) && x in s.th && t in s.th && s.th[x].curr == s.th[t].curr
    requires Reaches(s.Waiting(), x, t, n)
    requires x !in seen && seen <= s.th.Keys && forall y | y in seen :: Waits(s.Waiting(), x, y)
    ensures u in s.th && Waits(s.Waiting(), u, t) && Brings(s, u, s.th[t].curr)
    decreases s.th.Keys - seen
  {
    hide State.Valid, State.Waiting, Brings;
    if Brings(s, x, s.th[x].curr) {
      u := x;
    } else {
      var w := UrgentWaiter(s, x);
      forall y | y in seen + {x} ensures Waits(s.Waiting(), w, y) && y != w {
        assert Reaches(s.Waiting(), x, x, 0);
        var k: nat :| Reaches(s.Waiting(), x, y, k);
        assert Reaches(s.Waiting(), w, y, k + 1);
      }
      u := FindSource(s, t, w, n + 1, seen + {x});
    }
  }

  /** Main result: on an acyclic wait graph the local equations pin every priority down exactly. */
  lemma InheritanceExact(s: State, t: Thread)
    requires s.Valid() && Acyclic(s.Waiting()) && t in s.th
    ensures Exact(s, t)
  {
    assert Reaches(s.Waiting(), t, t, 0);
    forall u, p: Priority | u in s.th && Waits(s.Waiting(), u, t) && Brings(s, u, p) ensures s.th[t].curr <= p {
      var n: nat :| Reaches(s.Waiting(), u, t, n);
      NoInversion(s, u, t, n);
      BringsBounds(s, u, p);
    }
    var u := FindSource(s, t, t, 0, {});
  }

  lemma BringsBounds(s: State, u: Thread, p: Priority)
    requires s.Valid() && u in s.th && Brings(s, u, p)
    ensures s.th[u].curr <= p
  {
    AtThread(s, u);
  }

  /**
   * Ownership is unambiguous: a mutex is held if and only if it has an owner, it is once in that thread's taken list
   * and in no other, a thread waits for it if and only if it says so itself, and nobody waits for a mutex without an
   * owner.
   */
  lemma OwnershipSafe(s: State, m: Mutex, t: Thread)
    requires s.Valid() && m in s.mx && t in s.th
    ensures s.mx[m].hold > 0 <==> s.mx[m].owner != null
    ensures multiset(s.th[t].taken)[m] == if s.mx[m].owner == t then 1 else 0
    ensures multiset(s.mx[m].waiters)[t] == if s.th[t].pending == m then 1 else 0
    ensures s.mx[m].waiters != [] ==> s.mx[m].owner != null && s.mx[m].owner !in s.mx[m].waiters
  {
    AtMutex(s, m);
    AtThread(s, t);
    OccursOnce(s.th[t].taken, m);
    OccursOnce(s.mx[m].waiters, t);
  }
}
