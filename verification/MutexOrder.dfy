/** The order of arrival: what propagation does to the wait queues of threads whose priority it does not change. */
module WaitOrder {
  import opened Lists
  import opened MutexObjects
  import opened WaitGraph

  ghost function Without<T>(w: seq<T>, gone: set<T>): seq<T> {
    if w == [] then [] else (if w[0] in gone then [] else [w[0]]) + Without(w[1..], gone)
  }

  lemma {:induction false} WithoutJoin<T>(a: seq<T>, b: seq<T>, gone: set<T>)
    ensures Without(a + b, gone) == Without(a, gone) + Without(b, gone)
    decreases |a|
  {
    if a == [] {
      assert a + b == b;
    } else {
      WithoutJoin(a[1..], b, gone);
      assert (a + b)[1..] == a[1..] + b;
    }
  }

  lemma WithoutInsert<T>(w: seq<T>, i: nat, x: T, gone: set<T>)
    requires i <= |w| && x in gone
    ensures Without(InsertAt(w, i, x), gone) == Without(w, gone)
  {
    assert InsertAt(w, i, x) == w[..i] + [x] + w[i..] && w == w[..i] + w[i..];
    WithoutJoin(w[..i], w[i..], gone);
    WithoutJoin(w[..i] + [x], w[i..], gone);
    WithoutJoin(w[..i], [x], gone);
  }

  lemma WithoutRemove<T>(w: seq<T>, x: T, gone: set<T>)
    requires x in gone
    ensures Without(Remove(w, x), gone) == Without(w, gone)
  {
    if x in w {
      var i := IndexOf(w, x);
      assert w == w[..i] + [x] + w[i + 1..] && Remove(w, x) == w[..i] + w[i + 1..];
      WithoutJoin(w[..i], w[i + 1..], gone);
      WithoutJoin(w[..i] + [x], w[i + 1..], gone);
      WithoutJoin(w[..i], [x], gone);
    }
  }

  lemma {:induction false} WithoutTwice<T>(w: seq<T>, gone: set<T>, more: set<T>)
    requires gone <= more
    ensures Without(Without(w, gone), more) == Without(w, more)
    decreases |w|
  {
    if w != [] {
      WithoutTwice(w[1..], gone, more);
      var rest, less := Without(w[1..], gone), Without(w, gone);
      if w[0] in gone {
        assert less == rest;
      } else {
        assert less == [w[0]] + rest;
        assert less[0] == w[0] && less[1..] == rest;
      }
    }
  }

  /** Threads other than those in `moved` wait in the same order. */
  ghost predicate OrderKept(s: State, r: State, moved: set<Thread>) {
    && s.mx.Keys == r.mx.Keys
    && forall m | m in s.mx :: Without(r.mx[m].waiters, moved) == Without(s.mx[m].waiters, moved)
  }

  /** The threads whose priority is not the same. */
  ghost function Changed(s: State, r: State): set<Thread> {
    set u | u in s.th && u in r.th && s.th[u].curr != r.th[u].curr
  }

  /** Priorities and queues may differ, but threads whose priority is the same wait in the same order. */
  ghost predicate Settles(s: State, r: State) {
    SameGraph(s, r) && OrderKept(s, r, Changed(s, r))
  }

  /** All priorities went one way, and those of `moved` are not what they were. */
  ghost predicate Drifts(s: State, r: State, moved: set<Thread>, up: bool) {
    && s.th.Keys == r.th.Keys
    && (forall u | u in s.th :: if up then s.th[u].curr <= r.th[u].curr else s.th[u].curr >= r.th[u].curr)
    && (forall u | u in moved :: u in s.th && s.th[u].curr != r.th[u].curr)
  }

  lemma MoreMoved(s: State, r: State, moved: set<Thread>, more: set<Thread>)
    requires OrderKept(s, r, moved) && moved <= more
    ensures OrderKept(s, r, more)
  {
    forall m | m in s.mx ensures Without(r.mx[m].waiters, more) == Without(s.mx[m].waiters, more) {
      WithoutTwice(s.mx[m].waiters, moved, more);
      WithoutTwice(r.mx[m].waiters, moved, more);
    }
  }

  lemma NothingMoved(s: State)
    ensures Settles(s, s)
  {}

  /** Taking a thread out of a queue and putting it back elsewhere. */
  lemma RequeuedOrder(s: State, m: Mutex, p: Priority, i: nat, x: Thread)
    requires m in s.mx && i <= |Remove(s.mx[m].waiters, x)|
    ensures OrderKept(s, s.SetQueue(m, p, InsertAt(Remove(s.mx[m].waiters, x), i, x)), {x})
  {
    WithoutInsert(Remove(s.mx[m].waiters, x), i, x, {x});
    WithoutRemove(s.mx[m].waiters, x, {x});
  }

  /** One round after the others: `x` is among the threads that moved before. */
  lemma NextRound(start: State, s: State, r: State, x: Thread, owner: Thread, changed: bool, moved: set<Thread>,
      up: bool)
    requires OrderKept(start, s, moved) && Drifts(start, s, moved, up) && x in moved
    requires OrderKept(s, r, {x}) && Drifts(s, r, if changed then {owner} else {}, up)
    ensures OrderKept(start, r, moved) && Drifts(start, r, if changed then moved + {owner} else moved, up)
    ensures changed ==> OrderKept(start, r, moved + {owner})
  {
    MoreMoved(s, r, {x}, moved);
    assert OrderKept(start, r, moved);
    if changed { MoreMoved(start, r, moved, moved + {owner}); }
  }

  lemma Settled(s: State, r: State, moved: set<Thread>, up: bool)
    requires SameGraph(s, r) && OrderKept(s, r, moved) && Drifts(s, r, moved, up)
    ensures Settles(s, r)
  {
    MoreMoved(s, r, moved, Changed(s, r));
  }

  lemma FirstMove(s: State, x: Thread, p: Priority)
    requires x in s.th && p != s.th[x].curr
    ensures OrderKept(s, s.SetCurr(x, p), {x}) && Drifts(s, s.SetCurr(x, p), {x}, p > s.th[x].curr)
  {}
}
