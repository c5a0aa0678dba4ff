/**
 * The order of arrival over whole runs: of two waiters of one priority the one that blocked first gets the mutex first.
 */
module Fairness {
  import opened Common
  import opened Lists
  import opened MutexObjects
  import opened WaitGraph
  import opened InheritanceProofs
  import opened MutexSteps
  import opened WaitOrder
  import opened MutexRuns

  ghost predicate Ahead<T>(w: seq<T>, a: T, b: T) {
    exists i: nat, j: nat :: i < j < |w| && w[i] == a && w[j] == b
  }

  // ---- Rows ----

  lemma {:induction false} AheadWithout<T>(w: seq<T>, gone: set<T>, a: T, b: T)
    requires a !in gone && b !in gone
    ensures Ahead(Without(w, gone), a, b) <==> Ahead(w, a, b)
    ensures b in Without(w, gone) <==> b in w
    decreases |w|
  {
    if w != [] {
      AheadWithout(w[1..], gone, a, b);
      AheadFirst(w, a, b);
      if w[0] in gone {
        assert Without(w, gone) == Without(w[1..], gone);
      } else {
        var v := Without(w, gone);
        assert v == [w[0]] + Without(w[1..], gone);
        assert v[0] == w[0] && v[1..] == Without(w[1..], gone);
        AheadFirst(v, a, b);
      }
    }
  }

  lemma AheadFirst<T>(w: seq<T>, a: T, b: T)
    requires w != []
    ensures Ahead(w, a, b) <==> (w[0] == a && b in w[1..]) || Ahead(w[1..], a, b)
  {
    if Ahead(w, a, b) {
      var i: nat, j: nat :| i < j < |w| && w[i] == a && w[j] == b;
      assert w[1..][j - 1] == b;
      if i > 0 { assert w[1..][i - 1] == a; }
    }
    if w[0] == a && b in w[1..] {
      var j: nat :| j < |w| - 1 && w[1..][j] == b;
      assert w[0] == a && w[j + 1] == b;
    }
    if Ahead(w[1..], a, b) {
      var i: nat, j: nat :| i < j < |w| - 1 && w[1..][i] == a && w[1..][j] == b;
      assert w[i + 1] == a && w[j + 1] == b;
    }
  }

  /** Where a thread joins or leaves, the others keep their order. */
  lemma AheadSplit<T>(u: seq<T>, x: T, v: seq<T>, a: T, b: T)
    requires a != x && b != x
    ensures Ahead(u + [x] + v, a, b) <==> Ahead(u + v, a, b)
  {
    AheadWithout(u + [x] + v, {x}, a, b);
    AheadWithout(u + v, {x}, a, b);
    assert Without([x], {x}) == [];
    WithoutJoin(u, v, {x});
    WithoutJoin(u + [x], v, {x});
    WithoutJoin(u, [x], {x});
    assert Without(u, {x}) + [] == Without(u, {x});
  }

  lemma AheadRemoved<T>(w: seq<T>, x: T, a: T, b: T)
    requires a != x && b != x
    ensures Ahead(Remove(w, x), a, b) <==> Ahead(w, a, b)
  {
    if x in w {
      var i := IndexOf(w, x);
      assert w == w[..i] + [x] + w[i + 1..];
      AheadSplit(w[..i], x, w[i + 1..], a, b);
    }
  }

  // ---- Steps ----

  /** What propagation leaves alone: the owner, the members, and the order of threads whose priority is the same. */
  lemma SettledAhead(s: State, r: State, m: Mutex, a: Thread, b: Thread)
    requires Settles(s, r) && m in s.mx && a in s.th && b in s.th
    requires r.th[a].curr == s.th[a].curr && r.th[b].curr == s.th[b].curr
    ensures m in r.mx && r.mx[m].owner == s.mx[m].owner
    ensures forall x :: x in r.mx[m].waiters <==> x in s.mx[m].waiters
    ensures Ahead(r.mx[m].waiters, a, b) <==> Ahead(s.mx[m].waiters, a, b)
  {
    hide Ahead, Without;
    AheadWithout(s.mx[m].waiters, Changed(s, r), a, b);
    AheadWithout(r.mx[m].waiters, Changed(s, r), a, b);
    SameMembers(s.mx[m].waiters, r.mx[m].waiters);
  }

  lemma SameMembers<T>(u: seq<T>, v: seq<T>)
    requires multiset(u) == multiset(v)
    ensures forall x :: x in u <==> x in v
  {
    forall x ensures x in u <==> x in v { assert x in multiset(u) <==> x in multiset(v); }
  }

  /** `a` waits for `m`, is at least as urgent as `b`, and is before it if that waits for `m` too. */
  ghost predicate Leads(s: State, m: Mutex, a: Thread, b: Thread) {
    && m in s.mx && a in s.th && b in s.th && a != b
    && a in s.mx[m].waiters && s.th[a].curr <= s.th[b].curr
    && (b in s.mx[m].waiters ==> Ahead(s.mx[m].waiters, a, b))
  }

  /** Neither priority changed, and `a` still waits. */
  ghost predicate Steady(s: State, n: State, m: Mutex, a: Thread, b: Thread) {
    && a in s.th && b in s.th && a in n.th && b in n.th
    && n.th[a].curr == s.th[a].curr && n.th[b].curr == s.th[b].curr
    && m in n.mx && a in n.mx[m].waiters
  }

  lemma JoinedAhead(th: map<Thread, ThreadView>, w: seq<Thread>, x: Thread, v: seq<Thread>, a: Thread, b: Thread)
    requires x in th && (forall t | t in w :: t in th) && Joins(th, w, x, v)
    requires a in w && b in th && a != b && x != a && x !in w && th[a].curr <= th[b].curr
    requires b in w ==> Ahead(w, a, b)
    ensures b in v ==> Ahead(v, a, b)
  {
    hide Ahead;
    var n: nat :| PlaceOf(th, w, x, n) && v == w[..n] + [x] + w[n..];
    if b == x {
      var i: nat :| i < |w| && w[i] == a;
      assert i < n;
      BehindAt(w, i, n, x);
    } else {
      InsertedAhead(w, n, x, a, b);
    }
  }

  lemma InsertedAhead<T>(w: seq<T>, n: nat, x: T, a: T, b: T)
    requires n <= |w| && a != x && b != x && (b in w ==> Ahead(w, a, b))
    ensures b in w[..n] + [x] + w[n..] ==> Ahead(w[..n] + [x] + w[n..], a, b)
  {
    hide Ahead;
    assert w[..n] + w[n..] == w;
    if b in w[..n] + [x] + w[n..] {
      assert b in w;
      AheadSplit(w[..n], x, w[n..], a, b);
    }
  }

  lemma BehindAt<T>(w: seq<T>, i: nat, n: nat, x: T)
    requires i < n <= |w|
    ensures Ahead(w[..n] + [x] + w[n..], w[i], x)
  {
    var v := w[..n] + [x] + w[n..];
    assert v[i] == w[i] && v[n] == x;
  }

  lemma TakeLeads(s: State, t: Thread, m: Mutex, timeout: int, n: State, k: Mutex, a: Thread, b: Thread)
    requires s.Valid() && t in s.th && m in s.mx && !s.th[t].suspended && NextTake(s, t, m, timeout, n)
    requires Leads(s, k, a, b) && Steady(s, n, k, a, b)
    ensures Leads(n, k, a, b) && (n.mx[k].owner == b ==> s.mx[k].owner == b)
  {
    hide State.Valid, Ahead, Settles, Blocked, Joins;
    AtMutex(s, m);
    NotPending(s, t);
    var v := s.mx[m];
    if v.owner != t && v.owner == null {
      assert v.waiters == [] && k != m;
      AcquiredIs(s, t, m, Min(s.th[t].curr, v.ceiling));
    } else if v.owner != t && timeout != 0 {
      BlockedIs(s, t, m);
      if k == m { JoinedAhead(s.th, v.waiters, t, Blocked(s, t, m).mx[m].waiters, a, b); }
      SettledAhead(Blocked(s, t, m), n, k, a, b);
    }
  }

  lemma ReleaseLeads(s: State, t: Thread, m: Mutex, n: State, k: Mutex, a: Thread, b: Thread)
    requires s.Valid() && t in s.th && m in s.mx && !s.th[t].suspended && NextRelease(s, t, m, n)
    requires Leads(s, k, a, b) && Steady(s, n, k, a, b)
    ensures Leads(n, k, a, b) && (n.mx[k].owner == b ==> s.mx[k].owner == b)
  {
    hide State.Valid, Ahead, HandedOver, Freed;
    AtMutex(s, m);
    var v := s.mx[m];
    if v.owner == t && v.hold <= 1 {
      if v.waiters == [] {
        FreedIs(s, t, m, n.th[t].curr);
      } else {
        HandedOverIs(s, t, m, n.th[t].curr, v.waiters[0]);
        if k == m { HeadLeaves(v.waiters, a, b); }
      }
    }
  }

  lemma HeadLeaves<T>(w: seq<T>, a: T, b: T)
    requires w != [] && Distinct(w) && a in w && a in w[1..] && a != b && (b in w ==> Ahead(w, a, b))
    ensures b != w[0] && (b in w[1..] ==> Ahead(w[1..], a, b))
  {
    hide Ahead, Distinct;
    AheadFirst(w, a, b);
    NowhereElse(w, 0);
    if b in w { SecondBehind(w, a, b); }
  }

  lemma SecondBehind<T>(w: seq<T>, a: T, b: T)
    requires Ahead(w, a, b)
    ensures w != [] && b in w[1..]
  {
    var i: nat, j: nat :| i < j < |w| && w[i] == a && w[j] == b;
    assert w[1..][j - 1] == b;
  }

  lemma AbandonLeads(s: State, t: Thread, n: State, k: Mutex, a: Thread, b: Thread)
    requires s.Valid() && t in s.th && s.th[t].pending != null && NextAbandon(s, t, n)
    requires Leads(s, k, a, b) && Steady(s, n, k, a, b)
    ensures Leads(n, k, a, b) && (n.mx[k].owner == b ==> s.mx[k].owner == b)
  {
    hide State.Valid, Ahead, Settles, Unqueued;
    AtThread(s, t);
    var m: Mutex := s.th[t].pending;
    AtMutex(s, m);
    UnqueuedIs(s, t, m);
    SettledAhead(Unqueued(s, t, m), n, k, a, b);
    if k == m { OneLeaves(s.mx[m].waiters, t, Unqueued(s, t, m).mx[m].waiters, a, b); }
  }

  lemma OneLeaves<T>(w: seq<T>, x: T, v: seq<T>, a: T, b: T)
    requires x !in v && exists i: nat :: i < |w| && w[i] == x && v == w[..i] + w[i + 1..]
    requires a in v && (b in w ==> Ahead(w, a, b))
    ensures b in v ==> Ahead(v, a, b)
  {
    var i: nat :| i < |w| && w[i] == x && v == w[..i] + w[i + 1..];
    if b in v {
      assert w == w[..i] + [x] + w[i + 1..];
      assert b in w;
      AheadSplit(w[..i], x, w[i + 1..], a, b);
    }
  }

  lemma NextLeads(s: State, op: Op, n: State, k: Mutex, a: Thread, b: Thread)
    requires s.Valid() && Known(s, op) && Next(s, op, n) && Leads(s, k, a, b) && Steady(s, n, k, a, b)
    ensures Leads(n, k, a, b) && (n.mx[k].owner == b ==> s.mx[k].owner == b)
  {
    hide State.Valid, Ahead, Settles, NextTake, NextRelease, NextAbandon, WithCeiling;
    match op {
      case Take(t, m, timeout) => if !s.th[t].suspended { TakeLeads(s, t, m, timeout, n, k, a, b); }
      case Release(t, m) => if !s.th[t].suspended { ReleaseLeads(s, t, m, n, k, a, b); }
      case Abandon(t) => if s.th[t].pending != null { AbandonLeads(s, t, n, k, a, b); }
      case SetCeiling(m, p, max) =>
        var r := if p < max then WithCeiling(s, m, p) else s;
        CeilingIs(s, m, p);
        SettledAhead(r, n, k, a, b);
      case Sleep(t) =>
      case Wake(t) =>
    }
  }

  // ---- Runs ----

  /**
   * Nobody overtakes. While `a` waits for `m`, a thread `b` that is no more urgent, and was not before it, stays behind
   * it whenever it waits for `m` too, and does not get the mutex: not until `a` has left or a priority has changed.
   */
  lemma {:induction false} NoOvertaking(ops: seq<Op>, trace: seq<State>, m: Mutex, a: Thread, b: Thread, i: nat, j: nat)
    requires Follows(ops, trace) && i <= j < |trace| && Leads(trace[i], m, a, b)
    requires forall k: nat :: i <= k <= j ==> Steady(trace[i], trace[k], m, a, b)
    ensures Leads(trace[j], m, a, b)
    ensures trace[j].mx[m].owner == b ==> trace[i].mx[m].owner == b
  {
    hide State.Valid, Known, Next, Leads, Steady, Follows;
    if i < j {
      NoOvertaking(ops, trace, m, a, b, i, j - 1);
      StepAt(ops, trace, j - 1);
      StillSteady(trace[i], trace[j - 1], trace[j], m, a, b);
      NextLeads(trace[j - 1], ops[j - 1], trace[j], m, a, b);
    }
  }

  lemma StepAt(ops: seq<Op>, trace: seq<State>, i: nat)
    requires Follows(ops, trace) && i + 1 < |trace|
    ensures i < |ops| && FollowsAt(ops, trace, i)
  {}

  lemma StillSteady(s: State, r: State, n: State, m: Mutex, a: Thread, b: Thread)
    requires Steady(s, r, m, a, b) && Steady(s, n, m, a, b)
    ensures Steady(r, n, m, a, b)
  {}
}
