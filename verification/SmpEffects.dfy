/** What each step of the multi-core scheduler comes to, thread by thread and queue by queue. */
module SmpEffects {
  import opened Common
  import opened Lists
  import opened ReadyTables
  import opened SmpState
  import opened SmpSteps

  /** Only thread `t` and the queues may differ. */
  ghost predicate OnlyThread(s: State, n: State, t: nat) {
    && n.cpus == s.cpus && n.max == s.max && n.current == s.current
    && |n.threads| == |s.threads| && (forall u: nat :: u < |s.threads| && u != t ==> n.threads[u] == s.threads[u])
    && Shaped(s) && Shaped(n)
  }

  /** Only thread `t` may differ, and it is `v` now. */
  ghost predicate Becomes(s: State, n: State, t: nat, v: ThreadView) {
    OnlyThread(s, n, t) && n.queues == s.queues && t < |n.threads| && n.threads[t] == v
  }

  /** Only the queue at `b` and `p` may differ, and it is `q` now. */
  ghost predicate QueueBecomes(s: State, n: State, b: nat, p: nat, q: seq<nat>) {
    && Shaped(s) && Shaped(n) && n.cpus == s.cpus && n.max == s.max
    && forall d: nat, k: nat :: d <= s.cpus && k < s.max ==>
         QueueAt(n, d, k) == if d == b && k == p then q else QueueAt(s, d, k)
  }

  /**
   * A thread woken up off its CPU is READY, in the queue of its binding and priority: last when its yield mark is set,
   * else first.
   */
  lemma WokenQueued(s: State, t: nat)
    requires Valid(s) && t < |s.threads| && s.threads[t].stat == Suspended && s.threads[t].oncpu == s.cpus
    ensures var v, n := s.threads[t], Readied(s, t, false);
      && OnlyThread(s, n, t) && n.threads[t] == v.(stat := Ready) && v.bindCpu <= s.cpus && v.priority < s.max
      && var q := QueueAt(s, v.bindCpu, v.priority);
      QueueBecomes(s, n, v.bindCpu, v.priority, if v.yielding then q + [t] else [t] + q)
  {
    assert InRange(s, s.threads[t]);
  }

  /** Woken up while still on its CPU, it runs on and nothing else changes. */
  lemma WokenOnCpu(s: State, t: nat)
    requires Valid(s) && t < |s.threads| && s.threads[t].stat == Suspended && s.threads[t].oncpu < s.cpus
    ensures Becomes(s, Readied(s, t, false), t, s.threads[t].(stat := Running))
  {
    assert InRange(s, s.threads[t]);
  }

  /** A thread that is not suspended, or whose timer went off first, is not woken up. */
  lemma NotWoken(s: State, t: nat, late: bool)
    requires Valid(s) && t < |s.threads| && (s.threads[t].stat != Suspended || late)
    ensures Readied(s, t, late) == s
  {}

  lemma StartedQueued(s: State, t: nat)
    requires Valid(s) && t < |s.threads| && s.threads[t].stat == Init
    ensures var v, n := s.threads[t], Started(s, t);
      && OnlyThread(s, n, t) && v.bindCpu <= s.cpus && v.priority < s.max
      && n.threads[t] == v.(stat := Ready, yielding := false)
      && QueueBecomes(s, n, v.bindCpu, v.priority, [t] + QueueAt(s, v.bindCpu, v.priority))
  {
    assert InRange(s, s.threads[t]) && ThreadRight(s, t);
  }

  /** A running thread that stops keeps its CPU until the next switch, and any other stays as it is. */
  lemma StoppedOnly(s: State, c: nat)
    requires Valid(s) && c < s.cpus && s.current[c].Some?
    ensures s.current[c].value < |s.threads|
    ensures var t := s.current[c].value; var v := s.threads[t];
      Becomes(s, Stopped(s, c), t, if v.stat == Running then v.(stat := Suspended) else v)
  {
    assert CpuRight(s, c);
    assert InRange(s, s.threads[s.current[c].value]);
  }

  lemma YieldedOnly(s: State, c: nat)
    requires Valid(s) && c < s.cpus && s.current[c].Some?
    ensures s.current[c].value < |s.threads|
    ensures var t := s.current[c].value; Becomes(s, Yielded(s, c), t, s.threads[t].(yielding := true))
  {
    assert CpuRight(s, c);
    assert InRange(s, s.threads[s.current[c].value]);
  }

  /** A new priority moves a READY thread to the front of its new queue, with its yield mark dropped. */
  lemma ReprioritizedQueued(s: State, t: nat, p: nat)
    requires Valid(s) && t < |s.threads| && p < s.max
    ensures var v, n := s.threads[t], Reprioritized(s, t, p);
      && v.bindCpu <= s.cpus && v.priority < s.max
      && (v.stat != Ready ==> Becomes(s, n, t, v.(priority := p)))
      && (v.stat == Ready ==>
            && OnlyThread(s, n, t) && n.threads[t] == v.(priority := p, yielding := false)
            && (forall d: nat, k: nat :: d <= s.cpus && k < s.max && (d != v.bindCpu || (k != v.priority && k != p)) ==>
                  QueueAt(n, d, k) == QueueAt(s, d, k))
            && var left := Remove(QueueAt(s, v.bindCpu, v.priority), t);
            && (p != v.priority ==>
                  QueueAt(n, v.bindCpu, v.priority) == left
                  && QueueAt(n, v.bindCpu, p) == [t] + QueueAt(s, v.bindCpu, p))
            && (p == v.priority ==> QueueAt(n, v.bindCpu, p) == [t] + left))
  {
    assert InRange(s, s.threads[t]) && ThreadRight(s, t);
  }

  /** A binding changes nothing but itself, unless the thread is READY: then it leaves its queue. */
  lemma BoundOnly(s: State, t: nat, b: nat)
    requires Valid(s) && t < |s.threads| && b <= s.cpus
    ensures var v, n := s.threads[t], Bound(s, t, b);
      && v.bindCpu <= s.cpus && v.priority < s.max
      && (v.stat != Ready ==> Becomes(s, n, t, v.(bindCpu := b)))
      && (v.stat == Ready ==>
            && OnlyThread(s, n, t) && n.threads[t] == v.(bindCpu := b)
            && QueueBecomes(s, n, v.bindCpu, v.priority, Remove(QueueAt(s, v.bindCpu, v.priority), t)))
  {
    assert InRange(s, s.threads[t]) && ThreadRight(s, t);
  }

  lemma DetachedOnly(s: State, t: nat)
    requires Valid(s) && t < |s.threads| && s.threads[t].stat != Closed
    ensures var v, n := s.threads[t], Detached(s, t);
      && v.bindCpu <= s.cpus && v.priority < s.max
      && OnlyThread(s, n, t) && n.threads[t] == v.(stat := Closed, yielding := false)
      && (v.stat != Ready ==> n.queues == s.queues)
      && QueueBecomes(s, n, v.bindCpu, v.priority, Remove(QueueAt(s, v.bindCpu, v.priority), t))
  {
    hide QueueRight, Remove;
    assert InRange(s, s.threads[t]) && ThreadRight(s, t);
    if s.threads[t].stat != Ready { RemovedUnqueued(s, t); NotThere(s, t); }
  }

  lemma NotThere(s: State, t: nat)
    requires Valid(s) && t < |s.threads| && s.threads[t].stat != Ready
    ensures var v := s.threads[t];
      && v.bindCpu <= s.cpus && v.priority < s.max
      && Remove(QueueAt(s, v.bindCpu, v.priority), t) == QueueAt(s, v.bindCpu, v.priority)
  {
    assert InRange(s, s.threads[t]);
    NotQueued(s, t, s.threads[t].bindCpu, s.threads[t].priority);
  }

  // ---- Switches ----

  /** The thread that runs stays: nothing is READY, or it may keep its CPU. Then it only loses its yield mark. */
  lemma SwitchedStays(s: State, c: nat)
    requires Valid(s) && c < s.cpus && s.current[c].Some? && s.max < NO_PRIORITY
    requires var v, p := Runs(s, c), Chosen(s, c).1;
      p == NO_PRIORITY || (v.stat == Running && (v.bindCpu == s.cpus || v.bindCpu == c)
                           && (v.priority < p || (v.priority == p && !v.yielding)))
    ensures s.current[c].value < |s.threads|
    ensures var t := s.current[c].value;
      Becomes(s, Switched(s, c), t,
        if Chosen(s, c).1 == NO_PRIORITY then s.threads[t] else s.threads[t].(yielding := false))
  {
    hide Least;
    assert CpuRight(s, c);
    assert InRange(s, s.threads[s.current[c].value]);
  }

  /**
   * Otherwise the first thread of the chosen queue takes the CPU. The one that ran goes back to its own queue, last
   * after a yield and first when it was preempted, or to none when it had stopped.
   */
  lemma SwitchedTo(s: State, c: nat)
    requires Valid(s) && c < s.cpus && s.current[c].Some? && s.max < NO_PRIORITY
    requires var v, p := Runs(s, c), Chosen(s, c).1;
      p != NO_PRIORITY && (v.stat != Running || (v.bindCpu != s.cpus && v.bindCpu != c)
                           || v.priority > p || (v.priority == p && v.yielding))
    ensures s.current[c].value < |s.threads|
    ensures var (b, p) := Chosen(s, c); var n, t, v := Switched(s, c), s.current[c].value, Runs(s, c);
      && b <= s.cpus && p < s.max && QueueAt(s, b, p) != []
      && var to := QueueAt(s, b, p)[0];
      && to < |s.threads| && to != t && |n.threads| == |s.threads| && Shaped(n) && n.cpus == s.cpus && n.max == s.max
      && n.current == s.current[c := Some(to)]
      && n.threads[to] == s.threads[to].(oncpu := c, stat := Running)
      && n.threads[t] == (if v.stat == Running then v.(stat := Ready, oncpu := s.cpus, yielding := false)
                          else v.(oncpu := s.cpus))
      && (forall u: nat :: u < |s.threads| && u != t && u != to ==> n.threads[u] == s.threads[u])
      && forall d: nat, k: nat :: d <= s.cpus && k < s.max ==>
           QueueAt(n, d, k) == Served(s, d, k, t, v, b, p, to)
  {
    hide Least, QueueRight, Remove, ThreadRight, CpuRight, Chosen, GivenUp, Placed;
    CurrentIs(s, c);
    ChosenThread(s, c);
    var (b, p) := Chosen(s, c);
    var t, to := s.current[c].value, QueueAt(s, b, p)[0];
    assert ThreadRight(s, to);
    GivenUpIs(s, t, c);
    PlacedIs(GivenUp(s, t), to, c);
  }

  lemma CurrentIs(s: State, c: nat)
    requires Valid(s) && c < s.cpus && s.current[c].Some?
    ensures var t := s.current[c].value;
      && t < |s.threads| && s.threads[t].oncpu == c && s.threads[t].stat in {Running, Suspended, Closed}
      && InRange(s, s.threads[t])
  {
    assert CpuRight(s, c);
    assert ThreadRight(s, s.current[c].value);
  }

  lemma GivenUpIs(s: State, t: nat, c: nat)
    requires Shaped(s) && t < |s.threads| && c < s.cpus && s.threads[t].oncpu == c && InRange(s, s.threads[t])
      && s.threads[t].stat != Ready
    ensures var n, v := GivenUp(s, t), s.threads[t];
      && Shaped(n) && OnlyThread(s, n, t)
      && n.threads[t] == (if v.stat == Running then v.(stat := Ready, oncpu := s.cpus, yielding := false)
                          else v.(oncpu := s.cpus))
      && forall d: nat, k: nat :: d <= s.cpus && k < s.max ==>
           QueueAt(n, d, k) == if v.stat != Running || d != v.bindCpu || k != v.priority then QueueAt(s, d, k)
                               else if v.yielding then QueueAt(s, d, k) + [t] else [t] + QueueAt(s, d, k)
  {}

  lemma PlacedIs(s: State, t: nat, c: nat)
    requires Shaped(s) && t < |s.threads| && c < s.cpus
    ensures var n, v := Placed(s, t, c), s.threads[t];
      && Shaped(n) && n.cpus == s.cpus && n.max == s.max && |n.threads| == |s.threads|
      && n.current == s.current[c := Some(t)] && n.threads[t] == v.(oncpu := c, stat := Running)
      && (forall u: nat :: u < |s.threads| && u != t ==> n.threads[u] == s.threads[u])
      && v.bindCpu <= s.cpus && v.priority < s.max
      && QueueBecomes(s, n, v.bindCpu, v.priority, Remove(QueueAt(s, v.bindCpu, v.priority), t))
  {
    assert InRange(s, s.threads[t]);
  }

  /** A queue once `t`, in the state `v`, is back in it and `to` has been taken from the chosen one. */
  ghost function Served(s: State, d: nat, k: nat, t: nat, v: ThreadView, b: nat, p: nat, to: nat): seq<nat>
    requires Shaped(s) && d <= s.cpus && k < s.max
  {
    var q := QueueAt(s, d, k);
    var back :=
      if v.stat != Running || d != v.bindCpu || k != v.priority then q else if v.yielding then q + [t] else [t] + q;
    if d == b && k == p then Remove(back, to) else back
  }

  /** A thread that loses its CPU to a more urgent one before its time is up goes to the front of its queue. */
  lemma PreemptedFirst(s: State, c: nat)
    requires Valid(s) && c < s.cpus && s.current[c].Some? && s.max < NO_PRIORITY
    requires Runs(s, c).stat == Running && !Runs(s, c).yielding && Chosen(s, c).1 < Runs(s, c).priority
    ensures var v, n := Runs(s, c), Switched(s, c);
      && Shaped(n) && n.cpus == s.cpus && n.max == s.max && v.bindCpu <= s.cpus && v.priority < s.max
      && QueueAt(n, v.bindCpu, v.priority) == [s.current[c].value] + QueueAt(s, v.bindCpu, v.priority)
  {
    hide *;
    CurrentIs(s, c);
    RunsIs(s, c);
    PriorityInRange(s, c);
    SwitchedTo(s, c);
    var (b, p) := Chosen(s, c);
    PutFirst(s, s.current[c].value, Runs(s, c), b, p, QueueAt(s, b, p)[0]);
  }

  lemma RunsIs(s: State, c: nat)
    requires Valid(s) && c < s.cpus && s.current[c].Some?
    ensures s.current[c].value < |s.threads| && Runs(s, c) == s.threads[s.current[c].value]
  {
    assert CpuRight(s, c);
  }

  lemma PriorityInRange(s: State, c: nat)
    requires Valid(s) && c < s.cpus && s.current[c].Some? && s.max < NO_PRIORITY
    ensures Shaped(s) && Runs(s, c).bindCpu <= s.cpus && Runs(s, c).priority < s.max < NO_PRIORITY
  {
    CurrentIs(s, c);
  }

  lemma PutFirst(s: State, t: nat, v: ThreadView, b: nat, p: nat, to: nat)
    requires Shaped(s) && v.bindCpu <= s.cpus && v.priority < s.max
    requires v.stat == Running && !v.yielding && p != v.priority
    ensures Served(s, v.bindCpu, v.priority, t, v, b, p, to) == [t] + QueueAt(s, v.bindCpu, v.priority)
  {}

  /** The first thread of a CPU comes from the queue that serves it, with its yield mark dropped. */
  lemma CpuStartedTo(s: State, c: nat)
    requires Valid(s) && c < s.cpus && s.current[c] == None && s.max < NO_PRIORITY && Chosen(s, c).1 != NO_PRIORITY
    ensures var (b, p) := Chosen(s, c); var n := CpuStarted(s, c);
      && b <= s.cpus && p < s.max && QueueAt(s, b, p) != []
      && var to := QueueAt(s, b, p)[0];
      && to < |s.threads| && |n.threads| == |s.threads|
      && n.current == s.current[c := Some(to)]
      && n.threads[to] == s.threads[to].(oncpu := c, stat := Running, yielding := false)
      && (forall u: nat :: u < |s.threads| && u != to ==> n.threads[u] == s.threads[u])
      && QueueBecomes(s, n, b, p, QueueAt(s, b, p)[1..])
  {
    hide Least, QueueRight;
    ChosenThread(s, c);
    var (b, p) := Chosen(s, c);
    var q := QueueAt(s, b, p);
    assert InRange(s, s.threads[q[0]]);
    assert q[..0] + q[1..] == q[1..];
  }

  /** The queue that serves a CPU: its own unless the global one holds something strictly more urgent. */
  lemma ChosenIs(s: State, c: nat)
    requires Shaped(s) && c < s.cpus && s.max < NO_PRIORITY
    ensures var (b, p) := Chosen(s, c);
      && Foremost(s.queues[b], p) && (b == c || b == s.cpus)
      && (b == s.cpus ==> forall k: nat :: k <= p ==> !Occupied(s.queues[c], k))
      && (b == c ==> forall k: nat :: k < p ==> !Occupied(s.queues[s.cpus], k))
  {
    LeastForemost(s.queues[s.cpus], 0);
    LeastForemost(s.queues[c], 0);
  }
}
