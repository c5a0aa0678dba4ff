/** What each step of the single-core scheduler comes to, thread by thread and queue by queue. */
module UpEffects {
  import opened Common
  import opened Lists
  import opened ReadyTables
  import opened UpState

  /** Only thread `t` and the queues may differ. */
  ghost predicate OnlyThread(s: State, n: State, t: nat) {
    && n.current == s.current && |n.queues| == |s.queues| && |n.threads| == |s.threads|
    && forall u: nat :: u < |s.threads| && u != t ==> n.threads[u] == s.threads[u]
  }

  /** Only thread `t` may differ, and it is `v` now. */
  ghost predicate Becomes(s: State, n: State, t: nat, v: ThreadView) {
    OnlyThread(s, n, t) && n.queues == s.queues && t < |n.threads| && n.threads[t] == v
  }

  /** Only the queue at `p` may differ, and it is `q` now. */
  ghost predicate QueueBecomes(s: State, n: State, p: nat, q: seq<nat>) {
    && |n.queues| == |s.queues|
    && forall k: nat :: k < |s.queues| ==> n.queues[k] == if k == p then q else s.queues[k]
  }

  /** A thread woken up is READY and queued at its priority, last when its yield mark is set, else first. */
  lemma WokenQueued(s: State, t: nat)
    requires Valid(s) && t < |s.threads| && s.threads[t].stat == Suspended && s.current != Some(t)
    ensures var v, n := s.threads[t], Readied(s, t, false);
      && OnlyThread(s, n, t) && n.threads[t] == v.(stat := Ready) && v.priority < |s.queues|
      && QueueBecomes(s, n, v.priority,
           if v.yielding then s.queues[v.priority] + [t] else [t] + s.queues[v.priority])
  {
    assert ThreadRight(s, t);
  }

  /** The current thread, woken up before it was switched out, runs on and nothing else changes. */
  lemma WokenCurrent(s: State, t: nat)
    requires Valid(s) && t < |s.threads| && s.threads[t].stat == Suspended && s.current == Some(t)
    ensures Becomes(s, Readied(s, t, false), t, s.threads[t].(stat := Running))
  {
    assert ThreadRight(s, t);
  }

  lemma NotWoken(s: State, t: nat, late: bool)
    requires Valid(s) && t < |s.threads| && (s.threads[t].stat != Suspended || late)
    ensures Readied(s, t, late) == s
  {}

  lemma StartedQueued(s: State, t: nat)
    requires Valid(s) && t < |s.threads| && s.threads[t].stat == Init
    ensures var v, n := s.threads[t], Started(s, t);
      && OnlyThread(s, n, t) && n.threads[t] == v.(stat := Ready, yielding := false) && v.priority < |s.queues|
      && QueueBecomes(s, n, v.priority, [t] + s.queues[v.priority])
  {
    assert ThreadRight(s, t);
  }

  lemma StoppedOnly(s: State)
    requires Valid(s) && s.current.Some?
    ensures var t := s.current.value; var v := s.threads[t];
      Becomes(s, Stopped(s), t, if v.stat == Running then v.(stat := Suspended) else v)
  {}

  lemma YieldedOnly(s: State)
    requires Valid(s) && s.current.Some?
    ensures var t := s.current.value; Becomes(s, Yielded(s), t, s.threads[t].(yielding := true))
  {}

  /** A new priority moves a READY thread to the front of its new queue, with its yield mark dropped. */
  lemma ReprioritizedQueued(s: State, t: nat, p: nat)
    requires Valid(s) && t < |s.threads| && p < |s.queues|
    ensures var v, n := s.threads[t], Reprioritized(s, t, p);
      && v.priority < |s.queues|
      && (v.stat != Ready ==> Becomes(s, n, t, v.(priority := p)))
      && (v.stat == Ready ==>
            && OnlyThread(s, n, t) && n.threads[t] == v.(priority := p, yielding := false)
            && (forall k: nat :: k < |s.queues| && k != v.priority && k != p ==> n.queues[k] == s.queues[k])
            && var left := Remove(s.queues[v.priority], t);
            && (p != v.priority ==> n.queues[v.priority] == left && n.queues[p] == [t] + s.queues[p])
            && (p == v.priority ==> n.queues[p] == [t] + left))
  {
    assert ThreadRight(s, t);
  }

  lemma DetachedOnly(s: State, t: nat)
    requires Valid(s) && t < |s.threads| && s.threads[t].stat != Closed
    ensures var v, n := s.threads[t], Detached(s, t);
      && v.priority < |s.queues|
      && OnlyThread(s, n, t) && n.threads[t] == v.(stat := Closed, yielding := false)
      && (v.stat != Ready ==> n.queues == s.queues)
      && (v.stat == Ready ==> QueueBecomes(s, n, v.priority, Remove(s.queues[v.priority], t)))
  {
    hide QueueRight, Remove;
    assert ThreadRight(s, t);
    if s.threads[t].stat != Ready { RemovedUnqueued(s, t); }
  }

  // ---- Switches ----

  /** The thread that runs stays, with its yield mark, when nothing is READY or it may keep the processor. */
  lemma SwitchedStays(s: State)
    requires Valid(s) && s.current.Some?
    requires var v, p := Runs(s), Least(s.queues);
      p == NO_PRIORITY || (v.stat == Running && (v.priority < p || (v.priority == p && !v.yielding)))
    ensures Switched(s) == s
  {}

  /**
   * Otherwise the first thread of the best queue runs, and the one that ran goes back to its own queue, last after a
   * yield and first when it was preempted, or to none when it had stopped.
   */
  lemma SwitchedTo(s: State)
    requires Valid(s) && s.current.Some?
    requires var v, p := Runs(s), Least(s.queues);
      p != NO_PRIORITY && (v.stat != Running || v.priority > p || (v.priority == p && v.yielding))
    ensures var p, n, t, v := Least(s.queues), Switched(s), s.current.value, Runs(s);
      && Foremost(s.queues, p) && p < |s.queues| && v.priority < |s.queues|
      && var to := s.queues[p][0];
      && to < |s.threads| && to != t && |n.threads| == |s.threads| && |n.queues| == |s.queues|
      && n.current == Some(to)
      && n.threads[to] == s.threads[to].(stat := Running)
      && n.threads[t] == (if v.stat == Running then v.(stat := Ready, yielding := false) else v.(yielding := false))
      && (forall u: nat :: u < |s.threads| && u != t && u != to ==> n.threads[u] == s.threads[u])
      && forall k: nat :: k < |s.queues| ==> n.queues[k] == Served(s, k, t, v, p, to)
  {
    hide Least, QueueRight;
    assert ThreadRight(s, s.current.value);
    LeastForemost(s.queues, 0);
    Head(s, Least(s.queues));
  }

  /** A queue once `t`, in the state `v`, is back in it and `to` has been taken from the best one. */
  ghost function Served(s: State, k: nat, t: nat, v: ThreadView, p: nat, to: nat): seq<nat>
    requires k < |s.queues|
  {
    var q := s.queues[k];
    var back := if v.stat != Running || k != v.priority then q else if v.yielding then q + [t] else [t] + q;
    if k == p then Remove(back, to) else back
  }

  lemma FirstRunsTo(s: State)
    requires Valid(s) && s.current == None && Least(s.queues) != NO_PRIORITY
    ensures var p, n := Least(s.queues), FirstRuns(s);
      && Foremost(s.queues, p) && p < |s.queues|
      && var to := s.queues[p][0];
      && to < |s.threads| && |n.threads| == |s.threads| && n.current == Some(to)
      && n.threads[to] == s.threads[to].(stat := Running, yielding := false)
      && (forall u: nat :: u < |s.threads| && u != to ==> n.threads[u] == s.threads[u])
      && QueueBecomes(s, n, p, s.queues[p][1..])
  {
    hide Least, QueueRight;
    LeastForemost(s.queues, 0);
    Head(s, Least(s.queues));
    var q := s.queues[Least(s.queues)];
    assert q[..0] + q[1..] == q[1..];
  }
}
