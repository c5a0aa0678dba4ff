/** Picking the next thread of a CPU, and what it guarantees. */
module SmpSteps {
  import opened Common
  import opened Lists
  import opened ReadyTables
  import opened SmpState

  /** The queue to serve: the global one only when its best is strictly more urgent than the CPU's own best. */
  ghost function Chosen(s: State, c: nat): (r: (nat, nat))
    requires Shaped(s) && c < s.cpus
  {
    var g, l := Least(s.queues[s.cpus]), Least(s.queues[c]);
    if g < l then (s.cpus, g) else (c, l)
  }

  /** May the running thread keep its CPU when `p` is the best priority that waits? */
  ghost predicate Keeps(s: State, v: ThreadView, c: nat, p: nat) {
    && v.stat == Running && (v.bindCpu == s.cpus || v.bindCpu == c)
    && (v.priority < p || (v.priority == p && !v.yielding))
  }

  ghost function GivenUp(s: State, t: nat): State
    requires Shaped(s) && t < |s.threads|
  {
    var off := WithThread(s, t, s.threads[t].(oncpu := s.cpus));
    if s.threads[t].stat != Running then off
    else var n := Inserted(off, t); WithThread(n, t, n.threads[t].(yielding := false))
  }

  ghost function Placed(s: State, t: nat, c: nat): State
    requires Shaped(s) && t < |s.threads| && c < s.cpus
  {
    var n := Removed(s, t);
    WithThread(n, t, n.threads[t].(oncpu := c, stat := Running)).(current := n.current[c := Some(t)])
  }

  /** `_prepare_context_switch_locked`, and the switch it prepares. */
  ghost function Switched(s: State, c: nat): State
    requires Valid(s) && c < s.cpus && s.current[c].Some? && s.max < NO_PRIORITY
  {
    assert CpuRight(s, c);
    var t := s.current[c].value;
    var (b, p) := Chosen(s, c);
    if p == NO_PRIORITY then s
    else if Keeps(s, s.threads[t], c, p) then WithThread(s, t, s.threads[t].(yielding := false))
    else
      ChosenThread(s, c);
      Placed(GivenUp(s, t), s.queues[b][p][0], c)
  }

  lemma ChosenThread(s: State, c: nat)
    requires QueuesRight(s) && c < s.cpus && s.max < NO_PRIORITY && Chosen(s, c).1 != NO_PRIORITY
    ensures var (b, p) := Chosen(s, c);
      && b <= s.cpus && p < s.max && s.queues[b][p] != []
      && s.queues[b][p][0] < |s.threads| && BelongsTo(s.threads[s.queues[b][p][0]], b, p)
      && (b == c || b == s.cpus)
  {
    var (b, p) := Chosen(s, c);
    LeastForemost(s.queues[b], 0);
    assert QueueRight(s, b, p);
  }

  /** Nothing that the CPU may run waits at a priority better than `p`. */
  ghost predicate NoneBetter(s: State, c: nat, p: nat)
    requires Shaped(s) && c < s.cpus
  {
    forall k: nat :: k < p ==> !Occupied(s.queues[c], k) && !Occupied(s.queues[s.cpus], k)
  }

  lemma ChosenBest(s: State, c: nat)
    requires Shaped(s) && c < s.cpus && s.max < NO_PRIORITY
    ensures NoneBetter(s, c, Chosen(s, c).1)
    ensures Chosen(s, c).1 == NO_PRIORITY ==>
      forall k: nat :: !Occupied(s.queues[c], k) && !Occupied(s.queues[s.cpus], k)
  {
    LeastForemost(s.queues[s.cpus], 0);
    LeastForemost(s.queues[c], 0);
  }

  lemma GivenUpVacant(s: State, t: nat, c: nat)
    requires Valid(s) && c < s.cpus && s.current[c] == Some(t) && t < |s.threads|
    ensures Vacant(GivenUp(s, t), c)
    ensures var n := GivenUp(s, t);
      n.current == s.current && |n.threads| == |s.threads| && n.cpus == s.cpus && n.max == s.max
    ensures forall u: nat :: u < |s.threads| && u != t ==> GivenUp(s, t).threads[u] == s.threads[u]
  {
    DetachedFloating(s, t, c);
    var off := WithThread(s, t, s.threads[t].(oncpu := s.cpus));
    if s.threads[t].stat == Running {
      InsertedVacant(off, t, c);
      YieldCleared(Inserted(off, t), t, c);
    } else {
      FloatingVacant(off, t, c);
    }
  }

  lemma YieldCleared(s: State, t: nat, c: nat)
    requires Vacant(s, c) && t < |s.threads|
    ensures Vacant(WithThread(s, t, s.threads[t].(yielding := false)), c)
  {
    var n := WithThread(s, t, s.threads[t].(yielding := false));
    assert InRange(s, s.threads[t]);
    forall b: nat, p: nat | b <= s.cpus && p < s.max ensures QueueRight(n, b, p) { assert QueueRight(s, b, p); }
    forall u: nat | u < |s.threads| ensures ThreadRight(n, u) { assert ThreadRight(s, u); }
    forall d: nat | d < s.cpus && d != c ensures CpuRight(n, d) { assert CpuRight(s, d); }
  }

  lemma FloatingVacant(s: State, t: nat, c: nat)
    requires Floating(s, t, c) && s.threads[t].stat != Running
    ensures Vacant(s, c)
  {}

  lemma PlacedRight(s: State, t: nat, c: nat)
    requires Vacant(s, c) && c < s.cpus && t < |s.threads| && s.threads[t].stat == Ready
    ensures Valid(Placed(s, t, c))
  {
    var v := s.threads[t].(oncpu := c, stat := Running);
    assert ThreadRight(s, t) && InRange(s, s.threads[t]);
    var off := s.threads[t].(stat := Running);
    RemovedFloating(s, t, c, off);
    var n := WithThread(Removed(s, t), t, off);
    PlacedValid(n, t, c, v);
    assert n.threads[t := v] == Removed(s, t).threads[t := v];
  }

  /** A switch keeps the invariant. */
  lemma SwitchedValid(s: State, c: nat)
    requires Valid(s) && c < s.cpus && s.current[c].Some? && s.max < NO_PRIORITY
    ensures Valid(Switched(s, c))
  {
    hide QueueRight, Vacant, Placed, GivenUp, Least;
    assert CpuRight(s, c);
    var t := s.current[c].value;
    var (b, p) := Chosen(s, c);
    if p != NO_PRIORITY {
      if Keeps(s, s.threads[t], c, p) {
        assert InRange(s, s.threads[t]) && ThreadRight(s, t);
        ChangedValid(s, t, s.threads[t].(yielding := false));
      } else {
        ChosenThread(s, c);
        assert ThreadRight(s, t);
        GivenUpVacant(s, t, c);
        PlacedRight(GivenUp(s, t), s.queues[b][p][0], c);
      }
    }
  }

  /**
   * A switch takes the CPU from one thread at most and gives it to one that had none; other threads stay where they
   * are.
   */
  lemma SwitchedPlaces(s: State, c: nat)
    requires Valid(s) && c < s.cpus && s.current[c].Some? && s.max < NO_PRIORITY
    ensures var n := Switched(s, c); var t := s.current[c].value;
      && |n.threads| == |s.threads| && n.cpus == s.cpus && |n.current| == |s.current|
      && (forall d: nat :: d < s.cpus && d != c ==> n.current[d] == s.current[d])
      && (forall u: nat :: u < |s.threads| && u != t && s.threads[u].oncpu < s.cpus ==>
        n.threads[u].oncpu == s.threads[u].oncpu)
      && n.current[c].Some? && n.current[c].value < |s.threads|
      && (n.current[c].value == t || s.threads[n.current[c].value].oncpu == s.cpus)
  {
    hide QueueRight, Vacant, GivenUp, Least;
    assert CpuRight(s, c);
    var t := s.current[c].value;
    var (b, p) := Chosen(s, c);
    if p != NO_PRIORITY && !Keeps(s, s.threads[t], c, p) {
      ChosenThread(s, c);
      assert ThreadRight(s, t);
      GivenUpVacant(s, t, c);
      var to := s.queues[b][p][0];
      assert ThreadRight(s, to) && InRange(s, s.threads[to]);
    }
  }

  /** What the CPU runs after a switch. */
  ghost function Runs(s: State, c: nat): ThreadView
    requires Valid(s) && c < s.cpus && s.current[c].Some?
  {
    assert CpuRight(s, c);
    s.threads[s.current[c].value]
  }

  /** The priorities at which one queue changed are never below `p`. */
  lemma QueuesAfter(s: State, c: nat, k: nat, b: nat)
    requires Valid(s) && c < s.cpus && s.current[c].Some? && s.max < NO_PRIORITY && b <= s.cpus
    ensures var n := Switched(s, c); var v := Runs(s, c);
      && |n.queues| == |s.queues| && n.current[c].Some? && |n.current| == s.cpus
      && (Occupied(n.queues[b], k) && !Occupied(s.queues[b], k)
          ==> v.stat == Running && v.bindCpu == b && v.priority == k && !Keeps(s, v, c, Chosen(s, c).1))
  {
    hide QueueRight, Least;
    assert CpuRight(s, c);
    var t := s.current[c].value;
    assert InRange(s, s.threads[t]) && ThreadRight(s, t);
    if Chosen(s, c).1 != NO_PRIORITY {
      ChosenThread(s, c);
    }
  }

  /**
   * After a switch the CPU runs the most urgent thread it may run: nothing in its own queues or the global ones is
   * more urgent. Only a thread that has stopped, with nothing at all to replace it, stays on as it is.
   */
  lemma SwitchedUrgent(s: State, c: nat)
    requires Valid(s) && c < s.cpus && s.current[c].Some? && s.max < NO_PRIORITY
    ensures var n := Switched(s, c);
      && Valid(n) && n.current[c].Some? && NoneBetter(n, c, Runs(n, c).priority)
      && (Runs(n, c).stat != Running ==>
            n == s && forall k: nat :: !Occupied(s.queues[c], k) && !Occupied(s.queues[s.cpus], k))
  {
    SwitchedValid(s, c);
    ChosenBest(s, c);
    hide QueueRight, Vacant, Least;
    var n, t := Switched(s, c), s.current[c].value;
    var (b, p) := Chosen(s, c);
    assert CpuRight(s, c) && CpuRight(n, c);
    assert InRange(s, s.threads[t]) && ThreadRight(s, t);
    if p != NO_PRIORITY {
      ChosenThread(s, c);
      forall k: nat | k < Runs(n, c).priority ensures !Occupied(n.queues[c], k) && !Occupied(n.queues[s.cpus], k) {
        QueuesAfter(s, c, k, c);
        QueuesAfter(s, c, k, s.cpus);
      }
    }
  }

  // ---- Other steps ----

  /** `rt_system_scheduler_start` on a CPU that has no thread yet. */
  ghost function CpuStarted(s: State, c: nat): State
    requires Valid(s) && c < s.cpus && s.current[c] == None && s.max < NO_PRIORITY && Chosen(s, c).1 != NO_PRIORITY
  {
    ChosenThread(s, c);
    var (b, p) := Chosen(s, c);
    var t := s.queues[b][p][0];
    CpuVacant(s, c);
    PlacedRight(s, t, c);
    var n := Placed(s, t, c);
    WithThread(n, t, n.threads[t].(yielding := false))
  }

  lemma CpuVacant(s: State, c: nat)
    requires Valid(s) && c < s.cpus && s.current[c] == None
    ensures Vacant(s, c)
  {
    forall t: nat | t < |s.threads| ensures s.threads[t].oncpu != c { assert ThreadRight(s, t); }
  }

  lemma CpuStartedValid(s: State, c: nat)
    requires Valid(s) && c < s.cpus && s.current[c] == None && s.max < NO_PRIORITY && Chosen(s, c).1 != NO_PRIORITY
    ensures Valid(CpuStarted(s, c))
  {
    ChosenThread(s, c);
    var (b, p) := Chosen(s, c);
    var t := s.queues[b][p][0];
    CpuVacant(s, c);
    PlacedRight(s, t, c);
    var n := Placed(s, t, c);
    assert InRange(n, n.threads[t]);
    ChangedValid(n, t, n.threads[t].(yielding := false));
  }

  /** The current thread of a CPU is never READY. */
  lemma NeverReady(s: State, c: nat)
    requires Valid(s) && c < s.cpus && s.current[c].Some?
    ensures Runs(s, c).stat in {Running, Suspended, Closed}
  {
    assert CpuRight(s, c);
    assert ThreadRight(s, s.current[c].value);
  }

  /** `rt_sched_thread_ready`: `late` says that the thread's timer could not be stopped any more. */
  ghost function Readied(s: State, t: nat, late: bool): State
    requires Shaped(s) && t < |s.threads|
  {
    if s.threads[t].stat != Suspended || late then s else Inserted(s, t)
  }

  /** `rt_thread_suspend_to_list`, by the running thread of CPU `c`. */
  ghost function Stopped(s: State, c: nat): State
    requires Valid(s) && c < s.cpus && s.current[c].Some?
  {
    assert CpuRight(s, c);
    if Runs(s, c).stat != Running then s else WithThread(s, s.current[c].value, Runs(s, c).(stat := Suspended))
  }

  /** `rt_sched_thread_change_priority`; a READY thread moves to its new queue and loses its flags. */
  ghost function Reprioritized(s: State, t: nat, p: nat): State
    requires Shaped(s) && t < |s.threads| && p < s.max
  {
    var v := s.threads[t];
    if v.stat != Ready then WithThread(s, t, v.(priority := p))
    else Inserted(WithThread(Removed(s, t), t, v.(priority := p, stat := Init, yielding := false)), t)
  }

  /** `rt_sched_thread_bind_cpu`. Inserting a thread that is still READY does nothing. */
  ghost function Bound(s: State, t: nat, b: nat): State
    requires Shaped(s) && t < |s.threads| && b <= s.cpus
  {
    var v := s.threads[t];
    if v.stat == Ready then
      var n := WithThread(Removed(s, t), t, v.(bindCpu := b));
      Inserted(n, t)
    else WithThread(s, t, v.(bindCpu := b))
  }

  /** `rt_thread_startup` up to resuming the thread. */
  ghost function Started(s: State, t: nat): State
    requires Shaped(s) && t < |s.threads|
  {
    if s.threads[t].stat != Init then s
    else Inserted(WithThread(s, t, s.threads[t].(stat := Suspended, yielding := false)), t)
  }

  /** `_thread_detach`. */
  ghost function Detached(s: State, t: nat): State
    requires Shaped(s) && t < |s.threads|
  {
    var v := s.threads[t];
    if v.stat == Closed then s
    else WithThread(if v.stat == Init then s else Removed(s, t), t, v.(stat := Closed, yielding := false))
  }

  lemma ReprioritizedValid(s: State, t: nat, p: nat)
    requires Valid(s) && t < |s.threads| && p < s.max
    ensures Valid(Reprioritized(s, t, p))
  {
    var v := s.threads[t];
    assert ThreadRight(s, t) && InRange(s, v);
    if v.stat != Ready {
      ChangedValid(s, t, v.(priority := p));
    } else {
      NoneVacant(s);
      RemovedFloating(s, t, s.cpus + 1, v.(priority := p, stat := Init, yielding := false));
      InsertedVacant(WithThread(Removed(s, t), t, v.(priority := p, stat := Init, yielding := false)), t, s.cpus + 1);
      NoneVacant(Reprioritized(s, t, p));
    }
  }

  /** Binding keeps the invariant if and only if the thread is not READY: a READY one is left in no queue at all. */
  lemma BoundValid(s: State, t: nat, b: nat)
    requires Valid(s) && t < |s.threads| && b <= s.cpus
    ensures Valid(Bound(s, t, b)) <==> s.threads[t].stat != Ready
    ensures s.threads[t].stat == Ready ==>
      forall d: nat, p: nat :: d <= s.cpus && p < s.max ==> t !in Bound(s, t, b).queues[d][p]
  {
    var v, n := s.threads[t], Bound(s, t, b);
    assert ThreadRight(s, t) && InRange(s, v);
    if v.stat != Ready {
      ChangedValid(s, t, v.(bindCpu := b));
    } else {
      NoneVacant(s);
      var off := WithThread(Removed(s, t), t, v.(stat := Init));
      RemovedFloating(s, t, s.cpus + 1, v.(stat := Init));
      assert n.queues == off.queues && n.threads[t] == v.(bindCpu := b);
      forall d: nat, p: nat | d <= s.cpus && p < s.max ensures t !in n.queues[d][p] { NotQueued(off, t, d, p); }
      assert Shaped(n) ==> !ThreadRight(n, t);
    }
  }

  lemma StartedValid(s: State, t: nat)
    requires Valid(s) && t < |s.threads|
    ensures Valid(Started(s, t))
  {
    var v := s.threads[t];
    assert ThreadRight(s, t) && InRange(s, v);
    if v.stat == Init {
      ChangedValid(s, t, v.(stat := Suspended, yielding := false));
      InsertedValid(WithThread(s, t, v.(stat := Suspended, yielding := false)), t);
    }
  }

  lemma StoppedValid(s: State, c: nat)
    requires Valid(s) && c < s.cpus && s.current[c].Some?
    ensures Valid(Stopped(s, c))
  {
    assert CpuRight(s, c);
    assert InRange(s, Runs(s, c)) && ThreadRight(s, s.current[c].value);
    if Runs(s, c).stat == Running { ChangedValid(s, s.current[c].value, Runs(s, c).(stat := Suspended)); }
  }

  lemma DetachedValid(s: State, t: nat)
    requires Valid(s) && t < |s.threads|
    ensures Valid(Detached(s, t))
  {
    var v := s.threads[t];
    assert ThreadRight(s, t) && InRange(s, v);
    if v.stat == Ready {
      NoneVacant(s);
      RemovedFloating(s, t, s.cpus + 1, v.(stat := Closed, yielding := false));
      FloatingVacant(Detached(s, t), t, s.cpus + 1);
      NoneVacant(Detached(s, t));
    } else {
      RemovedUnqueued(s, t);
      ChangedValid(s, t, v.(stat := Closed, yielding := false));
    }
  }

  /** A thread made ready while it is still on its CPU just runs on, in no queue. */
  lemma ReadiedOnCpu(s: State, t: nat)
    requires Valid(s) && t < |s.threads| && s.threads[t].stat == Suspended && s.threads[t].oncpu < s.cpus
    ensures var n := Readied(s, t, false);
      Valid(n) && n.threads[t].stat == Running && n.queues == s.queues && n.current[s.threads[t].oncpu] == Some(t)
  {
    InsertedValid(s, t);
    assert ThreadRight(s, t);
  }

  // ---- Taking turns ----

  /** The running thread of CPU `c` shares priority `p` with the queue from which the CPU is served. */
  ghost predicate Sharing(s: State, c: nat, b: nat, p: nat) {
    && Valid(s) && c < s.cpus && s.current[c].Some? && s.max < NO_PRIORITY && Chosen(s, c) == (b, p) && p != NO_PRIORITY
    && Runs(s, c).stat == Running && Runs(s, c).bindCpu == b && Runs(s, c).priority == p
  }

  /** The thread that runs, then those that wait, in the order in which they will be served. */
  ghost function Row(s: State, c: nat, b: nat, p: nat): seq<nat>
    requires Sharing(s, c, b, p)
  {
    ChosenThread(s, c);
    [s.current[c].value] + s.queues[b][p]
  }

  /** `rt_sched_thread_yield` by the running thread, and the switch that follows. */
  ghost function Yielded(s: State, c: nat): State
    requires Valid(s) && c < s.cpus && s.current[c].Some?
  {
    assert CpuRight(s, c);
    WithThread(s, s.current[c].value, Runs(s, c).(yielding := true))
  }

  lemma YieldedValid(s: State, c: nat)
    requires Valid(s) && c < s.cpus && s.current[c].Some?
    ensures Valid(Yielded(s, c))
  {
    assert CpuRight(s, c);
    assert InRange(s, Runs(s, c)) && ThreadRight(s, s.current[c].value);
    ChangedValid(s, s.current[c].value, Runs(s, c).(yielding := true));
  }

  function Rotated(row: seq<nat>): (r: seq<nat>)
    requires row != []
    ensures |r| == |row|
  {
    row[1..] + [row[0]]
  }

  /** A yield moves the thread that runs behind all others of its priority and lets the next one run. */
  lemma YieldRotates(s: State, c: nat, b: nat, p: nat)
    requires Sharing(s, c, b, p)
    ensures Valid(Yielded(s, c))
    ensures var n := Switched(Yielded(s, c), c); Sharing(n, c, b, p) && Row(n, c, b, p) == Rotated(Row(s, c, b, p))
  {
    hide QueueRight, Least, Vacant, Switched, Keeps, Inserted, GivenUp, Placed, NoneBetter, Foremost, Occupied;
    YieldedValid(s, c);
    var y, t := Yielded(s, c), s.current[c].value;
    assert CpuRight(s, c) && CpuRight(y, c);
    assert InRange(y, y.threads[t]) && ThreadRight(y, t);
    ChosenThread(y, c);
    SwitchedValid(y, c);
    var n, q := Switched(y, c), s.queues[b][p];
    assert ([t] + q)[1..] == q;
    YieldedQueues(y, c, b, p);
    StillChosen(s, n, c, b, p, q[1..] + [t]);
  }

  lemma YieldedQueues(y: State, c: nat, b: nat, p: nat)
    requires Sharing(y, c, b, p) && Runs(y, c).yielding
    ensures var n, q := Switched(y, c), y.queues[b][p];
      && b < |y.queues| && p < |y.queues[b]| && q != []
      && n.queues == y.queues[b := y.queues[b][p := q[1..] + [y.current[c].value]]]
      && n.max == y.max && n.cpus == y.cpus && n.current == y.current[c := Some(q[0])] && |n.threads| == |y.threads|
      && q[0] < |n.threads| && n.threads[q[0]].stat == Running && BelongsTo(y.threads[q[0]], b, p)
      && n.threads[q[0]].bindCpu == b && n.threads[q[0]].priority == p
  {
    hide QueueRight, Least, Vacant;
    var t, q := y.current[c].value, y.queues[b][p];
    assert CpuRight(y, c);
    assert InRange(y, y.threads[t]) && ThreadRight(y, t);
    ChosenThread(y, c);
    RemoveFront(q, t);
    var more := y.queues[b][p := q + [t]];
    UpdatedTwice(y.queues, b, more, more[p := q[1..] + [t]]);
    UpdatedTwice(y.queues[b], p, q + [t], q[1..] + [t]);
    assert GivenUp(y, t).queues == y.queues[b := more];
  }

  lemma UpdatedTwice<T>(s: seq<T>, i: nat, x: T, y: T)
    requires i < |s|
    ensures s[i := x][i := y] == s[i := y]
  {}

  lemma RemoveFront(q: seq<nat>, t: nat)
    requires q != []
    ensures Remove(q + [t], q[0]) == q[1..] + [t]
  {
    assert (q + [t])[..0] + (q + [t])[1..] == q[1..] + [t];
  }

  lemma StillChosen(s: State, n: State, c: nat, b: nat, p: nat, q: seq<nat>)
    requires Shaped(s) && Shaped(n) && s.cpus == n.cpus && c < s.cpus && Chosen(s, c) == (b, p) && p != NO_PRIORITY
    requires s.max < NO_PRIORITY && s.max == n.max && b < |s.queues| && p < |s.queues[b]|
    requires q != [] && n.queues == s.queues[b := s.queues[b][p := q]]
    ensures Chosen(n, c) == (b, p)
  {
    LeastForemost(s.queues[b], 0);
    LeastForemost(n.queues[b], 0);
    ForemostStill(s.queues[b], n.queues[b], p);
  }

  lemma ForemostStill(before: seq<seq<nat>>, after: seq<seq<nat>>, p: nat)
    requires |before| == |after| < NO_PRIORITY && Foremost(before, p) && p != NO_PRIORITY
    requires after[p] != [] && forall k: nat :: k < |before| && k != p ==> after[k] == before[k]
    ensures Foremost(after, p) && Least(after) == p
  {
    LeastForemost(after, 0);
    forall k: nat | k < p ensures !Occupied(after, k) { assert !Occupied(before, k); }
    ForemostUnique(after, p, Least(after));
  }

  /** `n` yields in a row. */
  ghost function Turns(s: State, c: nat, b: nat, p: nat, n: nat): (r: State)
    requires Sharing(s, c, b, p)
    ensures Sharing(r, c, b, p)
  {
    if n == 0 then s
    else
      var r := Turns(s, c, b, p, n - 1);
      YieldRotates(r, c, b, p);
      Switched(Yielded(r, c), c)
  }

  lemma {:induction false} TurnsRotate(s: State, c: nat, b: nat, p: nat, n: nat)
    requires Sharing(s, c, b, p) && n <= |Row(s, c, b, p)|
    ensures var row := Row(s, c, b, p); Row(Turns(s, c, b, p, n), c, b, p) == row[n..] + row[..n]
  {
    hide Sharing, Row;
    if n > 0 {
      TurnsRotate(s, c, b, p, n - 1);
      YieldRotates(Turns(s, c, b, p, n - 1), c, b, p);
      RotatedOnce(Row(s, c, b, p), n);
    }
  }

  lemma RotatedOnce(row: seq<nat>, n: nat)
    requires 0 < n <= |row|
    ensures Rotated(row[n - 1..] + row[..n - 1]) == row[n..] + row[..n]
  {}

  lemma RowFirst(s: State, c: nat, b: nat, p: nat)
    requires Sharing(s, c, b, p)
    ensures |Row(s, c, b, p)| > 0 && s.current[c] == Some(Row(s, c, b, p)[0])
  {}

  /** Threads of one priority that keep yielding are all served once before the first runs again. */
  lemma RoundRobin(s: State, c: nat, b: nat, p: nat, k: nat)
    requires Sharing(s, c, b, p) && k < |Row(s, c, b, p)|
    ensures Turns(s, c, b, p, k).current[c] == Some(Row(s, c, b, p)[k])
    ensures Row(Turns(s, c, b, p, |Row(s, c, b, p)|), c, b, p) == Row(s, c, b, p)
  {
    hide Row;
    var row := Row(s, c, b, p);
    TurnsRotate(s, c, b, p, k);
    TurnsRotate(s, c, b, p, |row|);
    assert row[|row|..] + row[..|row|] == row;
    RowFirst(Turns(s, c, b, p, k), c, b, p);
  }
}
