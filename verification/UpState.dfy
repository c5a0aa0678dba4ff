/** The single-core scheduler: one set of ready queues, one thread that runs. */
module UpState {
  import opened Common
  import opened Lists
  import opened ReadyTables

  datatype Status = Init | Ready | Running | Suspended | Closed

  datatype ThreadView = ThreadView(stat: Status, yielding: bool, priority: nat)

  datatype State = State(threads: seq<ThreadView>, queues: seq<seq<nat>>, current: Option<nat>)

  /** A READY thread is queued at its priority; only the current thread may be RUNNING, and it is never READY. */
  ghost predicate ThreadRight(s: State, t: nat)
    requires t < |s.threads|
  {
    var v := s.threads[t];
    && v.priority < |s.queues|
    && (v.stat == Ready ==> t in s.queues[v.priority] && s.current != Some(t))
    && (v.stat == Running ==> s.current == Some(t))
    && (v.stat == Init ==> s.current != Some(t))
  }

  ghost predicate QueueRight(s: State, p: nat)
    requires p < |s.queues|
  {
    && Distinct(s.queues[p])
    && (forall i :: 0 <= i < |s.queues[p]| ==> s.queues[p][i] < |s.threads| && Waits(s.threads[s.queues[p][i]], p))
  }

  ghost predicate Waits(v: ThreadView, p: nat) {
    v.stat == Ready && v.priority == p
  }

  ghost predicate Valid(s: State) {
    && (forall t: nat :: t < |s.threads| ==> ThreadRight(s, t))
    && (forall p: nat :: p < |s.queues| ==> QueueRight(s, p))
    && (s.current.Some? ==> s.current.value < |s.threads|) && |s.queues| < NO_PRIORITY
  }

  lemma QueueFacts(s: State, p: nat)
    requires Valid(s) && p < |s.queues|
    ensures Distinct(s.queues[p])
    ensures forall u :: u in s.queues[p] ==> u < |s.threads| && Waits(s.threads[u], p)
  {
    assert QueueRight(s, p);
  }

  /** A thread is in queue `p` if and only if it is READY with priority `p`, and then once. */
  lemma QueuedExactly(s: State, t: nat, p: nat)
    requires Valid(s) && t < |s.threads| && p < |s.queues|
    ensures t in s.queues[p] <==> Waits(s.threads[t], p)
    ensures multiset(s.queues[p])[t] <= 1
  {
    assert ThreadRight(s, t);
    QueueFacts(s, p);
    hide Distinct;
    OccursOnce(s.queues[p], t);
  }

  ghost function WithThread(s: State, t: nat, v: ThreadView): State
    requires t < |s.threads|
  {
    s.(threads := s.threads[t := v])
  }

  /** `rt_sched_insert_thread`: the current thread just runs on. */
  ghost function Inserted(s: State, t: nat): State
    requires t < |s.threads| && s.threads[t].priority < |s.queues|
  {
    var v := s.threads[t];
    if s.current == Some(t) then WithThread(s, t, v.(stat := Running))
    else
      var q := s.queues[v.priority];
      WithThread(s, t, v.(stat := Ready)).(queues := s.queues[v.priority := if v.yielding then q + [t] else [t] + q])
  }

  /** `rt_sched_remove_thread`. */
  ghost function Removed(s: State, t: nat): State
    requires t < |s.threads| && s.threads[t].priority < |s.queues|
  {
    s.(queues := s.queues[s.threads[t].priority := Remove(s.queues[s.threads[t].priority], t)])
  }

  /** A thread that is not queued changes to a state in which it is not queued either. */
  lemma ChangedValid(s: State, t: nat, v: ThreadView)
    requires Valid(s) && t < |s.threads| && s.threads[t].stat != Ready && v.stat != Ready && v.priority < |s.queues|
    requires (v.stat == Running ==> s.current == Some(t)) && (v.stat == Init ==> s.current != Some(t))
    ensures Valid(WithThread(s, t, v))
  {
    var n := WithThread(s, t, v);
    forall u: nat | u < |s.threads| ensures ThreadRight(n, u) { assert ThreadRight(s, u); }
    forall p: nat | p < |s.queues| ensures QueueRight(n, p) {
      assert QueueRight(s, p);
      QueuedExactly(s, t, p);
    }
  }

  lemma InsertedValid(s: State, t: nat)
    requires Valid(s) && t < |s.threads| && s.threads[t].stat != Ready
      && (s.threads[t].stat == Running ==> s.current != Some(t))
    ensures s.threads[t].priority < |s.queues| && Valid(Inserted(s, t))
  {
    assert ThreadRight(s, t);
    var v, n := s.threads[t], Inserted(s, t);
    if s.current == Some(t) {
      ChangedValid(s, t, v.(stat := Running));
    } else {
      forall u: nat | u < |s.threads| ensures ThreadRight(n, u) { assert ThreadRight(s, u); }
      forall p: nat | p < |s.queues| ensures QueueRight(n, p) {
        assert QueueRight(s, p);
        QueuedExactly(s, t, p);
      }
    }
  }

  /** A READY thread leaves its queue and becomes something else that is not queued. */
  lemma RemovedValid(s: State, t: nat, v: ThreadView)
    requires Valid(s) && t < |s.threads| && s.threads[t].stat == Ready && v.stat != Ready && v.stat != Running
      && v.priority < |s.queues|
    ensures s.threads[t].priority < |s.queues| && Valid(WithThread(Removed(s, t), t, v))
  {
    assert ThreadRight(s, t);
    var n, p := WithThread(Removed(s, t), t, v), s.threads[t].priority;
    assert QueueRight(s, p);
    RemoveMembers(s.queues[p], t);
    forall u: nat | u < |s.threads| ensures ThreadRight(n, u) { assert ThreadRight(s, u); }
    forall q: nat | q < |s.queues| ensures QueueRight(n, q) {
      assert QueueRight(s, q);
      QueuedExactly(s, t, q);
      if q == p { RemovedQueue(s, Remove(s.queues[p], t), t, p); }
    }
  }

  lemma RemovedQueue(s: State, q: seq<nat>, t: nat, p: nat)
    requires p < |s.queues| && QueueRight(s, p) && forall u :: u in q <==> u in s.queues[p] && u != t
    ensures forall i :: 0 <= i < |q| ==> q[i] < |s.threads| && Waits(s.threads[q[i]], p) && q[i] != t
  {
    forall i | 0 <= i < |q| ensures q[i] < |s.threads| && Waits(s.threads[q[i]], p) && q[i] != t { assert q[i] in q; }
  }

  // ---- Switching ----

  ghost predicate Keeps(v: ThreadView, p: nat) {
    v.stat == Running && (v.priority < p || (v.priority == p && !v.yielding))
  }

  lemma Head(s: State, p: nat)
    requires Valid(s) && p == Least(s.queues) != NO_PRIORITY
    ensures p < |s.queues| && s.queues[p] != [] && s.queues[p][0] < |s.threads| && Waits(s.threads[s.queues[p][0]], p)
    ensures s.current != Some(s.queues[p][0])
  {
    LeastForemost(s.queues, 0);
    assert QueueRight(s, p);
    assert ThreadRight(s, s.queues[p][0]);
  }

  /** What becomes of the thread that runs when another one takes over: back to its queue, or left as it is. */
  ghost function GivenUp(s: State, t: nat, to: nat): State
    requires t < |s.threads| && s.threads[t].priority < |s.queues|
  {
    var n := s.(current := Some(to));
    var m := if s.threads[t].stat == Running then Inserted(n, t) else n;
    if t < |m.threads| then WithThread(m, t, m.threads[t].(yielding := false)) else m
  }

  /** `rt_schedule` with the scheduler not locked. A thread that stays keeps its yield mark. */
  ghost function Switched(s: State): State
    requires Valid(s) && s.current.Some?
  {
    var t, p := s.current.value, Least(s.queues);
    assert ThreadRight(s, t);
    if p == NO_PRIORITY || Keeps(s.threads[t], p) then s
    else
      Head(s, p);
      var to := s.queues[p][0];
      var n := GivenUp(s, t, to);
      assert n.threads[to].priority == s.threads[to].priority;
      WithThread(Removed(n, to), to, n.threads[to].(stat := Running))
  }

  /** `to` has been chosen to run, but is still queued. */
  ghost predicate Chosen(s: State, to: nat) {
    && s.current == Some(to) && to < |s.threads| && s.threads[to].stat == Ready
      && s.threads[to].priority < |s.queues| < NO_PRIORITY
    && (forall u: nat :: u < |s.threads| && u != to ==> ThreadRight(s, u))
    && (forall p: nat :: p < |s.queues| ==> QueueRight(s, p))
  }

  lemma GivenUpChosen(s: State, t: nat, to: nat)
    requires Valid(s) && s.current == Some(t) && to < |s.threads| && s.threads[to].stat == Ready && t != to
    ensures s.threads[t].priority < |s.queues| && Chosen(GivenUp(s, t, to), to)
    ensures var n := GivenUp(s, t, to);
      |n.threads| == |s.threads| && n.threads[to] == s.threads[to] && |n.queues| == |s.queues| && n.current == Some(to)
    ensures forall u: nat :: u < |s.threads| && u != t ==> GivenUp(s, t, to).threads[u] == s.threads[u]
  {
    assert ThreadRight(s, t) && ThreadRight(s, to);
    var n := GivenUp(s, t, to);
    forall u: nat | u < |n.threads| && u != to ensures ThreadRight(n, u) { assert ThreadRight(s, u); }
    forall p: nat | p < |n.queues| ensures QueueRight(n, p) {
      assert QueueRight(s, p);
      QueuedExactly(s, t, p);
    }
  }

  lemma ChosenRuns(s: State, to: nat)
    requires Chosen(s, to)
    ensures Valid(WithThread(Removed(s, to), to, s.threads[to].(stat := Running)))
  {
    var p := s.threads[to].priority;
    var n := WithThread(Removed(s, to), to, s.threads[to].(stat := Running));
    assert QueueRight(s, p);
    RemoveMembers(s.queues[p], to);
    forall u: nat | u < |s.threads| ensures ThreadRight(n, u) { if u != to { assert ThreadRight(s, u); } }
    forall q: nat | q < |s.queues| ensures QueueRight(n, q) {
      assert QueueRight(s, q);
      if q == p { RemovedQueue(s, Remove(s.queues[p], to), to, p); } else { Elsewhere(s, to, q); }
    }
  }

  lemma Elsewhere(s: State, t: nat, q: nat)
    requires t < |s.threads| && q < |s.queues| && QueueRight(s, q) && s.threads[t].priority != q
    ensures forall i :: 0 <= i < |s.queues[q]| ==> s.queues[q][i] != t
  {}

  ghost predicate NoneBetter(s: State, p: nat) {
    forall k: nat :: k < p ==> !Occupied(s.queues, k)
  }

  ghost function Runs(s: State): ThreadView
    requires Valid(s) && s.current.Some?
  {
    s.threads[s.current.value]
  }

  /**
   * After a switch no READY thread is more urgent than the one that runs; it is RUNNING unless it had stopped and
   * nothing was READY.
   */
  lemma SwitchedUrgent(s: State)
    requires Valid(s) && s.current.Some?
    ensures var n := Switched(s);
      && Valid(n) && n.current.Some? && |n.queues| == |s.queues| && NoneBetter(n, Runs(n).priority)
      && (Runs(n).stat != Running ==> n == s && forall k: nat :: !Occupied(s.queues, k))
  {
    hide QueueRight;
    LeastForemost(s.queues, 0);
    var t, p := s.current.value, Least(s.queues);
    assert ThreadRight(s, t);
    if p != NO_PRIORITY && !Keeps(s.threads[t], p) {
      Head(s, p);
      var to := s.queues[p][0];
      GivenUpChosen(s, t, to);
      ChosenRuns(GivenUp(s, t, to), to);
      var n := Switched(s);
      forall k: nat | k < p ensures !Occupied(n.queues, k) { assert !Occupied(s.queues, k); }
    }
  }

  /** A thread that loses the processor to a more urgent one before its time is up goes to the front of its queue. */
  lemma PreemptedFirst(s: State)
    requires Valid(s) && s.current.Some? && Runs(s).stat == Running && !Runs(s).yielding
      && Least(s.queues) < Runs(s).priority
    ensures var v, n := Runs(s), Switched(s);
      v.priority < |n.queues| && n.queues[v.priority] != [] && n.queues[v.priority][0] == s.current.value
  {
    hide QueueRight, Least;
    assert ThreadRight(s, s.current.value);
    Head(s, Least(s.queues));
  }

  // ---- The first switch ----

  /** Before the scheduler starts: nothing is queued and nothing runs. */
  ghost predicate Fresh(s: State) {
    && s.current == None && |s.queues| < NO_PRIORITY
    && (forall p: nat :: p < |s.queues| ==> s.queues[p] == [])
    && (forall t: nat :: t < |s.threads| ==> s.threads[t].stat == Init && s.threads[t].priority < |s.queues|)
  }

  lemma FreshValid(s: State)
    requires Fresh(s)
    ensures Valid(s)
  {}

  /** `rt_system_scheduler_start`: the first thread in line runs, with all its flags dropped. */
  ghost function FirstRuns(s: State): State
    requires Valid(s) && Least(s.queues) != NO_PRIORITY
  {
    Head(s, Least(s.queues));
    var to := s.queues[Least(s.queues)][0];
    WithThread(Removed(s.(current := Some(to)), to), to, s.threads[to].(stat := Running, yielding := false))
  }

  lemma FirstRunsValid(s: State)
    requires Valid(s) && s.current == None && Least(s.queues) != NO_PRIORITY
    ensures Valid(FirstRuns(s)) && FirstRuns(s).current.Some? && Runs(FirstRuns(s)).stat == Running
    ensures NoneBetter(FirstRuns(s), Runs(FirstRuns(s)).priority)
  {
    hide QueueRight;
    LeastForemost(s.queues, 0);
    Head(s, Least(s.queues));
    var to := s.queues[Least(s.queues)][0];
    var n := s.(current := Some(to));
    forall u: nat | u < |s.threads| && u != to ensures ThreadRight(n, u) { assert ThreadRight(s, u); }
    forall p: nat | p < |s.queues| ensures QueueRight(n, p) {
      assert QueueRight(s, p);
      SameQueue(s, n, p);
    }
    ChosenRuns(n, to);
    var r := WithThread(Removed(n, to), to, s.threads[to].(stat := Running));
    assert ThreadRight(r, to);
    ChangedValid(r, to, s.threads[to].(stat := Running, yielding := false));
    assert WithThread(r, to, s.threads[to].(stat := Running, yielding := false)) == FirstRuns(s);
    forall k: nat | k < Least(s.queues) ensures !Occupied(FirstRuns(s).queues, k) { assert !Occupied(s.queues, k); }
  }

  lemma SameQueue(s: State, n: State, p: nat)
    requires p < |s.queues| && QueueRight(s, p) && n.queues == s.queues && n.threads == s.threads
    ensures QueueRight(n, p)
  {}

  // ---- The lock of the scheduler ----

  /** What an `rt_int16_t` keeps of a number. */
  function Wrap16(n: int): (r: int)
    ensures -0x8000 <= r < 0x8000
  {
    (n + 0x8000) % 0x1_0000 - 0x8000
  }

  function Entered(level: int): int {
    Wrap16(level + 1)
  }

  /** The level after one lock is left; none is left over from zero or less. */
  function Left(level: int): int {
    if Wrap16(level - 1) <= 0 then 0 else Wrap16(level - 1)
  }

  /** The level after `n` locks were entered from an unlocked scheduler. */
  function Depth(n: nat): int {
    if n == 0 then 0 else Entered(Depth(n - 1))
  }

  lemma {:induction false} DepthWraps(n: nat)
    ensures Depth(n) == Wrap16(n)
  {
    hide Wrap16;
    if n == 0 {
      Wrapped(0);
    } else {
      DepthWraps(n - 1);
      StepWraps(n - 1);
    }
  }

  /** Counting on from a wrapped number is counting on from the number. */
  lemma StepWraps(a: int)
    ensures Wrap16(Wrap16(a) + 1) == Wrap16(a + 1)
  {
    var q, x := (a + 0x8000) / 0x1_0000, (a + 0x8000) % 0x1_0000;
    assert a + 0x8000 == q * 0x1_0000 + x;
    if x == 0xFFFF {
      assert a + 1 + 0x8000 == (q + 1) * 0x1_0000;
    } else {
      assert a + 1 + 0x8000 == q * 0x1_0000 + (x + 1);
    }
  }

  /**
   * The source takes RT_UINT16_MAX for the deepest nest. The lock holds that long, but leaving one of more than 32768
   * locks takes the counter to zero at once: it leads back to the level before exactly up to there.
   */
  lemma DepthExact(n: nat)
    requires 0 < n <= 0xFFFF
    ensures Depth(n) != 0 && (Left(Depth(n)) == Depth(n - 1) <==> n <= 0x8000)
    ensures n > 0x8000 ==> Left(Depth(n)) == 0
  {
    hide Wrap16, Depth;
    DepthWraps(n);
    DepthWraps(n - 1);
    Wrapped(n);
    Wrapped(n - 1);
    Below(Depth(n));
  }

  lemma Wrapped(n: nat)
    requires n <= 0xFFFF
    ensures Wrap16(n) == if n < 0x8000 then n else n - 0x1_0000
  {}

  lemma Below(level: int)
    requires -0x8000 <= level < 0x8000
    ensures Wrap16(level - 1) == if level == -0x8000 then 0x7FFF else level - 1
  {}

  // ---- Other steps ----

  ghost function Yielded(s: State): State
    requires Valid(s) && s.current.Some?
  {
    WithThread(s, s.current.value, Runs(s).(yielding := true))
  }

  ghost function Stopped(s: State): State
    requires Valid(s) && s.current.Some?
  {
    if Runs(s).stat != Running then s else WithThread(s, s.current.value, Runs(s).(stat := Suspended))
  }

  ghost function Readied(s: State, t: nat, late: bool): State
    requires Valid(s) && t < |s.threads|
  {
    assert ThreadRight(s, t);
    if s.threads[t].stat != Suspended || late then s else Inserted(s, t)
  }

  ghost function Reprioritized(s: State, t: nat, p: nat): State
    requires Valid(s) && t < |s.threads| && p < |s.queues|
  {
    assert ThreadRight(s, t);
    var v := s.threads[t];
    if v.stat != Ready then WithThread(s, t, v.(priority := p))
    else Inserted(WithThread(Removed(s, t), t, v.(priority := p, stat := Init, yielding := false)), t)
  }

  ghost function Started(s: State, t: nat): State
    requires Valid(s) && t < |s.threads|
  {
    assert ThreadRight(s, t);
    if s.threads[t].stat != Init then s
    else Inserted(WithThread(s, t, s.threads[t].(stat := Suspended, yielding := false)), t)
  }

  ghost function Detached(s: State, t: nat): State
    requires Valid(s) && t < |s.threads|
  {
    assert ThreadRight(s, t);
    var v := s.threads[t];
    if v.stat == Closed then s
    else WithThread(if v.stat == Init then s else Removed(s, t), t, v.(stat := Closed, yielding := false))
  }

  lemma YieldedValid(s: State)
    requires Valid(s) && s.current.Some?
    ensures Valid(Yielded(s))
  {
    assert ThreadRight(s, s.current.value);
    ChangedValid(s, s.current.value, Runs(s).(yielding := true));
  }

  lemma StoppedValid(s: State)
    requires Valid(s) && s.current.Some?
    ensures Valid(Stopped(s))
  {
    assert ThreadRight(s, s.current.value);
    if Runs(s).stat == Running { ChangedValid(s, s.current.value, Runs(s).(stat := Suspended)); }
  }

  /** A thread made ready before it has given up the processor runs on, in no queue. */
  lemma ReadiedValid(s: State, t: nat, late: bool)
    requires Valid(s) && t < |s.threads|
    ensures Valid(Readied(s, t, late))
    ensures s.current == Some(t) && s.threads[t].stat == Suspended && !late ==>
      Readied(s, t, late).threads[t].stat == Running && Readied(s, t, late).queues == s.queues
  {
    assert ThreadRight(s, t);
    if s.threads[t].stat == Suspended && !late { InsertedValid(s, t); }
  }

  lemma ReprioritizedValid(s: State, t: nat, p: nat)
    requires Valid(s) && t < |s.threads| && p < |s.queues|
    ensures Valid(Reprioritized(s, t, p))
  {
    assert ThreadRight(s, t);
    var v := s.threads[t];
    if v.stat != Ready {
      ChangedValid(s, t, v.(priority := p));
    } else {
      RemovedValid(s, t, v.(priority := p, stat := Init, yielding := false));
      InsertedValid(WithThread(Removed(s, t), t, v.(priority := p, stat := Init, yielding := false)), t);
    }
  }

  lemma StartedValid(s: State, t: nat)
    requires Valid(s) && t < |s.threads|
    ensures Valid(Started(s, t))
  {
    assert ThreadRight(s, t);
    var v := s.threads[t];
    if v.stat == Init {
      ChangedValid(s, t, v.(stat := Suspended, yielding := false));
      InsertedValid(WithThread(s, t, v.(stat := Suspended, yielding := false)), t);
    }
  }

  lemma DetachedValid(s: State, t: nat)
    requires Valid(s) && t < |s.threads|
    ensures Valid(Detached(s, t))
  {
    assert ThreadRight(s, t);
    var v := s.threads[t];
    if v.stat == Ready {
      RemovedValid(s, t, v.(stat := Closed, yielding := false));
    } else {
      RemovedUnqueued(s, t);
      ChangedValid(s, t, v.(stat := Closed, yielding := false));
    }
  }

  lemma RemovedUnqueued(s: State, t: nat)
    requires Valid(s) && t < |s.threads| && s.threads[t].stat != Ready
    ensures s.threads[t].priority < |s.queues| && Removed(s, t) == s
  {
    assert ThreadRight(s, t);
    QueuedExactly(s, t, s.threads[t].priority);
    assert s.queues[s.threads[t].priority := s.queues[s.threads[t].priority]] == s.queues;
  }

  // ---- Taking turns ----

  /** The running thread has the priority of the first threads that wait. */
  ghost predicate Sharing(s: State, p: nat) {
    Valid(s) && s.current.Some? && Runs(s).stat == Running && Runs(s).priority == p == Least(s.queues) && p < |s.queues|
  }

  ghost function Row(s: State, p: nat): seq<nat>
    requires Sharing(s, p)
  {
    [s.current.value] + s.queues[p]
  }

  /** A yield moves the thread that runs behind all others of its priority. */
  lemma YieldRotates(s: State, p: nat)
    requires Sharing(s, p)
    ensures Valid(Yielded(s)) && Sharing(Switched(Yielded(s)), p)
    ensures Row(Switched(Yielded(s)), p) == Row(s, p)[1..] + [Row(s, p)[0]]
  {
    hide QueueRight;
    YieldedValid(s);
    var y, t := Yielded(s), s.current.value;
    LeastForemost(s.queues, 0);
    SwitchedUrgent(y);
    Head(y, p);
    assert ThreadRight(y, t);
    var q, n := s.queues[p], Switched(y);
    GivenUpChosen(y, t, q[0]);
    assert (q + [t])[..0] + (q + [t])[1..] == q[1..] + [t];
    assert n.queues[p] == q[1..] + [t];
    forall k: nat | k < p ensures !Occupied(n.queues, k) { assert !Occupied(s.queues, k); }
    LeastForemost(n.queues, 0);
    ForemostUnique(n.queues, p, Least(n.queues));
    assert ([t] + q)[1..] == q;
  }

  ghost function Turns(s: State, p: nat, n: nat): (r: State)
    requires Sharing(s, p)
    ensures Sharing(r, p)
  {
    if n == 0 then s
    else
      var r := Turns(s, p, n - 1);
      YieldRotates(r, p);
      Switched(Yielded(r))
  }

  lemma {:induction false} TurnsRotate(s: State, p: nat, n: nat)
    requires Sharing(s, p) && n <= |Row(s, p)|
    ensures Row(Turns(s, p, n), p) == Row(s, p)[n..] + Row(s, p)[..n]
  {
    hide Sharing, Row;
    if n > 0 {
      TurnsRotate(s, p, n - 1);
      YieldRotates(Turns(s, p, n - 1), p);
      RotatedOnce(Row(s, p), n);
    }
  }

  lemma RotatedOnce(row: seq<nat>, n: nat)
    requires 0 < n <= |row|
    ensures var r := row[n - 1..] + row[..n - 1]; r[1..] + [r[0]] == row[n..] + row[..n]
  {}

  /**
   * Threads of one priority that keep yielding take turns: after as many yields as there are threads all is as before.
   */
  lemma RoundRobin(s: State, p: nat, k: nat)
    requires Sharing(s, p) && k < |Row(s, p)|
    ensures Turns(s, p, k).current == Some(Row(s, p)[k])
    ensures Row(Turns(s, p, |Row(s, p)|), p) == Row(s, p)
  {
    var row := Row(s, p);
    TurnsRotate(s, p, k);
    TurnsRotate(s, p, |row|);
    assert row[|row|..] + row[..|row|] == row;
    assert Row(Turns(s, p, k), p)[0] == row[k];
  }

  /**
   * A yield when nothing as urgent waits is not forgotten: the thread runs on with its mark, and gives way as soon as a
   * thread of its priority is READY.
   */
  lemma YieldRemembered(s: State)
    requires Valid(s) && s.current.Some? && Runs(s).stat == Running && Runs(s).priority < Least(s.queues)
    ensures Valid(Yielded(s)) && Switched(Yielded(s)) == Yielded(s) && Runs(Yielded(s)).yielding
  {
    YieldedValid(s);
  }
}
