/** The state of the multi-core scheduler, its invariant, and what each step makes of it. */
module SmpState {
  import opened Common
  import opened Lists

  datatype Status = Init | Ready | Running | Suspended | Closed

  /** Unbound threads have the number of CPUs as `bindCpu`, threads on no CPU have it as `oncpu`. */
  datatype ThreadView = ThreadView(stat: Status, yielding: bool, oncpu: nat, bindCpu: nat, priority: nat)

  /** `queues[b][p]` is the queue at priority `p` of CPU `b`, or the global one when `b` is the number of CPUs. */
  datatype State = State(cpus: nat, max: nat, threads: seq<ThreadView>, queues: seq<seq<seq<nat>>>,
    current: seq<Option<nat>>)

  ghost predicate Shaped(s: State) {
    && |s.queues| == s.cpus + 1 && (forall b: nat :: b <= s.cpus ==> |s.queues[b]| == s.max)
    && |s.current| == s.cpus && (forall t: nat :: t < |s.threads| ==> InRange(s, s.threads[t]))
  }

  ghost predicate InRange(s: State, v: ThreadView) {
    v.oncpu <= s.cpus && v.bindCpu <= s.cpus && v.priority < s.max
  }

  ghost function QueueAt(s: State, b: nat, p: nat): seq<nat>
    requires Shaped(s) && b <= s.cpus && p < s.max
  {
    s.queues[b][p]
  }

  /** A thread is on the CPU that says so, is never both there and READY, and is queued when READY. */
  ghost predicate ThreadRight(s: State, t: nat)
    requires Shaped(s) && t < |s.threads|
  {
    var v := s.threads[t];
    && (v.oncpu < s.cpus ==> s.current[v.oncpu] == Some(t) && v.stat in {Running, Suspended, Closed})
    && (v.stat == Running ==> v.oncpu < s.cpus)
    && (v.stat == Ready ==> t in QueueAt(s, v.bindCpu, v.priority))
  }

  /** Only READY threads with this binding and this priority are in a queue, each once. */
  ghost predicate QueueRight(s: State, b: nat, p: nat)
    requires Shaped(s) && b <= s.cpus && p < s.max
  {
    var q := QueueAt(s, b, p);
    && Distinct(q)
    && (forall i :: 0 <= i < |q| ==> q[i] < |s.threads| && BelongsTo(s.threads[q[i]], b, p))
  }

  ghost predicate BelongsTo(v: ThreadView, b: nat, p: nat) {
    v.stat == Ready && v.bindCpu == b && v.priority == p
  }

  ghost predicate CpuRight(s: State, c: nat)
    requires Shaped(s) && c < s.cpus
  {
    s.current[c].Some? ==> s.current[c].value < |s.threads| && s.threads[s.current[c].value].oncpu == c
  }

  ghost predicate QueuesRight(s: State) {
    Shaped(s) && forall b: nat, p: nat :: b <= s.cpus && p < s.max ==> QueueRight(s, b, p)
  }

  ghost predicate Valid(s: State) {
    && QueuesRight(s)
    && (forall t: nat :: t < |s.threads| ==> ThreadRight(s, t))
    && (forall c: nat :: c < s.cpus ==> CpuRight(s, c))
  }

  /** Before the scheduler starts: nothing is queued and nothing runs. */
  ghost predicate Fresh(s: State) {
    && Shaped(s)
    && (forall t: nat :: t < |s.threads| ==> s.threads[t].stat == Init && s.threads[t].oncpu == s.cpus)
    && (forall b: nat, p: nat :: b <= s.cpus && p < s.max ==> QueueAt(s, b, p) == [])
    && (forall c: nat :: c < s.cpus ==> s.current[c] == None)
  }

  /** Valid but for thread `t`, which is on no CPU and in no queue, and for whom CPU `c` says it runs. */
  ghost predicate Floating(s: State, t: nat, c: nat) {
    && QueuesRight(s) && t < |s.threads| && s.threads[t].oncpu == s.cpus != c && s.threads[t].stat != Ready
    && (forall u: nat :: u < |s.threads| && u != t ==> ThreadRight(s, u) && s.threads[u].oncpu != c)
    && (forall d: nat :: d < s.cpus && d != c ==> CpuRight(s, d))
  }

  /** Valid but that CPU `c` may name a thread that has left it. */
  ghost predicate Vacant(s: State, c: nat) {
    && QueuesRight(s)
    && (forall t: nat :: t < |s.threads| ==> ThreadRight(s, t) && s.threads[t].oncpu != c)
    && (forall d: nat :: d < s.cpus && d != c ==> CpuRight(s, d))
  }

  // ---- What the invariant means ----

  /** No thread is current on two CPUs. */
  lemma CurrentOnce(s: State, c: nat, d: nat)
    requires Valid(s) && c < s.cpus && d < s.cpus && s.current[c] == s.current[d] && s.current[c].Some?
    ensures c == d
  {
    assert CpuRight(s, c) && CpuRight(s, d);
  }

  /**
   * A READY thread is in the queue of its binding and priority, exactly once, and in no other; no other thread is
   * queued.
   */
  lemma QueuedExactly(s: State, t: nat, b: nat, p: nat)
    requires Valid(s) && t < |s.threads| && b <= s.cpus && p < s.max
    ensures t in QueueAt(s, b, p) <==>
      s.threads[t].stat == Ready && s.threads[t].bindCpu == b && s.threads[t].priority == p
    ensures multiset(QueueAt(s, b, p))[t] <= 1
  {
    var q := QueueAt(s, b, p);
    assert ThreadRight(s, t) && QueueRight(s, b, p);
    OccursOnce(q, t);
  }

  /** A thread that runs or sits on a CPU is in no queue, and it is that CPU's current thread. */
  lemma OnCpuUnqueued(s: State, t: nat, b: nat, p: nat)
    requires Valid(s) && t < |s.threads| && s.threads[t].oncpu < s.cpus && b <= s.cpus && p < s.max
    ensures t !in QueueAt(s, b, p) && s.current[s.threads[t].oncpu] == Some(t)
  {
    assert ThreadRight(s, t);
    QueuedExactly(s, t, b, p);
  }

  // ---- Primitive steps ----

  ghost function WithThread(s: State, t: nat, v: ThreadView): State
    requires t < |s.threads|
  {
    s.(threads := s.threads[t := v])
  }

  ghost function WithQueue(s: State, b: nat, p: nat, q: seq<nat>): State
    requires b < |s.queues| && p < |s.queues[b]|
  {
    s.(queues := s.queues[b := s.queues[b][p := q]])
  }

  /** `_sched_insert_thread_locked`. */
  ghost function Inserted(s: State, t: nat): State
    requires Shaped(s) && t < |s.threads|
  {
    var v := s.threads[t];
    if v.stat == Ready then s
    else if v.oncpu != s.cpus then WithThread(s, t, v.(stat := Running))
    else
      var q := QueueAt(s, v.bindCpu, v.priority);
      WithThread(WithQueue(s, v.bindCpu, v.priority, if v.yielding then q + [t] else [t] + q), t, v.(stat := Ready))
  }

  /** `_sched_remove_thread_locked`. */
  ghost function Removed(s: State, t: nat): State
    requires Shaped(s) && t < |s.threads|
  {
    var v := s.threads[t];
    WithQueue(s, v.bindCpu, v.priority, Remove(QueueAt(s, v.bindCpu, v.priority), t))
  }

  lemma NotQueued(s: State, t: nat, b: nat, p: nat)
    requires QueuesRight(s) && t < |s.threads| && s.threads[t].stat != Ready && b <= s.cpus && p < s.max
    ensures t !in QueueAt(s, b, p)
  {
    assert QueueRight(s, b, p);
  }

  lemma QueueInserted(q: seq<nat>, t: nat)
    requires Distinct(q) && t !in q
    ensures Distinct(q + [t]) && Distinct([t] + q)
  {}

  /** Queueing a floating thread. */
  lemma InsertedVacant(s: State, t: nat, c: nat)
    requires Floating(s, t, c)
    ensures Vacant(Inserted(s, t), c)
  {
    var n, v := Inserted(s, t), s.threads[t];
    assert InRange(s, v);
    forall b: nat, p: nat | b <= s.cpus && p < s.max ensures QueueRight(n, b, p) {
      assert QueueRight(s, b, p);
      NotQueued(s, t, b, p);
      QueueInserted(QueueAt(s, b, p), t);
    }
    forall u: nat | u < |s.threads| && u != t ensures ThreadRight(n, u) { assert ThreadRight(s, u); }
    forall d: nat | d < s.cpus && d != c ensures CpuRight(n, d) { assert CpuRight(s, d); }
  }

  /** Taking the current thread off its CPU. */
  lemma DetachedFloating(s: State, t: nat, c: nat)
    requires Valid(s) && c < s.cpus && s.current[c] == Some(t) && t < |s.threads|
    ensures s.threads[t].oncpu == c && Floating(WithThread(s, t, s.threads[t].(oncpu := s.cpus)), t, c)
  {
    var n := WithThread(s, t, s.threads[t].(oncpu := s.cpus));
    assert CpuRight(s, c) && ThreadRight(s, t) && InRange(s, s.threads[t]);
    forall b: nat, p: nat | b <= s.cpus && p < s.max ensures QueueRight(n, b, p) { assert QueueRight(s, b, p); }
    forall u: nat | u < |s.threads| && u != t ensures ThreadRight(n, u) && n.threads[u].oncpu != c {
      assert ThreadRight(s, u);
    }
    forall d: nat | d < s.cpus && d != c ensures CpuRight(n, d) { assert CpuRight(s, d); }
  }

  lemma RemovedQueue(s: State, q: seq<nat>, t: nat, b: nat, p: nat)
    requires QueuesRight(s) && b <= s.cpus && p < s.max
    requires forall u :: u in q <==> u in QueueAt(s, b, p) && u != t
    ensures forall i :: 0 <= i < |q| ==> q[i] < |s.threads| && BelongsTo(s.threads[q[i]], b, p) && q[i] != t
  {
    assert QueueRight(s, b, p);
    forall i | 0 <= i < |q| ensures q[i] < |s.threads| && BelongsTo(s.threads[q[i]], b, p) && q[i] != t {
      assert q[i] in q;
    }
  }

  /** Taking a READY thread out of its queue. */
  lemma RemovedFloating(s: State, t: nat, c: nat, v: ThreadView)
    requires Vacant(s, c) && t < |s.threads| && s.threads[t].stat == Ready
    requires v.stat != Ready && v.oncpu == s.cpus && InRange(s, v)
    ensures Floating(WithThread(Removed(s, t), t, v), t, c)
  {
    var n := WithThread(Removed(s, t), t, v);
    var q := QueueAt(s, s.threads[t].bindCpu, s.threads[t].priority);
    assert ThreadRight(s, t) && InRange(s, s.threads[t]) && QueueRight(s, s.threads[t].bindCpu, s.threads[t].priority);
    RemoveMembers(q, t);
    forall b: nat, p: nat | b <= s.cpus && p < s.max ensures QueueRight(n, b, p) {
      assert QueueRight(s, b, p);
      if b == s.threads[t].bindCpu && p == s.threads[t].priority {
        RemovedQueue(s, Remove(q, t), t, b, p);
      }
    }
    forall u: nat | u < |s.threads| && u != t ensures ThreadRight(n, u) { assert ThreadRight(s, u); }
    forall d: nat | d < s.cpus && d != c ensures CpuRight(n, d) { assert CpuRight(s, d); }
  }

  /** Giving the CPU to a floating thread. */
  lemma PlacedValid(s: State, t: nat, c: nat, v: ThreadView)
    requires Floating(s, t, c) && c < s.cpus && InRange(s, v) && v.oncpu == c && v.stat in {Running, Suspended, Closed}
    ensures Valid(WithThread(s, t, v).(current := s.current[c := Some(t)]))
  {
    var n := WithThread(s, t, v).(current := s.current[c := Some(t)]);
    forall b: nat, p: nat | b <= s.cpus && p < s.max ensures QueueRight(n, b, p) {
      assert QueueRight(s, b, p);
      NotQueued(s, t, b, p);
    }
    forall u: nat | u < |s.threads| ensures ThreadRight(n, u) { if u != t { assert ThreadRight(s, u); } }
    forall d: nat | d < s.cpus ensures CpuRight(n, d) { if d != c { assert CpuRight(s, d); } }
  }

  /** With every CPU accounted for, vacant means valid. */
  lemma NoneVacant(s: State)
    ensures Vacant(s, s.cpus + 1) <==> Valid(s)
  {
    if Valid(s) {
      forall t: nat | t < |s.threads| ensures s.threads[t].oncpu != s.cpus + 1 { assert InRange(s, s.threads[t]); }
    }
  }

  /** Changing a thread that is not READY, and does not become READY, where it is. */
  lemma ChangedValid(s: State, t: nat, v: ThreadView)
    requires Valid(s) && t < |s.threads| && s.threads[t].stat != Ready && InRange(s, v)
    requires v.stat != Ready && v.oncpu == s.threads[t].oncpu
    requires v.oncpu < s.cpus ==> v.stat in {Running, Suspended, Closed}
    requires v.stat == Running ==> v.oncpu < s.cpus
    ensures Valid(WithThread(s, t, v))
  {
    var n := WithThread(s, t, v);
    forall b: nat, p: nat | b <= s.cpus && p < s.max ensures QueueRight(n, b, p) {
      assert QueueRight(s, b, p);
      NotQueued(s, t, b, p);
    }
    forall u: nat | u < |s.threads| ensures ThreadRight(n, u) { assert ThreadRight(s, u); }
    forall d: nat | d < s.cpus ensures CpuRight(n, d) { assert CpuRight(s, d); }
  }

  lemma OffCpuFloating(s: State, t: nat)
    requires Valid(s) && t < |s.threads| && s.threads[t].stat != Ready && s.threads[t].oncpu == s.cpus
    ensures Floating(s, t, s.cpus + 1)
  {
    NoneVacant(s);
  }

  /** Inserting a thread that is not running keeps everything, wherever the thread is. */
  lemma InsertedValid(s: State, t: nat)
    requires Valid(s) && t < |s.threads|
    ensures Valid(Inserted(s, t))
  {
    var v := s.threads[t];
    assert ThreadRight(s, t) && InRange(s, v);
    if v.stat != Ready {
      if v.oncpu != s.cpus {
        ChangedValid(s, t, v.(stat := Running));
      } else {
        OffCpuFloating(s, t);
        InsertedVacant(s, t, s.cpus + 1);
        NoneVacant(Inserted(s, t));
      }
    }
  }

  /** Unlinking a thread that is in no queue changes nothing. */
  lemma RemovedUnqueued(s: State, t: nat)
    requires QueuesRight(s) && t < |s.threads| && s.threads[t].stat != Ready
    ensures Removed(s, t) == s
  {
    var v := s.threads[t];
    assert InRange(s, v);
    NotQueued(s, t, v.bindCpu, v.priority);
    assert s.queues[v.bindCpu][v.priority := s.queues[v.bindCpu][v.priority]] == s.queues[v.bindCpu];
    assert s.queues[v.bindCpu := s.queues[v.bindCpu]] == s.queues;
  }
}
