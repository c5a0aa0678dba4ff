/** Whole runs of the single-core scheduler. */
module UpRuns {
  import opened Common
  import opened ReadyTables
  import opened UpState
  import opened UpKernel

  datatype Op =
    | Begin
    | Switch
    | Yield
    | Suspend
    | MakeReady(t: nat, late: bool)
    | ChangePriority(t: nat, p: nat)
    | Startup(t: nat)
    | Detach(t: nat)

  ghost predicate Admitted(s: State, op: Op) {
    Valid(s) &&
    match op
    case Begin => s.current == None && Least(s.queues) != NO_PRIORITY
    case Switch => s.current.Some?
    case Yield => s.current.Some?
    case Suspend => s.current.Some?
    case MakeReady(t, _) => t < |s.threads|
    case ChangePriority(t, p) => t < |s.threads| && p < |s.queues|
    case Startup(t) => t < |s.threads| && s.threads[t].stat == Init
    case Detach(t) => t < |s.threads|
  }

  ghost function Step(s: State, op: Op): State
    requires Admitted(s, op)
  {
    match op
    case Begin => FirstRuns(s)
    case Switch => Switched(s)
    case Yield => Yielded(s)
    case Suspend => Stopped(s)
    case MakeReady(t, late) => Readied(s, t, late)
    case ChangePriority(t, p) => Reprioritized(s, t, p)
    case Startup(t) => Started(s, t)
    case Detach(t) => Detached(s, t)
  }

  lemma StepValid(s: State, op: Op)
    requires Admitted(s, op)
    ensures Valid(Step(s, op))
  {
    match op
    case Begin => FirstRunsValid(s);
    case Switch => SwitchedUrgent(s);
    case Yield => YieldedValid(s);
    case Suspend => StoppedValid(s);
    case MakeReady(t, late) => ReadiedValid(s, t, late);
    case ChangePriority(t, p) => ReprioritizedValid(s, t, p);
    case Startup(t) => StartedValid(s, t);
    case Detach(t) => DetachedValid(s, t);
  }

  ghost predicate Leads(s: State, ops: seq<Op>, end: State)
    decreases |ops|
  {
    if ops == [] then end == s else Admitted(s, ops[0]) && Leads(Step(s, ops[0]), ops[1..], end)
  }

  lemma {:induction false} RunValid(s: State, ops: seq<Op>, end: State)
    requires Valid(s) && Leads(s, ops, end)
    ensures Valid(end)
    decreases |ops|
  {
    if ops != [] {
      StepValid(s, ops[0]);
      RunValid(Step(s, ops[0]), ops[1..], end);
    }
  }

  /**
   * From before the first switch on: READY threads are in exactly their queue, and no other thread is queued or runs.
   */
  lemma Reachable(s: State, ops: seq<Op>, end: State, t: nat)
    requires Fresh(s) && Leads(s, ops, end) && t < |end.threads|
    ensures Valid(end)
    ensures forall p: nat :: p < |end.queues| ==>
      multiset(end.queues[p])[t] == if end.threads[t].stat == Ready && end.threads[t].priority == p then 1 else 0
    ensures end.threads[t].stat == Running ==> end.current == Some(t)
  {
    FreshValid(s);
    RunValid(s, ops, end);
    assert ThreadRight(end, t);
    forall p: nat | p < |end.queues|
      ensures multiset(end.queues[p])[t]
           == if end.threads[t].stat == Ready && end.threads[t].priority == p then 1 else 0
    {
      QueuedExactly(end, t, p);
    }
  }

  /** A thread, the idle one, that is always RUNNING or READY. */
  ghost predicate Awake(s: State, idle: nat) {
    idle < |s.threads| && s.threads[idle].stat in {Running, Ready}
  }

  /**
   * In every reachable state with an idle thread awake, a switch leaves a RUNNING thread on the processor and no READY
   * thread more urgent than it.
   */
  lemma SwitchAfterRun(s: State, ops: seq<Op>, end: State, idle: nat)
    requires Valid(s) && Leads(s, ops, end) && end.current.Some? && Awake(end, idle)
    ensures Valid(end) && Valid(Switched(end)) && Switched(end).current.Some? && Runs(Switched(end)).stat == Running
    ensures forall t: nat :: t < |Switched(end).threads| && Switched(end).threads[t].stat == Ready ==>
      Runs(Switched(end)).priority <= Switched(end).threads[t].priority
  {
    RunValid(s, ops, end);
    SwitchedUrgent(end);
    assert ThreadRight(end, idle);
    var n := Switched(end);
    forall t: nat | t < |n.threads| && n.threads[t].stat == Ready ensures Runs(n).priority <= n.threads[t].priority {
      assert ThreadRight(n, t);
      assert Occupied(n.queues, n.threads[t].priority);
    }
    if end.threads[idle].stat == Ready { assert Occupied(end.queues, end.threads[idle].priority); }
  }

  /** The calls do what the steps say. */
  method Execute(k: Scheduler, op: Op)
    requires k.Sound() && Admitted(k.Snap(), op) && k.lockNest == 0
    modifies k, k.threads, k.ready
    ensures k.Sound() && (!op.Yield? ==> k.Snap() == Step(old(k.Snap()), op))
    ensures op.Yield? ==> k.Snap() in {old(k.Snap()), Step(old(k.Snap()), op)}
  {
    hide Valid, Switched, Stopped, Reprioritized, Started, Detached, Yielded, Readied, FirstRuns;
    match op
    case Begin => k.Start();
    case Switch => k.Schedule();
    case Yield => var _ := k.TickIncrease();
    case Suspend => var _ := k.Suspend();
    case MakeReady(t, late) => var _ := k.MakeReady(t, late);
    case ChangePriority(t, p) => k.ChangePriority(t, p);
    case Startup(t) => k.Startup(t);
    case Detach(t) => k.Detach(t);
  }
}
