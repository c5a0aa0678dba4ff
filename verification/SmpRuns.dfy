/** Whole runs of the multi-core scheduler: any steps on any CPUs in any order. */
module SmpRuns {
  import opened Common
  import opened ReadyTables
  import opened SmpState
  import opened SmpSteps
  import opened SmpKernel

  datatype Op =
    | StartCpu(c: nat)
    | Switch(c: nat)
    | Yield(c: nat)
    | Suspend(c: nat)
    | MakeReady(t: nat, late: bool)
    | ChangePriority(t: nat, p: nat)
    | Bind(t: nat, b: nat)
    | Startup(t: nat)
    | Detach(t: nat)

  /** The calls that can be made: CPUs and threads exist, and a READY thread is not bound. */
  ghost predicate Admitted(s: State, op: Op) {
    Valid(s) && s.max <= 256 &&
    match op
    case StartCpu(c) => c < s.cpus && s.current[c] == None && Chosen(s, c).1 != NO_PRIORITY
    case Switch(c) => c < s.cpus && s.current[c].Some?
    case Yield(c) => c < s.cpus && s.current[c].Some?
    case Suspend(c) => c < s.cpus && s.current[c].Some?
    case MakeReady(t, _) => t < |s.threads|
    case ChangePriority(t, p) => t < |s.threads| && p < s.max
    case Bind(t, b) => t < |s.threads| && b <= s.cpus && s.threads[t].stat != Ready
    case Startup(t) => t < |s.threads| && s.threads[t].stat == Init
    case Detach(t) => t < |s.threads|
  }

  ghost function Step(s: State, op: Op): State
    requires Admitted(s, op)
  {
    match op
    case StartCpu(c) => CpuStarted(s, c)
    case Switch(c) => Switched(s, c)
    case Yield(c) => Yielded(s, c)
    case Suspend(c) => Stopped(s, c)
    case MakeReady(t, late) => Readied(s, t, late)
    case ChangePriority(t, p) => Reprioritized(s, t, p)
    case Bind(t, b) => Bound(s, t, b)
    case Startup(t) => Started(s, t)
    case Detach(t) => Detached(s, t)
  }

  lemma StepValid(s: State, op: Op)
    requires Admitted(s, op)
    ensures Valid(Step(s, op))
  {
    match op
    case StartCpu(c) => CpuStartedValid(s, c);
    case Switch(c) => SwitchedValid(s, c);
    case Yield(c) => YieldedValid(s, c);
    case Suspend(c) => StoppedValid(s, c);
    case MakeReady(t, late) => InsertedValid(s, t);
    case ChangePriority(t, p) => ReprioritizedValid(s, t, p);
    case Bind(t, b) => BoundValid(s, t, b);
    case Startup(t) => StartedValid(s, t);
    case Detach(t) => DetachedValid(s, t);
  }

  lemma FreshValid(s: State)
    requires Fresh(s)
    ensures Valid(s)
  {}

  /** A run: each call that can be made is, one after the other. */
  ghost predicate Leads(s: State, ops: seq<Op>, end: State)
    decreases |ops|
  {
    if ops == [] then end == s else Admitted(s, ops[0]) && Leads(Step(s, ops[0]), ops[1..], end)
  }

  lemma {:induction false} RunValid(s: State, ops: seq<Op>, end: State)
    requires Valid(s) && Leads(s, ops, end)
    ensures Valid(end)
    decreases |ops|
  {
    if ops != [] {
      StepValid(s, ops[0]);
      RunValid(Step(s, ops[0]), ops[1..], end);
    }
  }

  /** In every reachable state: one CPU per thread, running threads unqueued, READY threads in exactly their queue. */
  lemma Reachable(s: State, ops: seq<Op>, end: State, t: nat)
    requires Fresh(s) && Leads(s, ops, end) && t < |end.threads|
    ensures Valid(end)
    ensures forall c: nat, d: nat :: c < end.cpus && d < end.cpus && end.current[c] == end.current[d] == Some(t) ==>
      c == d
    ensures forall b: nat, p: nat :: b <= end.cpus && p < end.max ==>
      var v := end.threads[t];
      && multiset(QueueAt(end, b, p))[t] == (if v.stat == Ready && v.bindCpu == b && v.priority == p then 1 else 0)
      && (v.oncpu < end.cpus ==> t !in QueueAt(end, b, p) && end.current[v.oncpu] == Some(t))
  {
    FreshValid(s);
    RunValid(s, ops, end);
    forall c: nat, d: nat | c < end.cpus && d < end.cpus && end.current[c] == end.current[d] == Some(t) ensures c == d {
      CurrentOnce(end, c, d);
    }
    forall b: nat, p: nat | b <= end.cpus && p < end.max
      ensures var v := end.threads[t];
        && multiset(QueueAt(end, b, p))[t] == (if v.stat == Ready && v.bindCpu == b && v.priority == p then 1 else 0)
        && (v.oncpu < end.cpus ==> t !in QueueAt(end, b, p) && end.current[v.oncpu] == Some(t))
    {
      QueuedExactly(end, t, b, p);
      if end.threads[t].oncpu < end.cpus { OnCpuUnqueued(end, t, b, p); }
    }
  }

  /** The calls do what the steps say. */
  method Execute(k: Scheduler, op: Op)
    requires k.Sound() && Admitted(k.Snap(), op)
    modifies k.threads, k.percpu, k.Tables()
    ensures k.Sound() && (op.Yield? || k.Snap() == Step(old(k.Snap()), op))
    ensures op.Yield? ==> k.Snap() in {old(k.Snap()), Step(old(k.Snap()), op)}
  {
    hide Valid, Switched, Stopped, Reprioritized, Bound, Started, Detached, CpuStarted, Yielded, Readied;
    match op
    case StartCpu(c) => k.Start(c);
    case Switch(c) => k.SwitchNow(c);
    case Yield(c) => var _ := k.TickIncrease(c);
    case Suspend(c) => var _ := k.Suspend(c);
    case MakeReady(t, late) => Shape(k); var _ := k.MakeReady(t, late);
    case ChangePriority(t, p) => k.ChangePriority(t, p);
    case Bind(t, b) => k.Bind(t, b);
    case Startup(t) => k.Startup(t);
    case Detach(t) => k.Detach(t);
  }

  lemma Shape(k: Scheduler)
    requires k.Sound() && Valid(k.Snap())
    ensures Shaped(k.Snap())
  {}
}
