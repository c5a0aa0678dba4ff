/** The multi-core scheduler: per-CPU and global ready queues, bitmaps and thread states, updated in place. */
module SmpKernel {
  import opened Common
  import opened Lists
  import opened ReadyTables
  import opened SmpState
  import opened SmpSteps
  import opened SmpGate

  class Thread {
    var stat: Status
    var yielding: bool
    var oncpu: nat
    var bindCpu: nat
    var currentPriority: nat
    var initTick: nat
    var remainingTick: nat

    constructor (cpus: nat, priority: nat, tick: nat)
      ensures View() == ThreadView(Init, false, cpus, cpus, priority) && initTick == remainingTick == tick
    {
      stat, yielding, oncpu, bindCpu, currentPriority := Init, false, cpus, cpus, priority;
      initTick, remainingTick := tick, tick;
    }

    function View(): ThreadView
      reads this`stat, this`yielding, this`oncpu, this`bindCpu, this`currentPriority
    {
      ThreadView(stat, yielding, oncpu, bindCpu, currentPriority)
    }
  }

  class Cpu {
    const ready: ReadyTable
    var currentThread: Option<nat>
    var irqNest: nat
    var irqSwitchFlag: bool
    var criticalSwitchFlag: bool

    constructor (ready: ReadyTable)
      ensures this.ready == ready && currentThread == None && irqNest == 0 && !irqSwitchFlag && !criticalSwitchFlag
    {
      this.ready, currentThread := ready, None;
      irqNest, irqSwitchFlag, criticalSwitchFlag := 0, false, false;
    }
  }

  class Scheduler {
    const max: nat
    const threads: seq<Thread>
    const percpu: seq<Cpu>
    const global: ReadyTable

    /** `critical_lock_nest` of each thread. */
    var lockNest: seq<nat>

    /** `rt_system_scheduler_init`, with threads that were only initialised and CPUs that run none. */
    constructor (max: nat, threads: seq<Thread>, percpu: seq<Cpu>, global: ReadyTable)
      requires max <= 256 && Distinct(threads) && Distinct(percpu) && Distinct(TablesOf(percpu, global))
      requires forall b :: 0 <= b <= |percpu| ==> EmptyTable(TablesOf(percpu, global)[b], max)
      requires forall t :: 0 <= t < |threads| ==>
        threads[t].stat == Init && threads[t].oncpu == |percpu| && threads[t].bindCpu <= |percpu|
        && threads[t].currentPriority < max
      requires forall c :: 0 <= c < |percpu| ==> percpu[c].currentThread == None
      ensures this.max == max && this.threads == threads && this.percpu == percpu && this.global == global
      ensures Sound() && Locked() && Fresh(Snap())
    {
      this.max, this.threads, this.percpu, this.global := max, threads, percpu, global;
      lockNest := seq(|threads|, _ => 0);
      new;
      assert Tables() == TablesOf(percpu, global);
    }

    /** The queues that threads bound like `b` wait in. */
    function Table(b: nat): ReadyTable
      requires b <= |percpu|
    {
      if b == |percpu| then global else percpu[b].ready
    }

    ghost function Tables(): (ts: seq<ReadyTable>)
      ensures |ts| == |percpu| + 1 && forall b :: 0 <= b <= |percpu| ==> ts[b] == Table(b)
    {
      seq(|percpu| + 1, b requires 0 <= b <= |percpu| => Table(b))
    }

    /** Only a thread that has a CPU is in a critical section. */
    ghost predicate Locked()
      reads this`lockNest, threads
    {
      |lockNest| == |threads| && forall t :: 0 <= t < |threads| && lockNest[t] > 0 ==> threads[t].oncpu < |percpu|
    }

    /** What may hold a switch off on CPU `c`. */
    ghost function GateOf(c: nat): Gate
      requires c < |percpu|
      reads this`lockNest, percpu[c]
    {
      Gate(NestOf(percpu[c].currentThread), percpu[c].irqNest, percpu[c].irqSwitchFlag, percpu[c].criticalSwitchFlag)
    }

    ghost function NestOf(current: Option<nat>): nat
      reads this`lockNest
    {
      if current.Some? && current.value < |lockNest| then lockNest[current.value] else 0
    }

    /** All objects are there once, and every bitmap agrees with its queues. */
    ghost predicate Sound()
      reads Tables()
    {
      && max <= 256 && Distinct(threads) && Distinct(percpu) && Distinct(Tables())
      && (forall b :: 0 <= b <= |percpu| ==> Tables()[b].Valid() && Tables()[b].max == max)
    }

    ghost function Snap(): (s: State)
      reads threads, percpu, Tables()
      ensures s.cpus == |percpu| && s.max == max && |s.threads| == |threads|
    {
      State(|percpu|, max,
            seq(|threads|, t requires 0 <= t < |threads| reads threads => threads[t].View()),
            seq(|percpu| + 1, b requires 0 <= b <= |percpu| reads Tables() => Tables()[b].queues),
            seq(|percpu|, c requires 0 <= c < |percpu| reads percpu => percpu[c].currentThread))
    }

    ghost function Enqueued(s: State, t: nat): State
      requires Shaped(s) && t < |s.threads|
    {
      var v := s.threads[t];
      var q := QueueAt(s, v.bindCpu, v.priority);
      WithQueue(s, v.bindCpu, v.priority, if v.yielding then q + [t] else [t] + q)
    }

    /** Writes the scheduling fields of one thread. */
    method Store(t: nat, v: ThreadView)
      requires t < |threads| && Distinct(threads)
      modifies threads[t]
      ensures Snap() == WithThread(old(Snap()), t, v) && unchanged(percpu) && unchanged(Tables())
      ensures threads[t].initTick == old(threads[t].initTick)
        && threads[t].remainingTick == old(threads[t].remainingTick)
    {
      var thread := threads[t];
      thread.stat, thread.yielding, thread.oncpu := v.stat, v.yielding, v.oncpu;
      thread.bindCpu, thread.currentPriority := v.bindCpu, v.priority;
    }

    /** Marks the priority of a thread and links the thread at the front, or at the back once its time is used up. */
    method Enqueue(t: nat)
      requires Sound() && Shaped(Snap()) && t < |threads|
      modifies Tables()
      ensures Sound() && unchanged(threads) && Snap() == Enqueued(old(Snap()), t)
    {
      Home(t);
      var b, p := threads[t].bindCpu, threads[t].currentPriority;
      Table(b).Link(t, p, threads[t].yielding);
    }

    /** Where a thread is or would be queued. */
    lemma Home(t: nat)
      requires Sound() && Shaped(Snap()) && t < |threads|
      ensures Snap().threads[t] == threads[t].View()
      ensures threads[t].oncpu <= |percpu| && threads[t].bindCpu <= |percpu| && threads[t].currentPriority < max
      ensures Table(threads[t].bindCpu) == Tables()[threads[t].bindCpu]
      ensures Table(threads[t].bindCpu).Valid()
        && |Table(threads[t].bindCpu).queues| == Table(threads[t].bindCpu).max == max
      ensures Snap().queues[threads[t].bindCpu] == Table(threads[t].bindCpu).queues
    {
      assert InRange(Snap(), Snap().threads[t]);
    }

    /** `_sched_insert_thread_locked`. */
    method Insert(t: nat)
      requires Sound() && Shaped(Snap()) && t < |threads|
      modifies threads[t], Tables()
      ensures Sound() && Snap() == Inserted(old(Snap()), t)
    {
      Home(t);
      var v := threads[t].View();
      if v.stat == Ready {
        return;
      }
      if v.oncpu != |percpu| {
        Store(t, v.(stat := Running));
      } else {
        Store(t, v.(stat := Ready));
        Enqueue(t);
      }
    }

    /** `_sched_remove_thread_locked`. */
    method Unqueue(t: nat)
      requires Sound() && Shaped(Snap()) && t < |threads|
      modifies Tables()
      ensures Sound() && unchanged(threads) && Snap() == Removed(old(Snap()), t)
    {
      Home(t);
      var b, p := threads[t].bindCpu, threads[t].currentPriority;
      Table(b).Unlink(t, p);
    }

    /** `_scheduler_get_highest_priority_thread`. */
    method HighestPriorityThread(c: nat) returns (to: Option<nat>, p: nat)
      requires Sound() && QueuesRight(Snap()) && c < |percpu|
      ensures p == Chosen(Snap(), c).1
      ensures p == NO_PRIORITY ==> to == None
      ensures p != NO_PRIORITY ==>
        var q := Snap().queues[Chosen(Snap(), c).0]; p < |q| && q[p] != [] && to == Some(q[p][0])
    {
      TableAt(c);
      TableAt(|percpu|);
      var g := global.Highest();
      var l := percpu[c].ready.Highest();
      HighestIs(global.queues, g);
      HighestIs(percpu[c].ready.queues, l);
      if g < l {
        to, p := Some(global.queues[g][0]), g;
      } else {
        p := l;
        to := if l != NO_PRIORITY then Some(percpu[c].ready.queues[l][0]) else None;
      }
    }

    lemma TableAt(b: nat)
      requires Sound() && Shaped(Snap()) && b <= |percpu|
      ensures Table(b).Valid() && Snap().queues[b] == Table(b).queues && |Table(b).queues| == max < NO_PRIORITY
    {
      assert Tables()[b].Valid();
    }

    /** The thread of a CPU. */
    lemma CurrentAt(c: nat)
      requires Valid(Snap()) && c < |percpu| && percpu[c].currentThread.Some?
      ensures Snap().current[c] == percpu[c].currentThread
      ensures percpu[c].currentThread.value < |threads| && Snap().threads[percpu[c].currentThread.value].oncpu == c
      ensures Runs(Snap(), c) == Snap().threads[percpu[c].currentThread.value]
    {
      assert CpuRight(Snap(), c);
    }

    /** `_prepare_context_switch_locked`: decides who runs next on `c`, and queues and unqueues accordingly. */
    method PrepareContextSwitch(c: nat) returns (to: Option<nat>)
      requires Sound() && Valid(Snap()) && c < |percpu| && percpu[c].currentThread.Some?
      modifies threads, Tables()
      ensures Sound()
      ensures Switched(old(Snap()), c)
           == Snap().(current := if to == None then Snap().current else Snap().current[c := to])
    {
      hide QueueRight, ThreadRight, CpuRight, Least, Vacant;
      ghost var s := Snap();
      CurrentAt(c);
      var t := percpu[c].currentThread.value;
      var next, p := HighestPriorityThread(c);
      if p == NO_PRIORITY {
        return None;
      }
      ChosenThread(s, c);
      var v := threads[t].View();
      if v.stat == Running && (v.bindCpu == |percpu| || v.bindCpu == c)
         && (v.priority < p || (v.priority == p && !v.yielding)) {
        Store(t, v.(yielding := false));
        return None;
      }
      GivenUpVacant(s, t, c);
      GiveUp(t, v);
      Place(next.value, c);
      to := next;
    }

    /** Takes the current thread off its CPU, back to a queue if it could run on. */
    method GiveUp(t: nat, v: ThreadView)
      requires Sound() && Shaped(Snap()) && t < |threads| && v == Snap().threads[t]
      requires Shaped(GivenUp(Snap(), t))
      modifies threads[t], Tables()
      ensures Sound() && Snap() == GivenUp(old(Snap()), t)
    {
      Store(t, v.(oncpu := |percpu|));
      if v.stat == Running {
        Insert(t);
        Store(t, threads[t].View().(yielding := false));
      }
    }

    /** Gives the CPU to a thread from a queue. */
    method Place(t: nat, c: nat)
      requires Sound() && Shaped(Snap()) && t < |threads| && c < |percpu|
      modifies threads[t], Tables()
      ensures Sound() && Snap().(current := Snap().current[c := Some(t)]) == Placed(old(Snap()), t, c)
    {
      Home(t);
      var v := threads[t].View();
      Unqueue(t);
      Store(t, v.(oncpu := c, stat := Running));
    }

    /** The CPU passes to the thread it should run. */
    method SwitchNow(c: nat)
      requires Sound() && Valid(Snap()) && c < |percpu| && percpu[c].currentThread.Some?
      modifies threads, Tables(), percpu[c..c + 1]`currentThread
      ensures Sound() && Snap() == Switched(old(Snap()), c)
    {
      var to := PrepareContextSwitch(c);
      if to.Some? {
        SetCurrent(c, to);
      }
    }

    /** A switch on a CPU that nothing holds off: the critical flag is taken back, and no thread keeps a lock. */
    method Serve(c: nat, irqSwitch: bool)
      requires Sound() && Valid(Snap()) && c < |percpu| && percpu[c].currentThread.Some?
      requires Locked() && Open(GateOf(c))
      modifies threads, Tables(), percpu[c]
      ensures Sound() && Locked() && Snap() == Switched(old(Snap()), c) && GateOf(c) == OPEN.(irqSwitch := irqSwitch)
    {
      hide Valid, Switched;
      ghost var s := Snap();
      CurrentAt(c);
      SwitchedPlaces(s, c);
      SetFlags(c, percpu[c].irqNest, irqSwitch, false);
      SwitchNow(c);
      StillLocked(s, c);
    }

    lemma StillLocked(s: State, c: nat)
      requires c < |percpu| && |lockNest| == |threads| == |s.threads| && s.cpus == |percpu| && |s.current| == s.cpus
      requires s.current[c].Some? && s.current[c].value < |threads| && lockNest[s.current[c].value] == 0
      requires forall t: nat :: t < |threads| && lockNest[t] > 0 ==> s.threads[t].oncpu < s.cpus
      requires var n := Snap();
        && n.current[c].Some? && n.current[c].value < |threads|
        && (n.current[c] == s.current[c] || s.threads[n.current[c].value].oncpu == s.cpus)
        && forall u: nat :: u < |threads| && u != s.current[c].value && s.threads[u].oncpu < s.cpus ==>
             n.threads[u].oncpu == s.threads[u].oncpu
      ensures Locked() && NestOf(percpu[c].currentThread) == 0
    {
      forall t | 0 <= t < |threads| && lockNest[t] > 0 ensures threads[t].oncpu < |percpu| {
        assert Snap().threads[t] == threads[t].View();
      }
      assert Snap().current[c] == percpu[c].currentThread;
    }

    /** `rt_schedule`: in an interrupt or in a critical section it only leaves a flag. */
    method Schedule(c: nat)
      requires Sound() && Valid(Snap()) && c < |percpu| && percpu[c].currentThread.Some? && Locked()
      modifies threads, Tables(), percpu[c], this`lockNest
      ensures Sound() && Locked() && GateOf(c) == Requested(old(GateOf(c))) && lockNest == old(lockNest)
      ensures Snap() == if Open(old(GateOf(c))) then Switched(old(Snap()), c) else old(Snap())
    {
      hide Valid, Switched;
      CurrentAt(c);
      var t := percpu[c].currentThread.value;
      if percpu[c].irqNest > 0 {
        SetFlags(c, percpu[c].irqNest, true, percpu[c].criticalSwitchFlag);
        return;
      }
      EnterNest(t);
      if lockNest[t] > 1 {
        SetFlags(c, percpu[c].irqNest, percpu[c].irqSwitchFlag, true);
        LeaveNest(t);
      } else {
        LeaveNest(t);
        Serve(c, false);
      }
    }

    /** `rt_sched_unlock_n_resched`, by a thread that holds the lock of `rt_sched_lock`. */
    method UnlockResched(c: nat)
      requires Sound() && Valid(Snap()) && c < |percpu| && percpu[c].currentThread.Some? && Locked()
      requires GateOf(c).nest > 0
      modifies threads, Tables(), percpu[c], this`lockNest
      ensures Sound() && Locked()
      ensures var unlocked := old(GateOf(c)).(nest := old(GateOf(c)).nest - 1);
        && GateOf(c) == Rescheduled(unlocked)
        && Snap() == if Open(unlocked) then Switched(old(Snap()), c) else old(Snap())
    {
      hide Valid, Switched;
      CurrentAt(c);
      var t := percpu[c].currentThread.value;
      if percpu[c].irqNest > 0 {
        SetFlags(c, percpu[c].irqNest, true, percpu[c].criticalSwitchFlag);
        LeaveNest(t);
        return;
      }
      if lockNest[t] > 1 {
        SetFlags(c, percpu[c].irqNest, percpu[c].irqSwitchFlag, true);
        LeaveNest(t);
      } else {
        LeaveNest(t);
        Serve(c, percpu[c].irqSwitchFlag);
      }
    }

    method EnterNest(t: nat)
      requires t < |lockNest|
      modifies this`lockNest
      ensures lockNest == old(lockNest)[t := old(lockNest)[t] + 1]
    {
      lockNest := lockNest[t := lockNest[t] + 1];
    }

    method LeaveNest(t: nat)
      requires t < |lockNest| && lockNest[t] > 0
      modifies this`lockNest
      ensures lockNest == old(lockNest)[t := old(lockNest)[t] - 1]
    {
      lockNest := lockNest[t := lockNest[t] - 1];
    }

    /** `rt_enter_critical`. */
    method EnterCritical(c: nat) returns (level: Option<nat>)
      requires Sound() && Valid(Snap()) && c < |percpu| && Locked()
      modifies this`lockNest
      ensures Locked() && (level == None <==> percpu[c].currentThread == None)
      ensures GateOf(c) == if level.Some? then Entered(old(GateOf(c))) else old(GateOf(c))
      ensures level.Some? ==> level.value == GateOf(c).nest
    {
      if percpu[c].currentThread == None {
        return None;
      }
      CurrentAt(c);
      EnterNest(percpu[c].currentThread.value);
      level := Some(lockNest[percpu[c].currentThread.value]);
    }

    /** `rt_exit_critical`, of a section that was entered. */
    method ExitCritical(c: nat)
      requires Sound() && Valid(Snap()) && c < |percpu| && percpu[c].currentThread.Some? && Locked()
        && GateOf(c).nest > 0
      modifies threads, Tables(), percpu[c], this`lockNest
      ensures Sound() && Locked() && GateOf(c) == Left(old(GateOf(c)))
      ensures forall u :: 0 <= u < |lockNest| && Some(u) != old(percpu[c].currentThread) ==>
        lockNest[u] == old(lockNest)[u]
      ensures Snap() == if LeavingSwitches(old(GateOf(c))) then Switched(old(Snap()), c) else old(Snap())
    {
      hide Valid, Switched;
      CurrentAt(c);
      var t := percpu[c].currentThread.value;
      LeaveNest(t);
      if lockNest[t] == 0 {
        var needResched := percpu[c].criticalSwitchFlag;
        SetFlags(c, percpu[c].irqNest, percpu[c].irqSwitchFlag, false);
        if needResched {
          Schedule(c);
        }
      }
    }

    /** The beginning of an interrupt. */
    method InterruptEnter(c: nat)
      requires c < |percpu|
      modifies percpu[c..c + 1]`irqNest
      ensures GateOf(c) == Interrupted(old(GateOf(c)))
    {
      percpu[c].irqNest := percpu[c].irqNest + 1;
    }

    /** The end of an interrupt, with `rt_scheduler_do_irq_switch`. */
    method InterruptLeave(c: nat)
      requires Sound() && Valid(Snap()) && c < |percpu| && percpu[c].currentThread.Some? && Locked()
        && percpu[c].irqNest > 0
      modifies threads, Tables(), percpu[c], this`lockNest
      ensures Sound() && Locked() && GateOf(c) == Resumed(old(GateOf(c))) && lockNest == old(lockNest)
      ensures Snap() == if ResumingSwitches(old(GateOf(c))) then Switched(old(Snap()), c) else old(Snap())
    {
      hide Valid, Switched;
      SetFlags(c, percpu[c].irqNest - 1, percpu[c].irqSwitchFlag, percpu[c].criticalSwitchFlag);
      DoIrqSwitch(c);
    }

    method DoIrqSwitch(c: nat)
      requires Sound() && Valid(Snap()) && c < |percpu| && percpu[c].currentThread.Some? && Locked()
      modifies threads, Tables(), percpu[c], this`lockNest
      ensures Sound() && Locked() && GateOf(c) == IrqServed(old(GateOf(c))) && lockNest == old(lockNest)
      ensures Snap() == if IrqServes(old(GateOf(c))) then Switched(old(Snap()), c) else old(Snap())
    {
      hide Valid, Switched;
      CurrentAt(c);
      var t := percpu[c].currentThread.value;
      EnterNest(t);
      if !percpu[c].irqSwitchFlag {
        LeaveNest(t);
        return;
      }
      if lockNest[t] > 1 {
        SetFlags(c, percpu[c].irqNest, percpu[c].irqSwitchFlag, true);
        LeaveNest(t);
      } else {
        LeaveNest(t);
        if percpu[c].irqNest == 0 {
          Serve(c, false);
        }
      }
    }

    /** Writes the counter and the flags of one CPU. */
    method SetFlags(c: nat, irqNest: nat, irqSwitch: bool, criticalSwitch: bool)
      requires Sound() && c < |percpu|
      modifies percpu[c]
      ensures Sound() && Snap() == old(Snap()) && percpu[c].currentThread == old(percpu[c].currentThread)
      ensures GateOf(c) == Gate(old(GateOf(c)).nest, irqNest, irqSwitch, criticalSwitch)
    {
      percpu[c].irqNest, percpu[c].irqSwitchFlag, percpu[c].criticalSwitchFlag := irqNest, irqSwitch, criticalSwitch;
      assert Snap() == old(Snap());
    }

    /** `rt_sched_post_ctx_switch`. */
    method SetCurrent(c: nat, to: Option<nat>)
      requires Sound() && c < |percpu|
      modifies percpu[c..c + 1]`currentThread
      ensures Sound() && Snap() == old(Snap()).(current := old(Snap()).current[c := to])
    {
      percpu[c].currentThread := to;
    }

    /** `rt_system_scheduler_start` on CPU `c`. */
    method Start(c: nat)
      requires Sound() && Valid(Snap()) && c < |percpu| && percpu[c].currentThread == None
      requires Chosen(Snap(), c).1 != NO_PRIORITY
      modifies threads, Tables(), percpu[c]
      ensures Sound() && Snap() == CpuStarted(old(Snap()), c)
    {
      hide Valid, QueuesRight, ThreadRight, CpuRight, Vacant, Chosen, Sound, Placed;
      ghost var s := Snap();
      StartFacts(c);
      var to, _ := HighestPriorityThread(c);
      PlacedRight(s, to.value, c);
      Shape(Placed(s, to.value, c));
      Place(to.value, c);
      SetCurrent(c, to);
      Store(to.value, threads[to.value].View().(yielding := false));
    }

    lemma StartFacts(c: nat)
      requires Sound() && Valid(Snap()) && c < |percpu| && percpu[c].currentThread == None
      requires Chosen(Snap(), c).1 != NO_PRIORITY
      ensures QueuesRight(Snap()) && Shaped(Snap()) && Snap().max < NO_PRIORITY && Snap().current[c] == None
      ensures Vacant(Snap(), c) && Distinct(threads)
      ensures var (b, p) := Chosen(Snap(), c);
        && b < |Snap().queues| && p < |Snap().queues[b]| && Snap().queues[b][p] != []
        && Snap().queues[b][p][0] < |threads| && Snap().threads[Snap().queues[b][p][0]].stat == Ready
    {
      ChosenThread(Snap(), c);
      CpuVacant(Snap(), c);
    }

    lemma Shape(s: State)
      requires Valid(s)
      ensures Shaped(s)
    {}

    /** `rt_sched_tick_increase` on CPU `c`: a thread whose time is up gets new time and yields. */
    method TickIncrease(c: nat) returns (expired: bool)
      requires Sound() && Valid(Snap()) && c < |percpu| && percpu[c].currentThread.Some?
      modifies threads
      ensures Sound() && Snap() == if expired then Yielded(old(Snap()), c) else old(Snap())
      ensures percpu[c].currentThread.value < |threads|
      ensures var thread := threads[percpu[c].currentThread.value]; var left := TickDown(old(thread.remainingTick));
        expired == (left == 0) && thread.remainingTick == if expired then thread.initTick else left
    {
      CurrentAt(c);
      var t := percpu[c].currentThread.value;
      threads[t].remainingTick := TickDown(threads[t].remainingTick);
      expired := threads[t].remainingTick == 0;
      assert Snap() == old(Snap());
      if expired {
        threads[t].remainingTick := threads[t].initTick;
        Store(t, threads[t].View().(yielding := true));
      }
    }

    /** `rt_sched_thread_ready`. */
    method MakeReady(t: nat, late: bool) returns (ok: bool)
      requires Sound() && Shaped(Snap()) && t < |threads|
      modifies threads[t], Tables()
      ensures Sound() && Snap() == Readied(old(Snap()), t, late)
      ensures ok == (old(threads[t].stat) == Suspended && !late)
    {
      ok := threads[t].stat == Suspended && !late;
      Home(t);
      if ok {
        Insert(t);
      }
    }

    /** `rt_thread_suspend_to_list` by the thread that runs on `c`. */
    method Suspend(c: nat) returns (ok: bool)
      requires Sound() && Valid(Snap()) && c < |percpu| && percpu[c].currentThread.Some?
      modifies threads, Tables()
      ensures Sound() && Snap() == Stopped(old(Snap()), c) && ok == (Runs(old(Snap()), c).stat == Running)
    {
      CurrentAt(c);
      var t := percpu[c].currentThread.value;
      Home(t);
      NeverReady(Snap(), c);
      if threads[t].stat != Ready && threads[t].stat != Running {
        return false;
      }
      RemovedUnqueued(Snap(), t);
      Unqueue(t);
      Store(t, threads[t].View().(stat := Suspended));
      ok := true;
    }

    /** `rt_sched_thread_change_priority`. */
    method ChangePriority(t: nat, priority: nat)
      requires Sound() && Valid(Snap()) && t < |threads| && priority < max
      modifies threads[t], Tables()
      ensures Sound() && Snap() == Reprioritized(old(Snap()), t, priority)
    {
      Home(t);
      if threads[t].stat == Ready {
        Unqueue(t);
        Store(t, threads[t].View().(priority := priority, stat := Init, yielding := false));
        Insert(t);
      } else {
        Store(t, threads[t].View().(priority := priority));
      }
    }

    /** `rt_sched_thread_bind_cpu`; numbers past the last CPU mean no binding. */
    method Bind(t: nat, cpu: nat)
      requires Sound() && Valid(Snap()) && t < |threads|
      modifies threads[t], Tables()
      ensures Sound() && Snap() == Bound(old(Snap()), t, if cpu >= |percpu| then |percpu| else cpu)
    {
      var b := if cpu >= |percpu| then |percpu| else cpu;
      Home(t);
      if threads[t].stat == Ready {
        Unqueue(t);
        Store(t, threads[t].View().(bindCpu := b));
        Insert(t);
      } else {
        Store(t, threads[t].View().(bindCpu := b));
      }
    }

    /** `rt_thread_startup`, of a thread that was only initialised. */
    method Startup(t: nat)
      requires Sound() && Valid(Snap()) && t < |threads| && threads[t].stat == Init
      modifies threads[t], Tables()
      ensures Sound() && Snap() == Started(old(Snap()), t)
    {
      Home(t);
      Store(t, threads[t].View().(stat := Suspended, yielding := false));
      Insert(t);
    }

    /** The scheduler's part of `_thread_detach`. */
    method Detach(t: nat)
      requires Sound() && Valid(Snap()) && t < |threads|
      modifies threads[t], Tables()
      ensures Sound() && Snap() == Detached(old(Snap()), t)
    {
      Home(t);
      if threads[t].stat != Closed {
        if threads[t].stat != Init {
          Unqueue(t);
        }
        Store(t, threads[t].View().(stat := Closed, yielding := false));
      }
    }
  }

  /** The tables of the CPUs and the global one. */
  ghost function TablesOf(percpu: seq<Cpu>, global: ReadyTable): (ts: seq<ReadyTable>)
    ensures |ts| == |percpu| + 1
  {
    seq(|percpu| + 1, b requires 0 <= b <= |percpu| => if b == |percpu| then global else percpu[b].ready)
  }

  ghost predicate EmptyTable(table: ReadyTable, max: nat)
    reads table
  {
    table.Valid() && table.max == max && table.queues == seq(max, _ => [])
  }

  lemma HighestIs(queues: seq<seq<nat>>, p: nat)
    requires |queues| < NO_PRIORITY && Foremost(queues, p)
    ensures p == Least(queues)
  {
    LeastForemost(queues, 0);
    ForemostUnique(queues, p, Least(queues));
  }
}
