/** The single-core scheduler, updated in place. */
module UpKernel {
  import opened Common
  import opened Lists
  import opened ReadyTables
  import opened UpState

  class Thread {
    var stat: Status
    var yielding: bool
    var currentPriority: nat
    var initTick: nat
    var remainingTick: nat

    constructor (priority: nat, tick: nat)
      ensures View() == ThreadView(Init, false, priority) && initTick == remainingTick == tick
    {
      stat, yielding, currentPriority, initTick, remainingTick := Init, false, priority, tick, tick;
    }

    function View(): ThreadView
      reads this`stat, this`yielding, this`currentPriority
    {
      ThreadView(stat, yielding, currentPriority)
    }
  }

  class Scheduler {
    const threads: seq<Thread>
    const ready: ReadyTable
    var currentThread: Option<nat>

    /** `rt_scheduler_lock_nest`, an `rt_int16_t`. */
    var lockNest: int

    /** `rt_system_scheduler_init`, with threads that were only initialised. */
    constructor (threads: seq<Thread>, ready: ReadyTable)
      requires Distinct(threads) && ready.Valid() && ready.queues == seq(ready.max, _ => []) && ready.max <= 256
      requires forall t :: 0 <= t < |threads| ==> threads[t].stat == Init && threads[t].currentPriority < ready.max
      ensures Sound() && Fresh(Snap())
      ensures this.threads == threads && this.ready == ready && currentThread == None && lockNest == 0
    {
      this.threads, this.ready, currentThread, lockNest := threads, ready, None, 0;
    }

    ghost function Snap(): (s: State)
      reads this`currentThread, threads, ready
      ensures |s.threads| == |threads| && s.queues == ready.queues && s.current == currentThread
      ensures forall t :: 0 <= t < |threads| ==> s.threads[t] == threads[t].View()
    {
      State(seq(|threads|, t requires 0 <= t < |threads| reads threads => threads[t].View()), ready.queues,
        currentThread)
    }

    /** The bitmap agrees with the queues. */
    ghost predicate Sound()
      reads ready
    {
      Distinct(threads) && ready.Valid()
    }

    /** Writes the scheduling fields of one thread. */
    method Store(t: nat, v: ThreadView)
      requires Sound() && t < |threads|
      modifies threads[t]
      ensures Sound() && Snap() == WithThread(old(Snap()), t, v) && threads[t].View() == v
      ensures threads[t].initTick == old(threads[t].initTick)
        && threads[t].remainingTick == old(threads[t].remainingTick)
    {
      threads[t].stat, threads[t].yielding, threads[t].currentPriority := v.stat, v.yielding, v.priority;
    }

    /** `rt_sched_insert_thread`. */
    method Insert(t: nat)
      requires Sound() && t < |threads| && threads[t].currentPriority < ready.max
      modifies threads[t], ready
      ensures Sound() && Snap() == Inserted(old(Snap()), t)
    {
      var v := threads[t].View();
      if currentThread == Some(t) {
        Store(t, v.(stat := Running));
      } else {
        Store(t, v.(stat := Ready));
        ready.Link(t, v.priority, v.yielding);
      }
    }

    /** `rt_sched_remove_thread`. */
    method Unqueue(t: nat)
      requires Sound() && t < |threads| && threads[t].currentPriority < ready.max
      modifies ready
      ensures Sound() && Snap() == Removed(old(Snap()), t)
    {
      ready.Unlink(t, threads[t].currentPriority);
    }

    lemma ThreadAt(t: nat)
      requires Valid(Snap()) && Sound() && t < |threads|
      ensures threads[t].currentPriority < ready.max == |ready.queues|
    {
      assert ThreadRight(Snap(), t);
    }

    /** `rt_schedule`: nothing while the scheduler is locked. */
    method Schedule()
      requires Sound() && Valid(Snap()) && currentThread.Some?
      modifies this`currentThread, threads, ready
      ensures Sound() && Snap() == if lockNest == 0 then Switched(old(Snap())) else old(Snap())
    {
      hide QueueRight, ThreadRight, Valid, GivenUp, Removed, Distinct;
      if lockNest != 0 {
        return;
      }
      ghost var s := Snap();
      var t := currentThread.value;
      CurrentAt();
      var p := ready.Highest();
      LeastForemost(ready.queues, 0);
      ForemostUnique(ready.queues, p, Least(ready.queues));
      if p == NO_PRIORITY {
        return;
      }
      Head(s, p);
      var v, to := threads[t].View(), ready.queues[p][0];
      if v.stat == Running && (v.priority < p || (v.priority == p && !v.yielding)) {
        RemovedUnqueued(s, t);
        Unqueue(t);
        Store(t, v.(stat := Running));
        assert Snap().threads == s.threads;
        return;
      }
      GivenUpChosen(s, t, to);
      SwitchTo(t, to);
    }

    lemma CurrentAt()
      requires Valid(Snap()) && Sound() && currentThread.Some?
      ensures currentThread.value < |threads|
        && threads[currentThread.value].currentPriority < ready.max == |ready.queues|
      ensures |ready.queues| < NO_PRIORITY
    {
      ThreadAt(currentThread.value);
    }

    /** The thread that runs gives up the processor to one that waits. */
    method SwitchTo(t: nat, to: nat)
      requires Sound() && t < |threads| && to < |threads| && t != to && currentThread == Some(t)
      requires threads[t].currentPriority < ready.max == |ready.queues| && threads[to].currentPriority < ready.max
      modifies this`currentThread, threads, ready
      ensures Sound() && |GivenUp(old(Snap()), t, to).threads| == |threads|
      ensures var n := GivenUp(old(Snap()), t, to);
        to < |n.threads| && n.threads[to].priority < |n.queues|
          && Snap() == WithThread(Removed(n, to), to, n.threads[to].(stat := Running))
    {
      ghost var s := Snap();
      var v := threads[t].View();
      currentThread := Some(to);
      if v.stat == Running {
        Insert(t);
      }
      Store(t, threads[t].View().(yielding := false));
      assert Snap() == GivenUp(s, t, to);
      Unqueue(to);
      Store(to, threads[to].View().(stat := Running));
    }

    /** `rt_system_scheduler_start`, once a thread is READY. */
    method Start()
      requires Sound() && Valid(Snap()) && currentThread == None && Least(ready.queues) != NO_PRIORITY
      modifies this`currentThread, threads, ready
      ensures Sound() && Snap() == FirstRuns(old(Snap()))
    {
      hide QueueRight, ThreadRight, Valid, Removed, Distinct;
      ghost var s := Snap();
      var p := ready.Highest();
      LeastForemost(ready.queues, 0);
      ForemostUnique(ready.queues, p, Least(ready.queues));
      Head(s, p);
      var to := ready.queues[p][0];
      ThreadAt(to);
      currentThread := Some(to);
      assert Snap() == s.(current := Some(to));
      Unqueue(to);
      assert threads[to].View() == s.threads[to];
      Store(to, threads[to].View().(stat := Running, yielding := false));
    }

    /** `rt_enter_critical`. */
    method EnterCritical() returns (level: int)
      modifies this`lockNest
      ensures lockNest == level == Entered(old(lockNest))
    {
      lockNest := Wrap16(lockNest + 1);
      level := lockNest;
    }

    /** `rt_exit_critical`: the switch that was held off takes place when the counter comes down to zero. */
    method ExitCritical()
      requires Sound() && Valid(Snap())
      modifies this`lockNest, this`currentThread, threads, ready
      ensures Sound() && lockNest == Left(old(lockNest))
      ensures Snap() == if lockNest == 0 && old(currentThread).Some? then Switched(old(Snap())) else old(Snap())
    {
      lockNest := Wrap16(lockNest - 1);
      if lockNest <= 0 {
        lockNest := 0;
        if currentThread.Some? {
          Schedule();
        }
      }
    }

    /** `rt_sched_tick_increase`: a thread whose time is up gets new time and yields. */
    method TickIncrease() returns (expired: bool)
      requires Sound() && Valid(Snap()) && currentThread.Some?
      modifies threads
      ensures Sound() && Snap() == if expired then Yielded(old(Snap())) else old(Snap())
      ensures currentThread.value < |threads|
      ensures var thread := threads[currentThread.value]; var left := TickDown(old(thread.remainingTick));
        expired == (left == 0) && thread.remainingTick == if expired then thread.initTick else left
    {
      var t := currentThread.value;
      threads[t].remainingTick := TickDown(threads[t].remainingTick);
      expired := threads[t].remainingTick == 0;
      assert Snap() == old(Snap());
      if expired {
        threads[t].remainingTick := threads[t].initTick;
        Store(t, threads[t].View().(yielding := true));
      }
    }

    /** `rt_thread_suspend_to_list` by the current thread. */
    method Suspend() returns (ok: bool)
      requires Sound() && Valid(Snap()) && currentThread.Some?
      modifies threads, ready
      ensures Sound() && Snap() == Stopped(old(Snap())) && ok == (Runs(old(Snap())).stat == Running)
    {
      var t := currentThread.value;
      ThreadAt(t);
      assert ThreadRight(Snap(), t);
      if threads[t].stat != Ready && threads[t].stat != Running {
        return false;
      }
      RemovedUnqueued(Snap(), t);
      Unqueue(t);
      Store(t, threads[t].View().(stat := Suspended));
      ok := true;
    }

    /** `rt_sched_thread_ready`. */
    method MakeReady(t: nat, late: bool) returns (ok: bool)
      requires Sound() && Valid(Snap()) && t < |threads|
      modifies threads[t], ready
      ensures Sound() && Snap() == Readied(old(Snap()), t, late) && ok == (old(threads[t].stat) == Suspended && !late)
    {
      ThreadAt(t);
      ok := threads[t].stat == Suspended && !late;
      if ok {
        Insert(t);
      }
    }

    /** `rt_sched_thread_change_priority`. */
    method ChangePriority(t: nat, priority: nat)
      requires Sound() && Valid(Snap()) && t < |threads| && priority < ready.max
      modifies threads[t], ready
      ensures Sound() && Snap() == Reprioritized(old(Snap()), t, priority)
    {
      ThreadAt(t);
      if threads[t].stat == Ready {
        Unqueue(t);
        Store(t, threads[t].View().(priority := priority, stat := Init, yielding := false));
        Insert(t);
      } else {
        Store(t, threads[t].View().(priority := priority));
      }
    }

    /** `rt_thread_startup`, of a thread that was only initialised. */
    method Startup(t: nat)
      requires Sound() && Valid(Snap()) && t < |threads| && threads[t].stat == Init
      modifies threads[t], ready
      ensures Sound() && Snap() == Started(old(Snap()), t)
    {
      ThreadAt(t);
      Store(t, threads[t].View().(stat := Suspended, yielding := false));
      Insert(t);
    }

    /** The scheduler's part of `_thread_detach`. */
    method Detach(t: nat)
      requires Sound() && Valid(Snap()) && t < |threads|
      modifies threads[t], ready
      ensures Sound() && Snap() == Detached(old(Snap()), t)
    {
      ThreadAt(t);
      if threads[t].stat != Closed {
        if threads[t].stat != Init {
          Unqueue(t);
        }
        Store(t, threads[t].View().(stat := Closed, yielding := false));
      }
    }
  }
}
