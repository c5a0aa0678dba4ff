/** What holds a switch off on one CPU: interrupts, critical sections, and the flags that remember a request. */
module SmpGate {

  /** The counters of the CPU and of its thread, and the CPU's two switch flags. */
  datatype Gate = Gate(nest: nat, irqNest: nat, irqSwitch: bool, criticalSwitch: bool)

  const OPEN := Gate(0, 0, false, false)

  ghost predicate Open(g: Gate) {
    g.nest == 0 && g.irqNest == 0
  }

  /** `rt_schedule`: a switch at once, or a flag. */
  ghost function Requested(g: Gate): Gate {
    if g.irqNest > 0 then g.(irqSwitch := true)
    else if g.nest > 0 then g.(criticalSwitch := true)
    else OPEN
  }

  /**
   * `rt_sched_unlock_n_resched`, once its own lock is left: it does not touch the interrupt's flag when it switches.
   */
  ghost function Rescheduled(g: Gate): Gate {
    if g.irqNest > 0 then g.(irqSwitch := true)
    else if g.nest > 0 then g.(criticalSwitch := true)
    else g.(criticalSwitch := false)
  }

  ghost function Entered(g: Gate): Gate {
    g.(nest := g.nest + 1)
  }

  /** Leaving a critical section makes up for the switch that it held off. */
  ghost predicate LeavingSwitches(g: Gate) {
    g.nest == 1 && g.criticalSwitch && g.irqNest == 0
  }

  ghost function Left(g: Gate): Gate
    requires g.nest > 0
  {
    var h := g.(nest := g.nest - 1);
    if h.nest > 0 then h
    else if g.criticalSwitch then Requested(h.(criticalSwitch := false))
    else h.(criticalSwitch := false)
  }

  ghost function Interrupted(g: Gate): Gate {
    g.(irqNest := g.irqNest + 1)
  }

  /**
   * `rt_scheduler_do_irq_switch`: what was asked for in the interrupt, unless a critical section holds it off further.
   */
  ghost function IrqServed(g: Gate): Gate {
    if !g.irqSwitch then g
    else if g.nest > 0 then g.(criticalSwitch := true)
    else if g.irqNest == 0 then OPEN
    else g
  }

  ghost predicate IrqServes(g: Gate) {
    g.irqSwitch && Open(g)
  }

  /** The end of an interrupt. */
  ghost function Resumed(g: Gate): Gate
    requires g.irqNest > 0
  {
    IrqServed(g.(irqNest := g.irqNest - 1))
  }

  ghost predicate ResumingSwitches(g: Gate) {
    g.irqNest > 0 && IrqServes(g.(irqNest := g.irqNest - 1))
  }

  // ---- Runs ----

  datatype Event = Request | Reschedule | Enter | Leave | Interrupt | Resume

  ghost predicate Possible(g: Gate, e: Event) {
    (e.Leave? ==> g.nest > 0) && (e.Resume? ==> g.irqNest > 0)
  }

  ghost function After(g: Gate, e: Event): Gate
    requires Possible(g, e)
  {
    match e
    case Request => Requested(g)
    case Reschedule => Rescheduled(g)
    case Enter => Entered(g)
    case Leave => Left(g)
    case Interrupt => Interrupted(g)
    case Resume => Resumed(g)
  }

  /** The event makes the CPU switch. */
  ghost predicate Switches(g: Gate, e: Event) {
    ((e.Request? || e.Reschedule?) && Open(g)) || (e.Leave? && LeavingSwitches(g)) || (e.Resume? && ResumingSwitches(g))
  }

  /** A request that has not been followed by a switch yet. */
  ghost predicate Pending(g: Gate, e: Event, before: bool) {
    !Switches(g, e) && (before || e.Request? || e.Reschedule?)
  }

  ghost predicate Leads(g: Gate, events: seq<Event>, pending: bool, end: Gate, left: bool)
    decreases |events|
  {
    if events == [] then end == g && left == pending
    else Possible(g, events[0]) && Leads(After(g, events[0]), events[1..], Pending(g, events[0], pending), end, left)
  }

  /** The flags say whether a request is pending, and none is while nothing holds a switch off. */
  ghost predicate Right(g: Gate, pending: bool) {
    && (pending <==> g.irqSwitch || g.criticalSwitch)
    && (g.criticalSwitch ==> g.nest > 0) && (g.irqSwitch ==> g.irqNest > 0 || g.criticalSwitch)
  }

  lemma StepRight(g: Gate, e: Event, pending: bool)
    requires Right(g, pending) && Possible(g, e)
    ensures Right(After(g, e), Pending(g, e, pending))
      && (Switches(g, e) ==> After(g, e) == OPEN && (pending || e.Request? || e.Reschedule?))
  {}

  /** Each counter follows its own two events, one at a time, and no switch happens while either is above zero. */
  lemma StepCounts(g: Gate, e: Event)
    requires Possible(g, e)
    ensures After(g, e).nest == g.nest + (if e.Enter? then 1 else 0) - (if e.Leave? then 1 else 0)
    ensures After(g, e).irqNest == g.irqNest + (if e.Interrupt? then 1 else 0) - (if e.Resume? then 1 else 0)
    ensures Switches(g, e) ==> After(g, e).nest == 0 && After(g, e).irqNest == 0
  {}

  /**
   * No request for a switch is lost, whatever held it off: once no lock is held and no interrupt is served, it has been
   * met.
   */
  lemma {:induction false} NoRequestLost(g: Gate, events: seq<Event>, pending: bool, end: Gate, left: bool)
    requires Right(g, pending) && Leads(g, events, pending, end, left)
    ensures Right(end, left) && (Open(end) ==> !left)
    decreases |events|
  {
    if events != [] {
      StepRight(g, events[0], pending);
      NoRequestLost(After(g, events[0]), events[1..], Pending(g, events[0], pending), end, left);
    }
  }
}
