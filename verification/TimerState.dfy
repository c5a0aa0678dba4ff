/** Timers and their skip list: what starting, stopping and firing make of them. */
module TimerState {
  import opened Common
  import opened Lists
  import opened TimerRows

  /** `due` is the unwrapped time of the timer's `timeout_tick`. */
  datatype TimerView = TimerView(due: nat, period: nat, periodic: bool, active: bool, processing: bool)

  /** `firing` is the temporary list that holds the timer whose callback runs; `now` is the unwrapped clock. */
  datatype State = State(timers: seq<TimerView>, rows: seq<seq<nat>>, firing: seq<nat>, random: nat, now: nat)

  ghost function Dues(timers: seq<TimerView>): (d: seq<nat>)
    ensures |d| == |timers| && forall t :: 0 <= t < |d| ==> d[t] == timers[t].due
  {
    seq(|timers|, t requires 0 <= t < |timers| => timers[t].due)
  }

  ghost function Bottom(s: State): seq<nat>
    requires s.rows != []
  {
    Last(s.rows)
  }

  ghost function Last(rows: seq<seq<nat>>): seq<nat>
    requires rows != []
  {
    rows[|rows| - 1]
  }

  /**
   * The rows are right, they hold active timers only, and every waiting timer lies in one window: at most `late`
   * overdue, and due less than half the tick range minus `late` from now.
   */
  ghost predicate Valid(s: State, late: nat) {
    && late < HALF && s.rows != [] && RowsRight(Dues(s.timers), s.rows)
    && (forall t :: t in Bottom(s) ==> t < |s.timers| && Waiting(s, s.timers[t], late) && t !in s.firing)
    && (forall t: nat :: t < |s.timers| ==> GoodPeriod(s.timers[t], late))
    && (forall i :: 0 <= i < |s.firing| ==> s.firing[i] < |s.timers| && s.timers[s.firing[i]].processing)
    && |s.firing| <= 1
  }

  ghost predicate Waiting(s: State, v: TimerView, late: nat) {
    v.active && !v.processing && s.now <= v.due + late && v.due + late < s.now + HALF
  }

  ghost predicate GoodPeriod(v: TimerView, late: nat) {
    v.period + late < HALF
  }

  // ---- Operations ----

  ghost function WithTimer(s: State, t: nat, v: TimerView): State
    requires t < |s.timers|
  {
    s.(timers := s.timers[t := v])
  }

  /** `_timer_remove`: out of every row, and out of the temporary list. */
  ghost function Unlinked(s: State, t: nat): State {
    s.(rows := AllRemoved(s.rows, t), firing := Remove(s.firing, t))
  }

  const MASK := 3

  /**
   * Further rows above the bottom one that a counter value earns: one for each of its lowest pairs of bits that is
   * zero.
   */
  function Climb(counter: nat, rows: nat): (h: nat)
    ensures h <= rows
  {
    if rows == 0 || counter % (MASK + 1) != 0 then 0 else 1 + Climb(counter / (MASK + 1), rows - 1)
  }

  /** The timer in the bottom row and in as many rows above as the insertion counter says. */
  ghost function Linked(s: State, t: nat): State
    requires RowsRight(Dues(s.timers), s.rows) && t < |s.timers|
  {
    var random := (s.random + 1) % WORD;
    s.(rows := LowPlaced(Dues(s.timers), s.rows, t, 1 + Climb(random, |s.rows| - 1)), random := random)
  }

  /** `_timer_start` without the check of the processing flag. */
  ghost function Armed(s: State, t: nat): State
    requires RowsRight(Dues(s.timers), s.rows) && t < |s.timers|
  {
    var v := s.timers[t].(due := s.now + s.timers[t].period, active := true);
    UnlinkedRows(s, t, v.due);
    SameDues(Unlinked(s, t), t, v);
    Linked(WithTimer(Unlinked(s, t), t, v), t)
  }

  lemma UnlinkedRows(s: State, t: nat, due: nat)
    requires RowsRight(Dues(s.timers), s.rows) && t < |s.timers|
    ensures RowsRight(Dues(s.timers)[t := due], AllRemoved(s.rows, t))
  {
    RemovedRight(Dues(s.timers), s.rows, t);
    DueElsewhere(Dues(s.timers), AllRemoved(s.rows, t), t, due);
  }

  /** `rt_timer_start`: refused while the timer's own callback runs. */
  ghost function StartedTimer(s: State, t: nat): State
    requires RowsRight(Dues(s.timers), s.rows) && t < |s.timers|
  {
    if s.timers[t].processing then s else Armed(s, t)
  }

  /** `rt_timer_stop`. */
  ghost function StoppedTimer(s: State, t: nat): State
    requires t < |s.timers|
  {
    if !s.timers[t].active then s else WithTimer(Unlinked(s, t), t, s.timers[t].(active := false))
  }

  /** What a callback, or anyone else while it runs, does: the clock goes on, and calls are made on timers. */
  datatype Action =
    | Start(t: nat)
    | Stop(t: nat)
    | SetTime(t: nat, period: nat)
    | SetOneShot(t: nat)
    | SetPeriodic(t: nat)
    | Pass(ticks: nat)

  ghost predicate Bearable(s: State, ticks: nat, late: nat) {
    s.rows != [] && forall t :: t in Bottom(s) ==> t < |s.timers| && s.now + ticks <= s.timers[t].due + late
  }

  /** Calls keep periods short, and no waiting timer gets more than `late` overdue. */
  ghost predicate Legal(s: State, a: Action, late: nat) {
    match a
    case Start(t) => t < |s.timers|
    case Stop(t) => t < |s.timers|
    case SetTime(t, period) => t < |s.timers| && GoodPeriod(s.timers[t].(period := period), late)
    case SetOneShot(t) => t < |s.timers|
    case SetPeriodic(t) => t < |s.timers|
    case Pass(ticks) => Bearable(s, ticks, late)
  }

  ghost function Act(s: State, a: Action, late: nat): State
    requires Valid(s, late) && Legal(s, a, late)
  {
    match a
    case Start(t) => StartedTimer(s, t)
    case Stop(t) => StoppedTimer(s, t)
    case SetTime(t, period) =>
      var n := StoppedTimer(s, t);
      WithTimer(n, t, n.timers[t].(period := period))
    case SetOneShot(t) => WithTimer(s, t, s.timers[t].(periodic := false))
    case SetPeriodic(t) => WithTimer(s, t, s.timers[t].(periodic := true))
    case Pass(ticks) => s.(now := s.now + ticks)
  }

  lemma MembersAfter(s: State, t: nat)
    requires RowsRight(Dues(s.timers), s.rows)
    ensures forall u :: u in Bottom(Unlinked(s, t)) <==> u in Bottom(s) && u != t
    ensures forall u :: u in Remove(s.firing, t) ==> u in s.firing
  {
    RemovedSorted(Dues(s.timers), Bottom(s), t);
    RemoveSubset(s.firing, t);
  }

  lemma SameDues(s: State, t: nat, v: TimerView)
    requires t < |s.timers|
    ensures Dues(s.timers[t := v]) == Dues(s.timers)[t := v.due]
  {}

  /** Unlinking a timer, and then writing it, keeps everything. */
  lemma UnlinkedValid(s: State, t: nat, late: nat, v: TimerView)
    requires Valid(s, late) && t < |s.timers| && GoodPeriod(v, late) && v.processing == s.timers[t].processing
    ensures Valid(WithTimer(Unlinked(s, t), t, v), late)
    ensures t !in Bottom(WithTimer(Unlinked(s, t), t, v))
  {
    var n := WithTimer(Unlinked(s, t), t, v);
    UnlinkedRows(s, t, v.due);
    SameDues(Unlinked(s, t), t, v);
    MembersAfter(s, t);
    forall i | 0 <= i < |n.firing| ensures n.firing[i] < |n.timers| && n.timers[n.firing[i]].processing {
      assert n.firing[i] in s.firing;
    }
  }

  lemma ArmedValid(s: State, t: nat, late: nat)
    requires Valid(s, late) && t < |s.timers| && !s.timers[t].processing
    ensures Valid(Armed(s, t), late) && |Armed(s, t).timers| == |s.timers|
    ensures Armed(s, t).now == s.now && Armed(s, t).firing == Remove(s.firing, t)
    ensures Armed(s, t).timers[t] == s.timers[t].(due := s.now + s.timers[t].period, active := true)
    ensures forall u :: u in Bottom(Armed(s, t)) <==> u in Bottom(s) || u == t
  {
    hide RowsRight, Linked, AllRemoved, Remove;
    var v := s.timers[t].(due := s.now + s.timers[t].period, active := true);
    UnlinkedValid(s, t, late, v);
    MembersAfter(s, t);
    LinkedValid(WithTimer(Unlinked(s, t), t, v), t, late);
  }

  lemma LinkedValid(s: State, t: nat, late: nat)
    requires Valid(s, late) && t < |s.timers| && Waiting(s, s.timers[t], late) && t !in Bottom(s)
    ensures Valid(Linked(s, t), late) && Linked(s, t).timers == s.timers
    ensures Linked(s, t).now == s.now && Linked(s, t).firing == s.firing
    ensures forall u :: u in Bottom(Linked(s, t)) <==> u in Bottom(s) || u == t
  {
    hide RowsRight, LowPlaced, Climb, Placed;
    LinkedRows(Dues(s.timers), s.rows, t, 1 + Climb((s.random + 1) % WORD, |s.rows| - 1));
    forall i | 0 <= i < |s.firing| ensures s.firing[i] != t { assert s.timers[s.firing[i]].processing; }
  }

  lemma LinkedRows(due: seq<nat>, rows: seq<seq<nat>>, t: nat, h: nat)
    requires RowsRight(due, rows) && t < |due| && 0 < h <= |rows| && t !in rows[|rows| - 1]
    ensures RowsRight(due, LowPlaced(due, rows, t, h))
    ensures forall u :: u in Last(LowPlaced(due, rows, t, h)) <==> u in Last(rows) || u == t
  {
    hide Placed, Sorted, Distinct, ThinsAt;
    PlacedRight(due, rows, t, h);
    PlacedSorted(due, rows[|rows| - 1], t);
  }

  lemma ActValid(s: State, a: Action, late: nat)
    requires Valid(s, late) && Legal(s, a, late)
    ensures Valid(Act(s, a, late), late) && |Act(s, a, late).timers| == |s.timers|
  {
    hide RowsRight, Armed, Waiting, AllRemoved;
    match a
    case Start(t) => if !s.timers[t].processing { ArmedValid(s, t, late); }
    case Stop(t) => if s.timers[t].active { UnlinkedValid(s, t, late, s.timers[t].(active := false)); }
    case SetTime(t, period) =>
      if s.timers[t].active {
        UnlinkedValid(s, t, late, s.timers[t].(active := false, period := period));
        var n := StoppedTimer(s, t);
        assert n.timers[t := n.timers[t].(period := period)]
            == s.timers[t := s.timers[t].(active := false, period := period)];
      } else {
        Rewritten(s, t, late, s.timers[t].(period := period));
      }
    case SetOneShot(t) => Rewritten(s, t, late, s.timers[t].(periodic := false));
    case SetPeriodic(t) => Rewritten(s, t, late, s.timers[t].(periodic := true));
    case Pass(ticks) => Passed(s, ticks, late);
  }

  lemma Passed(s: State, ticks: nat, late: nat)
    requires Valid(s, late) && Bearable(s, ticks, late)
    ensures Valid(s.(now := s.now + ticks), late)
  {}

  lemma Rewritten(s: State, t: nat, late: nat, v: TimerView)
    requires Valid(s, late) && t < |s.timers| && GoodPeriod(v, late)
    requires v.due == s.timers[t].due && v.active == s.timers[t].active && v.processing == s.timers[t].processing
    ensures Valid(WithTimer(s, t, v), late)
  {
    SameDues(s, t, v);
    assert Dues(s.timers)[t := v.due] == Dues(s.timers);
  }
}
