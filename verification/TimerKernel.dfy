/** The hard timers: rows and flags updated in place, the insertion search, and the expiry loop. */
module TimerKernel {
  import opened Common
  import opened Lists
  import opened TimerRows
  import opened TimerState
  import opened TimerExpiry
  import opened TimerEffects

  class Timer {
    var timeoutTick: nat
    var initTick: nat
    var periodic: bool
    var activated: bool
    var processing: bool

    /** The time of `timeoutTick`, not wrapped. */
    ghost var due: nat

    constructor (initTick: nat, periodic: bool)
      ensures View() == TimerView(0, initTick, periodic, false, false) && timeoutTick == due % WORD
    {
      timeoutTick, this.initTick, this.periodic, activated, processing, due := 0, initTick, periodic, false, false, 0;
    }

    ghost function View(): TimerView
      reads this
    {
      TimerView(due, initTick, periodic, activated, processing)
    }
  }

  class TimerList {
    const timers: seq<Timer>
    var rows: seq<seq<nat>>
    var firing: seq<nat>
    var randomNr: nat
    var clock: nat

    /** `rt_system_timer_init`, for timers that `rt_timer_init` made. */
    constructor (timers: seq<Timer>, levels: nat)
      requires levels > 0 && Distinct(timers)
      requires forall t :: 0 <= t < |timers| ==>
        timers[t].timeoutTick == timers[t].due % WORD && !timers[t].activated && !timers[t].processing
      ensures Sound()
      ensures forall late: nat :: late < HALF && ShortPeriods(Snap(), late) ==> Idle(Snap(), late)
      ensures this.timers == timers && rows == seq(levels, _ => []) && firing == [] && randomNr == 0 && clock == 0
    {
      this.timers, rows, firing, randomNr, clock := timers, seq(levels, _ => []), [], 0, 0;
    }

    /** `rt_tick_get`. */
    function TickGet(): nat
      reads this`clock
    {
      clock % WORD
    }

    ghost predicate Sound()
      reads timers
    {
      Distinct(timers) && forall t :: 0 <= t < |timers| ==> timers[t].timeoutTick == timers[t].due % WORD
    }

    ghost function Snap(): (s: State)
      reads this, timers
      ensures |s.timers| == |timers| && forall t :: 0 <= t < |timers| ==> s.timers[t] == timers[t].View()
    {
      State(seq(|timers|, t requires 0 <= t < |timers| reads timers => timers[t].View()), rows, firing, randomNr, clock)
    }

    /** `_timer_remove`. */
    method Unlink(t: nat)
      modifies this`rows, this`firing
      ensures Snap() == Unlinked(old(Snap()), t)
    {
      for l := 0 to |rows|
        invariant |rows| == |old(rows)| && firing == old(firing)
        invariant forall k :: 0 <= k < |rows| ==> rows[k] == if k < l then Remove(old(rows)[k], t) else old(rows)[k]
      {
        rows := rows[l := Remove(rows[l], t)];
      }
      firing := Remove(firing, t);
      assert rows == AllRemoved(old(rows), t);
    }

    /** The search in one row: from a place that is not too far, past every timer that is due no later. */
    method PassEarlier(row: seq<nat>, from: nat, t: nat) returns (pos: nat)
      requires Sound() && t < |timers| && Sorted(Dues(Snap().timers), row)
      requires forall u :: u in row ==> u < |timers| && -HALF < timers[u].due - timers[t].due < HALF
      requires NoLater(Dues(Snap().timers), row, from, timers[t].due)
      ensures pos == Split(Dues(Snap().timers), row, timers[t].due)
    {
      hide Minus, Split, Sorted, Dues, Distinct;
      ghost var due := Dues(Snap().timers);
      SortedInside(due, row);
      pos := from;
      while pos < |row|
        invariant NoLater(due, row, pos, due[t]) && (pos < |row| || pos == |row|)
        decreases |row| - pos
      {
        var other := timers[row[pos]];
        assert row[pos] in row;
        WrapCompare(other.due, timers[t].due);
        if Minus(other.timeoutTick, timers[t].timeoutTick) == 0 {
          pos := pos + 1;
          continue;
        } else if Minus(other.timeoutTick, timers[t].timeoutTick) < HALF {
          break;
        }
        pos := pos + 1;
      }
      SplitIs(due, row, due[t], pos);
    }

    /** The search of `_timer_start`: row by row, each from behind the timer found in the row above. */
    method FindPlaces(t: nat) returns (heads: seq<nat>)
      requires Sound() && t < |timers| && RowsRight(Dues(Snap().timers), rows)
      requires forall u :: u in Last(rows) ==> u < |timers| && -HALF < timers[u].due - timers[t].due < HALF
      ensures PlacesFound(Dues(Snap().timers), rows, heads, timers[t].due)
    {
      hide RowsRight, Sorted, Distinct, Split, NoLater, Dues, PlaceFound;
      ghost var due, x := Dues(Snap().timers), timers[t].due;
      heads := [];
      var pos: nat := 0;
      FromStart(due, rows, x);
      for l := 0 to |rows|
        invariant |heads| == l && (l < |rows| ==> NoLater(due, rows[l], pos, x))
        invariant forall k :: 0 <= k < l ==> PlaceFound(due, rows[k], heads[k], x)
      {
        pos := PlaceIn(l, pos, t);
        heads := heads + [pos];
        if l + 1 < |rows| {
          FoundNoLater(due, rows[l], pos, x);
          pos := Below(due, l, pos, x);
        }
      }
    }

    /** The place in one row, searched from one that is not too far. */
    method PlaceIn(l: nat, from: nat, t: nat) returns (pos: nat)
      requires Sound() && t < |timers| && RowsRight(Dues(Snap().timers), rows) && l < |rows|
      requires forall u :: u in Last(rows) ==> u < |timers| && -HALF < timers[u].due - timers[t].due < HALF
      requires NoLater(Dues(Snap().timers), rows[l], from, timers[t].due)
      ensures PlaceFound(Dues(Snap().timers), rows[l], pos, timers[t].due)
    {
      hide RowsRight, Sorted, Distinct, Split, NoLater, Dues;
      RowSorted(Dues(Snap().timers), rows, l);
      assert forall u :: u in rows[l] ==> u in Last(rows);
      pos := PassEarlier(rows[l], from, t);
    }

    /** The same place in the next row: behind the same timer. */
    method Below(ghost due: seq<nat>, l: nat, pos: nat, ghost x: nat) returns (next: nat)
      requires RowsRight(due, rows) && l + 1 < |rows| && NoLater(due, rows[l], pos, x)
      ensures NoLater(due, rows[l + 1], next, x)
    {
      if pos == 0 {
        return 0;
      }
      AlsoBelow(due, rows, l, pos - 1);
      RowSorted(due, rows, l + 1);
      next := IndexOf(rows[l + 1], rows[l][pos - 1]) + 1;
    }

    /** Inserts behind the places found: at the bottom always, further up while the counter's low bits are zero. */
    method LinkRows(t: nat, heads: seq<nat>)
      requires t < |timers| && RowsRight(Dues(Snap().timers), rows) && rows != []
      requires PlacesFound(Dues(Snap().timers), rows, heads, timers[t].due)
      modifies this`rows, this`randomNr
      ensures Snap() == Linked(old(Snap()), t)
    {
      hide RowsRight, Sorted, Split, Dues, Placed, InsertAt, LowPlaced, Inside, PlacesFound, Climb, LinkedUpTo;
      ghost var due, start := Dues(Snap().timers), Snap();
      FoundPlaces(due, rows, heads, t);
      NoneLinked(due, rows, t);
      RowLinked(due, rows, rows, t, 0, heads);
      randomNr := (randomNr + 1) % WORD;
      var tested: nat := randomNr;
      var n := |rows|;
      rows := rows[n - 1 := InsertAt(rows[n - 1], heads[n - 1], t)];
      var level: nat := 2;
      ghost var height := Climb(randomNr, n - 1);
      while level <= n && tested % (MASK + 1) == 0
        invariant randomNr == (old(randomNr) + 1) % WORD
        invariant 2 <= level <= n + 1 && |rows| == n && level - 2 + Climb(tested, n + 1 - level) == height
        invariant LinkedUpTo(due, old(rows), rows, t, level - 1)
        decreases n - level
      {
        ClimbStep(tested, n + 1 - level);
        RowLinked(due, old(rows), rows, t, level - 1, heads);
        rows := rows[n - level := InsertAt(rows[n - level], heads[n - level], t)];
        tested := tested / (MASK + 1);
        level := level + 1;
      }
      ClimbStep(tested, n + 1 - level);
      LowPlacedIs(due, start.rows, t, 1 + height, rows);
      assert Snap().timers == start.timers;
    }

    /** `_timer_start`. */
    method StartTimer(t: nat, ghost late: nat) returns (ok: bool)
      requires Sound() && Valid(Snap(), late) && t < |timers|
      modifies this`rows, this`firing, this`randomNr, timers[t]
      ensures Sound() && Snap() == StartedTimer(old(Snap()), t) && ok == !old(timers[t].processing)
    {
      hide Valid, StartedTimer, Restarted, Linked, Waiting;
      ghost var s := Snap();
      assert s.timers[t] == timers[t].View();
      if timers[t].processing {
        Refused(s, t, late);
        return false;
      }
      RestartedValid(s, t, late);
      Unlink(t);
      Rewind(t);
      RestartedIs(s, t);
      Insert(t, late);
      ok := true;
    }

    lemma RestartedIs(s: State, t: nat)
      requires t < |s.timers|
      ensures Restarted(s, t)
           == WithTimer(Unlinked(s, t), t, s.timers[t].(due := s.now + s.timers[t].period, active := true))
    {}

    /** The second half of `_timer_start`: search and insertion. */
    method Insert(t: nat, ghost late: nat)
      requires Sound() && t < |timers| && Valid(Snap(), late) && Waiting(Snap(), Snap().timers[t], late)
      modifies this`rows, this`randomNr
      ensures Snap() == Linked(old(Snap()), t)
    {
      hide RowsRight, Linked;
      InWindow(Snap(), t, late);
      var heads := FindPlaces(t);
      LinkRows(t, heads);
    }

    /** A new time for a timer. */
    method Rewind(t: nat)
      requires Sound() && t < |timers|
      modifies timers[t]
      ensures Sound()
      ensures Snap() == WithTimer(old(Snap()), t,
        old(timers[t].View()).(due := clock + timers[t].initTick, active := true))
    {
      SumWraps(clock, timers[t].initTick);
      timers[t].timeoutTick := (TickGet() + timers[t].initTick) % WORD;
      timers[t].due := clock + timers[t].initTick;
      timers[t].activated := true;
    }

    /** `rt_timer_stop`. */
    method StopTimer(t: nat) returns (ok: bool)
      requires Sound() && t < |timers|
      modifies this`rows, this`firing, timers[t]
      ensures Sound() && Snap() == StoppedTimer(old(Snap()), t) && ok == old(timers[t].activated)
      ensures ok ==>
        && timers[t].View() == old(timers[t].View()).(active := false)
        && RowsWithout(old(rows), t, rows) && TakenOut(old(firing), t, firing)
        && forall late: nat :: Valid(old(Snap()), late) ==> Unlisted(rows, firing, t)
      ensures !ok ==> timers[t].View() == old(timers[t].View()) && rows == old(rows) && firing == old(firing)
    {
      UnlinkedIs(Snap(), t);
      if !timers[t].activated {
        return false;
      }
      Unlink(t);
      timers[t].activated := false;
      ok := true;
    }

    /** `rt_timer_control` with a new time: an active timer is stopped first. */
    method SetTime(t: nat, period: nat)
      requires Sound() && t < |timers|
      modifies this`rows, this`firing, timers[t]
      ensures Sound()
      ensures var n := StoppedTimer(old(Snap()), t); Snap() == WithTimer(n, t, n.timers[t].(period := period))
      ensures timers[t].View() == old(timers[t].View()).(active := false, period := period)
      ensures old(timers[t].activated) ==>
        && RowsWithout(old(rows), t, rows) && TakenOut(old(firing), t, firing)
        && forall late: nat :: Valid(old(Snap()), late) ==> Unlisted(rows, firing, t)
      ensures !old(timers[t].activated) ==> rows == old(rows) && firing == old(firing)
    {
      UnlinkedIs(Snap(), t);
      if timers[t].activated {
        Unlink(t);
        timers[t].activated := false;
      }
      timers[t].initTick := period;
    }

    /** `rt_timer_control` with the one-shot or the periodic command. */
    method SetPeriodic(t: nat, periodic: bool)
      requires Sound() && t < |timers|
      modifies timers[t]
      ensures Sound() && Snap() == WithTimer(old(Snap()), t, old(timers[t].View()).(periodic := periodic))
    {
      timers[t].periodic := periodic;
    }

    method Perform(a: Action, ghost late: nat)
      requires Sound() && Valid(Snap(), late) && Legal(Snap(), a, late)
      modifies this, timers
      ensures Sound() && Snap() == Act(old(Snap()), a, late)
    {
      hide Valid, StartedTimer, Bearable;
      match a
      case Start(t) => var _ := StartTimer(t, late);
      case Stop(t) => var _ := StopTimer(t);
      case SetTime(t, period) => SetTime(t, period);
      case SetOneShot(t) => SetPeriodic(t, false);
      case SetPeriodic(t) => SetPeriodic(t, true);
      case Pass(ticks) => clock := clock + ticks;
    }

    /** A callback, and whatever else happens while it runs. */
    method Call(acts: seq<Action>, ghost late: nat)
      requires Sound() && Valid(Snap(), late) && LegalActs(Snap(), acts, late)
      modifies this, timers
      ensures Sound() && Snap() == Acts(old(Snap()), acts, late)
    {
      hide Valid, Legal, Act;
      ghost var end := Acts(Snap(), acts, late);
      for i := 0 to |acts|
        invariant Sound() && Valid(Snap(), late) && LegalActs(Snap(), acts[i..], late)
        invariant Acts(Snap(), acts[i..], late) == end
      {
        assert acts[i..][1..] == acts[i + 1..];
        Perform(acts[i], late);
      }
    }

    /** Takes the first timer out to run its callback. */
    method Begin(ghost late: nat) returns (t: nat)
      requires Sound() && Expired(Snap(), late)
      modifies this`rows, this`firing, timers
      ensures Sound() && t == Bottom(old(Snap()))[0] && Snap() == Begun(old(Snap()), late)
    {
      hide RowsRight, AllRemoved, Valid;
      HeadActive(Snap(), late);
      t := rows[|rows| - 1][0];
      Unlink(t);
      if !timers[t].periodic {
        timers[t].activated := false;
      }
      timers[t].processing := true;
      firing := [t];
    }

    /** After the callback of `t`. */
    method End(t: nat, ghost late: nat)
      requires Sound() && Valid(Snap(), late) && Calling(Snap(), t)
      modifies this, timers
      ensures Sound() && Snap() == Ended(old(Snap()), t, late)
    {
      hide Valid, RowsRight, StartedTimer;
      ghost var s := Snap();
      timers[t].processing := false;
      if firing == [] {
        return;
      }
      firing := Lists.Remove(firing, t);
      assert firing == [];
      assert Snap() == WithTimer(s, t, s.timers[t].(processing := false)).(firing := []);
      if timers[t].periodic && timers[t].activated {
        timers[t].activated := false;
        Rearm(s, t, late, Snap());
        var _ := StartTimer(t, late);
      }
    }

    /** One round of the loop of `rt_timer_check`; the tick is read again after the callback. */
    method FireFirst(acts: seq<Action>, ghost late: nat) returns (t: nat, currentTick: nat)
      requires Sound() && LegalFire(Snap(), acts, late)
      modifies this, timers
      ensures Sound() && Turn(old(Snap()), Snap(), t, acts, late) && currentTick == TickGet()
    {
      hide Valid, LegalActs, Acts, Begun, Ended;
      ghost var s := Snap();
      HeadActive(s, late);
      BegunValid(s, late);
      ActsCalling(Begun(s, late), acts, Bottom(s)[0], late);
      t := Begin(late);
      Call(acts, late);
      currentTick := TickGet();
      EndedValid(Snap(), t, late);
      End(t, late);
    }

    /**
     * `rt_timer_check`: timers take turns, the first one due first and never before its time, until no timer that waits
     * is due at the tick last read.
     */
    method Check(script: seq<seq<Action>>, ghost late: nat) returns (fired: seq<nat>, ghost trace: seq<State>)
      requires Sound() && Idle(Snap(), late) && LegalScript(Snap(), script, late)
      modifies this, timers
      ensures Sound() && Idle(Snap(), late)
      ensures Chronicle(trace, fired, script, late) && trace[0] == old(Snap()) && trace[|fired|] == Snap()
      ensures forall t :: t in Last(rows) ==> t < |timers| && timers[t].due > clock
    {
      hide Idle, Valid, Turn, LegalScript, LegalFire, Expired, Fire, Minus, Chronicle, Distinct;
      var currentTick := TickGet();
      var turns: nat := 0;
      fired, trace := [], [Snap()];
      HasRows(Snap(), late);
      NoTurns(Snap(), script, late);
      while rows[|rows| - 1] != []
        invariant Sound() && Idle(Snap(), late) && rows != [] && currentTick == TickGet() && |fired| == turns
        invariant LegalScript(Snap(), script[if turns < |script| then turns else |script|..], late)
        invariant |trace| == turns + 1 && trace[0] == old(Snap()) && trace[turns] == Snap()
        invariant Chronicle(trace, fired, script, late)
        decreases if turns < |script| then |script| - turns else 0, ExpiredSet(Snap())
      {
        ghost var s := Snap();
        ExpiredTest(s, late);
        var t := rows[|rows| - 1][0];
        if Minus(currentTick, timers[t].timeoutTick) >= HALF {
          break;
        }
        ScriptTurn(s, script, if turns < |script| then turns else |script|, late);
        t, currentTick := FireFirst(Nth(script, turns), late);
        TurnIs(s, Snap(), t, Nth(script, turns), late);
        if turns >= |script| {
          QuietTurn(s, late);
          HeadRests(s, script, |script|, late);
        }
        HasRows(Snap(), late);
        OneMoreTurn(trace, fired, script, late, Snap(), t);
        fired, trace, turns := fired + [t], trace + [Snap()], turns + 1;
      }
      StopsQuiet(Snap(), late);
    }
  }

  lemma SumWraps(a: nat, b: nat)
    ensures (a % WORD + b) % WORD == (a + b) % WORD
  {
    var q, r := a / WORD, a % WORD;
    assert a == q * WORD + r;
    var k, x := (r + b) / WORD, (r + b) % WORD;
    assert a + b == (q + k) * WORD + x;
  }

  ghost predicate ShortPeriods(s: State, late: nat) {
    forall t :: 0 <= t < |s.timers| ==> GoodPeriod(s.timers[t], late)
  }

  ghost predicate NoLater(due: seq<nat>, row: seq<nat>, pos: nat, x: nat) {
    pos <= |row| && forall i :: 0 <= i < pos ==> row[i] < |due| && due[row[i]] <= x
  }

  /** Waiting timers are near enough to each other for their ticks to be compared. */
  lemma InWindow(s: State, t: nat, late: nat)
    requires Valid(s, late) && t < |s.timers| && Waiting(s, s.timers[t], late)
    ensures forall u :: u in Last(s.rows) ==> u < |s.timers| && -HALF < s.timers[u].due - s.timers[t].due < HALF
  {}

  lemma SortedInside(due: seq<nat>, row: seq<nat>)
    requires Sorted(due, row)
    ensures forall i :: 0 <= i < |row| ==> row[i] < |due|
  {}

  lemma FromStart(due: seq<nat>, rows: seq<seq<nat>>, x: nat)
    requires RowsRight(due, rows)
    ensures rows != [] && NoLater(due, rows[0], 0, x)
  {}

  lemma FoundPlaces(due: seq<nat>, rows: seq<seq<nat>>, heads: seq<nat>, t: nat)
    requires t < |due| && PlacesFound(due, rows, heads, due[t])
    ensures |heads| == |rows|
    ensures forall l :: 0 <= l < |rows| ==>
      Inside(due, rows[l]) && heads[l] <= |rows[l]| && InsertAt(rows[l], heads[l], t) == Placed(due, rows[l], t)
  {
    forall l | 0 <= l < |rows|
      ensures Inside(due, rows[l]) && heads[l] <= |rows[l]| && InsertAt(rows[l], heads[l], t) == Placed(due, rows[l], t)
    {
      assert PlaceFound(due, rows[l], heads[l], due[t]);
    }
  }

  /** The lowest `h` rows have the timer, at its place, and the others are as they were. */
  ghost predicate LinkedUpTo(due: seq<nat>, rows: seq<seq<nat>>, r: seq<seq<nat>>, t: nat, h: nat) {
    && t < |due| && h <= |rows| == |r| && (forall l :: 0 <= l < |rows| ==> Inside(due, rows[l]))
    && (forall l :: 0 <= l < |rows| ==> r[l] == if l < |rows| - h then rows[l] else Placed(due, rows[l], t))
  }

  lemma NoneLinked(due: seq<nat>, rows: seq<seq<nat>>, t: nat)
    requires t < |due| && forall l :: 0 <= l < |rows| ==> Inside(due, rows[l])
    ensures LinkedUpTo(due, rows, rows, t, 0)
  {}

  /** One row more. */
  lemma RowLinked(due: seq<nat>, rows: seq<seq<nat>>, r: seq<seq<nat>>, t: nat, h: nat, heads: seq<nat>)
    requires LinkedUpTo(due, rows, r, t, h) && h < |rows| == |heads|
    requires forall l :: 0 <= l < |rows| ==>
      Inside(due, rows[l]) && heads[l] <= |rows[l]| && InsertAt(rows[l], heads[l], t) == Placed(due, rows[l], t)
    ensures var l := |rows| - h - 1;
      && heads[l] <= |r[l]| && r[l] == rows[l]
      && LinkedUpTo(due, rows, r[l := InsertAt(r[l], heads[l], t)], t, h + 1)
  {
    hide Inside, InsertAt, Placed;
  }

  lemma LowPlacedIs(due: seq<nat>, rows: seq<seq<nat>>, t: nat, h: nat, r: seq<seq<nat>>)
    requires RowsRight(due, rows) && LinkedUpTo(due, rows, r, t, h)
    ensures r == LowPlaced(due, rows, t, h)
  {}

  lemma ClimbStep(counter: nat, rows: nat)
    ensures Climb(counter, rows)
         == if rows == 0 || counter % (MASK + 1) != 0 then 0 else 1 + Climb(counter / (MASK + 1), rows - 1)
  {}

  lemma RestartedValid(s: State, t: nat, late: nat)
    requires Valid(s, late) && t < |s.timers| && !s.timers[t].processing
    ensures var n := Restarted(s, t);
      t < |n.timers| && Valid(n, late) && Waiting(n, n.timers[t], late) && Linked(n, t) == StartedTimer(s, t)
  {
    hide RowsRight, Linked, AllRemoved, Remove;
    UnlinkedValid(s, t, late, s.timers[t].(due := s.now + s.timers[t].period, active := true));
  }

  lemma Refused(s: State, t: nat, late: nat)
    requires Valid(s, late) && t < |s.timers| && s.timers[t].processing
    ensures StartedTimer(s, t) == s
  {}

  /** Only active timers wait. */
  lemma HeadActive(s: State, late: nat)
    requires Expired(s, late)
    ensures s.rows != [] && Bottom(s) != [] && s.timers[Bottom(s)[0]].active
  {
    assert Bottom(s)[0] in Bottom(s);
  }

  /** Arming again does not depend on the active flag, which it sets. */
  lemma Rearm(s: State, t: nat, late: nat, off: State)
    requires Valid(s, late) && Calling(s, t)
    requires off == WithTimer(s, t, s.timers[t].(processing := false, active := false)).(firing := [])
    ensures Valid(off, late) && t < |off.timers| && RowsRight(Dues(off.timers), off.rows)
    ensures s.firing != [] && s.timers[t].periodic && s.timers[t].active ==> StartedTimer(off, t) == Ended(s, t, late)
  {
    hide RowsRight, Linked, AllRemoved;
    var n := WithTimer(s, t, s.timers[t].(processing := false)).(firing := []);
    SameDues(s, t, off.timers[t]);
    SameDues(s, t, n.timers[t]);
    EndedRows(s, t);
    var v := s.timers[t].(processing := false, due := s.now + s.timers[t].period, active := true);
    assert off.timers[t := v] == n.timers[t := v];
  }

  lemma HeadRests(s: State, script: seq<seq<Action>>, k: nat, late: nat)
    requires k == |script| && LegalScript(s, script[k..], late) && Expired(s, late)
    ensures !Restless(s.timers[Bottom(s)[0]])
  {
    assert Bottom(s)[0] in ExpiredSet(s);
  }

  lemma TurnIs(s: State, n: State, t: nat, acts: seq<Action>, late: nat)
    requires Turn(s, n, t, acts, late)
    ensures LegalFire(s, acts, late) && n == Fire(s, acts, late)
  {}

  /** The loop stops only when nothing that waits is due. */
  lemma StopsQuiet(s: State, late: nat)
    requires Idle(s, late) && (Bottom(s) != [] ==> Minus(s.now % WORD, s.timers[Bottom(s)[0]].due % WORD) >= HALF)
    ensures forall t :: t in Last(s.rows) ==> t < |s.timers| && s.timers[t].due > s.now
  {
    if Bottom(s) != [] {
      ExpiredTest(s, late);
      NoneExpired(s, late);
    }
  }

  lemma FoundNoLater(due: seq<nat>, row: seq<nat>, pos: nat, x: nat)
    requires PlaceFound(due, row, pos, x)
    ensures NoLater(due, row, pos, x)
  {}

  ghost predicate PlaceFound(due: seq<nat>, row: seq<nat>, head: nat, x: nat) {
    Sorted(due, row) && head == Split(due, row, x)
  }

  ghost predicate PlacesFound(due: seq<nat>, rows: seq<seq<nat>>, heads: seq<nat>, x: nat) {
    |heads| == |rows| && forall l :: 0 <= l < |rows| ==> PlaceFound(due, rows[l], heads[l], x)
  }

  lemma AlsoBelow(due: seq<nat>, rows: seq<seq<nat>>, l: nat, i: nat)
    requires RowsRight(due, rows) && l + 1 < |rows| && i < |rows[l]|
    ensures rows[l][i] in rows[l + 1]
  {
    assert ThinsAt(rows, l);
    FilterMembers(rows[l + 1], Members(rows[l]));
    assert rows[l][i] in rows[l];
  }
}
