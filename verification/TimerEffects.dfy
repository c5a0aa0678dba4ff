/** What the calls on timers come to, timer by timer and row by row, and what a stop means for the turns to come. */
module TimerEffects {
  import opened Common
  import opened Lists
  import opened TimerRows
  import opened TimerState
  import opened TimerExpiry

  /** Only timer `t` may differ, and it is `v` now. */
  ghost predicate OnlyTimer(s: State, n: State, t: nat, v: TimerView) {
    && |n.timers| == |s.timers| && t < |s.timers| && n.timers[t] == v && n.now == s.now
    && forall u: nat :: u < |s.timers| && u != t ==> n.timers[u] == s.timers[u]
  }

  /** `t` is in no row and not on the temporary list. */
  ghost predicate Unlisted(rows: seq<seq<nat>>, firing: seq<nat>, t: nat) {
    t !in firing && forall l: nat :: l < |rows| ==> t !in rows[l]
  }

  /** `t` has been taken out of every row; the others keep their order. */
  ghost predicate RowsWithout(rows: seq<seq<nat>>, t: nat, after: seq<seq<nat>>) {
    |after| == |rows| && forall l: nat :: l < |rows| ==> TakenOut(rows[l], t, after[l])
  }

  lemma UnlinkedIs(s: State, t: nat)
    ensures var n := Unlinked(s, t); RowsWithout(s.rows, t, n.rows) && TakenOut(s.firing, t, n.firing)
    ensures forall late: nat :: Valid(s, late) ==> Unlisted(Unlinked(s, t).rows, Unlinked(s, t).firing, t)
  {
    hide Remove, TakenOut, AllRemoved, RowsRight;
    forall l: nat | l < |s.rows| ensures TakenOut(s.rows[l], t, Remove(s.rows[l], t)) { RemoveTakesOut(s.rows[l], t); }
    RemoveTakesOut(s.firing, t);
    forall late: nat | Valid(s, late) ensures Unlisted(Unlinked(s, t).rows, Unlinked(s, t).firing, t) {
      RemovedRight(Dues(s.timers), s.rows, t);
    }
  }

  /** A timer that is stopped is not active and waits nowhere, and the others wait in the same order. */
  lemma StoppedIs(s: State, t: nat, late: nat)
    requires Valid(s, late) && t < |s.timers|
    ensures !s.timers[t].active ==> StoppedTimer(s, t) == s
    ensures s.timers[t].active ==>
      var n := StoppedTimer(s, t);
      && OnlyTimer(s, n, t, s.timers[t].(active := false)) && n.random == s.random
      && Unlisted(n.rows, n.firing, t) && RowsWithout(s.rows, t, n.rows) && TakenOut(s.firing, t, n.firing)
  {
    hide RowsRight, AllRemoved, Remove, TakenOut, Unlisted, RowsWithout;
    UnlinkedIs(s, t);
  }

  /** With a new time it is stopped as well. */
  lemma RetimedIs(s: State, t: nat, period: nat, late: nat)
    requires Valid(s, late) && Legal(s, SetTime(t, period), late)
    ensures var n := Act(s, SetTime(t, period), late);
      && OnlyTimer(s, n, t, s.timers[t].(active := false, period := period))
      && RowsWithout(s.rows, t, n.rows) && (forall l: nat :: l < |s.rows| ==> t !in n.rows[l])
      && if s.timers[t].active then t !in n.firing && TakenOut(s.firing, t, n.firing) else n.firing == s.firing
  {
    hide RowsRight, AllRemoved;
    StoppedIs(s, t, late);
    if !s.timers[t].active { NotListed(s, t, late); }
  }

  /** A timer that is not active is in no row. */
  lemma NotListed(s: State, t: nat, late: nat)
    requires Valid(s, late) && t < |s.timers| && !s.timers[t].active
    ensures forall l: nat :: l < |s.rows| ==> t !in s.rows[l]
  {
    forall l: nat | l < |s.rows| ensures t !in s.rows[l] { RowSorted(Dues(s.timers), s.rows, l); }
  }

  /**
   * A timer that starts is due one period from now. In the bottom row, and in the lowest rows above it, it stands
   * behind all that are due no later and before all others, which keep their order; the rows further up have lost it.
   */
  lemma StartedIs(s: State, t: nat, late: nat)
    requires Valid(s, late) && t < |s.timers| && !s.timers[t].processing
    ensures var n := StartedTimer(s, t);
      && OnlyTimer(s, n, t, s.timers[t].(due := s.now + s.timers[t].period, active := true))
      && |n.rows| == |s.rows| && n.random == (s.random + 1) % WORD && TakenOut(s.firing, t, n.firing)
      && forall l: nat :: l < |s.rows| ==>
           if l < |s.rows| - 1 - Climb(n.random, |s.rows| - 1) then TakenOut(s.rows[l], t, n.rows[l])
           else PutIn(n.timers, s.rows[l], t, n.rows[l])
  {
    hide RowsRight, AllRemoved, Remove, Placed, Climb, PutIn, TakenOut;
    RestartedLeft(s, t, late);
    RemoveTakesOut(s.firing, t);
    var n := StartedTimer(s, t);
    forall l: nat | l < |s.rows|
      ensures if l < |s.rows| - 1 - Climb(n.random, |s.rows| - 1) then TakenOut(s.rows[l], t, n.rows[l])
              else PutIn(n.timers, s.rows[l], t, n.rows[l])
    {
      RowStarted(s, t, late, l);
    }
  }

  /** The timers and rows between the removal and the insertion. */
  ghost function Restarted(s: State, t: nat): State
    requires t < |s.timers|
  {
    WithTimer(Unlinked(s, t), t, s.timers[t].(due := s.now + s.timers[t].period, active := true))
  }

  lemma RestartedLeft(s: State, t: nat, late: nat)
    requires Valid(s, late) && t < |s.timers|
    ensures var r := Restarted(s, t); RowsRight(Dues(r.timers), r.rows) && |r.rows| == |s.rows|
    ensures forall l: nat :: l < |s.rows| ==> Restarted(s, t).rows[l] == Remove(s.rows[l], t)
  {
    hide RowsRight, Remove;
    UnlinkedValid(s, t, late, s.timers[t].(due := s.now + s.timers[t].period, active := true));
  }

  lemma RowStarted(s: State, t: nat, late: nat, l: nat)
    requires Valid(s, late) && t < |s.timers| && !s.timers[t].processing && l < |s.rows|
    ensures var n := StartedTimer(s, t);
      && |n.rows| == |s.rows|
      && if l < |s.rows| - 1 - Climb(n.random, |s.rows| - 1) then TakenOut(s.rows[l], t, n.rows[l])
         else PutIn(n.timers, s.rows[l], t, n.rows[l])
  {
    hide RowsRight, Remove, Placed, Climb, PutIn, TakenOut, AllRemoved, Sorted;
    var r := Restarted(s, t);
    RestartedLeft(s, t, late);
    RowSorted(Dues(r.timers), r.rows, l);
    RemoveTakesOut(s.rows[l], t);
    PlacedIn(r.timers, s.rows[l], t, r.rows[l]);
  }

  /** `after` is `row` with `t` moved to its place among the others. */
  ghost predicate PutIn(timers: seq<TimerView>, row: seq<nat>, t: nat, after: seq<nat>) {
    t < |timers| && exists w, n: nat ::
      && TakenOut(row, t, w) && n <= |w| && after == w[..n] + [t] + w[n..] && Inside(Dues(timers), w)
      && (forall i :: 0 <= i < n ==> timers[w[i]].due <= timers[t].due)
      && (forall i :: n <= i < |w| ==> timers[w[i]].due > timers[t].due)
  }

  lemma PlacedIn(timers: seq<TimerView>, row: seq<nat>, t: nat, w: seq<nat>)
    requires t < |timers| && TakenOut(row, t, w) && Sorted(Dues(timers), w)
    ensures PutIn(timers, row, t, Placed(Dues(timers), w, t))
  {
    hide TakenOut;
    var due := Dues(timers);
    var n := Split(due, w, due[t]);
    assert Placed(due, w, t) == w[..n] + [t] + w[n..];
    forall i | n <= i < |w| ensures timers[w[i]].due > timers[t].due { assert due[w[n]] <= due[w[i]]; }
    forall i | 0 <= i < n ensures timers[w[i]].due <= timers[t].due { assert due[w[i]] <= due[t]; }
  }

  /** A counter without its `k` lowest pairs of bits. */
  function Shifted(counter: nat, k: nat): nat {
    if k == 0 then counter else Shifted(counter / (MASK + 1), k - 1)
  }

  /** A timer climbs one row for each of the counter's lowest pairs of bits, up to the first that is not zero. */
  lemma {:induction false} ClimbCounts(counter: nat, rows: nat)
    ensures forall k: nat :: k < Climb(counter, rows) ==> Shifted(counter, k) % (MASK + 1) == 0
    ensures Climb(counter, rows) < rows ==> Shifted(counter, Climb(counter, rows)) % (MASK + 1) != 0
  {
    if rows > 0 && counter % (MASK + 1) == 0 {
      ClimbCounts(counter / (MASK + 1), rows - 1);
      forall k: nat | k < Climb(counter, rows) ensures Shifted(counter, k) % (MASK + 1) == 0 {
        if k > 0 { assert Shifted(counter, k) == Shifted(counter / (MASK + 1), k - 1); }
      }
    }
  }

  /** While its callback runs a timer is out of every row, and it is active only if it is periodic. */
  lemma BegunIs(s: State, late: nat)
    requires Expired(s, late)
    ensures var t, n := Bottom(s)[0], Begun(s, late);
      && OnlyTimer(s, n, t, s.timers[t].(active := s.timers[t].periodic, processing := true))
      && n.firing == [t] && RowsWithout(s.rows, t, n.rows) && forall l: nat :: l < |n.rows| ==> t !in n.rows[l]
  {
    hide RowsRight, AllRemoved, Remove, TakenOut;
    UnlinkedIs(s, Bottom(s)[0]);
  }

  /**
   * After the callback the timer is armed again if it is periodic and active: due one period from then, in the rows its
   * counter earns. Else it is as the callback left it, in no new row. No other timer changes.
   */
  lemma EndedIs(s: State, t: nat, late: nat)
    requires Valid(s, late) && Calling(s, t)
    ensures var n, v, again := Ended(s, t, late), s.timers[t], s.timers[t].periodic && s.timers[t].active;
      && n.firing == [] && |n.rows| == |s.rows|
      && OnlyTimer(s, n, t,
           if again then v.(processing := false, due := s.now + v.period) else v.(processing := false))
      && (!again ==> n.rows == s.rows && n.random == s.random)
      && (again ==> n.random == (s.random + 1) % WORD)
      && (again ==>
            forall l: nat :: l < |s.rows| ==>
              if l < |s.rows| - 1 - Climb(n.random, |s.rows| - 1) then TakenOut(s.rows[l], t, n.rows[l])
              else PutIn(n.timers, s.rows[l], t, n.rows[l]))
  {
    hide RowsRight, AllRemoved, PutIn, TakenOut, Climb, Linked;
    var off := WithTimer(s, t, s.timers[t].(processing := false)).(firing := []);
    EndedRows(s, t);
    EndedValid(s, t, late);
    if s.timers[t].periodic && s.timers[t].active {
      StillValid(s, t, late);
      StartedIs(off, t, late);
    }
  }

  lemma StillValid(s: State, t: nat, late: nat)
    requires Valid(s, late) && Calling(s, t)
    ensures Valid(WithTimer(s, t, s.timers[t].(processing := false)).(firing := []), late)
  {
    hide RowsRight;
    EndedRows(s, t);
    SameDues(s, t, s.timers[t].(processing := false));
  }

  /** The clock and the kind of a timer change nothing else. */
  lemma ActOnly(s: State, a: Action, late: nat)
    requires Valid(s, late) && Legal(s, a, late)
    ensures a.Pass? ==> Act(s, a, late) == s.(now := s.now + a.ticks)
    ensures a.SetOneShot? || a.SetPeriodic? ==>
      && OnlyTimer(s, Act(s, a, late), a.t, s.timers[a.t].(periodic := a.SetPeriodic?))
      && Act(s, a, late).rows == s.rows && Act(s, a, late).firing == s.firing
  {
    hide Valid, Armed, Unlinked;
  }

  // ---- A stop is final ----

  ghost predicate Off(s: State, t: nat) {
    t < |s.timers| && !s.timers[t].active
  }

  predicate Stops(a: Action, t: nat) {
    a == Stop(t) || (a.SetTime? && a.t == t)
  }

  predicate NoStart(acts: seq<Action>, t: nat) {
    forall i :: 0 <= i < |acts| ==> acts[i] != Start(t)
  }

  lemma ActOff(s: State, a: Action, t: nat, late: nat)
    requires Valid(s, late) && Legal(s, a, late) && t < |s.timers|
    requires Stops(a, t) || (Off(s, t) && a != Start(t))
    ensures Off(Act(s, a, late), t)
  {
    hide Valid, RowsRight, Armed, AllRemoved;
    match a
    case Start(u) => if !s.timers[u].processing { OthersArmed(s, u, t, late); }
    case _ =>
  }

  lemma OthersArmed(s: State, u: nat, t: nat, late: nat)
    requires Valid(s, late) && u < |s.timers| && t < |s.timers| && t != u
    ensures RowsRight(Dues(s.timers), s.rows) && t < |Armed(s, u).timers| && Armed(s, u).timers[t] == s.timers[t]
  {
    ArmedTimers(s, u, t);
  }

  lemma {:induction false} ActsOff(s: State, acts: seq<Action>, t: nat, late: nat)
    requires Valid(s, late) && LegalActs(s, acts, late) && Off(s, t) && NoStart(acts, t)
    ensures Off(Acts(s, acts, late), t)
    decreases |acts|
  {
    hide Valid, Act, Off;
    if acts != [] {
      InTimers(s, t);
      ActOff(s, acts[0], t, late);
      ActsOff(Act(s, acts[0], late), acts[1..], t, late);
    }
  }

  lemma InTimers(s: State, t: nat)
    requires Off(s, t)
    ensures t < |s.timers|
  {}

  lemma {:induction false} StopInActs(s: State, acts: seq<Action>, i: nat, t: nat, late: nat)
    requires Valid(s, late) && LegalActs(s, acts, late) && t < |s.timers|
    requires i < |acts| && Stops(acts[i], t) && NoStart(acts[i + 1..], t)
    ensures Off(Acts(s, acts, late), t)
    decreases |acts|
  {
    hide Valid, Act, Off;
    var n := Act(s, acts[0], late);
    if i == 0 {
      ActOff(s, acts[0], t, late);
      ActsOff(n, acts[1..], t, late);
    } else {
      ActValid(s, acts[0], late);
      assert acts[1..][i..] == acts[i + 1..];
      StopInActs(n, acts[1..], i - 1, t, late);
    }
  }

  /** The end of a turn starts no timer that is off. */
  lemma EndedOff(s: State, u: nat, t: nat, late: nat)
    requires Valid(s, late) && Calling(s, u) && Off(s, t)
    ensures Off(Ended(s, u, late), t)
  {
    hide RowsRight, Linked, AllRemoved;
    var off := WithTimer(s, u, s.timers[u].(processing := false)).(firing := []);
    EndedRows(s, u);
    if s.firing != [] && s.timers[u].periodic && s.timers[u].active { ArmedTimers(off, u, t); }
  }

  /** A timer that is off does not have its turn, and it stays off unless the callback starts it. */
  lemma FireOff(s: State, acts: seq<Action>, t: nat, late: nat)
    requires LegalFire(s, acts, late) && Off(s, t) && NoStart(acts, t)
    ensures t != Bottom(s)[0] && Off(Fire(s, acts, late), t)
  {
    hide RowsRight, AllRemoved, LegalActs, Acts, Ended;
    assert Bottom(s)[0] in Bottom(s);
    var b := Begun(s, late);
    BegunValid(s, late);
    ActsCalling(b, acts, Bottom(s)[0], late);
    ActsOff(b, acts, t, late);
    EndedOff(Acts(b, acts, late), Bottom(s)[0], t, late);
  }

  lemma FireStops(s: State, acts: seq<Action>, i: nat, t: nat, late: nat)
    requires LegalFire(s, acts, late) && t < |s.timers|
    requires i < |acts| && Stops(acts[i], t) && NoStart(acts[i + 1..], t)
    ensures Off(Fire(s, acts, late), t)
  {
    hide RowsRight, AllRemoved, LegalActs, Acts, Ended;
    var b := Begun(s, late);
    BegunValid(s, late);
    ActsCalling(b, acts, Bottom(s)[0], late);
    StopInActs(b, acts, i, t, late);
    EndedOff(Acts(b, acts, late), Bottom(s)[0], t, late);
  }

  /** A timer that is off when some turn is over has none later, unless it is started again. */
  lemma {:induction false} OffNoTurn(trace: seq<State>, fired: seq<nat>, script: seq<seq<Action>>, late: nat, t: nat,
      k: nat, j: nat)
    requires Chronicle(trace, fired, script, late) && k <= j < |trace| && Off(trace[k], t)
    requires forall i: nat :: k <= i < |fired| ==> NoStart(Nth(script, i), t)
    ensures Off(trace[j], t) && (j < |fired| ==> fired[j] != t)
    decreases j
  {
    hide Valid, Off, Fire, NoStart, Chronicle, LegalFire, Nth;
    ChronicleLength(trace, fired, script, late);
    if k < j {
      OffNoTurn(trace, fired, script, late, t, k, j - 1);
      TurnAt(trace, fired, script, late, j - 1);
      FireOff(trace[j - 1], Nth(script, j - 1), t, late);
    }
    if j < |fired| {
      TurnAt(trace, fired, script, late, j);
      FireOff(trace[j], Nth(script, j), t, late);
    }
  }

  lemma ChronicleLength(trace: seq<State>, fired: seq<nat>, script: seq<seq<Action>>, late: nat)
    requires Chronicle(trace, fired, script, late)
    ensures |trace| == |fired| + 1
  {}

  lemma TurnAt(trace: seq<State>, fired: seq<nat>, script: seq<seq<Action>>, late: nat, k: nat)
    requires Chronicle(trace, fired, script, late) && k < |fired|
    ensures |trace| == |fired| + 1 && LegalFire(trace[k], Nth(script, k), late) && fired[k] == Bottom(trace[k])[0]
    ensures trace[k + 1] == Fire(trace[k], Nth(script, k), late)
  {
    hide LegalFire, Fire;
    assert Turn(trace[k], trace[k + 1], fired[k], Nth(script, k), late);
  }

  /**
   * A stop is final: a timer that some callback stops, or gives a new time, has no turn after that one unless something
   * starts it again.
   */
  lemma StopIsFinal(trace: seq<State>, fired: seq<nat>, script: seq<seq<Action>>, late: nat, t: nat, k: nat, i: nat)
    requires Chronicle(trace, fired, script, late) && k < |fired| && t < |trace[k].timers|
    requires i < |Nth(script, k)| && Stops(Nth(script, k)[i], t) && NoStart(Nth(script, k)[i + 1..], t)
    requires forall j: nat :: k < j < |fired| ==> NoStart(Nth(script, j), t)
    ensures t !in fired[k + 1..] && Off(trace[|fired|], t)
  {
    hide Valid, Off, Fire, NoStart, Stops, Chronicle, LegalFire, Nth;
    TurnAt(trace, fired, script, late, k);
    FireStops(trace[k], Nth(script, k), i, t, late);
    forall j: nat | k < j < |fired| ensures fired[j] != t { OffNoTurn(trace, fired, script, late, t, k + 1, j); }
    OffNoTurn(trace, fired, script, late, t, k + 1, |fired|);
  }
}
