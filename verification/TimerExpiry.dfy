/** Expiry: what one timer's turn is, and what a callback can and cannot change about it. */
module TimerExpiry {
  import opened Common
  import opened Lists
  import opened TimerRows
  import opened TimerState

  /** Between callbacks the temporary list is empty. */
  ghost predicate Idle(s: State, late: nat) {
    Valid(s, late) && s.firing == []
  }

  ghost predicate Expired(s: State, late: nat) {
    Idle(s, late) && Bottom(s) != [] && Bottom(s)[0] < |s.timers| && s.timers[Bottom(s)[0]].due <= s.now
  }

  /** The first timer leaves the rows, and its callback is about to run. */
  ghost function Begun(s: State, late: nat): State
    requires Expired(s, late)
  {
    var t := Bottom(s)[0];
    WithTimer(Unlinked(s, t), t, s.timers[t].(active := s.timers[t].periodic, processing := true)).(firing := [t])
  }

  ghost predicate LegalActs(s: State, acts: seq<Action>, late: nat)
    requires Valid(s, late)
    decreases |acts|
  {
    acts != [] ==>
      Legal(s, acts[0], late) && Valid(Act(s, acts[0], late), late) && LegalActs(Act(s, acts[0], late), acts[1..], late)
  }

  ghost function Acts(s: State, acts: seq<Action>, late: nat): (r: State)
    requires Valid(s, late) && LegalActs(s, acts, late)
    ensures Valid(r, late)
    decreases |acts|
  {
    if acts == [] then s else Acts(Act(s, acts[0], late), acts[1..], late)
  }

  /** While the callback of `t` runs. */
  ghost predicate Calling(s: State, t: nat) {
    && t < |s.timers| && s.timers[t].processing && (s.firing == [] || s.firing == [t])
    && (s.timers[t].active ==> s.firing == [t])
  }

  /** After the callback: a periodic timer that is still active is armed again, unless it was taken off the list. */
  ghost function Ended(s: State, t: nat, late: nat): State
    requires Valid(s, late) && Calling(s, t)
  {
    var n := WithTimer(s, t, s.timers[t].(processing := false));
    if s.firing == [] then n
    else
      var off := n.(firing := []);
      EndedRows(s, t);
      if s.timers[t].periodic && s.timers[t].active then Armed(off, t) else off
  }

  lemma EndedRows(s: State, t: nat)
    requires t < |s.timers|
    ensures Dues(s.timers[t := s.timers[t].(processing := false)]) == Dues(s.timers)
  {}

  lemma BegunValid(s: State, late: nat)
    requires Expired(s, late)
    ensures Valid(Begun(s, late), late) && Calling(Begun(s, late), Bottom(s)[0])
      && Bottom(s)[0] !in Bottom(Begun(s, late))
  {
    hide RowsRight, AllRemoved;
    var t := Bottom(s)[0];
    assert t in Bottom(s);
    var v := s.timers[t].(active := s.timers[t].periodic);
    UnlinkedValid(s, t, late, v);
    var off := WithTimer(Unlinked(s, t), t, v);
    SameDues(off, t, v.(processing := true));
    assert Dues(off.timers)[t := v.due] == Dues(off.timers);
    assert off.timers[t := v.(processing := true)] == s.timers[t := v.(processing := true)];
  }

  lemma CallingKept(s: State, a: Action, t: nat, late: nat)
    requires Valid(s, late) && Legal(s, a, late) && Calling(s, t)
    ensures Calling(Act(s, a, late), t) && Valid(Act(s, a, late), late)
  {
    hide Valid;
    ActValid(s, a, late);
    match a
    case Start(u) => StartCalling(s, u, t, late);
    case Stop(u) => StopCalling(s, u, t);
    case SetTime(u, _) => StopCalling(s, u, t);
    case _ =>
  }

  lemma StopCalling(s: State, u: nat, t: nat)
    requires Calling(s, t) && u < |s.timers|
    ensures Calling(StoppedTimer(s, u), t)
  {
    hide AllRemoved;
    if s.firing == [t] { assert s.firing[0] == t; }
  }

  lemma StartCalling(s: State, u: nat, t: nat, late: nat)
    requires Valid(s, late) && Calling(s, t) && u < |s.timers|
    ensures Calling(StartedTimer(s, u), t)
  {
    hide RowsRight, AllRemoved, Linked;
    if !s.timers[u].processing {
      ArmedValid(s, u, late);
      ArmedTimers(s, u, t);
    }
  }

  lemma ArmedTimers(s: State, u: nat, t: nat)
    requires RowsRight(Dues(s.timers), s.rows) && u < |s.timers| && t < |s.timers| && t != u
    ensures t < |Armed(s, u).timers| && Armed(s, u).timers[t] == s.timers[t]
    ensures s.firing == [t] ==> Armed(s, u).firing == [t]
  {
    if s.firing == [t] { assert u !in [t]; }
  }

  lemma {:induction false} ActsCalling(s: State, acts: seq<Action>, t: nat, late: nat)
    requires Valid(s, late) && LegalActs(s, acts, late) && Calling(s, t)
    ensures Calling(Acts(s, acts, late), t)
    decreases |acts|
  {
    if acts != [] {
      CallingKept(s, acts[0], t, late);
      ActsCalling(Act(s, acts[0], late), acts[1..], t, late);
    }
  }

  lemma EndedValid(s: State, t: nat, late: nat)
    requires Valid(s, late) && Calling(s, t)
    ensures Idle(Ended(s, t, late), late) && Ended(s, t, late).now == s.now
    ensures t in Bottom(Ended(s, t, late)) <==> t in Bottom(s) || (s.timers[t].periodic && s.timers[t].active)
    ensures t in Bottom(Ended(s, t, late)) && t !in Bottom(s) ==>
      Ended(s, t, late).timers[t].due == s.now + s.timers[t].period
    ensures forall u :: u != t ==> (u in Bottom(Ended(s, t, late)) <==> u in Bottom(s))
  {
    hide RowsRight, LowPlaced, AllRemoved, Linked;
    var off := WithTimer(s, t, s.timers[t].(processing := false)).(firing := []);
    SameDues(s, t, s.timers[t].(processing := false));
    EndedRows(s, t);
    assert Valid(off, late) by {
      assert t in Bottom(s) ==> Waiting(s, s.timers[t], late);
    }
    if s.firing == [t] && s.timers[t].periodic && s.timers[t].active { ArmedValid(off, t, late); }
  }

  /** One round of the expiry loop; `acts` is what happens while the callback runs. */
  ghost function Fire(s: State, acts: seq<Action>, late: nat): State
    requires Expired(s, late) && Valid(Begun(s, late), late) && LegalActs(Begun(s, late), acts, late)
  {
    BegunValid(s, late);
    ActsCalling(Begun(s, late), acts, Bottom(s)[0], late);
    Ended(Acts(Begun(s, late), acts, late), Bottom(s)[0], late)
  }

  ghost predicate LegalFire(s: State, acts: seq<Action>, late: nat) {
    Expired(s, late) && Valid(Begun(s, late), late) && LegalActs(Begun(s, late), acts, late)
  }

  lemma FireIdle(s: State, acts: seq<Action>, late: nat)
    requires LegalFire(s, acts, late)
    ensures Idle(Fire(s, acts, late), late)
  {
    BegunValid(s, late);
    ActsCalling(Begun(s, late), acts, Bottom(s)[0], late);
    EndedValid(Acts(Begun(s, late), acts, late), Bottom(s)[0], late);
  }

  /** The state in which the callback returns. */
  ghost function Returned(s: State, acts: seq<Action>, late: nat): State
    requires LegalFire(s, acts, late)
  {
    Acts(Begun(s, late), acts, late)
  }

  /**
   * After its turn a timer is armed again, one period from then, if it is still periodic and active, and only then.
   * So it ends active without being in the list if and only if its callback made a running periodic timer one-shot.
   */
  lemma AfterTurn(s: State, acts: seq<Action>, late: nat)
    requires LegalFire(s, acts, late)
    ensures var t := Bottom(s)[0]; var r := Returned(s, acts, late); var n := Fire(s, acts, late);
      && t < |r.timers| && t < |n.timers| && !n.timers[t].processing
      && (t in Bottom(n) <==> r.timers[t].periodic && r.timers[t].active)
      && (t in Bottom(n) ==> n.timers[t].due == r.now + r.timers[t].period && n.timers[t].active)
      && (n.timers[t].active && t !in Bottom(n) <==> r.timers[t].active && !r.timers[t].periodic)
  {
    hide RowsRight, LowPlaced, AllRemoved, Linked, LegalActs, Acts;
    var t := Bottom(s)[0];
    BegunValid(s, late);
    ActsCalling(Begun(s, late), acts, t, late);
    var r := Returned(s, acts, late);
    EndedValid(r, t, late);
    var off := WithTimer(r, t, r.timers[t].(processing := false)).(firing := []);
    SameDues(r, t, r.timers[t].(processing := false));
    EndedRows(r, t);
    if r.timers[t].periodic && r.timers[t].active {
      assert Valid(off, late);
      ArmedValid(off, t, late);
    }
  }

  /** One periodic timer, and its time has come. */
  ghost function OneDue(): State {
    State([TimerView(10, 5, true, true, false)], [[0]], [], 0, 10)
  }

  /** So it happens: a callback that makes its own timer one-shot leaves it active and in no list. */
  lemma ActiveUnlisted()
    ensures LegalFire(OneDue(), [SetOneShot(0)], 0)
    ensures var n := Fire(OneDue(), [SetOneShot(0)], 0);
      && n.rows != [] && |n.timers| == 1 && n.timers[0].active && 0 !in Bottom(n) && n.firing == []
  {
    hide RowsRight, LowPlaced, AllRemoved, Linked, Armed;
    var s := OneDue();
    assert RowsRight(Dues(s.timers), s.rows) by { OneRow(); }
    assert Dues(s.timers)[0] == 10;
    assert s.rows == [[0]] && Bottom(s) == [0];
    assert Valid(s, 0) && Expired(s, 0);
    BegunValid(s, 0);
    var b := Begun(s, 0);
    assert LegalActs(Act(b, SetOneShot(0), 0), [], 0) by { ActValid(b, SetOneShot(0), 0); }
    ActValid(b, SetOneShot(0), 0);
    assert [SetOneShot(0)][1..] == [];
    assert LegalActs(b, [SetOneShot(0)], 0);
    var r := Returned(s, [SetOneShot(0)], 0);
    assert r == Act(b, SetOneShot(0), 0);
    AfterTurn(s, [SetOneShot(0)], 0);
    FireIdle(s, [SetOneShot(0)], 0);
  }

  lemma OneRow()
    ensures RowsRight(Dues(OneDue().timers), [[0]])
  {}

  /** The timers whose time has come. */
  ghost function ExpiredSet(s: State): set<nat>
    requires s.rows != []
  {
    set t | t in Bottom(s) && t < |s.timers| && s.timers[t].due <= s.now
  }

  /** A periodic timer with a period of zero is due again at once. */
  ghost predicate Restless(v: TimerView) {
    v.periodic && v.period == 0
  }

  /**
   * With nothing else going on, a turn takes one expired timer away for good, unless that timer is periodic with a
   * period of zero: then nothing changes about what is due.
   */
  lemma QuietTurn(s: State, late: nat)
    requires LegalFire(s, [], late)
    ensures Fire(s, [], late).rows != [] && Fire(s, [], late).now == s.now && Bottom(s)[0] in ExpiredSet(s)
    ensures ExpiredSet(Fire(s, [], late))
         == ExpiredSet(s) - if Restless(s.timers[Bottom(s)[0]]) then {} else {Bottom(s)[0]}
  {
    hide RowsRight, LowPlaced, AllRemoved, Linked, LegalActs;
    var t, n, b := Bottom(s)[0], Fire(s, [], late), Begun(s, late);
    AfterTurn(s, [], late);
    BegunValid(s, late);
    EndedValid(b, t, late);
    FireIdle(s, [], late);
    MembersAfter(s, t);
    assert t in ExpiredSet(s);
    forall u | u in ExpiredSet(n) && u != t ensures u in ExpiredSet(s) { QuietOthers(s, late, u); }
    forall u | u in ExpiredSet(s) && u != t ensures u in ExpiredSet(n) { QuietOthers(s, late, u); }
    if !Restless(s.timers[t]) { assert t !in ExpiredSet(n); }
  }

  lemma QuietOthers(s: State, late: nat, u: nat)
    requires LegalFire(s, [], late) && u < |s.timers| && u != Bottom(s)[0]
    ensures var n := Fire(s, [], late); u < |n.timers| && n.timers[u] == s.timers[u]
  {}

  /** One turn: `t` was first and its time had come. */
  ghost predicate Turn(s: State, n: State, t: nat, acts: seq<Action>, late: nat) {
    LegalFire(s, acts, late) && t == Bottom(s)[0] && n == Fire(s, acts, late)
  }

  /** What happens during the first callbacks; later ones do nothing. */
  function Nth(script: seq<seq<Action>>, k: nat): seq<Action> {
    if k < |script| then script[k] else []
  }

  /** `trace` is a run of turns, in which the timers in `fired` had theirs. */
  ghost predicate Chronicle(trace: seq<State>, fired: seq<nat>, script: seq<seq<Action>>, late: nat) {
    |trace| == |fired| + 1
    && forall k :: 0 <= k < |fired| ==> Turn(trace[k], trace[k + 1], fired[k], Nth(script, k), late)
  }

  lemma NoTurns(s: State, script: seq<seq<Action>>, late: nat)
    ensures Chronicle([s], [], script, late)
  {}

  lemma OneMoreTurn(trace: seq<State>, fired: seq<nat>, script: seq<seq<Action>>, late: nat, n: State, t: nat)
    requires Chronicle(trace, fired, script, late) && Turn(trace[|fired|], n, t, Nth(script, |fired|), late)
    ensures Chronicle(trace + [n], fired + [t], script, late)
  {
    hide Turn, Nth;
  }

  /** Everything the script does is legal when its turn comes, and it leaves the loop with an end. */
  ghost predicate LegalScript(s: State, script: seq<seq<Action>>, late: nat)
    decreases |script|
  {
    if script == [] then DueRest(s)
    else Expired(s, late) ==>
      LegalFire(s, script[0], late) && LegalScript(Fire(s, script[0], late), script[1..], late)
  }

  lemma QuietHead(s: State, late: nat)
    requires LegalFire(s, [], late)
    ensures var t, n := Bottom(s)[0], Fire(s, [], late);
      && |n.timers| == |s.timers| && n.timers[t].period == s.timers[t].period
        && n.timers[t].periodic == s.timers[t].periodic
  {}

  // ---- Whether the loop ends ----

  /** No timer that is due is periodic with a period of zero. */
  ghost predicate DueRest(s: State) {
    s.rows != [] && forall t :: t in ExpiredSet(s) ==> !Restless(s.timers[t])
  }

  /** With nothing else going on, the loop ends within `n` turns. */
  ghost predicate EndsWithin(s: State, late: nat, n: nat)
    requires Idle(s, late)
    decreases n
  {
    if !Expired(s, late) then true
    else
      BegunValid(s, late);
      FireIdle(s, [], late);
      n > 0 && EndsWithin(Fire(s, [], late), late, n - 1)
  }

  /** No turn changes a period. */
  lemma QuietPeriods(s: State, late: nat, u: nat)
    requires LegalFire(s, [], late) && u < |s.timers|
    ensures var n := Fire(s, [], late); u < |n.timers| && (Restless(n.timers[u]) <==> Restless(s.timers[u]))
  {
    if u == Bottom(s)[0] { QuietHead(s, late); } else { QuietOthers(s, late, u); }
  }

  lemma QuietRest(s: State, late: nat)
    requires LegalFire(s, [], late)
    ensures DueRest(Fire(s, [], late)) <==> DueRest(s)
  {
    hide Fire, Restless, RowsRight;
    QuietTurn(s, late);
    var n := Fire(s, [], late);
    forall u | u in ExpiredSet(s) ensures u < |n.timers| && (Restless(n.timers[u]) <==> Restless(s.timers[u])) {
      QuietPeriods(s, late, u);
    }
    if Restless(s.timers[Bottom(s)[0]]) { assert ExpiredSet(n) == ExpiredSet(s); }
  }

  lemma SomeExpired(s: State, late: nat)
    requires Idle(s, late)
    ensures Expired(s, late) <==> ExpiredSet(s) != {}
  {
    if Expired(s, late) {
      assert Bottom(s)[0] in ExpiredSet(s);
    } else {
      NoneExpired(s, late);
    }
  }

  lemma {:induction false} RestEnds(s: State, late: nat)
    requires Idle(s, late) && DueRest(s)
    ensures EndsWithin(s, late, |ExpiredSet(s)|)
    decreases ExpiredSet(s)
  {
    hide Idle, Fire, Restless, LegalFire;
    SomeExpired(s, late);
    if Expired(s, late) {
      Quiet(s, late);
      var n := Fire(s, [], late);
      QuietTurn(s, late);
      QuietRest(s, late);
      RestEnds(n, late);
      EndsLater(n, late, |ExpiredSet(n)|, |ExpiredSet(s)| - 1);
    }
  }

  lemma Quiet(s: State, late: nat)
    requires Expired(s, late)
    ensures LegalFire(s, [], late) && Idle(Fire(s, [], late), late)
  {
    BegunValid(s, late);
    FireIdle(s, [], late);
  }

  lemma {:induction false} EndsLater(s: State, late: nat, n: nat, m: nat)
    requires Idle(s, late) && EndsWithin(s, late, n) && n <= m
    ensures EndsWithin(s, late, m)
    decreases n
  {
    hide Idle, Fire, LegalFire;
    if Expired(s, late) {
      Quiet(s, late);
      EndsLater(Fire(s, [], late), late, n - 1, m - 1);
    }
  }

  lemma {:induction false} RestlessGoesOn(s: State, late: nat, n: nat)
    requires Idle(s, late) && !DueRest(s)
    ensures !EndsWithin(s, late, n)
    decreases n
  {
    hide Idle, Fire, LegalFire, Restless;
    HasRows(s, late);
    SomeExpired(s, late);
    Quiet(s, late);
    QuietRest(s, late);
    if n > 0 { RestlessGoesOn(Fire(s, [], late), late, n - 1); }
  }

  lemma HasRows(s: State, late: nat)
    requires Idle(s, late)
    ensures s.rows != []
  {}

  /** With nothing else going on, the loop ends exactly when no timer that is due is periodic with a period of zero. */
  lemma LoopEnds(s: State, late: nat)
    requires Idle(s, late)
    ensures (exists n :: EndsWithin(s, late, n)) <==> DueRest(s)
  {
    hide Idle, EndsWithin, DueRest;
    if DueRest(s) {
      RestEnds(s, late);
    } else {
      forall n: nat ensures !EndsWithin(s, late, n) { RestlessGoesOn(s, late, n); }
    }
  }

  lemma ScriptTurn(s: State, script: seq<seq<Action>>, k: nat, late: nat)
    requires Expired(s, late) && k <= |script| && LegalScript(s, script[k..], late)
    ensures LegalFire(s, Nth(script, k), late) && Idle(Fire(s, Nth(script, k), late), late)
    ensures LegalScript(Fire(s, Nth(script, k), late), script[if k < |script| then k + 1 else k..], late)
  {
    BegunValid(s, late);
    if k < |script| { assert script[k..][1..] == script[k + 1..]; } else { QuietRest(s, late); }
    FireIdle(s, Nth(script, k), late);
  }

  /** The test of the expiry loop, on wrapped ticks, says whether the time of the first timer has come. */
  lemma ExpiredTest(s: State, late: nat)
    requires Idle(s, late) && Bottom(s) != []
    ensures Bottom(s)[0] < |s.timers|
    ensures Minus(s.now % WORD, s.timers[Bottom(s)[0]].due % WORD) < HALF <==> Expired(s, late)
  {
    hide RowsRight;
    assert Bottom(s)[0] in Bottom(s);
    WrapCompare(s.now, s.timers[Bottom(s)[0]].due);
  }

  /** When the first timer is not due, none is. */
  lemma NoneExpired(s: State, late: nat)
    requires Idle(s, late) && !Expired(s, late)
    ensures forall t :: t in Bottom(s) ==> t < |s.timers| && s.timers[t].due > s.now
  {
    forall t | t in Bottom(s) ensures t < |s.timers| && s.timers[t].due > s.now {
      var i :| 0 <= i < |Bottom(s)| && Bottom(s)[i] == t;
      assert Bottom(s)[0] in Bottom(s);
      assert Dues(s.timers)[Bottom(s)[0]] <= Dues(s.timers)[Bottom(s)[i]];
    }
  }

  /** A timer never has its turn before its time, nor before another one that waits and is due earlier. */
  lemma FirstDueFirst(s: State, n: State, t: nat, acts: seq<Action>, late: nat, u: nat)
    requires Turn(s, n, t, acts, late) && u in Bottom(s)
    ensures t < |s.timers| && u < |s.timers| && s.timers[t].due <= s.now && s.timers[t].due <= s.timers[u].due
  {
    assert t in Bottom(s);
    var i :| 0 <= i < |Bottom(s)| && Bottom(s)[i] == u;
    assert Dues(s.timers)[Bottom(s)[0]] <= Dues(s.timers)[Bottom(s)[i]];
  }
}
