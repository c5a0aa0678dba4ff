/** Runs of a message queue: the halves of any number of calls, interleaved in any way. */
module MessageRuns {
  import opened Common
  import opened Lists
  import opened MessageState
  import opened MessageKernel

  datatype Op =
    | SendBegin(body: seq<int>, urgent: bool)
    | SendEnd(n: nat)
    | SendEndByPriority(n: nat, prio: int)
    | UrgentEnd(n: nat)
    | RecvBegin
    | RecvEnd(n: nat)
    | Reset

  /** A second half follows the first half of the same call, which took the node; first halves find a node. */
  ghost predicate Admitted(s: State, op: Op) {
    match op
    case SendBegin(_, _) => s.spare != []
    case SendEnd(n) => n in s.held && s.held[n] == Sending
    case SendEndByPriority(n, _) => n in s.held && s.held[n] == Sending
    case UrgentEnd(n) => n in s.held && s.held[n] == Urging
    case RecvBegin => s.queued != []
    case RecvEnd(n) => n in s.held && s.held[n] == Receiving
    case Reset => true
  }

  ghost function Step(s: State, op: Op): State
    requires Conserved(s) && Admitted(s, op)
  {
    Places(s);
    match op
    case SendBegin(body, urgent) =>
      Taken(s, if urgent then Urging else Sending, Message(s.messages[s.spare[0]].prio, body))
    case SendEnd(n) => Queued(s, n, |s.queued|)
    case SendEndByPriority(n, prio) => Queued(WithPriority(s, n, prio), n, PlaceFor(WithPriority(s, n, prio), prio))
    case UrgentEnd(n) => Queued(s, n, 0)
    case RecvBegin => Dequeued(s)
    case RecvEnd(n) => Returned(s, n)
    case Reset => Emptied(s)
  }

  /** No step loses or duplicates a node, and none changes a message that waits. */
  lemma StepConserved(s: State, op: Op)
    requires Conserved(s) && Admitted(s, op)
    ensures Conserved(Step(s, op)) && |Step(s, op).messages| == |s.messages|
    ensures forall n :: n in s.queued ==> n < |s.messages| && Step(s, op).messages[n] == s.messages[n]
  {
    Places(s);
    match op
    case SendBegin(body, urgent) =>
      assert s.spare[0] in s.spare;
      TakenConserved(s, if urgent then Urging else Sending, Message(s.messages[s.spare[0]].prio, body));
    case SendEnd(n) => QueuedConserved(s, n, |s.queued|);
    case SendEndByPriority(n, prio) =>
      var p := WithPriority(s, n, prio);
      forall k: nat ensures Times(p, k) == Times(s, k) {}
      QueuedConserved(p, n, PlaceFor(p, prio));
    case UrgentEnd(n) => QueuedConserved(s, n, 0);
    case RecvBegin => DequeuedConserved(s);
    case RecvEnd(n) => ReturnedConserved(s, n);
    case Reset => EmptiedConserved(s);
  }

  ghost predicate Leads(s: State, ops: seq<Op>, end: State)
    requires Conserved(s)
    decreases |ops|
  {
    if ops == [] then end == s
    else Admitted(s, ops[0]) && Conserved(Step(s, ops[0])) && Leads(Step(s, ops[0]), ops[1..], end)
  }

  /** After any interleaving every node is in exactly one place. */
  lemma {:induction false} RunConserved(s: State, ops: seq<Op>, end: State)
    requires Conserved(s) && Leads(s, ops, end)
    ensures Conserved(end) && |end.messages| == |s.messages|
    ensures |end.queued| + |end.spare| + |end.held| == |end.messages|
    decreases |ops|
  {
    if ops == [] {
      Bounded(s);
    } else {
      StepConserved(s, ops[0]);
      RunConserved(Step(s, ops[0]), ops[1..], end);
    }
  }

  // ---- Order of delivery ----

  /** The messages that wait, in order. */
  ghost function Contents(s: State): (m: seq<Message>)
    requires Conserved(s)
    ensures |m| == |s.queued|
    ensures forall i :: 0 <= i < |m| ==> s.queued[i] < |s.messages| && m[i] == s.messages[s.queued[i]]
  {
    Places(s);
    seq(|s.queued|, i requires 0 <= i < |s.queued| => s.messages[s.queued[i]])
  }

  /** The messages that a run links into the queue, and those that it takes out, each in order. */
  ghost function Linked(s: State, ops: seq<Op>): seq<Message>
    requires Conserved(s)
    decreases |ops|
  {
    if ops == [] || !Admitted(s, ops[0]) then []
    else
      Places(s);
      StepConserved(s, ops[0]);
      LinkedOne(s, ops[0]) + Linked(Step(s, ops[0]), ops[1..])
  }

  ghost function LinkedOne(s: State, op: Op): seq<Message>
    requires Conserved(s) && Admitted(s, op)
  {
    Places(s);
    match op
    case SendEnd(n) => [s.messages[n]]
    case SendEndByPriority(n, prio) => [s.messages[n].(prio := prio)]
    case _ => []
  }

  ghost function Received(s: State, ops: seq<Op>): seq<Message>
    requires Conserved(s)
    decreases |ops|
  {
    if ops == [] || !Admitted(s, ops[0]) then []
    else
      StepConserved(s, ops[0]);
      (if ops[0].RecvBegin? then [Contents(s)[0]] else []) + Received(Step(s, ops[0]), ops[1..])
  }

  ghost predicate Plain(ops: seq<Op>) {
    forall i :: 0 <= i < |ops| ==> !ops[i].Reset? && !ops[i].UrgentEnd? && !ops[i].SendEndByPriority?
  }

  lemma StepContents(s: State, op: Op)
    requires Conserved(s) && Admitted(s, op) && Plain([op])
    ensures Conserved(Step(s, op))
    ensures op.SendEnd? ==> op.n < |s.messages| && Contents(Step(s, op)) == Contents(s) + [s.messages[op.n]]
    ensures op.RecvBegin? ==> Contents(s) == [Contents(s)[0]] + Contents(Step(s, op))
    ensures !op.SendEnd? && !op.RecvBegin? ==> Contents(Step(s, op)) == Contents(s)
  {
    StepConserved(s, op);
    Places(s);
    assert [op][0] == op;
    forall i | 0 <= i < |s.queued| ensures s.queued[i] in s.queued {}
    if op.SendEnd? {
      assert InsertAt(s.queued, |s.queued|, op.n) == s.queued + [op.n];
    }
  }

  /** Without urgent sends, priorities and resets, messages come out in the order in which they were linked in. */
  lemma {:induction false} Fifo(s: State, ops: seq<Op>, end: State)
    requires Conserved(s) && Leads(s, ops, end) && Plain(ops)
    ensures Conserved(end) && Contents(s) + Linked(s, ops) == Received(s, ops) + Contents(end)
    decreases |ops|
  {
    hide Conserved, Contents, Step, Admitted;
    if ops != [] {
      var n := Step(s, ops[0]);
      StepContents(s, ops[0]);
      assert Plain(ops[1..]);
      Fifo(n, ops[1..], end);
      FifoStep(Contents(s), Linked(n, ops[1..]), Contents(n), Received(n, ops[1..]), Contents(end),
               LinkedOne(s, ops[0]), if ops[0].RecvBegin? then [Contents(s)[0]] else []);
    }
  }

  /** What one step adds at one end, and what it takes from the other. */
  lemma FifoStep(before: seq<Message>, linked: seq<Message>, after: seq<Message>, received: seq<Message>,
                 end: seq<Message>, more: seq<Message>, taken: seq<Message>)
    requires after + linked == received + end && before + more == taken + after
    ensures before + (more + linked) == (taken + received) + end
  {
    assert before + (more + linked) == (before + more) + linked == taken + (after + linked);
  }

  // ---- Priorities ----

  ghost predicate ByPriority(ops: seq<Op>) {
    forall i :: 0 <= i < |ops| ==> !ops[i].UrgentEnd? && !ops[i].SendEnd?
  }

  /** Sends by priority keep the queue descending, whatever the interleaving. */
  lemma {:induction false} RunDescending(s: State, ops: seq<Op>, end: State)
    requires Conserved(s) && Descending(s) && Leads(s, ops, end) && ByPriority(ops)
    ensures Conserved(end) && Descending(end)
    decreases |ops|
  {
    if ops != [] {
      StepConserved(s, ops[0]);
      StepDescending(s, ops[0]);
      assert ByPriority(ops[1..]);
      RunDescending(Step(s, ops[0]), ops[1..], end);
    }
  }

  lemma StepDescending(s: State, op: Op)
    requires Conserved(s) && Descending(s) && Admitted(s, op) && !op.UrgentEnd? && !op.SendEnd?
    ensures Descending(Step(s, op))
  {
    Places(s);
    StepConserved(s, op);
    if op.SendEndByPriority? {
      var p := WithPriority(s, op.n, op.prio);
      assert forall i :: 0 <= i < |s.queued| ==> s.queued[i] != op.n;
      PlacedDescending(p, op.n);
    } else {
      hide Conserved;
      forall i | 0 <= i < |s.queued| ensures s.queued[i] in s.queued {}
    }
  }

  /**
   * With priority sends alone, what a receiver gets at any moment of a run is at least as urgent as all that wait then.
   */
  lemma MostUrgentFirst(s: State, ops: seq<Op>, mid: State)
    requires Conserved(s) && Descending(s) && Leads(s, ops, mid) && ByPriority(ops)
    ensures Conserved(mid)
    ensures mid.queued != [] ==>
      && Conserved(Step(mid, RecvBegin)) && Received(mid, [RecvBegin]) == [Contents(mid)[0]]
      && Contents(mid) == [Contents(mid)[0]] + Contents(Step(mid, RecvBegin))
      && forall k :: 0 <= k < |mid.queued| ==> Contents(mid)[0].prio >= Contents(mid)[k].prio
  {
    RunDescending(s, ops, mid);
    if mid.queued != [] {
      StepContents(mid, RecvBegin);
      assert Received(Step(mid, RecvBegin), [RecvBegin][1..]) == [];
    }
  }

  ghost function OfPriority(row: seq<Message>, p: int): seq<Message> {
    if row == [] then [] else (if row[0].prio == p then [row[0]] else []) + OfPriority(row[1..], p)
  }

  lemma OfFirst(row: seq<Message>, p: int)
    requires row != []
    ensures OfPriority(row, p) == (if row[0].prio == p then [row[0]] else []) + OfPriority(row[1..], p)
  {}

  lemma {:induction false} OfJoined(a: seq<Message>, b: seq<Message>, p: int)
    ensures OfPriority(a + b, p) == OfPriority(a, p) + OfPriority(b, p)
    decreases |a|
  {
    if a == [] {
      assert a + b == b;
    } else {
      OfJoined(a[1..], b, p);
      OfFirst(a, p);
      OfFirst(a + b, p);
      hide OfPriority;
      assert (a + b)[1..] == a[1..] + b;
    }
  }

  lemma {:induction false} NoneOf(row: seq<Message>, p: int)
    requires forall i :: 0 <= i < |row| ==> row[i].prio != p
    ensures OfPriority(row, p) == []
    decreases |row|
  {
    if row != [] { NoneOf(row[1..], p); }
  }

  /** A message that only lower ones follow is the last of its own priority. */
  lemma PlacedOf(a: seq<Message>, c: seq<Message>, m: Message, p: int)
    requires forall k :: 0 <= k < |c| ==> c[k].prio < m.prio
    ensures OfPriority(a + [m] + c, p) == OfPriority(a + c, p) + OfPriority([m], p)
  {
    hide OfPriority;
    OfJoined(a, c, p);
    OfJoined(a + [m], c, p);
    OfJoined(a, [m], p);
    if p == m.prio { NoneOf(c, p); } else { NoneOf([m], p); }
    Swapped(OfPriority(a, p), OfPriority([m], p), OfPriority(c, p));
  }

  lemma Swapped(x: seq<Message>, y: seq<Message>, z: seq<Message>)
    requires y == [] || z == []
    ensures x + y + z == x + z + y
  {}

  lemma PlacedContents(s: State, n: nat, prio: int)
    requires Conserved(s) && Descending(s) && Admitted(s, SendEndByPriority(n, prio))
    ensures var op := SendEndByPriority(n, prio); n < |s.messages| && Conserved(Step(s, op)) && Descending(Step(s, op))
    ensures var i, m, row := PlaceFor(WithPriority(s, n, prio), prio), s.messages[n].(prio := prio), Contents(s);
      && i <= |row| && (forall k :: i <= k < |row| ==> row[k].prio < prio)
      && Contents(Step(s, SendEndByPriority(n, prio))) == row[..i] + [m] + row[i..]
  {
    hide Conserved, PlaceFor, Descending, InsertAt, Once;
    HeldApart(s, n);
    var p, op := WithPriority(s, n, prio), SendEndByPriority(n, prio);
    StepConserved(s, op);
    StepDescending(s, op);
    StillDescending(s, n, prio);
    PlacedDescending(p, n);
    var i, t := PlaceFor(p, prio), Step(s, op);
    assert t.messages == p.messages && t.queued == InsertAt(s.queued, i, n);
    InsertedContents(s, t, i, n);
  }

  lemma HeldApart(s: State, n: nat)
    requires Conserved(s) && n in s.held
    ensures n < |s.messages| && InRange(s, s.queued) && forall i :: 0 <= i < |s.queued| ==> s.queued[i] != n
  {
    hide Once;
    Places(s);
    forall i | 0 <= i < |s.queued| ensures s.queued[i] != n { assert s.queued[i] in s.queued; }
  }

  lemma StillDescending(s: State, n: nat, prio: int)
    requires Descending(s) && n < |s.messages| && forall i :: 0 <= i < |s.queued| ==> s.queued[i] != n
    ensures Descending(WithPriority(s, n, prio))
  {}

  lemma InsertedContents(s: State, t: State, i: nat, n: nat)
    requires Conserved(s) && Conserved(t) && i <= |s.queued| && n < |s.messages| == |t.messages|
    requires t.queued == InsertAt(s.queued, i, n) && t.messages == s.messages[n := t.messages[n]]
    requires forall k :: 0 <= k < |s.queued| ==> s.queued[k] != n
    ensures Contents(t) == Contents(s)[..i] + [t.messages[n]] + Contents(s)[i..]
  {
    hide Conserved;
  }

  lemma FirstWaits(s: State, op: Op)
    requires Conserved(s) && Admitted(s, op)
    ensures op.RecvBegin? ==> |Contents(s)| > 0
  {}

  lemma PlacedStep(s: State, n: nat, prio: int, p: int)
    requires Conserved(s) && Descending(s) && Admitted(s, SendEndByPriority(n, prio))
    ensures var op := SendEndByPriority(n, prio);
      && Conserved(Step(s, op)) && Descending(Step(s, op))
      && OfPriority(Contents(s), p) + OfPriority(LinkedOne(s, op), p) == OfPriority(Contents(Step(s, op)), p)
  {
    hide Conserved, Step, Contents, Descending, OfPriority, PlaceFor;
    PlacedContents(s, n, prio);
    var row, i := Contents(s), PlaceFor(WithPriority(s, n, prio), prio);
    PlacedOf(row[..i], row[i..], s.messages[n].(prio := prio), p);
    assert row == row[..i] + row[i..];
  }

  lemma StepOfPriority(s: State, op: Op, p: int)
    requires Conserved(s) && Descending(s) && Admitted(s, op) && ByPriority([op]) && !op.Reset?
    ensures Conserved(Step(s, op)) && Descending(Step(s, op))
    ensures OfPriority(Contents(s), p) + OfPriority(LinkedOne(s, op), p)
         == OfPriority(if op.RecvBegin? then [Contents(s)[0]] else [], p) + OfPriority(Contents(Step(s, op)), p)
  {
    hide Conserved, Step, Contents, Descending;
    assert [op][0] == op;
    if op.SendEndByPriority? {
      PlacedStep(s, op.n, op.prio, p);
    } else {
      StepContents(s, op);
      StepDescending(s, op);
      if op.RecvBegin? { OfJoined([Contents(s)[0]], Contents(Step(s, op)), p); }
    }
  }

  /**
   * With priority sends alone, messages of the same priority come out in the order in which they were linked in,
   * whatever else is sent and received in between.
   */
  lemma {:induction false} FifoByPriority(s: State, ops: seq<Op>, end: State, p: int)
    requires Conserved(s) && Descending(s) && Leads(s, ops, end) && ByPriority(ops)
    requires forall i :: 0 <= i < |ops| ==> !ops[i].Reset?
    ensures Conserved(end)
    ensures OfPriority(Contents(s), p) + OfPriority(Linked(s, ops), p)
         == OfPriority(Received(s, ops), p) + OfPriority(Contents(end), p)
    decreases |ops|
  {
    hide Conserved, Contents, Step, Admitted, Descending, LinkedOne;
    if ops != [] {
      var n := Step(s, ops[0]);
      assert ByPriority([ops[0]]) && ByPriority(ops[1..]);
      StepOfPriority(s, ops[0], p);
      FifoByPriority(n, ops[1..], end, p);
      OfJoined(LinkedOne(s, ops[0]), Linked(n, ops[1..]), p);
      FirstWaits(s, ops[0]);
      OfJoined(if ops[0].RecvBegin? then [Contents(s)[0]] else [], Received(n, ops[1..]), p);
      FifoStep(OfPriority(Contents(s), p), OfPriority(Linked(n, ops[1..]), p), OfPriority(Contents(n), p),
               OfPriority(Received(n, ops[1..]), p), OfPriority(Contents(end), p), OfPriority(LinkedOne(s, ops[0]), p),
               OfPriority(if ops[0].RecvBegin? then [Contents(s)[0]] else [], p));
    }
  }

  /**
   * An urgent message keeps whatever priority its node had last: the queue stays descending if and only if that is no
   * less than the priority of the first message.
   */
  lemma UrgentDescending(s: State, n: nat)
    requires Conserved(s) && Descending(s) && n in s.held && s.held[n] == Urging
    ensures n < |s.messages| && (Descending(Step(s, UrgentEnd(n))) <==>
              s.queued == [] || s.messages[n].prio >= s.messages[s.queued[0]].prio)
  {
    Places(s);
    var q := Step(s, UrgentEnd(n)).queued;
    assert q == [n] + s.queued;
    if s.queued != [] {
      assert q[1] == s.queued[0];
      if s.messages[n].prio >= s.messages[s.queued[0]].prio {
        forall i, j | 0 <= i < j < |q| ensures s.messages[q[i]].prio >= s.messages[q[j]].prio {
          assert q[j] == s.queued[j - 1];
          if i > 0 { assert q[i] == s.queued[i - 1]; }
        }
      }
    }
  }

  /** A fresh queue of two nodes. */
  ghost function TwoNodes(): State {
    State([], [1, 0], map[], [Message(0, []), Message(0, [])])
  }

  /** So an urgent send can break the order: behind it a message of a higher priority waits. */
  lemma UrgentBreaks(body: seq<int>)
    ensures var s, ops := TwoNodes(),
      [SendBegin(body, false), SendEndByPriority(1, 5), SendBegin(body, true), UrgentEnd(0)];
      Conserved(s) && Descending(s) && exists end :: Leads(s, ops, end) && Conserved(end) && !Descending(end)
  {
    hide Conserved, Step, Descending, Admitted;
    var ops := [SendBegin(body, false), SendEndByPriority(1, 5), SendBegin(body, true), UrgentEnd(0)];
    var s := TwoNodes();
    FreshTwo();
    var b := State([1], [0], map[], [Message(0, []), Message(5, body)]);
    SendOne(body);
    var end := UrgentTwo(body);
    assert Leads(end, ops[4..], end);
    var c := Step(b, ops[2]);
    assert Leads(c, ops[3..], end) by { assert ops[3..][1..] == ops[4..]; }
    assert Leads(b, ops[2..], end) by { assert ops[2..][1..] == ops[3..]; }
    assert Leads(Step(s, ops[0]), ops[1..], end) by { assert ops[1..][1..] == ops[2..]; }
    assert Leads(s, ops, end);
  }

  lemma FreshTwo()
    ensures Conserved(TwoNodes()) && Descending(TwoNodes())
  {
    var s := TwoNodes();
    forall n: nat ensures Times(s, n) == if n < |s.messages| then 1 else 0 {
      assert multiset([1, 0])[n] == if n == 0 || n == 1 then 1 else 0;
    }
  }

  lemma SendOne(body: seq<int>)
    requires Conserved(TwoNodes())
    ensures var s, begin, send := TwoNodes(), SendBegin(body, false), SendEndByPriority(1, 5);
      && Admitted(s, begin) && Conserved(Step(s, begin)) && Admitted(Step(s, begin), send)
        && Conserved(Step(Step(s, begin), send))
      && Step(Step(s, begin), send) == State([1], [0], map[], [Message(0, []), Message(5, body)])
  {
    hide Conserved;
    StepConserved(TwoNodes(), SendBegin(body, false));
    StepConserved(Step(TwoNodes(), SendBegin(body, false)), SendEndByPriority(1, 5));
  }

  lemma UrgentTwo(body: seq<int>) returns (end: State)
    requires Conserved(State([1], [0], map[], [Message(0, []), Message(5, body)]))
    ensures var b, begin, send := State([1], [0], map[], [Message(0, []), Message(5, body)]), SendBegin(body, true),
      UrgentEnd(0);
      && Admitted(b, begin) && Conserved(Step(b, begin)) && Admitted(Step(b, begin), send)
      && end == Step(Step(b, begin), send) && Conserved(end) && !Descending(end)
  {
    hide Conserved;
    var b := State([1], [0], map[], [Message(0, []), Message(5, body)]);
    StepConserved(b, SendBegin(body, true));
    StepConserved(Step(b, SendBegin(body, true)), UrgentEnd(0));
    end := Step(Step(b, SendBegin(body, true)), UrgentEnd(0));
    assert end.messages == [Message(0, body), Message(5, body)] && end.queued == [0, 1];
    assert end.messages[end.queued[0]].prio < end.messages[end.queued[1]].prio;
  }

  /** The calls do what the steps say. */
  method Execute(q: MessageQueue, op: Op) returns (done: bool)
    requires q.Valid() && Admitted(q.Snap(), op)
    modifies q, q.pool
    ensures q.Valid() && Conserved(old(q.Snap())) && q.Snap() == if done then Step(old(q.Snap()), op) else old(q.Snap())
    ensures done == !(op.SendBegin? && |op.body| > q.msgSize)
  {
    hide Conserved, Chain, Distinct, PlaceFor;
    done := true;
    match op
    case SendBegin(body, urgent) =>
      q.SpareFirst();
      var msg := q.SendBegin(body, urgent);
      done := msg.Some?;
    case SendEnd(n) => var _ := q.SendEnd(n);
    case SendEndByPriority(n, prio) => var _ := q.SendEndByPriority(n, prio);
    case UrgentEnd(n) => var _ := q.UrgentEnd(n);
    case RecvBegin => var _ := q.RecvBegin();
    case RecvEnd(n) => var _ := q.RecvEnd(n, 0);
    case Reset => q.Reset();
  }
}
