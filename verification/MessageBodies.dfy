/** The bytes of messages over whole runs: what a sender gave is what a receiver gets. */
module MessageBodies {
  import opened Common
  import opened Lists
  import opened MessageState
  import opened MessageRuns

  /** What the first half of a send was given, by the node that it took. */
  type Gifts = map<nat, seq<int>>

  /** The call that ends what a first half began with node `n`. */
  predicate Ends(op: Op, n: nat) {
    (op.SendEnd? || op.SendEndByPriority? || op.UrgentEnd? || op.RecvEnd?) && op.n == n
  }

  /** The node that the first half of a send takes holds the bytes it was given, and is with that sender. */
  lemma Given(s: State, body: seq<int>, urgent: bool)
    requires Conserved(s) && s.spare != []
    ensures var n := Step(s, SendBegin(body, urgent));
      && s.spare[0] < |n.messages| && n.messages[s.spare[0]].body == body
      && n.held == s.held[s.spare[0] := if urgent then Urging else Sending]
      && n.queued == s.queued && n.spare == s.spare[1..]
  {
    Places(s);
    assert s.spare[0] in s.spare;
  }

  /** No other half touches a node that some call holds. */
  lemma HeldKept(s: State, op: Op, n: nat)
    requires Conserved(s) && Admitted(s, op) && n in s.held && !Ends(op, n)
    ensures var t := Step(s, op);
      && n in t.held && t.held[n] == s.held[n] && n < |s.messages| == |t.messages| && t.messages[n] == s.messages[n]
  {
    Places(s);
    StepConserved(s, op);
    if op.SendBegin? { assert s.spare[0] in s.spare; }
    if op.RecvBegin? { assert s.queued[0] in s.queued; }
  }

  /** A node stays as it is from the first half of a call to the second. */
  lemma {:induction false} HeldThroughout(s: State, ops: seq<Op>, end: State, n: nat)
    requires Conserved(s) && Leads(s, ops, end) && n in s.held
    requires forall i :: 0 <= i < |ops| ==> !Ends(ops[i], n)
    ensures n in end.held && end.held[n] == s.held[n]
    ensures n < |s.messages| && n < |end.messages| && end.messages[n] == s.messages[n]
    decreases |ops|
  {
    hide Conserved, Step, Admitted;
    if ops == [] {
      Places(s);
    } else {
      HeldKept(s, ops[0], n);
      HeldThroughout(Step(s, ops[0]), ops[1..], end, n);
    }
  }

  /**
   * A receive delivers what waited first when it began: the bytes of that message, whatever happens before its second
   * half.
   */
  lemma Delivered(s: State, ops: seq<Op>, end: State)
    requires Conserved(s) && s.queued != [] && Conserved(Step(s, RecvBegin)) && Leads(Step(s, RecvBegin), ops, end)
    requires forall i :: 0 <= i < |ops| ==> !Ends(ops[i], s.queued[0])
    ensures Admitted(end, RecvEnd(s.queued[0]))
    ensures s.queued[0] < |end.messages| && |Contents(s)| > 0 && end.messages[s.queued[0]] == Contents(s)[0]
  {
    HeldThroughout(Step(s, RecvBegin), ops, end, s.queued[0]);
  }

  // ---- Gifts ----

  /** Every node that a sender holds holds what the sender gave. */
  ghost predicate Kept(s: State, g: Gifts) {
    forall n :: n in s.held && s.held[n] != Receiving ==> n in g && n < |s.messages| && s.messages[n].body == g[n]
  }

  ghost function Gave(s: State, g: Gifts, op: Op): Gifts {
    if op.SendBegin? && s.spare != [] then g[s.spare[0] := op.body] else g
  }

  lemma StepKept(s: State, g: Gifts, op: Op)
    requires Conserved(s) && Admitted(s, op) && Kept(s, g)
    ensures Kept(Step(s, op), Gave(s, g, op))
  {
    hide Conserved, Step;
    var t, more := Step(s, op), Gave(s, g, op);
    forall n | n in t.held && t.held[n] != Receiving
      ensures n in more && n < |t.messages| && t.messages[n].body == more[n]
    {
      HeldBefore(s, op, n);
      if op.SendBegin? { Given(s, op.body, op.urgent); }
      if n in s.held {
        HeldKept(s, op, n);
        NotSpare(s, n);
      }
    }
  }

  lemma NotSpare(s: State, n: nat)
    requires Conserved(s) && n in s.held
    ensures s.spare != [] ==> n != s.spare[0]
  {
    Places(s);
    if s.spare != [] { assert s.spare[0] in s.spare; }
  }

  /** A sender holds a node after a step if it did before, or if this is the first half of its send. */
  lemma HeldBefore(s: State, op: Op, n: nat)
    requires Conserved(s) && Admitted(s, op) && n in Step(s, op).held && Step(s, op).held[n] != Receiving
    ensures (n in s.held && !Ends(op, n)) || (op.SendBegin? && s.spare != [] && n == s.spare[0])
  {
    Places(s);
  }

  /** What was given to the sends that a run links in, in the order in which it does; each with its priority. */
  ghost function GivenOnes(s: State, g: Gifts, ops: seq<Op>): seq<Message>
    requires Conserved(s) && Kept(s, g)
    decreases |ops|
  {
    if ops == [] || !Admitted(s, ops[0]) then []
    else
      StepConserved(s, ops[0]);
      StepKept(s, g, ops[0]);
      GivenOne(s, g, ops[0]) + GivenOnes(Step(s, ops[0]), Gave(s, g, ops[0]), ops[1..])
  }

  ghost function GivenOne(s: State, g: Gifts, op: Op): seq<Message>
    requires Conserved(s) && Admitted(s, op) && Kept(s, g)
  {
    Places(s);
    match op
    case SendEnd(n) => [Message(s.messages[n].prio, g[n])]
    case SendEndByPriority(n, prio) => [Message(prio, g[n])]
    case _ => []
  }

  lemma {:induction false} LinkedAreGiven(s: State, g: Gifts, ops: seq<Op>)
    requires Conserved(s) && Kept(s, g)
    ensures Linked(s, ops) == GivenOnes(s, g, ops)
    decreases |ops|
  {
    if ops != [] && Admitted(s, ops[0]) {
      StepConserved(s, ops[0]);
      StepKept(s, g, ops[0]);
      OneIsGiven(s, g, ops[0]);
      hide *;
      LinkedAreGiven(Step(s, ops[0]), Gave(s, g, ops[0]), ops[1..]);
    }
  }

  lemma OneIsGiven(s: State, g: Gifts, op: Op)
    requires Conserved(s) && Admitted(s, op) && Kept(s, g)
    ensures LinkedOne(s, op) == GivenOne(s, g, op)
  {
    Places(s);
  }

  ghost function Bodies(row: seq<Message>): (r: seq<seq<int>>)
    ensures |r| == |row| && forall i :: 0 <= i < |row| ==> r[i] == row[i].body
  {
    seq(|row|, i requires 0 <= i < |row| => row[i].body)
  }

  /**
   * First in, first out, in bytes: what waited at the start, and then what the senders gave, comes out in that order,
   * up to what still waits.
   */
  lemma GivenInOrder(s: State, g: Gifts, ops: seq<Op>, end: State)
    requires Conserved(s) && Kept(s, g) && Leads(s, ops, end) && Plain(ops)
    ensures Conserved(end)
    ensures Bodies(Contents(s)) + Bodies(GivenOnes(s, g, ops)) == Bodies(Received(s, ops)) + Bodies(Contents(end))
  {
    hide *;
    Fifo(s, ops, end);
    LinkedAreGiven(s, g, ops);
    BodiesJoined(Contents(s), Linked(s, ops));
    BodiesJoined(Received(s, ops), Contents(end));
  }

  lemma BodiesJoined(a: seq<Message>, b: seq<Message>)
    ensures Bodies(a + b) == Bodies(a) + Bodies(b)
  {}

  /** The same with priority sends, for the messages of each priority, with the bytes and priorities that were given. */
  lemma GivenByPriority(s: State, g: Gifts, ops: seq<Op>, end: State, p: int)
    requires Conserved(s) && Kept(s, g) && Descending(s) && Leads(s, ops, end) && ByPriority(ops)
    requires forall i :: 0 <= i < |ops| ==> !ops[i].Reset?
    ensures Conserved(end)
    ensures OfPriority(Contents(s), p) + OfPriority(GivenOnes(s, g, ops), p)
         == OfPriority(Received(s, ops), p) + OfPriority(Contents(end), p)
  {
    hide *;
    FifoByPriority(s, ops, end, p);
    LinkedAreGiven(s, g, ops);
  }
}
