/** Message queues: where every message node is, and what each half of a call does with it. */
module MessageState {
  import opened Lists

  /** `body` holds the bytes of the message, so its length is the message's length. */
  datatype Message = Message(prio: int, body: seq<int>)

  /** What the call is about to do with the node it holds between its two locked halves. */
  datatype Role = Sending | Urging | Receiving

  /** `queued` and `spare` are in link order; `messages[n]` is what node `n` holds. */
  datatype State = State(queued: seq<nat>, spare: seq<nat>, held: map<nat, Role>, messages: seq<Message>)

  ghost function Times(s: State, n: nat): nat {
    multiset(s.queued)[n] + multiset(s.spare)[n] + if n in s.held then 1 else 0
  }

  /** Every node is in exactly one place: on the queue, on the free list, or with one sender or receiver. */
  ghost predicate Conserved(s: State) {
    forall n: nat :: Times(s, n) == if n < |s.messages| then 1 else 0
  }

  ghost predicate InRange(s: State, row: seq<nat>) {
    forall i :: 0 <= i < |row| ==> row[i] < |s.messages|
  }

  lemma Places(s: State)
    requires Conserved(s)
    ensures InRange(s, s.queued) && InRange(s, s.spare) && Distinct(s.queued) && Distinct(s.spare)
    ensures forall n: nat :: n in s.queued ==> n !in s.spare && n !in s.held
    ensures forall n: nat :: n in s.spare ==> n !in s.held
    ensures forall n: nat :: n in s.held ==> n < |s.messages|
  {
    forall n: nat | Times(s, n) == 1 ensures Once(s.queued, n) && Once(s.spare, n) {
      if !Once(s.queued, n) { NotOnce(s.queued, n); }
      if !Once(s.spare, n) { NotOnce(s.spare, n); }
    }
    forall i | 0 <= i < |s.queued| ensures s.queued[i] < |s.messages| { assert Times(s, s.queued[i]) > 0; }
    forall i | 0 <= i < |s.spare| ensures s.spare[i] < |s.messages| { assert Times(s, s.spare[i]) > 0; }
    forall i, j | 0 <= i < j < |s.queued| ensures s.queued[i] != s.queued[j] {
      assert Times(s, s.queued[i]) == 1;
      assert Once(s.queued, s.queued[i]);
    }
    forall i, j | 0 <= i < j < |s.spare| ensures s.spare[i] != s.spare[j] {
      assert Times(s, s.spare[i]) == 1;
      assert Once(s.spare, s.spare[i]);
    }
    forall n: nat ensures (n in s.queued ==> n !in s.spare && n !in s.held)
      && (n in s.spare || n in s.held ==> n < |s.messages|)
    {
      assert Times(s, n) <= 1;
    }
    forall n: nat | n in s.spare ensures n !in s.held { assert Times(s, n) <= 1; }
  }

  ghost predicate Once(row: seq<nat>, n: nat) {
    forall i, j :: 0 <= i < j < |row| && row[i] == n ==> row[j] != n
  }

  lemma NotOnce(row: seq<nat>, n: nat)
    requires !Once(row, n)
    ensures multiset(row)[n] >= 2
  {
    var i, j :| 0 <= i < j < |row| && row[i] == n && row[j] == n;
    assert row == row[..i] + [n] + row[i + 1..j] + [n] + row[j + 1..];
  }

  /** There are never more messages queued than nodes. */
  lemma Bounded(s: State)
    requires Conserved(s)
    ensures |s.queued| + |s.spare| + |s.held| == |s.messages|
  {
    var all: seq<nat> := Ids(|s.messages|);
    var everywhere: multiset<nat> := multiset(s.queued) + multiset(s.spare) + multiset(s.held.Keys);
    AllOnce(|s.messages|);
    forall n: nat ensures everywhere[n] == multiset(all)[n] {
      assert multiset(s.held.Keys)[n] == if n in s.held.Keys then 1 else 0;
      assert Times(s, n) == everywhere[n];
    }
    assert everywhere == multiset(all);
    assert |everywhere| == |s.queued| + |s.spare| + |s.held.Keys|;
  }

  ghost function Ids(k: nat): (r: seq<nat>)
    ensures |r| == k
  {
    if k == 0 then [] else Ids(k - 1) + [k - 1]
  }

  lemma AllOnce(k: nat)
    ensures forall n: nat :: multiset(Ids(k))[n] == if n < k then 1 else 0
  {}

  // ---- The halves of the calls ----

  /** The first half of a send: the first free node is taken and filled. */
  ghost function Taken(s: State, role: Role, m: Message): State
    requires s.spare != [] && s.spare[0] < |s.messages|
  {
    s.(spare := s.spare[1..], held := s.held[s.spare[0] := role], messages := s.messages[s.spare[0] := m])
  }

  /** The second half of a send puts the node into the queue at place `i`. */
  ghost function Queued(s: State, n: nat, i: nat): State
    requires i <= |s.queued|
  {
    s.(queued := InsertAt(s.queued, i, n), held := s.held - {n})
  }

  ghost function WithPriority(s: State, n: nat, prio: int): State
    requires n < |s.messages|
  {
    s.(messages := s.messages[n := s.messages[n].(prio := prio)])
  }

  /** The first half of a receive. */
  ghost function Dequeued(s: State): State
    requires s.queued != []
  {
    s.(queued := s.queued[1..], held := s.held[s.queued[0] := Receiving])
  }

  /** The second half of a receive: the node goes back to the front of the free list. */
  ghost function Returned(s: State, n: nat): State {
    s.(spare := [n] + s.spare, held := s.held - {n})
  }

  ghost function Reversed(row: seq<nat>): (r: seq<nat>)
    ensures |r| == |row|
  {
    if row == [] then [] else Reversed(row[1..]) + [row[0]]
  }

  /** A reset: the whole queue goes to the free list, one node after the other. */
  ghost function Emptied(s: State): State {
    s.(queued := [], spare := Reversed(s.queued) + s.spare)
  }

  lemma First(row: seq<nat>)
    requires row != []
    ensures forall n: nat :: multiset(row)[n] == multiset(row[1..])[n] + if n == row[0] then 1 else 0
  {
    assert row == [row[0]] + row[1..];
  }

  lemma TakenConserved(s: State, role: Role, m: Message)
    requires Conserved(s) && s.spare != []
    ensures s.spare[0] < |s.messages| && Conserved(Taken(s, role, m))
  {
    Places(s);
    First(s.spare);
    var t := Taken(s, role, m);
    forall n: nat ensures Times(t, n) == Times(s, n) { assert s.spare[0] in s.spare; }
  }

  lemma QueuedConserved(s: State, n: nat, i: nat)
    requires Conserved(s) && n in s.held && i <= |s.queued|
    ensures Conserved(Queued(s, n, i))
  {
    InsertMultiset(s.queued, i, n);
    forall k: nat ensures Times(Queued(s, n, i), k) == Times(s, k) {}
  }

  lemma DequeuedConserved(s: State)
    requires Conserved(s) && s.queued != []
    ensures Conserved(Dequeued(s))
  {
    Places(s);
    First(s.queued);
    forall n: nat ensures Times(Dequeued(s), n) == Times(s, n) { assert s.queued[0] in s.queued; }
  }

  lemma ReturnedConserved(s: State, n: nat)
    requires Conserved(s) && n in s.held
    ensures Conserved(Returned(s, n))
  {
    forall k: nat ensures Times(Returned(s, n), k) == Times(s, k) {}
  }

  lemma ReversedMultiset(row: seq<nat>)
    ensures multiset(Reversed(row)) == multiset(row)
  {
    if row != [] {
      ReversedMultiset(row[1..]);
      assert row == [row[0]] + row[1..];
    }
  }

  lemma EmptiedConserved(s: State)
    requires Conserved(s)
    ensures Conserved(Emptied(s))
  {
    ReversedMultiset(s.queued);
    forall n: nat ensures Times(Emptied(s), n) == Times(s, n) {}
  }

  /** One node at a time. */
  lemma MovedConserved(s: State)
    requires Conserved(s) && s.queued != []
    ensures var n := s.(queued := s.queued[1..], spare := [s.queued[0]] + s.spare);
      Conserved(n) && Emptied(n) == Emptied(s)
  {
    First(s.queued);
    var n := s.(queued := s.queued[1..], spare := [s.queued[0]] + s.spare);
    forall k: nat ensures Times(n, k) == Times(s, k) {}
  }

  lemma EmptiedNothing(s: State)
    ensures s.queued == [] ==> Emptied(s) == s
  {
    assert [] + s.spare == s.spare;
  }

  // ---- Priorities ----

  ghost predicate Descending(s: State) {
    InRange(s, s.queued)
    && forall i, j :: 0 <= i < j < |s.queued| ==> s.messages[s.queued[i]].prio >= s.messages[s.queued[j]].prio
  }

  /** The place before the first message of lower priority. */
  ghost function PlaceFor(s: State, prio: int, from: nat := 0): (i: nat)
    requires InRange(s, s.queued) && from <= |s.queued|
    ensures from <= i <= |s.queued|
    ensures forall k :: from <= k < i ==> s.messages[s.queued[k]].prio >= prio
    ensures i < |s.queued| ==> s.messages[s.queued[i]].prio < prio
    decreases |s.queued| - from
  {
    if from == |s.queued| || s.messages[s.queued[from]].prio < prio then from else PlaceFor(s, prio, from + 1)
  }

  lemma PlaceForIs(s: State, prio: int, i: nat)
    requires InRange(s, s.queued) && i <= |s.queued|
    requires forall k :: 0 <= k < i ==> s.messages[s.queued[k]].prio >= prio
    requires i < |s.queued| ==> s.messages[s.queued[i]].prio < prio
    ensures PlaceFor(s, prio) == i
  {}

  /** A message sent by priority keeps the queue descending, and goes behind all those of its own priority. */
  lemma PlacedDescending(s: State, n: nat)
    requires Descending(s) && n < |s.messages|
    ensures var i := PlaceFor(s, s.messages[n].prio);
      && Descending(Queued(s, n, i)) && Queued(s, n, i).queued[i] == n
      && (forall k :: 0 <= k < |s.queued| ==> (k < i <==> s.messages[s.queued[k]].prio >= s.messages[n].prio))
  {
    hide PlaceFor;
    var i := PlaceFor(s, s.messages[n].prio);
    var q := Queued(s, n, i).queued;
    forall k | 0 <= k < |q| ensures q[k] == if k < i then s.queued[k] else if k == i then n else s.queued[k - 1] {}
    hide InsertAt;
    forall k, l | 0 <= k < l < |q| ensures s.messages[q[k]].prio >= s.messages[q[l]].prio {
      if k < i {
        if l > i { assert s.messages[s.queued[k]].prio >= s.messages[s.queued[l - 1]].prio; }
      } else {
        assert s.messages[s.queued[i]].prio < s.messages[n].prio;
        if l - 1 > i { assert s.messages[s.queued[i]].prio >= s.messages[s.queued[l - 1]].prio; }
      }
    }
    forall k | i <= k < |s.queued| ensures s.messages[s.queued[k]].prio < s.messages[n].prio {
      if k > i { assert s.messages[s.queued[i]].prio >= s.messages[s.queued[k]].prio; }
    }
  }
}
