/** The message queue: nodes in a pool, linked by their numbers into a queue and a free list. */
module MessageKernel {
  import opened Common
  import opened Lists
  import opened MessageState

  datatype Node = Node(next: Option<nat>, prio: int, body: seq<int>)

  /** The links from `from` on run through the nodes of `row` and then end. */
  ghost predicate Chain(nodes: seq<Node>, from: Option<nat>, row: seq<nat>) {
    && from == (if row == [] then None else Some(row[0]))
    && (forall i :: 0 <= i < |row| ==> row[i] < |nodes| && nodes[row[i]].next == Following(row, i))
  }

  ghost function Following(row: seq<nat>, i: nat): Option<nat>
    requires i < |row|
  {
    if i + 1 < |row| then Some(row[i + 1]) else None
  }

  lemma ChainElsewhere(nodes: seq<Node>, from: Option<nat>, row: seq<nat>, n: nat, node: Node)
    requires Chain(nodes, from, row) && n < |nodes| && n !in row
    ensures Chain(nodes[n := node], from, row)
  {
    forall i | 0 <= i < |row| ensures row[i] != n { assert row[i] in row; }
  }

  /** Writing a node without touching its link. */
  lemma ChainRewritten(nodes: seq<Node>, from: Option<nat>, row: seq<nat>, n: nat, node: Node)
    requires Chain(nodes, from, row) && n < |nodes| && node.next == nodes[n].next
    ensures Chain(nodes[n := node], from, row)
  {}

  lemma ChainRest(nodes: seq<Node>, from: Option<nat>, row: seq<nat>)
    requires Chain(nodes, from, row) && row != []
    ensures from == Some(row[0]) && row[0] < |nodes| && Chain(nodes, nodes[row[0]].next, row[1..])
  {
    forall i | 0 <= i < |row[1..]| ensures nodes[row[1..][i]].next == Following(row[1..], i) {
      assert row[1..][i] == row[i + 1];
    }
  }

  lemma ChainStarts(nodes: seq<Node>, from: Option<nat>, row: seq<nat>)
    requires Chain(nodes, from, row)
    ensures from == if row == [] then None else Some(row[0])
  {}

  lemma ChainAt(nodes: seq<Node>, from: Option<nat>, row: seq<nat>, i: nat)
    requires Chain(nodes, from, row) && i < |row|
    ensures row[i] < |nodes| && nodes[row[i]].next == Following(row, i)
  {}

  lemma InsertedAt(row: seq<nat>, i: nat, n: nat, k: nat)
    requires i <= |row| && k <= |row|
    ensures |InsertAt(row, i, n)| == |row| + 1
    ensures InsertAt(row, i, n)[k] == if k < i then row[k] else if k == i then n else row[k - 1]
  {}

  /** Linking a node in at the front. */
  lemma ChainFront(nodes: seq<Node>, from: Option<nat>, row: seq<nat>, n: nat)
    requires Chain(nodes, from, row) && n < |nodes| && nodes[n].next == from
    ensures Chain(nodes, Some(n), [n] + row) && InsertAt(row, 0, n) == [n] + row
  {
    var more := [n] + row;
    forall k | 0 <= k < |more| ensures more[k] < |nodes| && nodes[more[k]].next == Following(more, k) {
      if k > 0 { assert more[k] == row[k - 1]; }
    }
  }

  lemma InsertedLast(row: seq<nat>, i: nat, n: nat)
    requires i <= |row|
    ensures InsertAt(row, i, n)[|row|] == if i == |row| then n else row[|row| - 1]
  {}

  /** Linking a node in behind another one. */
  lemma ChainAfter(nodes: seq<Node>, from: Option<nat>, row: seq<nat>, n: nat, i: nat)
    requires Chain(nodes, from, row) && Distinct(row) && n < |nodes| && n !in row && 0 < i <= |row|
    requires nodes[n].next == if i < |row| then Some(row[i]) else None
    ensures row[i - 1] < |nodes|
    ensures Chain(nodes[row[i - 1] := nodes[row[i - 1]].(next := Some(n))], from, InsertAt(row, i, n))
  {
    hide InsertAt, Distinct, Chain, Following;
    var more := InsertAt(row, i, n);
    InsertedAt(row, i, n, 0);
    ChainAt(nodes, from, row, i - 1);
    ChainStarts(nodes, from, row);
    var now := nodes[row[i - 1] := nodes[row[i - 1]].(next := Some(n))];
    forall k | 0 <= k < |more| ensures more[k] < |now| && now[more[k]].next == Following(more, k) {
      AfterAt(nodes, from, row, n, i, k, now, more);
    }
    ChainIs(now, from, more);
  }

  lemma AfterAt(nodes: seq<Node>, from: Option<nat>, row: seq<nat>, n: nat, i: nat, k: nat, now: seq<Node>,
      more: seq<nat>)
    requires Chain(nodes, from, row) && Distinct(row) && n < |nodes| && n !in row && 0 < i <= |row| && k <= |row|
    requires nodes[n].next == if i < |row| then Some(row[i]) else None
    requires row[i - 1] < |nodes| && now == nodes[row[i - 1] := nodes[row[i - 1]].(next := Some(n))]
    requires more == InsertAt(row, i, n)
    ensures k < |more| && more[k] < |now| && now[more[k]].next == Following(more, k)
  {
    hide InsertAt, Distinct, Chain;
    InsertedAt(row, i, n, k);
    if k < |row| { InsertedAt(row, i, n, k + 1); }
    assert row[i - 1] in row;
    if k < i {
      ChainAt(nodes, from, row, k);
      if k + 1 < i { Apart(row, k, i - 1); }
    } else if k > i {
      ChainAt(nodes, from, row, k - 1);
      Apart(row, i - 1, k - 1);
    }
  }

  lemma ChainIs(nodes: seq<Node>, from: Option<nat>, row: seq<nat>)
    requires row != [] && from == Some(row[0])
    requires forall i :: 0 <= i < |row| ==> row[i] < |nodes| && nodes[row[i]].next == Following(row, i)
    ensures Chain(nodes, from, row)
  {}

  lemma Apart(row: seq<nat>, i: nat, j: nat)
    requires Distinct(row) && i < j < |row|
    ensures row[i] != row[j]
  {}

  /** RT_MQ_ENTRY_MAX, and the largest number of messages: both are 16 bits wide. */
  const ENTRY_MAX := 0xFFFF

  ghost function Down(k: nat): (r: seq<nat>)
    ensures |r| == k && Distinct(r) && forall i :: 0 <= i < k ==> r[i] < k
  {
    if k == 0 then [] else [k - 1] + Down(k - 1)
  }

  lemma DownOnce(k: nat, n: nat)
    ensures multiset(Down(k))[n] == if n < k then 1 else 0
  {}

  lemma NoChain(nodes: seq<Node>)
    ensures Chain(nodes, None, []) && Down(0) == []
  {}

  lemma DownMore(k: nat)
    ensures Down(k + 1) == [k] + Down(k) && k !in Down(k)
  {}

  lemma AllSpare(s: State)
    requires s.queued == [] && s.held == map[] && s.spare == Down(|s.messages|)
    ensures Conserved(s)
  {
    forall n: nat ensures Times(s, n) == if n < |s.messages| then 1 else 0 { DownOnce(|s.messages|, n); }
  }

  class MessageQueue {
    const msgSize: nat
    const pool: array<Node>
    var entry: nat
    var head: Option<nat>
    var tail: Option<nat>
    var free: Option<nat>

    ghost var queued: seq<nat>
    ghost var spare: seq<nat>
    ghost var held: map<nat, Role>

    ghost function Snap(): (s: State)
      reads this, pool
      ensures |s.messages| == pool.Length
    {
      State(queued, spare, held, seq(pool.Length,
        n requires 0 <= n < pool.Length reads pool => Message(pool[n].prio, pool[n].body)))
    }

    ghost predicate Valid()
      reads this, pool
    {
      entry == |queued| && Wired()
    }

    /** Everything but the message counter is right. */
    ghost predicate Wired()
      reads this, pool
    {
      && pool.Length <= ENTRY_MAX
      && Chain(pool[..], head, queued) && Chain(pool[..], free, spare)
      && tail == (if queued == [] then None else Some(queued[|queued| - 1]))
      && Conserved(Snap())
      && (forall n :: n in held && held[n] == Sending ==> n < pool.Length && pool[n].next == None)
    }

    /** `rt_mq_init`: all nodes go onto the free list. */
    constructor (msgSize: nat, maxMsgs: nat)
      requires 0 < maxMsgs <= ENTRY_MAX
      ensures Valid() && fresh(pool) && pool.Length == maxMsgs && this.msgSize == msgSize
      ensures queued == [] && held == map[] && |spare| == maxMsgs
    {
      this.msgSize := msgSize;
      pool := new Node[maxMsgs](_ => Node(None, 0, []));
      entry, head, tail, free := 0, None, None, None;
      queued, spare, held := [], [], map[];
      new;
      LinkAll();
    }

    method LinkAll()
      requires pool.Length <= ENTRY_MAX && entry == 0 && head == tail == free == None
      requires queued == [] && spare == [] && held == map[]
      modifies this`free, this`spare, pool
      ensures Valid() && |spare| == pool.Length
    {
      hide Chain, Conserved, Down;
      NoChain(pool[..]);
      for n := 0 to pool.Length
        invariant Chain(pool[..], free, spare) && spare == Down(n)
      {
        DownMore(n);
        var node := pool[n].(next := free);
        ChainElsewhere(pool[..], free, spare, n, node);
        ChainFront(pool[..][n := node], free, spare, n);
        pool[n] := node;
        free := Some(n);
        spare := [n] + spare;
      }
      NoChain(pool[..]);
      AllSpare(Snap());
    }

    /** The first free node is nowhere else. */
    lemma SpareFirst()
      requires Valid() && spare != []
      ensures spare[0] < pool.Length && spare[0] !in queued && spare[0] !in spare[1..] && spare[0] !in held
    {
      Places(Snap());
      assert spare[0] in spare;
    }

    /**
     * The first half of a send: a free node is taken and filled. A send ends the node's link, while an urgent send
     * leaves it as it was on the free list.
     */
    method SendBegin(body: seq<int>, urgent: bool) returns (msg: Option<nat>)
      requires Valid()
      modifies this, pool
      ensures Valid()
      ensures |body| > msgSize || old(spare) == [] ==> msg == None && Snap() == old(Snap())
      ensures !(|body| > msgSize || old(spare) == []) ==>
        && msg == Some(old(spare)[0]) && old(spare)[0] < pool.Length
        && Snap() == Taken(old(Snap()), if urgent then Urging else Sending, Message(old(pool[spare[0]].prio), body))
        && pool[msg.value].body == body && held == old(held)[msg.value := if urgent then Urging else Sending]
        && spare == old(spare)[1..] && queued == old(queued)
        && forall n: nat :: n < pool.Length && n != msg.value ==> pool[n] == old(pool[n])
    {
      hide Chain, Conserved;
      ChainStarts(pool[..], free, spare);
      if |body| > msgSize || free == None {
        return None;
      }
      SpareFirst();
      ChainRest(pool[..], free, spare);
      msg := free;
      ghost var s, m := Snap(), Message(pool[spare[0]].prio, body);
      TakenConserved(s, if urgent then Urging else Sending, m);
      var node := Node(if urgent then pool[msg.value].next else None, pool[msg.value].prio, body);
      ChainElsewhere(pool[..], head, queued, msg.value, node);
      ChainElsewhere(pool[..], pool[msg.value].next, spare[1..], msg.value, node);
      free := pool[msg.value].next;
      pool[msg.value] := node;
      held := held[msg.value := if urgent then Urging else Sending];
      spare := spare[1..];
      assert Snap() == Taken(s, if urgent then Urging else Sending, m);
    }

    /** A node that a call holds is in no list. */
    lemma HeldApart(msg: nat)
      requires Valid() && msg in held
      ensures msg < pool.Length && msg !in queued && msg !in spare && Distinct(queued)
      ensures forall i :: 0 <= i < |queued| ==> queued[i] < pool.Length && queued[i] !in spare && queued[i] !in held
      ensures |queued| < pool.Length
    {
      Places(Snap());
      Bounded(Snap());
      assert |held| > 0;
    }

    /** The second half of a send without priorities: behind the last message. */
    method SendEnd(msg: nat) returns (ok: bool)
      requires Valid() && msg in held && held[msg] == Sending
      modifies this, pool
      ensures Valid() && ok && Snap() == Queued(old(Snap()), msg, |old(queued)|)
      ensures queued == old(queued) + [msg]
    {
      hide Chain, Conserved, Distinct;
      ghost var s := Snap();
      HeldApart(msg);
      QueuedConserved(s, msg, |queued|);
      ChainStarts(pool[..], head, queued);
      if tail.Some? {
        LinkAfter(msg, |queued|);
        pool[tail.value] := pool[tail.value].(next := Some(msg));
      } else {
        ChainFront(pool[..], head, queued, msg);
      }
      tail := Some(msg);
      if head == None {
        head := Some(msg);
      }
      queued, held := InsertAt(queued, |queued|, msg), held - {msg};
      ok := CountIn();
      assert Snap() == Queued(s, msg, |s.queued|);
    }

    /** What writing one link does to both lists. */
    lemma LinkAfter(msg: nat, i: nat)
      requires Chain(pool[..], head, queued) && Chain(pool[..], free, spare) && Conserved(Snap())
      requires msg in held && 0 < i <= |queued|
      requires msg < pool.Length && pool[msg].next == if i < |queued| then Some(queued[i]) else None
      ensures msg < pool.Length && queued[i - 1] < pool.Length
      ensures Chain(pool[..][queued[i - 1] := pool[queued[i - 1]].(next := Some(msg))], head, InsertAt(queued, i, msg))
      ensures Chain(pool[..][queued[i - 1] := pool[queued[i - 1]].(next := Some(msg))], free, spare)
    {
      Places(Snap());
      assert queued[i - 1] in queued;
      ChainAfter(pool[..], head, queued, msg, i);
      ChainElsewhere(pool[..], free, spare, queued[i - 1], pool[queued[i - 1]].(next := Some(msg)));
    }

    /** Counts a message that was linked in, unless the counter is full. */
    method CountIn() returns (ok: bool)
      modifies this`entry
      ensures ok == (old(entry) < ENTRY_MAX) && entry == if ok then old(entry) + 1 else old(entry)
    {
      if entry < ENTRY_MAX {
        entry := entry + 1;
        return true;
      }
      return false;
    }

    /** The second half of an urgent send: in front of all messages. */
    method UrgentEnd(msg: nat) returns (ok: bool)
      requires Valid() && msg in held && held[msg] == Urging
      modifies this, pool
      ensures Valid() && ok && Snap() == Queued(old(Snap()), msg, 0)
      ensures queued == [msg] + old(queued)
    {
      hide Chain, Conserved, Distinct;
      ghost var s := Snap();
      HeldApart(msg);
      QueuedConserved(s, msg, 0);
      var node := pool[msg].(next := head);
      ChainElsewhere(pool[..], head, queued, msg, node);
      ChainElsewhere(pool[..], free, spare, msg, node);
      ChainFront(pool[..][msg := node], head, queued, msg);
      pool[msg] := node;
      head := Some(msg);
      if tail == None {
        tail := Some(msg);
      }
      queued, held := InsertAt(queued, 0, msg), held - {msg};
      ok := CountIn();
      assert Snap() == Queued(s, msg, 0);
    }

    /** The first half of a receive. */
    method RecvBegin() returns (msg: Option<nat>)
      requires Valid()
      modifies this
      ensures Valid()
      ensures old(queued) == [] ==> msg == None && Snap() == old(Snap())
      ensures old(queued) != [] ==> msg == Some(old(queued)[0]) && Snap() == Dequeued(old(Snap()))
      ensures old(queued) != [] ==> queued == old(queued)[1..] && held == old(held)[old(queued)[0] := Receiving]
    {
      hide Chain, Conserved;
      ghost var s := Snap();
      if entry == 0 {
        return None;
      }
      DequeuedConserved(s);
      LastIsFirst();
      ChainRest(pool[..], head, queued);
      msg := head;
      head := pool[msg.value].next;
      if tail == msg {
        tail := None;
      }
      entry := entry - 1;
      queued, held := queued[1..], held[queued[0] := Receiving];
      assert Snap() == Dequeued(s);
    }

    lemma LastIsFirst()
      requires Wired() && queued != []
      ensures queued[|queued| - 1] == queued[0] <==> |queued| == 1
      ensures queued[0] < pool.Length && queued[0] !in queued[1..] && queued[0] !in spare && queued[0] !in held
    {
      Places(Snap());
      assert queued[0] in queued;
    }

    /** The second half of a receive: as much of the message as the buffer takes, and the node is free again. */
    method RecvEnd(msg: nat, size: nat) returns (body: seq<int>)
      requires Valid() && msg in held && held[msg] == Receiving
      modifies this, pool
      ensures Valid() && msg < pool.Length && Snap() == Returned(old(Snap()), msg)
      ensures spare == [msg] + old(spare) && held == old(held) - {msg}
      ensures var sent := old(Snap()).messages[msg].body; body == if |sent| > size then sent[..size] else sent
    {
      hide Chain, Conserved, Distinct;
      ghost var s := Snap();
      HeldApart(msg);
      ReturnedConserved(s, msg);
      var len := |pool[msg].body|;
      if len > size {
        len := size;
      }
      body := pool[msg].body[..len];
      var node := pool[msg].(next := free);
      ChainElsewhere(pool[..], head, queued, msg, node);
      ChainElsewhere(pool[..], free, spare, msg, node);
      ChainFront(pool[..][msg := node], free, spare, msg);
      pool[msg] := node;
      free := Some(msg);
      spare, held := [msg] + spare, held - {msg};
      assert Snap() == Returned(s, msg);
    }

    /** The second half of a send with priorities: behind the messages that are at least as urgent. */
    method SendEndByPriority(msg: nat, prio: int) returns (ok: bool)
      requires Valid() && msg in held && held[msg] == Sending
      modifies this, pool
      ensures Valid() && ok
      ensures var s := WithPriority(old(Snap()), msg, prio);
        InRange(s, s.queued) && Snap() == Queued(s, msg, PlaceFor(s, prio))
    {
      hide Chain, Conserved, Distinct, PlaceFor, InRange, Queued;
      HeldApart(msg);
      WriteNode(msg, pool[msg].(prio := prio));
      var previous := FindPlace(prio);
      ok := LinkBehind(msg, previous, PlaceFor(Snap(), prio));
    }

    /** Links a node in behind `previous`, or at the front. */
    method LinkIn(msg: nat, previous: Option<nat>, ghost i: nat)
      requires Valid() && msg in held && held[msg] == Sending && i <= |queued|
      requires previous == if i == 0 then None else Some(queued[i - 1])
      modifies this`head, this`tail, pool
      ensures Chain(pool[..], head, InsertAt(queued, i, msg)) && Chain(pool[..], free, spare)
      ensures tail == (if i == |queued| then Some(msg) else old(tail)) && Snap() == old(Snap())
      ensures forall n: nat :: n in held && n != msg && n < pool.Length ==> pool[n] == old(pool[n])
    {
      hide Chain, Conserved, Distinct;
      HeldApart(msg);
      ChainStarts(pool[..], head, queued);
      if previous == None {
        Relink(msg, head);
        ChainFront(pool[..], head, queued, msg);
        head := Some(msg);
        if tail == None {
          tail := Some(msg);
        }
      } else {
        ChainAt(pool[..], head, queued, i - 1);
        Relink(msg, pool[previous.value].next);
        LinkAfter(msg, i);
        pool[previous.value] := pool[previous.value].(next := Some(msg));
        if pool[msg].next == None {
          tail := Some(msg);
        }
      }
    }

    /** Links a node in and counts it. */
    method LinkBehind(msg: nat, previous: Option<nat>, ghost i: nat) returns (ok: bool)
      requires Valid() && msg in held && held[msg] == Sending && i <= |queued|
      requires previous == if i == 0 then None else Some(queued[i - 1])
      modifies this, pool
      ensures Valid() && ok && Snap() == Queued(old(Snap()), msg, i)
    {
      hide Chain, Conserved, Distinct;
      ghost var s := Snap();
      HeldApart(msg);
      QueuedConserved(s, msg, i);
      LinkIn(msg, previous, i);
      queued, held := InsertAt(queued, i, msg), held - {msg};
      InsertedLast(s.queued, i, msg);
      ok := CountIn();
      assert Snap() == Queued(s, msg, i);
    }

    /** Sets the link of a held node. */
    method Relink(msg: nat, next: Option<nat>)
      requires Valid() && msg in held && held[msg] == Sending && msg < pool.Length
      modifies pool
      ensures Chain(pool[..], head, queued) && Chain(pool[..], free, spare) && Snap() == old(Snap())
      ensures pool[..] == old(pool[..])[msg := old(pool[msg]).(next := next)]
    {
      hide Chain, Conserved, Distinct;
      HeldApart(msg);
      ChainElsewhere(pool[..], head, queued, msg, pool[msg].(next := next));
      ChainElsewhere(pool[..], free, spare, msg, pool[msg].(next := next));
      pool[msg] := pool[msg].(next := next);
    }

    /** Writes a held node, but not its link. */
    method WriteNode(msg: nat, node: Node)
      requires Valid() && msg in held && msg < pool.Length && node.next == pool[msg].next
      modifies pool
      ensures Valid() && Snap() == old(Snap()).(messages := old(Snap()).messages[msg := Message(node.prio, node.body)])
      ensures pool[msg] == node
    {
      hide Chain;
      ChainRewritten(pool[..], head, queued, msg, node);
      ChainRewritten(pool[..], free, spare, msg, node);
      pool[msg] := node;
      forall n: nat ensures Times(Snap(), n) == Times(old(Snap()), n) {}
    }

    lemma QueueStarts()
      requires Valid()
      ensures head == if queued == [] then None else Some(queued[0])
    {
      ChainStarts(pool[..], head, queued);
    }

    lemma QueueInRange()
      requires Valid()
      ensures InRange(Snap(), queued)
    {
      Places(Snap());
    }

    /** One node of the queue. */
    lemma QueuedAt(i: nat)
      requires Valid() && i < |queued|
      ensures queued[i] < pool.Length && pool[queued[i]].prio == Snap().messages[queued[i]].prio
      ensures pool[queued[i]].next == if i + 1 < |queued| then Some(queued[i + 1]) else None
    {
      ChainAt(pool[..], head, queued, i);
    }

    /** The walk along the queue, to the node behind which a message of priority `prio` belongs. */
    method FindPlace(prio: int) returns (previous: Option<nat>)
      requires Valid()
      ensures InRange(Snap(), queued)
      ensures previous == if PlaceFor(Snap(), prio) == 0 then None else Some(queued[PlaceFor(Snap(), prio) - 1])
    {
      hide Chain, Conserved, PlaceFor, Distinct, Following, MessageQueue.Valid;
      ghost var s := Snap();
      QueueInRange();
      QueueStarts();
      previous := None;
      var node := head;
      ghost var i: nat := 0;
      while node.Some?
        invariant i <= |queued| && node == (if i < |queued| then Some(queued[i]) else None)
        invariant previous == if i == 0 then None else Some(queued[i - 1])
        invariant forall k :: 0 <= k < i ==> s.messages[queued[k]].prio >= prio
        decreases |queued| - i
      {
        QueuedAt(i);
        if pool[node.value].prio < prio {
          break;
        }
        previous := node;
        node := pool[node.value].next;
        i := i + 1;
      }
      PlaceForIs(s, prio, i);
    }

    /** `rt_mq_control` with the reset command: every queued node goes to the free list, and the counter to zero. */
    method Reset()
      requires Valid()
      modifies this, pool
      ensures Valid() && Snap() == Emptied(old(Snap())) && queued == [] && held == old(held)
    {
      hide Chain, Conserved, Distinct;
      ChainStarts(pool[..], head, queued);
      while head.Some?
        invariant Wired() && Emptied(Snap()) == Emptied(old(Snap())) && (head.Some? <==> queued != [])
        decreases |queued|
      {
        MoveFirst();
        ChainStarts(pool[..], head, queued);
      }
      EmptiedNothing(Snap());
      assert queued == [];
      entry := 0;
      assert Snap() == Emptied(old(Snap()));
      assert Wired();
    }

    /** Moves the first queued node to the free list. */
    method MoveFirst()
      requires Wired() && queued != []
      modifies this`head, this`tail, this`free, this`queued, this`spare, pool
      ensures Wired() && |queued| == |old(queued)| - 1 && Emptied(Snap()) == Emptied(old(Snap()))
    {
      hide Chain, Conserved, Distinct;
      ghost var s := Snap();
      ChainRest(pool[..], head, queued);
      LastIsFirst();
      var msg := head.value;
      var node := pool[msg].(next := free);
      MovedConserved(s);
      ChainElsewhere(pool[..], pool[msg].next, queued[1..], msg, node);
      ChainElsewhere(pool[..], free, spare, msg, node);
      ChainFront(pool[..][msg := node], free, spare, msg);
      head := pool[msg].next;
      if tail == Some(msg) {
        tail := None;
      }
      pool[msg] := node;
      free := Some(msg);
      spare, queued := [msg] + spare, queued[1..];
      assert Snap() == s.(queued := s.queued[1..], spare := [s.queued[0]] + s.spare);
    }
  }
}
