/** The ready queues of one scheduling domain with the bitmap that says which of them hold threads. */
module ReadyTables {
  import opened Lists

  /** The lowest set bit plus one, or zero: `__rt_ffs`. A word is the set of its one bits. */
  function Ffs(bits: set<nat>, from: nat := 0): (r: nat)
    requires from <= 32
    ensures r != 0 ==> from < r <= 32 && r - 1 in bits && forall b: nat :: from <= b < r - 1 ==> b !in bits
    ensures r == 0 ==> forall b: nat :: from <= b < 32 ==> b !in bits
    decreases 32 - from
  {
    if from == 32 then 0 else if from in bits then from + 1 else Ffs(bits, from + 1)
  }

  /** What -1 becomes in an unsigned register. */
  const NO_PRIORITY := 0xFFFF_FFFF

  ghost predicate Occupied(queues: seq<seq<nat>>, p: nat) {
    p < |queues| && queues[p] != []
  }

  /**
   * Up to 32 priorities have a bit each; more have one in an octet, and a group bit for every octet that is not zero.
   */
  ghost predicate Marks(max: nat, queues: seq<seq<nat>>, group: set<nat>, table: seq<set<nat>>) {
    |queues| == max <= 256 && |table| == 32
    && (if max <= 32 then forall b: nat :: b in group <==> Occupied(queues, b)
        else
          && (forall n: nat :: n in group <==> n < 32 && table[n] != {})
          && (forall n: nat :: n < 32 ==> MarksOctet(queues, table[n], n)))
  }

  ghost predicate MarksOctet(queues: seq<seq<nat>>, octet: set<nat>, n: nat) {
    forall b: nat :: b in octet <==> b < 8 && Occupied(queues, 8 * n + b)
  }

  lemma Parts(p: nat)
    ensures p == 8 * (p / 8) + p % 8 && p % 8 < 8
    ensures p < 256 ==> p / 8 < 32
  {}

  lemma PartsUnique(n: nat, b: nat)
    requires b < 8
    ensures (8 * n + b) / 8 == n && (8 * n + b) % 8 == b
  {}

  lemma OctetChanged(queues: seq<seq<nat>>, now: seq<seq<nat>>, octet: set<nat>, n: nat, p: nat)
    requires MarksOctet(queues, octet, n) && forall b: nat :: b != p ==> (Occupied(now, b) <==> Occupied(queues, b))
    ensures MarksOctet(
      now, if n != p / 8 then octet else if Occupied(now, p) then octet + {p % 8} else octet - {p % 8}, n)
  {
    Parts(p);
    var more := if n != p / 8 then octet else if Occupied(now, p) then octet + {p % 8} else octet - {p % 8};
    forall b: nat ensures b in more <==> b < 8 && Occupied(now, 8 * n + b) {
      if b < 8 { PartsUnique(n, b); }
    }
  }

  /** Setting the bit of `p` when its queue stops being empty. */
  lemma Marked(max: nat, queues: seq<seq<nat>>, group: set<nat>, table: seq<set<nat>>, p: nat, q: seq<nat>)
    requires Marks(max, queues, group, table) && p < max && q != []
    ensures if max <= 32 then Marks(max, queues[p := q], group + {p}, table)
            else p / 8 < 32 && Marks(max, queues[p := q], group + {p / 8}, table[p / 8 := table[p / 8] + {p % 8}])
  {
    Parts(p);
    var now := table[p / 8 := table[p / 8] + {p % 8}];
    forall b: nat ensures Occupied(queues[p := q], b) <==> Occupied(queues, b) || b == p {}
    if max > 32 {
      forall n: nat | n < 32 ensures MarksOctet(queues[p := q], now[n], n) {
        OctetChanged(queues, queues[p := q], table[n], n, p);
      }
    }
  }

  /** Clearing the bit of `p` once its queue is empty, and the group's bit once no queue of the group is left. */
  lemma Unmarked(max: nat, queues: seq<seq<nat>>, group: set<nat>, table: seq<set<nat>>, p: nat)
    requires Marks(max, queues, group, table) && p < max
    ensures
      if max <= 32 then Marks(max, queues[p := []], group - {p}, table)
      else
        && p / 8 < 32
        && var left := table[p / 8] - {p % 8};
        Marks(max, queues[p := []], if left == {} then group - {p / 8} else group, table[p / 8 := left])
  {
    Parts(p);
    var now := table[p / 8 := table[p / 8] - {p % 8}];
    forall b: nat ensures Occupied(queues[p := []], b) <==> Occupied(queues, b) && b != p {}
    if max > 32 {
      forall n: nat | n < 32 ensures MarksOctet(queues[p := []], now[n], n) {
        OctetChanged(queues, queues[p := []], table[n], n, p);
      }
    }
  }

  /** `p` is the least priority at which something is queued, or says that nothing is. */
  ghost predicate Foremost(queues: seq<seq<nat>>, p: nat) {
    if p == NO_PRIORITY then forall k: nat :: !Occupied(queues, k)
    else Occupied(queues, p) && forall k: nat :: k < p ==> !Occupied(queues, k)
  }

  ghost function Least(queues: seq<seq<nat>>, from: nat := 0): (p: nat)
    ensures from <= p < |queues| || p == NO_PRIORITY
    decreases |queues| - from
  {
    if from >= |queues| then NO_PRIORITY else if queues[from] != [] then from else Least(queues, from + 1)
  }

  lemma {:induction false} LeastForemost(queues: seq<seq<nat>>, from: nat)
    requires |queues| < NO_PRIORITY && forall k: nat :: k < from ==> !Occupied(queues, k)
    ensures Foremost(queues, Least(queues, from))
    decreases |queues| - from
  {
    if from < |queues| && queues[from] == [] { LeastForemost(queues, from + 1); }
  }

  lemma ForemostUnique(queues: seq<seq<nat>>, p: nat, q: nat)
    requires |queues| < NO_PRIORITY && Foremost(queues, p) && Foremost(queues, q)
    ensures p == q
  {}

  class ReadyTable {
    const max: nat
    var queues: seq<seq<nat>>
    var group: set<nat>
    var table: seq<set<nat>>

    ghost predicate Valid()
      reads this
    {
      |table| == 32 && Marks(max, queues, group, table)
    }

    constructor (max: nat)
      requires max <= 256
      ensures Valid() && this.max == max && queues == seq(max, _ => [])
    {
      this.max := max;
      queues, group, table := seq(max, _ => []), {}, seq(32, _ => {});
      new;
      if max > 32 {
        forall n: nat | n < 32 ensures MarksOctet(queues, table[n], n) {}
      }
    }

    /** Sets the bits of `p` and puts `t` at the back or at the front of its queue. */
    method Link(t: nat, p: nat, back: bool)
      requires Valid() && p < max
      modifies this
      ensures Valid()
      ensures queues == old(queues)[p := if back then old(queues)[p] + [t] else [t] + old(queues)[p]]
    {
      Parts(p);
      Marked(max, queues, group, table, p, if back then queues[p] + [t] else [t] + queues[p]);
      if max > 32 {
        table := table[p / 8 := table[p / 8] + {p % 8}];
        group := group + {p / 8};
      } else {
        group := group + {p};
      }
      queues := queues[p := if back then queues[p] + [t] else [t] + queues[p]];
    }

    /** Unlinks `t`, and clears the bits of `p` if that leaves nothing there. */
    method Unlink(t: nat, p: nat)
      requires Valid() && p < max
      modifies this
      ensures Valid() && queues == old(queues)[p := Remove(old(queues)[p], t)]
    {
      Parts(p);
      var left := Remove(queues[p], t);
      if left == [] {
        Unmarked(max, queues, group, table, p);
        if max > 32 {
          table := table[p / 8 := table[p / 8] - {p % 8}];
          if table[p / 8] == {} {
            group := group - {p / 8};
          }
        } else {
          group := group - {p};
        }
      } else {
        StillMarked(max, queues, group, table, p, left);
      }
      queues := queues[p := left];
    }

    /** The most urgent priority at which something is queued. */
    method Highest() returns (p: nat)
      requires Valid()
      ensures Foremost(queues, p)
    {
      hide Marks;
      var first := Ffs(group);
      if max > 32 {
        if first == 0 {
          GroupEmpty(max, queues, group, table);
          return NO_PRIORITY;
        }
        var second := Ffs(table[first - 1]);
        LookedUp(max, queues, group, table, first - 1, second);
        p := 8 * (first - 1) + second - 1;
      } else {
        OneLevel(max, queues, group, table, first);
        p := if first == 0 then NO_PRIORITY else first - 1;
      }
    }
  }

  lemma StillMarked(max: nat, queues: seq<seq<nat>>, group: set<nat>, table: seq<set<nat>>, p: nat, q: seq<nat>)
    requires Marks(max, queues, group, table) && p < max && q != [] && queues[p] != []
    ensures Marks(max, queues[p := q], group, table)
  {
    forall b: nat ensures Occupied(queues[p := q], b) <==> Occupied(queues, b) {}
    if max > 32 {
      forall n: nat | n < 32 ensures MarksOctet(queues[p := q], table[n], n) {
        assert MarksOctet(queues, table[n], n);
      }
    }
  }

  lemma GroupEmpty(max: nat, queues: seq<seq<nat>>, group: set<nat>, table: seq<set<nat>>)
    requires Marks(max, queues, group, table) && max > 32 && forall b: nat :: b < 32 ==> b !in group
    ensures Foremost(queues, NO_PRIORITY)
  {
    forall p: nat | p < max ensures !Occupied(queues, p) {
      Parts(p);
      assert MarksOctet(queues, table[p / 8], p / 8) && p % 8 !in table[p / 8];
    }
  }

  lemma OneLevel(max: nat, queues: seq<seq<nat>>, group: set<nat>, table: seq<set<nat>>, first: nat)
    requires Marks(max, queues, group, table) && max <= 32 && first == Ffs(group)
    ensures Foremost(queues, if first == 0 then NO_PRIORITY else first - 1)
  {}

  /** The two-level lookup finds the least priority whose queue is not empty. */
  lemma LookedUp(max: nat, queues: seq<seq<nat>>, group: set<nat>, table: seq<set<nat>>, n: nat, second: nat)
    requires Marks(max, queues, group, table) && max > 32 && n < 32
    requires n in group && (forall m: nat :: m < n ==> m !in group) && second == Ffs(table[n])
    ensures second > 0 && Foremost(queues, 8 * n + second - 1)
  {
    assert MarksOctet(queues, table[n], n);
    var b :| b in table[n];
    assert b < 8 && second > 0;
    var p := 8 * n + second - 1;
    forall k: nat | k < p ensures !Occupied(queues, k) {
      Parts(k);
      assert MarksOctet(queues, table[k / 8], k / 8);
      assert k / 8 < n || (k / 8 == n && k % 8 < second - 1);
      assert k % 8 !in table[k / 8];
    }
  }
}
