/** Circular doubly linked lists, as two dictionaries of links. */
module Rings {
  import opened Lists

  ghost function After(row: seq<int>, i: nat): int
    requires i < |row|
  {
    if i + 1 < |row| then row[i + 1] else row[0]
  }

  ghost function Before(row: seq<int>, i: nat): int
    requires i < |row|
  {
    if i > 0 then row[i - 1] else row[|row| - 1]
  }

  /** The links of the nodes of `row` lead around it, in both directions. */
  ghost predicate Ring(next: map<int, int>, prev: map<int, int>, row: seq<int>) {
    row != [] && Distinct(row) && forall i: nat :: i < |row| ==> LinkedAt(next, prev, row, i)
  }

  ghost predicate LinkedAt(next: map<int, int>, prev: map<int, int>, row: seq<int>, i: nat)
    requires i < |row|
  {
    row[i] in next && row[i] in prev && next[row[i]] == After(row, i) && prev[row[i]] == Before(row, i)
  }

  ghost function Inserted(row: seq<int>, i: nat, x: int): seq<int>
    requires i < |row|
  {
    row[..i + 1] + [x] + row[i + 1..]
  }

  ghost function Dropped(row: seq<int>, i: nat): seq<int>
    requires i < |row|
  {
    row[..i] + row[i + 1..]
  }

  lemma RingAt(next: map<int, int>, prev: map<int, int>, row: seq<int>, i: nat)
    requires Ring(next, prev, row) && i < |row|
    ensures row[i] in next && row[i] in prev && next[row[i]] == After(row, i) && prev[row[i]] == Before(row, i)
    ensures After(row, i) in prev && Before(row, i) in next
  {
    assert LinkedAt(next, prev, row, i);
    assert LinkedAt(next, prev, row, if i + 1 < |row| then i + 1 else 0);
    assert LinkedAt(next, prev, row, if i > 0 then i - 1 else |row| - 1);
  }

  lemma InsertedAt(row: seq<int>, i: nat, x: int, k: nat)
    requires i < |row| && k <= |row|
    ensures |Inserted(row, i, x)| == |row| + 1
    ensures Inserted(row, i, x)[k] == if k <= i then row[k] else if k == i + 1 then x else row[k - 1]
  {}

  /** Linking `x` in behind node `i`. */
  lemma RingInserted(next: map<int, int>, prev: map<int, int>, row: seq<int>, i: nat, x: int)
    requires Ring(next, prev, row) && i < |row| && x !in row
    ensures After(row, i) in prev
    ensures Ring(next[x := After(row, i)][row[i] := x], prev[x := row[i]][After(row, i) := x], Inserted(row, i, x))
    ensures forall y :: y in Inserted(row, i, x) <==> y in row || y == x
  {
    RingAt(next, prev, row, i);
    var more := Inserted(row, i, x);
    assert more == InsertAt(row, i + 1, x);
    InsertMembers(row, i + 1, x);
    var n, p := next[x := After(row, i)][row[i] := x], prev[x := row[i]][After(row, i) := x];
    forall k: nat | k < |more| ensures LinkedAt(n, p, more, k) { InsertedLink(next, prev, row, i, x, k, more, n, p); }
  }

  lemma InsertedLink(next: map<int, int>, prev: map<int, int>, row: seq<int>, i: nat, x: int, k: nat, more: seq<int>,
                     n: map<int, int>, p: map<int, int>)
    requires Ring(next, prev, row) && i < |row| && x !in row && k <= |row|
    requires more == Inserted(row, i, x) && |more| == |row| + 1
    requires n == next[x := After(row, i)][row[i] := x] && p == prev[x := row[i]][After(row, i) := x]
    ensures LinkedAt(n, p, more, k)
  {
    InsertedAt(row, i, x, k);
    InsertedAt(row, i, x, 0);
    InsertedAt(row, i, x, |row|);
    if k > 0 { InsertedAt(row, i, x, k - 1); }
    if k < |row| { InsertedAt(row, i, x, k + 1); }
    if k != i + 1 {
      var j := if k <= i then k else k - 1;
      assert LinkedAt(next, prev, row, j);
      assert j != i ==> row[j] != row[i];
    }
  }

  lemma DroppedAt(row: seq<int>, i: nat, k: nat)
    requires i < |row| && k < |row| - 1
    ensures |Dropped(row, i)| == |row| - 1 && Dropped(row, i)[k] == row[if k < i then k else k + 1]
  {}

  /** Unlinking node `i`. */
  lemma RingDropped(next: map<int, int>, prev: map<int, int>, row: seq<int>, i: nat)
    requires Ring(next, prev, row) && i < |row| && |row| > 1
    ensures Before(row, i) in next && After(row, i) in prev
    ensures Ring(next[Before(row, i) := After(row, i)], prev[After(row, i) := Before(row, i)], Dropped(row, i))
    ensures forall y :: y in Dropped(row, i) <==> y in row && y != row[i]
  {
    RingAt(next, prev, row, i);
    var less := Dropped(row, i);
    IndexIs(row, i);
    assert less == Remove(row, row[i]);
    RemoveMembers(row, row[i]);
    var n, p := next[Before(row, i) := After(row, i)], prev[After(row, i) := Before(row, i)];
    forall k: nat | k < |less| ensures LinkedAt(n, p, less, k) { DroppedLink(next, prev, row, i, k, less, n, p); }
  }

  lemma IndexIs(row: seq<int>, i: nat)
    requires Distinct(row) && i < |row|
    ensures IndexOf(row, row[i]) == i
  {}

  lemma DroppedLink(next: map<int, int>, prev: map<int, int>, row: seq<int>, i: nat, k: nat, less: seq<int>,
                    n: map<int, int>, p: map<int, int>)
    requires Ring(next, prev, row) && i < |row| && k < |row| - 1
    requires less == Dropped(row, i) && |less| == |row| - 1
    requires n == next[Before(row, i) := After(row, i)] && p == prev[After(row, i) := Before(row, i)]
    ensures LinkedAt(n, p, less, k)
  {
    DroppedAt(row, i, k);
    DroppedAt(row, i, 0);
    DroppedAt(row, i, |row| - 2);
    if k > 0 { DroppedAt(row, i, k - 1); }
    if k < |row| - 2 { DroppedAt(row, i, k + 1); }
    var j := if k < i then k else k + 1;
    assert LinkedAt(next, prev, row, j);
    var k := if i > 0 then i - 1 else |row| - 1;
    assert j != k ==> row[j] != row[k];
    if i + 1 < |row| { assert j != i + 1 ==> row[j] != row[i + 1]; } else { assert j != 0 ==> row[j] != row[0]; }
  }
}
