/** Rows of a timer skip list: every row holds some of the timers of the row below, in the same order. */
module TimerRows {
  import opened Common
  import opened Lists

  /** RT_TICK_MAX / 2. */
  const HALF := 0x7FFF_FFFF

  /** The difference of two 32-bit ticks. */
  function Minus(a: nat, b: nat): nat {
    (a - b) % WORD
  }

  /** Within a word of each other, the wrapped difference of two times is their difference, or a word more. */
  lemma Difference(a: nat, b: nat)
    requires -WORD < a - b < WORD
    ensures Minus(a % WORD, b % WORD) == if a >= b then a - b else a - b + WORD
  {
    var k, l := a / WORD, b / WORD;
    assert a == WORD * k + a % WORD && b == WORD * l + b % WORD;
    if a >= b {
      SameRemainder(a - b, a % WORD - b % WORD, l - k);
    } else {
      SameRemainder(a - b + WORD, a % WORD - b % WORD, l - k - 1);
    }
  }

  lemma SameRemainder(x: nat, y: int, k: int)
    requires x < WORD && y == x + WORD * k
    ensures y % WORD == x
  {}

  /** Within half the range, the wrapped difference tells which of two times is later. */
  lemma WrapCompare(a: nat, b: nat)
    requires -HALF < a - b < HALF
    ensures Minus(a % WORD, b % WORD) < HALF <==> a >= b
    ensures Minus(a % WORD, b % WORD) == 0 <==> a == b
  {
    Difference(a, b);
  }

  /** Exactly there, for times less than a word apart: further on it turns round. */
  lemma WrapTurns(a: nat, b: nat)
    requires -WORD < a - b < WORD
    ensures (Minus(a % WORD, b % WORD) < HALF <==> a >= b) <==> HALF - WORD <= a - b < HALF
  {
    Difference(a, b);
  }

  // ---- Sorted rows ----

  ghost predicate Inside(due: seq<nat>, row: seq<nat>) {
    forall i :: 0 <= i < |row| ==> row[i] < |due|
  }

  ghost predicate Sorted(due: seq<nat>, row: seq<nat>) {
    && Inside(due, row)
    && (forall i, j :: 0 <= i < j < |row| ==> due[row[i]] <= due[row[j]])
  }

  /** How many timers at the front are due no later than `x`. */
  ghost function Split(due: seq<nat>, row: seq<nat>, x: nat): (n: nat)
    requires Inside(due, row)
    ensures n <= |row| && (forall i :: 0 <= i < n ==> due[row[i]] <= x) && (n < |row| ==> due[row[n]] > x)
  {
    if row == [] || due[row[0]] > x then 0 else 1 + Split(due, row[1..], x)
  }

  /** The row with `t` behind every timer that is due at the same time or earlier. */
  ghost function Placed(due: seq<nat>, row: seq<nat>, t: nat): (r: seq<nat>)
    requires t < |due| && Inside(due, row)
  {
    InsertAt(row, Split(due, row, due[t]), t)
  }

  lemma SplitIs(due: seq<nat>, row: seq<nat>, x: nat, n: nat)
    requires Sorted(due, row) && n <= |row| && (forall i :: 0 <= i < n ==> due[row[i]] <= x)
      && (n < |row| ==> due[row[n]] > x)
    ensures Split(due, row, x) == n
  {}

  lemma PlacedSorted(due: seq<nat>, row: seq<nat>, t: nat)
    requires Sorted(due, row) && Distinct(row) && t !in row && t < |due|
    ensures Sorted(due, Placed(due, row, t)) && Distinct(Placed(due, row, t))
    ensures forall u :: u in Placed(due, row, t) <==> u in row || u == t
  {
    InsertMembers(row, Split(due, row, due[t]), t);
    var n, r := Split(due, row, due[t]), Placed(due, row, t);
    forall i, j | 0 <= i < j < |r| ensures due[r[i]] <= due[r[j]] {
      if j > n { assert r[j] == row[j - 1]; }
    }
  }

  /** A timer that starts is served after those that were due at the same time before it. */
  lemma PlacedStable(due: seq<nat>, row: seq<nat>, t: nat, i: nat)
    requires Sorted(due, row) && t < |due| && i < |row|
    ensures var n := Split(due, row, due[t]); var r := Placed(due, row, t);
      r[n] == t && (i < n <==> due[row[i]] <= due[t]) && r[if i < n then i else i + 1] == row[i]
  {}

  lemma RemovedSorted(due: seq<nat>, row: seq<nat>, t: nat)
    requires Sorted(due, row) && Distinct(row)
    ensures Sorted(due, Remove(row, t)) && Distinct(Remove(row, t)) && t !in Remove(row, t)
    ensures forall u :: u in Remove(row, t) <==> u in row && u != t
  {
    RemoveMembers(row, t);
    var r := Remove(row, t);
    forall i, j | 0 <= i < j < |r| ensures due[r[i]] <= due[r[j]] {
      if t in row {
        RemoveAt(row, t, i);
        RemoveAt(row, t, j);
      }
    }
    forall i | 0 <= i < |r| ensures r[i] < |due| { assert r[i] in row; }
  }

  // ---- Rows above rows ----

  ghost function Filter(row: seq<nat>, keep: set<nat>): seq<nat> {
    if row == [] then [] else (if row[0] in keep then [row[0]] else []) + Filter(row[1..], keep)
  }

  lemma FilterMembers(row: seq<nat>, keep: set<nat>)
    ensures forall u :: u in Filter(row, keep) <==> u in row && u in keep
  {}

  lemma FilterOne(t: nat, keep: set<nat>)
    ensures Filter([t], keep) == if t in keep then [t] else []
  {
    assert [t][1..] == [];
  }

  ghost function Members(row: seq<nat>): (m: set<nat>)
    ensures forall u :: u in m <==> u in row
  {
    set u | u in row
  }

  /** `above` is `below` with some timers left out. */
  ghost predicate Thins(above: seq<nat>, below: seq<nat>) {
    above == Filter(below, Members(above))
  }

  lemma {:induction false} FilterJoin(a: seq<nat>, b: seq<nat>, keep: set<nat>)
    ensures Filter(a + b, keep) == Filter(a, keep) + Filter(b, keep)
  {
    hide Filter;
    if a == [] {
      FilterNone(keep);
      assert a + b == b;
    } else {
      FilterJoin(a[1..], b, keep);
      FilterFirst(a, keep);
      FilterFirst(a + b, keep);
      assert (a + b)[1..] == a[1..] + b;
    }
  }

  lemma FilterNone(keep: set<nat>)
    ensures Filter([], keep) == []
  {}

  lemma FilterFirst(row: seq<nat>, keep: set<nat>)
    requires row != []
    ensures Filter(row, keep) == (if row[0] in keep then [row[0]] else []) + Filter(row[1..], keep)
  {}

  lemma FilterOther(a: seq<nat>, keep: set<nat>, t: nat)
    requires t !in a
    ensures Filter(a, keep + {t}) == Filter(a, keep) == Filter(a, keep - {t})
  {
    if a != [] { FilterOther(a[1..], keep, t); }
  }

  lemma {:induction false} FilterSorted(due: seq<nat>, row: seq<nat>, keep: set<nat>)
    requires Sorted(due, row) && Distinct(row)
    ensures Sorted(due, Filter(row, keep)) && Distinct(Filter(row, keep))
  {
    if row != [] {
      FilterSorted(due, row[1..], keep);
      assert Filter(row, keep) == (if row[0] in keep then [row[0]] else []) + Filter(row[1..], keep);
      FilterMembers(row[1..], keep);
      FirstBefore(due, row, Filter(row[1..], keep));
    }
  }

  lemma FirstBefore(due: seq<nat>, row: seq<nat>, rest: seq<nat>)
    requires row != [] && Sorted(due, row) && Distinct(row) && Sorted(due, rest) && Distinct(rest)
    requires forall u :: u in rest ==> u in row[1..]
    ensures Sorted(due, [row[0]] + rest) && Distinct([row[0]] + rest)
  {
    forall j | 0 <= j < |rest| ensures rest[j] != row[0] && due[row[0]] <= due[rest[j]] {
      assert rest[j] in row[1..];
      var k :| 0 <= k < |row| - 1 && row[1..][k] == rest[j];
      assert row[k + 1] == rest[j];
    }
  }

  lemma Middle(row: seq<nat>, i: nat, t: nat)
    requires i <= |row|
    ensures InsertAt(row, i, t) == row[..i] + ([t] + row[i..]) && row == row[..i] + row[i..]
  {}

  lemma FilterSplit(a: seq<nat>, b: seq<nat>, keep: set<nat>, t: nat)
    requires t !in a && t !in b
    ensures Filter(a + b, keep) == Filter(a, keep) + Filter(b, keep)
    ensures Filter(a + ([t] + b), keep + {t}) == Filter(a, keep) + ([t] + Filter(b, keep))
    ensures Filter(a + ([t] + b), keep - {t}) == Filter(a, keep) + Filter(b, keep)
  {
    hide Filter;
    FilterJoin(a, b, keep);
    FilterOther(a, keep, t);
    FilterOther(b, keep, t);
    FilterJoin(a, [t] + b, keep + {t});
    FilterJoin([t], b, keep + {t});
    FilterJoin(a, [t] + b, keep - {t});
    FilterJoin([t], b, keep - {t});
    FilterOne(t, keep + {t});
    FilterOne(t, keep - {t});
  }

  /** Where the due times split, a thinned row splits too. */
  lemma SplitThins(due: seq<nat>, above: seq<nat>, below: seq<nat>, t: nat) returns (n: nat, m: nat)
    requires Sorted(due, below) && Distinct(below) && Thins(above, below) && t < |due| && t !in below
    ensures Sorted(due, above)
    ensures n <= |below| && m <= |above|
    ensures above[..m] == Filter(below[..n], Members(above)) && above[m..] == Filter(below[n..], Members(above))
    ensures below == below[..n] + below[n..] && Placed(due, below, t) == below[..n] + ([t] + below[n..])
    ensures above == above[..m] + above[m..] && Placed(due, above, t) == above[..m] + ([t] + above[m..])
  {
    var keep := Members(above);
    FilterSorted(due, below, keep);
    n := Split(due, below, due[t]);
    var front, back := Filter(below[..n], keep), Filter(below[n..], keep);
    Middle(below, n, t);
    FilterJoin(below[..n], below[n..], keep);
    assert above == front + back;
    FilterBounds(due, below, keep, n, due[t]);
    SplitJoined(due, front, back, due[t]);
    m := |front|;
    Middle(above, m, t);
  }

  lemma SplitJoined(due: seq<nat>, front: seq<nat>, back: seq<nat>, x: nat)
    requires Sorted(due, front + back)
    requires (forall u :: u in front ==> u < |due| && due[u] <= x) && forall u :: u in back ==> u < |due| && due[u] > x
    ensures Split(due, front + back, x) == |front|
  {
    var row := front + back;
    forall i | 0 <= i < |front| ensures due[row[i]] <= x { assert row[i] in front; }
    if back != [] { assert row[|front|] == back[0]; }
    SplitIs(due, row, x, |front|);
  }

  /** Placing a timer in a row and in the one above keeps one within the other. */
  lemma PlacedThins(due: seq<nat>, above: seq<nat>, below: seq<nat>, t: nat)
    requires Sorted(due, below) && Distinct(below) && Thins(above, below) && t < |due| && t !in below
    ensures Sorted(due, above) && Thins(Placed(due, above, t), Placed(due, below, t))
  {
    hide Filter, Sorted, Distinct, Placed, Members;
    FilterMembers(below, Members(above));
    var n, m := SplitThins(due, above, below, t);
    FilterSplit(below[..n], below[n..], Members(above), t);
    assert Members(above) + {t} == Members(Placed(due, above, t));
  }

  lemma FilterBounds(due: seq<nat>, row: seq<nat>, keep: set<nat>, n: nat, x: nat)
    requires Sorted(due, row) && n == Split(due, row, x)
    ensures forall u :: u in Filter(row[..n], keep) ==> u < |due| && due[u] <= x
    ensures forall u :: u in Filter(row[n..], keep) ==> u < |due| && due[u] > x
  {
    FilterMembers(row[..n], keep);
    FilterMembers(row[n..], keep);
    forall u | u in Filter(row[n..], keep) ensures u < |due| && due[u] > x {
      var k :| 0 <= k < |row[n..]| && row[n..][k] == u;
      assert row[n + k] == u && due[row[n]] <= due[row[n + k]];
    }
  }

  /** Placing a timer only in the lower row. */
  lemma PlacedBelow(due: seq<nat>, above: seq<nat>, below: seq<nat>, t: nat)
    requires Sorted(due, below) && Distinct(below) && Thins(above, below) && t < |due| && t !in below
    ensures Thins(above, Placed(due, below, t))
  {
    hide Filter, Distinct;
    var keep := Members(above);
    FilterMembers(below, keep);
    var n := Split(due, below, due[t]);
    Middle(below, n, t);
    FilterSplit(below[..n], below[n..], keep, t);
    assert keep - {t} == keep;
  }

  lemma RemovedThins(above: seq<nat>, below: seq<nat>, t: nat)
    requires Distinct(below) && Thins(above, below)
    ensures Thins(Remove(above, t), Remove(below, t))
  {
    hide Filter, Distinct, Remove;
    var keep := Members(above);
    FilterMembers(below, keep);
    RemoveMembers(below, t);
    if t !in below {
      Unmoved(above, t);
      Unmoved(below, t);
    } else {
      var front, back := RemoveParts(below, t);
      FilterSplit(front, back, keep - {t}, t);
      var a, b := Filter(front, keep - {t}), Filter(back, keep - {t});
      assert keep - {t} - {t} == keep - {t};
      if t in above {
        assert keep - {t} + {t} == keep;
        FilterMembers(front, keep - {t});
        RemoveMiddle(a, t, b);
        assert a + ([t] + b) == a + [t] + b;
      } else {
        assert keep - {t} - {t} == keep - {t} == keep;
        Unmoved(above, t);
      }
      FilterMembers(front + back, keep - {t});
      assert Members(Remove(above, t)) == keep - {t};
    }
  }

  lemma Unmoved(row: seq<nat>, t: nat)
    requires t !in row
    ensures Remove(row, t) == row
  {}

  lemma RemoveParts(row: seq<nat>, t: nat) returns (front: seq<nat>, back: seq<nat>)
    requires Distinct(row) && t in row
    ensures row == front + ([t] + back) && Remove(row, t) == front + back && t !in front && t !in back
  {
    var i := IndexOf(row, t);
    front, back := row[..i], row[i + 1..];
  }

  lemma RemoveMiddle(a: seq<nat>, t: nat, b: seq<nat>)
    requires t !in a
    ensures Remove(a + [t] + b, t) == a + b
  {
    hide Remove;
    IndexMiddle(a, t, b);
    RemoveIs(a + [t] + b, t);
    assert (a + [t] + b)[..|a|] == a && (a + [t] + b)[|a| + 1..] == b;
  }

  lemma RemoveIs(row: seq<nat>, t: nat)
    requires t in row
    ensures Remove(row, t) == row[..IndexOf(row, t)] + row[IndexOf(row, t) + 1..]
  {}

  lemma IndexMiddle(a: seq<nat>, t: nat, b: seq<nat>)
    requires t !in a
    ensures t in a + [t] + b && IndexOf(a + [t] + b, t) == |a|
  {
    var s := a + [t] + b;
    assert s[|a|] == t;
    if a != [] {
      assert s[1..] == a[1..] + [t] + b;
      IndexMiddle(a[1..], t, b);
    }
  }

  // ---- All rows ----

  ghost predicate RowsRight(due: seq<nat>, rows: seq<seq<nat>>) {
    && rows != [] && Sorted(due, rows[|rows| - 1]) && Distinct(rows[|rows| - 1])
    && (forall l :: 0 <= l < |rows| - 1 ==> ThinsAt(rows, l))
  }

  ghost predicate ThinsAt(rows: seq<seq<nat>>, l: nat)
    requires l < |rows| - 1
  {
    Thins(rows[l], rows[l + 1])
  }

  /** Every row is sorted and within the bottom row. */
  lemma {:induction false} RowSorted(due: seq<nat>, rows: seq<seq<nat>>, l: nat)
    requires RowsRight(due, rows) && l < |rows|
    ensures Sorted(due, rows[l]) && Distinct(rows[l]) && forall u :: u in rows[l] ==> u in rows[|rows| - 1]
    decreases |rows| - l
  {
    if l < |rows| - 1 {
      RowSorted(due, rows, l + 1);
      assert ThinsAt(rows, l);
      FilterSorted(due, rows[l + 1], Members(rows[l]));
      FilterMembers(rows[l + 1], Members(rows[l]));
      forall u | u in rows[l] ensures u in rows[|rows| - 1] { assert u in rows[l + 1]; }
    }
  }

  ghost function AllRemoved(rows: seq<seq<nat>>, t: nat): (r: seq<seq<nat>>)
    ensures |r| == |rows| && forall l :: 0 <= l < |r| ==> r[l] == Remove(rows[l], t)
  {
    seq(|rows|, l requires 0 <= l < |rows| => Remove(rows[l], t))
  }

  /** `t` placed in the lowest `h` rows. */
  ghost function LowPlaced(due: seq<nat>, rows: seq<seq<nat>>, t: nat, h: nat): (r: seq<seq<nat>>)
    requires RowsRight(due, rows) && t < |due| && h <= |rows|
    ensures |r| == |rows|
    ensures forall l :: 0 <= l < |r| ==>
      Sorted(due, rows[l]) && r[l] == if l < |rows| - h then rows[l] else Placed(due, rows[l], t)
  {
    assert forall l :: 0 <= l < |rows| ==> Sorted(due, rows[l]) by {
      forall l | 0 <= l < |rows| ensures Sorted(due, rows[l]) { RowSorted(due, rows, l); }
    }
    seq(|rows|, l requires 0 <= l < |rows| => if l < |rows| - h then rows[l] else Placed(due, rows[l], t))
  }

  /** Removal keeps the rows right, and leaves the timer in none of them. */
  lemma RemovedRight(due: seq<nat>, rows: seq<seq<nat>>, t: nat)
    requires RowsRight(due, rows)
    ensures RowsRight(due, AllRemoved(rows, t))
    ensures forall l :: 0 <= l < |rows| ==> t !in AllRemoved(rows, t)[l]
  {
    var n := AllRemoved(rows, t);
    RemovedSorted(due, rows[|rows| - 1], t);
    forall l | 0 <= l < |rows| - 1 ensures ThinsAt(n, l) {
      RowSorted(due, rows, l + 1);
      assert ThinsAt(rows, l);
      RemovedThins(rows[l], rows[l + 1], t);
    }
    forall l | 0 <= l < |rows| ensures t !in n[l] {
      RowSorted(due, rows, l);
      RemoveMembers(rows[l], t);
    }
  }

  /** Insertion keeps the rows right whatever the number of rows that the timer enters. */
  lemma PlacedRight(due: seq<nat>, rows: seq<seq<nat>>, t: nat, h: nat)
    requires RowsRight(due, rows) && t < |due| && 0 < h <= |rows| && t !in rows[|rows| - 1]
    ensures RowsRight(due, LowPlaced(due, rows, t, h))
  {
    hide Thins, Sorted, Placed, Distinct, Remove;
    var n := LowPlaced(due, rows, t, h);
    PlacedSorted(due, rows[|rows| - 1], t);
    forall l | 0 <= l < |rows| - 1 ensures ThinsAt(n, l) {
      RowSorted(due, rows, l + 1);
      assert ThinsAt(rows, l);
      if l >= |rows| - h {
        PlacedThins(due, rows[l], rows[l + 1], t);
      } else if l + 1 >= |rows| - h {
        PlacedBelow(due, rows[l], rows[l + 1], t);
      }
    }
  }

  /** Rows depend on the due times of their members only. */
  lemma DueElsewhere(due: seq<nat>, rows: seq<seq<nat>>, t: nat, x: nat)
    requires RowsRight(due, rows) && t < |due| && t !in rows[|rows| - 1]
    ensures RowsRight(due[t := x], rows)
  {
    forall l | 0 <= l < |rows| - 1 ensures ThinsAt(rows, l) {}
    var row := rows[|rows| - 1];
    forall i | 0 <= i < |row| ensures due[t := x][row[i]] == due[row[i]] { assert row[i] in row; }
  }
}
