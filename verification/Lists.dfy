/** The kernel's intrusive doubly linked lists (rt_list_t), as sequences of the objects they link. */
module Lists {

  ghost predicate Distinct<T>(s: seq<T>) {
    forall i, j :: 0 <= i < j < |s| ==> s[i] != s[j]
  }

  function IndexOf<T(==)>(s: seq<T>, x: T): (i: nat)
    requires x in s
    ensures i < |s| && s[i] == x
  {
    if s[0] == x then 0 else 1 + IndexOf(s[1..], x)
  }

  /** What occurs at all in a row without repetition occurs once. */
  lemma OccursOnce<T>(row: seq<T>, x: T)
    requires Distinct(row)
    ensures multiset(row)[x] == if x in row then 1 else 0
  {
    if x in row {
      var i :| 0 <= i < |row| && row[i] == x;
      NowhereElse(row, i);
      hide Distinct;
      Pieces(row, i);
    }
  }

  lemma NowhereElse<T>(row: seq<T>, i: nat)
    requires Distinct(row) && i < |row|
    ensures row[i] !in row[..i] && row[i] !in row[i + 1..]
  {}

  /** `rt_list_remove`: unlink one node; the others keep their order. */
  function Remove<T(==)>(s: seq<T>, x: T): (r: seq<T>)
    ensures |r| == if x in s then |s| - 1 else |s|
  {
    if x !in s then s
    else
      var i := IndexOf(s, x);
      s[..i] + s[i + 1..]
  }

  lemma RemoveAt<T>(s: seq<T>, x: T, k: nat)
    requires x in s && k < |s| - 1
    ensures Remove(s, x)[k] == s[if k < IndexOf(s, x) then k else k + 1]
  {}

  lemma RemoveMultiset<T>(s: seq<T>, x: T)
    ensures multiset(Remove(s, x)) == multiset(s) - multiset{x}
  {
    if x in s { Pieces(s, IndexOf(s, x)); }
  }

  lemma Pieces<T>(s: seq<T>, i: nat)
    requires i < |s|
    ensures multiset(s) == multiset(s[..i]) + multiset{s[i]} + multiset(s[i + 1..])
  {
    assert s == s[..i] + [s[i]] + s[i + 1..];
  }

  lemma RemoveMembers<T>(s: seq<T>, x: T)
    requires Distinct(s)
    ensures Distinct(Remove(s, x)) && x !in Remove(s, x)
    ensures forall y :: y in Remove(s, x) <==> y in s && y != x
  {
    if x in s {
      var i := IndexOf(s, x);
      assert s == s[..i] + [x] + s[i + 1..];
      var a, b := s[..i], s[i + 1..];
      assert x !in a && x !in b;
      assert forall y :: y in s <==> y in a || y == x || y in b;
    }
  }

  lemma RemoveSubset<T>(s: seq<T>, x: T)
    ensures forall y :: y in Remove(s, x) ==> y in s
  {}

  /** `after` is `row` without an occurrence of `x`; the others keep their order. */
  ghost predicate TakenOut<T>(row: seq<T>, x: T, after: seq<T>) {
    if x in row then exists i: nat :: i < |row| && row[i] == x && after == row[..i] + row[i + 1..] else after == row
  }

  lemma RemoveTakesOut<T>(row: seq<T>, x: T)
    ensures TakenOut(row, x, Remove(row, x)) && (Distinct(row) ==> x !in Remove(row, x))
  {
    if x in row {
      var i := IndexOf(row, x);
      assert Remove(row, x) == row[..i] + row[i + 1..];
    }
    if Distinct(row) { RemoveMembers(row, x); }
  }

  /** The node lands at index `i`; nodes on either side keep their order. */
  function InsertAt<T>(s: seq<T>, i: nat, x: T): (r: seq<T>)
    requires i <= |s|
    ensures |r| == |s| + 1 && r[i] == x
  {
    s[..i] + [x] + s[i..]
  }

  lemma InsertMultiset<T>(s: seq<T>, i: nat, x: T)
    requires i <= |s|
    ensures multiset(InsertAt(s, i, x)) == multiset(s) + multiset{x}
  {
    assert s == s[..i] + s[i..];
  }

  lemma InsertMembers<T>(s: seq<T>, i: nat, x: T)
    requires i <= |s| && Distinct(s) && x !in s
    ensures Distinct(InsertAt(s, i, x))
    ensures forall y :: y in InsertAt(s, i, x) <==> y in s || y == x
  {
    assert s == s[..i] + s[i..];
    forall y ensures y in InsertAt(s, i, x) <==> y in s || y == x {}
  }
}
