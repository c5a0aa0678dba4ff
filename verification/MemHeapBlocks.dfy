/** The blocks of a memory heap: items in address order, some of them on the free ring. */
module MemHeapBlocks {
  import opened Lists
  import opened Rings

  /** RT_MEMHEAP_SIZE: an item header of six 32-bit words. */
  const ITEM := 24

  /** RT_MEMHEAP_MINIALLOC. */
  const MINI := 16

  /** `cuts` are the addresses of all items, the used tail block last; `free` is the free ring behind its header. */
  datatype State = State(cuts: seq<int>, free: seq<int>)

  ghost function Payload(cuts: seq<int>, i: nat): int
    requires i < |cuts| - 1
  {
    cuts[i + 1] - cuts[i] - ITEM
  }

  ghost predicate Apart(cuts: seq<int>, i: nat)
    requires i < |cuts| - 1
  {
    cuts[i + 1] - cuts[i] >= ITEM && (cuts[i + 1] - cuts[i]) % 8 == 0
  }

  /** Items follow each other with room for a header, and the free ring holds some of them, but not the tail. */
  ghost predicate Tiled(s: State) {
    && |s.cuts| >= 2 && (forall i: nat :: i < |s.cuts| - 1 ==> Apart(s.cuts, i))
    && Distinct(s.free) && (forall x :: x in s.free ==> x in s.cuts) && s.cuts[|s.cuts| - 1] !in s.free
  }

  /** No two neighbours are both free. */
  ghost predicate Coalesced(s: State) {
    forall i: nat :: i < |s.cuts| - 1 && s.cuts[i] in s.free ==> s.cuts[i + 1] !in s.free
  }

  lemma {:induction false} Increasing(s: State, i: nat, j: nat)
    requires Tiled(s) && i < j < |s.cuts|
    ensures s.cuts[i] + ITEM <= s.cuts[j] && (s.cuts[j] - s.cuts[i]) % 8 == 0
    decreases j
  {
    assert Apart(s.cuts, j - 1);
    if i < j - 1 { Increasing(s, i, j - 1); }
  }

  lemma CutsDistinct(s: State)
    requires Tiled(s)
    ensures Distinct(s.cuts)
  {
    forall i, j | 0 <= i < j < |s.cuts| ensures s.cuts[i] != s.cuts[j] { Increasing(s, i, j); }
  }

  // ---- Free bytes ----

  ghost function FreeSum(cuts: seq<int>, free: seq<int>): int {
    if |cuts| < 2 then 0 else (if cuts[0] in free then Payload(cuts, 0) else 0) + FreeSum(cuts[1..], free)
  }

  lemma {:induction false} FreeSumSplit(cuts: seq<int>, free: seq<int>, k: nat)
    requires k < |cuts|
    ensures FreeSum(cuts, free) == FreeSum(cuts[..k + 1], free) + FreeSum(cuts[k..], free)
    decreases k
  {
    if k == 0 {
      assert cuts[0..] == cuts;
    } else {
      FreeSumSplit(cuts[1..], free, k - 1);
      assert cuts[..k + 1][1..] == cuts[1..][..k] && cuts[1..][k - 1..] == cuts[k..];
    }
  }

  lemma {:induction false} FreeSumSame(cuts: seq<int>, free: seq<int>, other: seq<int>)
    requires forall i :: 0 <= i < |cuts| - 1 ==> (cuts[i] in free <==> cuts[i] in other)
    ensures FreeSum(cuts, free) == FreeSum(cuts, other)
    decreases |cuts|
  {
    if |cuts| >= 2 { FreeSumSame(cuts[1..], free, other); }
  }

  lemma FreeSumTwo(a: int, b: int, free: seq<int>)
    ensures FreeSum([a, b], free) == if a in free then b - a - ITEM else 0
  {
    assert [a, b][1..] == [b];
    assert FreeSum([b], free) == 0;
  }

  /** One block set apart from the sum. */
  lemma FreeSumAround(cuts: seq<int>, free: seq<int>, i: nat)
    requires i < |cuts| - 1
    ensures FreeSum(cuts, free)
         == FreeSum(cuts[..i + 1], free) + (if cuts[i] in free then Payload(cuts, i) else 0)
            + FreeSum(cuts[i + 1..], free)
  {
    FreeSumSplit(cuts, free, i);
    FreeSumSplit(cuts[i..], free, 1);
    assert cuts[i..][..2] == [cuts[i], cuts[i + 1]] && cuts[i..][1..] == cuts[i + 1..];
    FreeSumTwo(cuts[i], cuts[i + 1], free);
  }

  // ---- Used blocks ----

  /** The block at `b` is in use and holds `n` bytes. */
  ghost predicate Holds(s: State, b: int, n: int) {
    exists i: nat :: i < |s.cuts| - 1 && s.cuts[i] == b && b !in s.free && Payload(s.cuts, i) == n
  }

  lemma HoldsOnce(s: State, i: nat, n: int)
    requires Tiled(s) && i < |s.cuts|
    ensures Holds(s, s.cuts[i], n) <==> i < |s.cuts| - 1 && s.cuts[i] !in s.free && n == Payload(s.cuts, i)
  {
    CutsDistinct(s);
  }

  /** Different used blocks do not overlap. */
  lemma HoldsApart(s: State, a: int, m: int, b: int, n: int)
    requires Tiled(s) && Holds(s, a, m) && Holds(s, b, n) && a < b
    ensures a + ITEM + m <= b
  {
    var i: nat :| i < |s.cuts| - 1 && s.cuts[i] == a && Payload(s.cuts, i) == m;
    var j: nat :| j < |s.cuts| - 1 && s.cuts[j] == b;
    if j < i { Increasing(s, j, i); }
    if i + 1 < j { Increasing(s, i + 1, j); }
  }

  // ---- Steps ----

  /** Block `i` is cut in two; the second part, at `at`, is not on the free ring. */
  ghost function Cut(s: State, i: nat, at: int): State
    requires i < |s.cuts|
  {
    s.(cuts := Inserted(s.cuts, i, at))
  }

  /** The block behind block `i` becomes part of it. */
  ghost function Joined(s: State, i: nat): State
    requires i + 1 < |s.cuts|
  {
    s.(cuts := Dropped(s.cuts, i + 1))
  }

  ghost function Added(s: State, x: int): State {
    s.(free := [x] + s.free)
  }

  ghost function Removed(s: State, x: int): State {
    s.(free := Remove(s.free, x))
  }

  lemma CutTiled(s: State, i: nat, at: int)
    requires Tiled(s) && i < |s.cuts| - 1 && (at - s.cuts[i]) % 8 == 0
    requires s.cuts[i] + ITEM <= at && at + ITEM <= s.cuts[i + 1]
    ensures at !in s.cuts && Tiled(Cut(s, i, at)) && Cut(s, i, at).cuts[i + 1] == at
    ensures FreeSum(Cut(s, i, at).cuts, s.free)
         == FreeSum(s.cuts, s.free) - if s.cuts[i] in s.free then s.cuts[i + 1] - at else 0
  {
    hide FreeSum;
    var c := Cut(s, i, at).cuts;
    assert c == s.cuts[..i + 1] + [at] + s.cuts[i + 1..];
    forall k: nat | k < |c| - 1 ensures Apart(c, k) {
      assert Apart(s.cuts, if k < i then k else if k > i + 1 then k - 1 else i);
    }
    forall k: nat | k < |s.cuts| ensures s.cuts[k] != at {
      if k < i { Increasing(s, k, i); }
      if k > i + 1 { Increasing(s, i + 1, k); }
    }
    CutSum(s.cuts, s.free, i, at);
  }

  lemma CutSum(cuts: seq<int>, free: seq<int>, i: nat, at: int)
    requires i < |cuts| - 1 && at !in free
    ensures FreeSum(Inserted(cuts, i, at), free)
         == FreeSum(cuts, free) - if cuts[i] in free then cuts[i + 1] - at else 0
  {
    hide FreeSum;
    var c := Inserted(cuts, i, at);
    FreeSumAround(cuts, free, i);
    FreeSumAround(c, free, i);
    FreeSumAround(c[i + 1..], free, 0);
    assert c[..i + 1] == cuts[..i + 1] && c[i + 1..][1..] == cuts[i + 1..] && c[i + 1..][..1] == [at];
    FreeSumOne(at, free);
  }

  lemma FreeSumOne(at: int, free: seq<int>)
    ensures FreeSum([at], free) == 0
  {}

  lemma JoinedTiled(s: State, i: nat)
    requires Tiled(s) && i + 2 < |s.cuts| && s.cuts[i + 1] !in s.free
    ensures Tiled(Joined(s, i)) && Joined(s, i).cuts[..i + 1] == s.cuts[..i + 1]
    ensures FreeSum(Joined(s, i).cuts, s.free)
         == FreeSum(s.cuts, s.free) + if s.cuts[i] in s.free then s.cuts[i + 2] - s.cuts[i + 1] else 0
  {
    var c := Joined(s, i).cuts;
    forall k: nat | k < |c| - 1 ensures Apart(c, k) {
      if k < i { assert Apart(s.cuts, k); }
      else if k > i { assert Apart(s.cuts, k + 1); }
      else { assert Apart(s.cuts, i) && Apart(s.cuts, i + 1); }
    }
    forall x | x in s.free ensures x in c {
      var k :| 0 <= k < |s.cuts| && s.cuts[k] == x;
      assert c[if k <= i then k else k - 1] == x;
    }
    FreeSumAround(s.cuts, s.free, i);
    FreeSumAround(s.cuts[i + 1..], s.free, 0);
    FreeSumAround(c, s.free, i);
    assert s.cuts[i + 1..][..1] == [s.cuts[i + 1]] && s.cuts[i + 1..][1..] == s.cuts[i + 2..];
    assert FreeSum([s.cuts[i + 1]], s.free) == 0;
    assert c[..i + 1] == s.cuts[..i + 1] && c[i + 1..] == s.cuts[i + 2..];
  }

  lemma AddedTiled(s: State, i: nat)
    requires Tiled(s) && i < |s.cuts| - 1 && s.cuts[i] !in s.free
    ensures Tiled(Added(s, s.cuts[i]))
    ensures FreeSum(s.cuts, Added(s, s.cuts[i]).free) == FreeSum(s.cuts, s.free) + Payload(s.cuts, i)
  {
    CutsDistinct(s);
    ChangedSum(s.cuts, s.free, Added(s, s.cuts[i]).free, i);
  }

  lemma RemovedTiled(s: State, i: nat)
    requires Tiled(s) && i < |s.cuts| - 1 && s.cuts[i] in s.free
    ensures Tiled(Removed(s, s.cuts[i]))
    ensures forall x :: x in Removed(s, s.cuts[i]).free <==> x in s.free && x != s.cuts[i]
    ensures FreeSum(s.cuts, Removed(s, s.cuts[i]).free) == FreeSum(s.cuts, s.free) - Payload(s.cuts, i)
  {
    RemoveMembers(s.free, s.cuts[i]);
    CutsDistinct(s);
    ChangedSum(s.cuts, s.free, Removed(s, s.cuts[i]).free, i);
  }

  /** When only one block changes sides. */
  lemma ChangedSum(cuts: seq<int>, free: seq<int>, other: seq<int>, i: nat)
    requires i < |cuts| - 1 && Distinct(cuts)
    requires forall x :: x != cuts[i] ==> (x in free <==> x in other)
    ensures FreeSum(cuts, other) - (if cuts[i] in other then Payload(cuts, i) else 0)
         == FreeSum(cuts, free) - (if cuts[i] in free then Payload(cuts, i) else 0)
  {
    FreeSumAround(cuts, free, i);
    FreeSumAround(cuts, other, i);
    var front, back := cuts[..i + 1], cuts[i + 1..];
    forall k | 0 <= k < |front| - 1 ensures front[k] in free <==> front[k] in other {}
    FreeSumSame(front, free, other);
    forall k | 0 <= k < |back| - 1 ensures back[k] in free <==> back[k] in other { assert back[k] == cuts[i + 1 + k]; }
    FreeSumSame(back, free, other);
  }

  // ---- What the steps do to used blocks ----

  lemma TiledSize(s: State)
    requires Tiled(s)
    ensures |s.cuts| >= 2 && s.cuts[|s.cuts| - 1] !in s.free && Distinct(s.cuts)
    ensures forall x :: x in s.free ==> x in s.cuts
  {
    CutsDistinct(s);
  }

  lemma HoldsRemoved(s: State, i: nat, x: int, m: int)
    requires Tiled(s) && i < |s.cuts| - 1 && s.cuts[i] in s.free
    ensures Holds(Removed(s, s.cuts[i]), x, m) <==> Holds(s, x, m) || (x == s.cuts[i] && m == Payload(s.cuts, i))
  {
    RemovedTiled(s, i);
    HoldsOnce(Removed(s, s.cuts[i]), i, m);
  }

  lemma HoldsAdded(s: State, i: nat, x: int, m: int)
    requires Tiled(s) && i < |s.cuts| - 1
    ensures Holds(Added(s, s.cuts[i]), x, m) <==> Holds(s, x, m) && x != s.cuts[i]
  {}

  lemma HoldsCut(s: State, i: nat, at: int, x: int, m: int)
    requires Tiled(s) && i < |s.cuts| - 1 && (at - s.cuts[i]) % 8 == 0
    requires s.cuts[i] + ITEM <= at && at + ITEM <= s.cuts[i + 1]
    ensures Holds(Cut(s, i, at), x, m) <==>
      if x == s.cuts[i] then x !in s.free && m == at - x - ITEM
      else if x == at then m == s.cuts[i + 1] - at - ITEM
      else Holds(s, x, m)
  {
    hide Holds, Tiled, FreeSum, Inserted;
    TiledSize(s);
    CutTiled(s, i, at);
    var t := Cut(s, i, at);
    InsertedAt(s.cuts, i, at, i);
    InsertedAt(s.cuts, i, at, i + 1);
    InsertedAt(s.cuts, i, at, i + 2);
    HoldsOnce(t, i, m);
    HoldsOnce(t, i + 1, m);
    if x in s.cuts {
      var k: nat :| k < |s.cuts| && s.cuts[k] == x;
      HoldsOnce(s, k, m);
      InsertedAt(s.cuts, i, at, if k <= i then k else k + 1);
      if k + 1 < |s.cuts| { InsertedAt(s.cuts, i, at, if k < i then k + 1 else k + 2); }
      HoldsOnce(t, if k <= i then k else k + 1, m);
    } else {
      NotACut(s, x, m);
      if x != at {
        forall k | 0 <= k < |t.cuts| ensures t.cuts[k] != x { InsertedAt(s.cuts, i, at, k); }
        NotACut(t, x, m);
      }
    }
  }

  lemma HoldsJoined(s: State, i: nat, x: int, m: int)
    requires Tiled(s) && i + 2 < |s.cuts| && s.cuts[i + 1] !in s.free
    ensures Holds(Joined(s, i), x, m) <==>
      if x == s.cuts[i] then x !in s.free && m == s.cuts[i + 2] - x - ITEM
      else x != s.cuts[i + 1] && Holds(s, x, m)
  {
    hide Holds, Tiled, FreeSum, Dropped;
    TiledSize(s);
    JoinedTiled(s, i);
    CutsDistinct(s);
    var t := Joined(s, i);
    DroppedAt(s.cuts, i + 1, i);
    DroppedAt(s.cuts, i + 1, i + 1);
    HoldsOnce(t, i, m);
    HoldsOnce(s, i, m);
    if x in s.cuts {
      var k: nat :| k < |s.cuts| && s.cuts[k] == x;
      HoldsOnce(s, k, m);
      if k != i + 1 {
        var j := if k <= i then k else k - 1;
        DroppedAt(s.cuts, i + 1, j);
        if j + 1 < |t.cuts| { DroppedAt(s.cuts, i + 1, j + 1); }
        HoldsOnce(t, j, m);
      } else {
        forall j | 0 <= j < |t.cuts| ensures t.cuts[j] != x { DroppedAt(s.cuts, i + 1, j); }
        NotACut(t, x, m);
      }
    } else {
      NotACut(s, x, m);
      forall j | 0 <= j < |t.cuts| ensures t.cuts[j] != x { DroppedAt(s.cuts, i + 1, j); }
      NotACut(t, x, m);
    }
  }

  // ---- The calls ----

  ghost predicate Splits(payload: int, n: nat) {
    payload >= n + ITEM + MINI
  }

  /** Free block `i` is handed out for `n` bytes, cut if what is left can be a block. */
  ghost function Allocated(s: State, i: nat, n: nat): State
    requires i < |s.cuts| - 1
  {
    var b := s.cuts[i];
    if Splits(Payload(s.cuts, i), n) then Added(Cut(Removed(s, b), i, b + ITEM + n), b + ITEM + n) else Removed(s, b)
  }

  ghost predicate FreeBefore(s: State, i: nat)
    requires i < |s.cuts|
  {
    i > 0 && s.cuts[i - 1] in s.free
  }

  ghost predicate FreeBehind(s: State, i: nat)
    requires i < |s.cuts|
  {
    i + 1 < |s.cuts| && s.cuts[i + 1] in s.free
  }

  /** The free block behind block `i` becomes part of it. */
  ghost function Absorbed(s: State, i: nat): State
    requires i + 1 < |s.cuts|
  {
    Joined(Removed(s, s.cuts[i + 1]), i)
  }

  /** Used block `i` is given back: into a free block before it, together with one behind it, or on its own. */
  ghost function Freed(s: State, i: nat): State
    requires i < |s.cuts| - 1
  {
    if FreeBefore(s, i) then
      var t := Joined(s, i - 1);
      if FreeBehind(s, i) && i < |t.cuts| then Absorbed(t, i - 1) else t
    else Added(if FreeBehind(s, i) then Absorbed(s, i) else s, s.cuts[i])
  }

  /** Used block `i` keeps `n` bytes; what follows becomes a free block, with one behind it. */
  ghost function Shrunk(s: State, i: nat, n: nat): State
    requires i < |s.cuts| - 1
  {
    var at := s.cuts[i] + ITEM + n;
    var t := Cut(s, i, at);
    Added(if FreeBehind(s, i) && i + 2 < |t.cuts| then Absorbed(t, i + 1) else t, at)
  }

  /** Used block `i` grows to `n` bytes into the free block behind it. */
  ghost function Grown(s: State, i: nat, n: nat): State
    requires i < |s.cuts| - 1
  {
    var at := s.cuts[i] + ITEM + n;
    Added(Cut(Absorbed(s, i), i, at), at)
  }

  ghost predicate Sound(s: State) {
    Tiled(s) && Coalesced(s)
  }

  lemma AllocatedSound(s: State, i: nat, n: nat)
    requires Sound(s) && i < |s.cuts| - 1 && s.cuts[i] in s.free && n <= Payload(s.cuts, i) && n % 8 == 0
    ensures Sound(Allocated(s, i, n))
    ensures FreeSum(Allocated(s, i, n).cuts, Allocated(s, i, n).free)
         == FreeSum(s.cuts, s.free) - if Splits(Payload(s.cuts, i), n) then n + ITEM else Payload(s.cuts, i)
  {
    hide FreeSum, Tiled, Inserted, Remove;
    var b, at := s.cuts[i], s.cuts[i] + ITEM + n;
    TiledSize(s);
    RemovedTiled(s, i);
    var r := Removed(s, b);
    assert s.cuts[i + 1] !in s.free;
    if Splits(Payload(s.cuts, i), n) { SplitOff(r, i, at); }
  }

  /** Cutting a used block and freeing its second part, when no free block follows. */
  lemma SplitOff(s: State, i: nat, at: int)
    requires Sound(s) && Used(s, i) && s.cuts[i + 1] !in s.free && (at - s.cuts[i]) % 8 == 0
    requires s.cuts[i] + ITEM <= at && at + ITEM <= s.cuts[i + 1]
    ensures Sound(Added(Cut(s, i, at), at)) && at !in s.cuts
    ensures FreeSum(Cut(s, i, at).cuts, [at] + s.free) == FreeSum(s.cuts, s.free) + s.cuts[i + 1] - at - ITEM
  {
    hide FreeSum, Tiled, Inserted, Coalesced;
    TiledSize(s);
    CutTiled(s, i, at);
    var c := Cut(s, i, at);
    CutCoalesced(s, i, at);
    InsertedAt(s.cuts, i, at, i);
    InsertedAt(s.cuts, i, at, i + 1);
    InsertedAt(s.cuts, i, at, i + 2);
    AddedTiled(c, i + 1);
    AddedCoalesced(c, i + 1);
  }

  // ---- Neighbours ----

  ghost predicate CoalescedBut(s: State, j: nat) {
    forall i: nat :: i < |s.cuts| - 1 && i != j && s.cuts[i] in s.free ==> s.cuts[i + 1] !in s.free
  }

  lemma CutCoalesced(s: State, i: nat, at: int)
    requires Coalesced(s) && i < |s.cuts| - 1 && s.cuts[i] !in s.free && at !in s.free
    ensures Coalesced(Cut(s, i, at))
  {
    hide Inserted;
    var c := Cut(s, i, at);
    InsertedAt(s.cuts, i, at, 0);
    forall k: nat | k < |c.cuts| - 1 && c.cuts[k] in c.free ensures c.cuts[k + 1] !in c.free {
      InsertedAt(s.cuts, i, at, k);
      InsertedAt(s.cuts, i, at, k + 1);
    }
  }

  lemma AddedCoalesced(s: State, i: nat)
    requires Tiled(s) && Coalesced(s) && i < |s.cuts| - 1 && s.cuts[i + 1] !in s.free
      && (i > 0 ==> s.cuts[i - 1] !in s.free)
    ensures Coalesced(Added(s, s.cuts[i]))
  {
    hide Tiled;
    TiledSize(s);
    var n := Added(s, s.cuts[i]);
    forall k: nat | k < |n.cuts| - 1 && n.cuts[k] in n.free ensures n.cuts[k + 1] !in n.free {
      if k + 1 != i { assert n.cuts[k + 1] != s.cuts[i]; }
    }
  }

  lemma JoinedCut(s: State, i: nat, k: nat)
    requires i + 1 < |s.cuts| && k < |s.cuts| - 1
    ensures |Joined(s, i).cuts| == |s.cuts| - 1 && Joined(s, i).cuts[k] == s.cuts[if k <= i then k else k + 1]
  {}

  lemma JoinedCoalesced(s: State, i: nat)
    requires Coalesced(s) && i + 2 < |s.cuts|
    ensures CoalescedBut(Joined(s, i), i)
  {
    hide Joined;
    var t := Joined(s, i);
    JoinedCut(s, i, 0);
    JoinedFree(s, i);
    forall k: nat | k < |t.cuts| - 1 && k != i && t.cuts[k] in t.free ensures t.cuts[k + 1] !in t.free {
      JoinedCut(s, i, k);
      JoinedCut(s, i, k + 1);
    }
  }

  lemma JoinedFree(s: State, i: nat)
    requires i + 1 < |s.cuts|
    ensures Joined(s, i).free == s.free
  {}

  /** A free block that is taken in leaves no two neighbours free: what follows it is used. */
  lemma AbsorbedCoalesced(s: State, i: nat)
    requires Tiled(s) && CoalescedBut(s, i) && i + 2 < |s.cuts| && s.cuts[i + 1] in s.free
    ensures Coalesced(Absorbed(s, i)) && s.cuts[i + 2] !in s.free
  {
    hide Tiled, FreeSum, Absorbed;
    AbsorbedTiled(s, i);
    var t := Absorbed(s, i);
    forall k: nat | k < |t.cuts| - 1 && t.cuts[k] in t.free ensures t.cuts[k + 1] !in t.free {
      assert t.cuts[k] == s.cuts[if k <= i then k else k + 1]
        && t.cuts[k + 1] == s.cuts[if k + 1 <= i then k + 1 else k + 2];
    }
  }

  /** Allocation makes exactly one block more used, of the size asked for or of the whole block. */
  lemma AllocatedHolds(s: State, i: nat, n: nat, x: int, m: int)
    requires Sound(s) && i < |s.cuts| - 1 && s.cuts[i] in s.free && n <= Payload(s.cuts, i) && n % 8 == 0
    ensures !Holds(s, s.cuts[i], m)
    ensures Holds(Allocated(s, i, n), x, m) <==>
      Holds(s, x, m) || (x == s.cuts[i] && m == if Splits(Payload(s.cuts, i), n) then n else Payload(s.cuts, i))
  {
    hide Holds;
    var b, at := s.cuts[i], s.cuts[i] + ITEM + n;
    HoldsOnce(s, i, m);
    RemovedTiled(s, i);
    HoldsRemoved(s, i, x, m);
    var r := Removed(s, b);
    if Splits(Payload(s.cuts, i), n) {
      CutTiled(r, i, at);
      HoldsCut(r, i, at, x, m);
      HoldsAdded(Cut(r, i, at), i + 1, x, m);
      NotACut(s, at, m);
    }
  }

  lemma NotACut(s: State, at: int, m: int)
    requires at !in s.cuts
    ensures !Holds(s, at, m)
  {}

  /** Taking in the free block behind a used or free one. */
  lemma AbsorbedTiled(s: State, i: nat)
    requires Tiled(s) && i + 2 < |s.cuts| && s.cuts[i + 1] in s.free
    ensures Tiled(Absorbed(s, i)) && |Absorbed(s, i).cuts| == |s.cuts| - 1
    ensures forall x :: x in Absorbed(s, i).free <==> x in s.free && x != s.cuts[i + 1]
    ensures forall k: nat :: k < |s.cuts| - 1 ==> Absorbed(s, i).cuts[k] == s.cuts[if k <= i then k else k + 1]
    ensures FreeSum(Absorbed(s, i).cuts, Absorbed(s, i).free)
         == FreeSum(s.cuts, s.free) - Payload(s.cuts, i + 1)
            + if s.cuts[i] in s.free then s.cuts[i + 2] - s.cuts[i + 1] else 0
  {
    hide FreeSum, Tiled, Dropped, Remove;
    TiledSize(s);
    RemovedTiled(s, i + 1);
    var r := Removed(s, s.cuts[i + 1]);
    JoinedTiled(r, i);
    JoinedCut(r, i, 0);
    forall k: nat | k < |s.cuts| - 1 ensures Absorbed(s, i).cuts[k] == s.cuts[if k <= i then k else k + 1] {
      JoinedCut(r, i, k);
    }
  }

  lemma AbsorbedHolds(s: State, i: nat, x: int, m: int)
    requires Tiled(s) && i + 2 < |s.cuts| && s.cuts[i + 1] in s.free
    ensures Holds(Absorbed(s, i), x, m) <==>
      if x == s.cuts[i] then x !in s.free && m == s.cuts[i + 2] - x - ITEM else Holds(s, x, m)
  {
    hide Holds, Tiled, Dropped, Remove, FreeSum;
    TiledSize(s);
    RemovedTiled(s, i + 1);
    HoldsRemoved(s, i + 1, x, m);
    HoldsJoined(Removed(s, s.cuts[i + 1]), i, x, m);
    HoldsOnce(s, i + 1, m);
  }

  ghost predicate Used(s: State, i: nat) {
    i < |s.cuts| - 1 && s.cuts[i] !in s.free
  }

  /** What a release adds to the free bytes: the block, and the headers that disappear. */
  lemma FreedSound(s: State, i: nat)
    requires Sound(s) && Used(s, i)
    ensures Sound(Freed(s, i))
    ensures FreeSum(Freed(s, i).cuts, Freed(s, i).free)
         == FreeSum(s.cuts, s.free) + Payload(s.cuts, i)
            + (if FreeBefore(s, i) then ITEM else 0) + (if FreeBehind(s, i) then ITEM else 0)
  {
    hide FreeSum, Tiled, Joined, Absorbed, Coalesced, CoalescedBut;
    TiledSize(s);
    if FreeBefore(s, i) {
      var t := Joined(s, i - 1);
      JoinedTiled(s, i - 1);
      JoinedCoalesced(s, i - 1);
      JoinedCut(s, i - 1, i - 1);
      JoinedFree(s, i - 1);
      JoinedCut(s, i - 1, i);
      if FreeBehind(s, i) {
        JoinedCut(s, i - 1, i + 1);
        AbsorbedTiled(t, i - 1);
        AbsorbedCoalesced(t, i - 1);
      } else {
        OnlyBut(t, i - 1);
      }
    } else if FreeBehind(s, i) {
      NotBut(s, i);
      AbsorbedTiled(s, i);
      AbsorbedCoalesced(s, i);
      AddedTiled(Absorbed(s, i), i);
      AddedCoalesced(Absorbed(s, i), i);
    } else {
      AddedTiled(s, i);
      AddedCoalesced(s, i);
    }
  }

  lemma OnlyBut(s: State, j: nat)
    requires CoalescedBut(s, j) && j + 1 < |s.cuts| && s.cuts[j + 1] !in s.free
    ensures Coalesced(s)
  {}

  lemma NotBut(s: State, j: nat)
    requires Coalesced(s)
    ensures CoalescedBut(s, j)
  {}

  /** A release takes away exactly the block that is given back. */
  lemma FreedHolds(s: State, i: nat, x: int, m: int)
    requires Sound(s) && Used(s, i)
    ensures Holds(s, s.cuts[i], Payload(s.cuts, i))
    ensures Holds(Freed(s, i), x, m) <==> Holds(s, x, m) && x != s.cuts[i]
  {
    hide Holds, FreeSum, Tiled, Joined, Absorbed, Coalesced;
    TiledSize(s);
    HoldsOnce(s, i, Payload(s.cuts, i));
    if FreeBefore(s, i) {
      var t := Joined(s, i - 1);
      JoinedTiled(s, i - 1);
      JoinedCut(s, i - 1, i - 1);
      JoinedFree(s, i - 1);
      HoldsJoined(s, i - 1, x, m);
      HoldsOnce(s, i - 1, m);
      JoinedCut(s, i - 1, i);
      if FreeBehind(s, i) {
        JoinedCut(s, i - 1, i + 1);
        AbsorbedHolds(t, i - 1, x, m);
      }
    } else if FreeBehind(s, i) {
      AbsorbedTiled(s, i);
      AbsorbedHolds(s, i, x, m);
      HoldsAdded(Absorbed(s, i), i, x, m);
    } else {
      HoldsAdded(s, i, x, m);
    }
  }

  lemma ShrunkSound(s: State, i: nat, n: nat)
    requires Sound(s) && Used(s, i) && n % 8 == 0 && n + ITEM <= Payload(s.cuts, i)
    ensures Sound(Shrunk(s, i, n))
    ensures FreeSum(Shrunk(s, i, n).cuts, Shrunk(s, i, n).free)
         == FreeSum(s.cuts, s.free) + Payload(s.cuts, i) - n - if FreeBehind(s, i) then 0 else ITEM
  {
    hide FreeSum, Tiled, Inserted, Coalesced, CoalescedBut, Absorbed;
    TiledSize(s);
    var at := s.cuts[i] + ITEM + n;
    var t := Cut(s, i, at);
    UsedApart(s, i);
    CutTiled(s, i, at);
    CutCoalesced(s, i, at);
    InsertedAt(s.cuts, i, at, i);
    InsertedAt(s.cuts, i, at, i + 1);
    InsertedAt(s.cuts, i, at, i + 2);
    if FreeBehind(s, i) {
      if i + 3 < |t.cuts| { InsertedAt(s.cuts, i, at, i + 3); }
      TailUsed(s, i + 1);
      NotBut(t, i + 1);
      AbsorbedTiled(t, i + 1);
      AbsorbedCoalesced(t, i + 1);
      AddedTiled(Absorbed(t, i + 1), i + 1);
      AddedCoalesced(Absorbed(t, i + 1), i + 1);
    } else {
      AddedTiled(t, i + 1);
      AddedCoalesced(t, i + 1);
    }
  }

  lemma UsedApart(s: State, i: nat)
    requires Tiled(s) && i < |s.cuts| - 1
    ensures Apart(s.cuts, i) && Payload(s.cuts, i) % 8 == 0
  {}

  lemma TailUsed(s: State, i: nat)
    requires Tiled(s) && i < |s.cuts| && s.cuts[i] in s.free
    ensures i + 1 < |s.cuts|
  {}

  /** A block that shrinks or grows in place changes its size only. */
  lemma ShrunkHolds(s: State, i: nat, n: nat, x: int, m: int)
    requires Sound(s) && Used(s, i) && n % 8 == 0 && n + ITEM <= Payload(s.cuts, i)
    ensures Holds(Shrunk(s, i, n), x, m) <==> if x == s.cuts[i] then m == n else Holds(s, x, m)
  {
    hide Holds, FreeSum, Tiled, Inserted, Coalesced, Absorbed;
    TiledSize(s);
    var at := s.cuts[i] + ITEM + n;
    var t := Cut(s, i, at);
    UsedApart(s, i);
    CutTiled(s, i, at);
    HoldsCut(s, i, at, x, m);
    InsertedAt(s.cuts, i, at, i);
    InsertedAt(s.cuts, i, at, i + 1);
    InsertedAt(s.cuts, i, at, i + 2);
    NotACut(s, at, m);
    if FreeBehind(s, i) {
      TailUsed(s, i + 1);
      AbsorbedTiled(t, i + 1);
      AbsorbedHolds(t, i + 1, x, m);
      HoldsAdded(Absorbed(t, i + 1), i + 1, x, m);
    } else {
      HoldsAdded(t, i + 1, x, m);
    }
  }

  lemma GrownSound(s: State, i: nat, n: nat)
    requires Sound(s) && Used(s, i) && FreeBehind(s, i) && n % 8 == 0 && n >= Payload(s.cuts, i)
    requires n + ITEM <= Payload(s.cuts, i) + ITEM + Payload(s.cuts, i + 1)
    ensures Sound(Grown(s, i, n))
    ensures FreeSum(Grown(s, i, n).cuts, Grown(s, i, n).free) == FreeSum(s.cuts, s.free) - (n - Payload(s.cuts, i))
  {
    hide FreeSum, Tiled, Coalesced, CoalescedBut, Absorbed;
    TiledSize(s);
    TailUsed(s, i + 1);
    UsedApart(s, i);
    NotBut(s, i);
    AbsorbedTiled(s, i);
    AbsorbedCoalesced(s, i);
    SplitOff(Absorbed(s, i), i, s.cuts[i] + ITEM + n);
  }

  lemma GrownHolds(s: State, i: nat, n: nat, x: int, m: int)
    requires Sound(s) && Used(s, i) && FreeBehind(s, i) && n % 8 == 0 && n >= Payload(s.cuts, i)
    requires n + ITEM <= Payload(s.cuts, i) + ITEM + Payload(s.cuts, i + 1)
    ensures Holds(Grown(s, i, n), x, m) <==> if x == s.cuts[i] then m == n else Holds(s, x, m)
  {
    hide Holds, FreeSum, Tiled, Inserted, Coalesced, Absorbed;
    TiledSize(s);
    TailUsed(s, i + 1);
    UsedApart(s, i);
    AbsorbedTiled(s, i);
    AbsorbedHolds(s, i, x, m);
    var t, at := Absorbed(s, i), s.cuts[i] + ITEM + n;
    CutTiled(t, i, at);
    HoldsCut(t, i, at, x, m);
    InsertedAt(t.cuts, i, at, i + 1);
    NotACut(t, at, m);
    NotHeldAbove(s, i, at, m);
    HoldsAdded(Cut(t, i, at), i + 1, x, m);
  }

  /** No block in use begins inside the free block behind block `i`. */
  lemma NotHeldAbove(s: State, i: nat, at: int, m: int)
    requires Tiled(s) && i + 2 < |s.cuts| && s.cuts[i + 1] in s.free && s.cuts[i] < at < s.cuts[i + 2]
    ensures !Holds(s, at, m)
  {
    forall k: nat | k < |s.cuts| ensures s.cuts[k] != at || k == i + 1 {
      if k < i { Increasing(s, k, i); }
      if k > i + 2 { Increasing(s, i + 2, k); }
    }
  }

  // ---- What a call means for the blocks in use ----

  /** `b` is in use now, with `n` bytes, and was not before; all other blocks in use are as they were. */
  ghost predicate Gains(s: State, t: State, b: int, n: int) {
    && (forall m :: !Holds(s, b, m))
    && (forall x, m :: Holds(t, x, m) <==> Holds(s, x, m) || (x == b && m == n))
  }

  ghost predicate GainsAtLeast(s: State, t: State, b: int, least: int) {
    exists n :: n >= least && Gains(s, t, b, n)
  }

  ghost predicate InUse(s: State, b: int) {
    exists n :: Holds(s, b, n)
  }

  ghost predicate Loses(s: State, t: State, b: int) {
    forall x, m :: Holds(t, x, m) <==> Holds(s, x, m) && x != b
  }

  ghost predicate Resizes(s: State, t: State, b: int, n: int) {
    forall x, m :: Holds(t, x, m) <==> if x == b then m == n else Holds(s, x, m)
  }

  ghost predicate ResizesAtLeast(s: State, t: State, b: int, least: int) {
    exists n :: n >= least && Resizes(s, t, b, n)
  }

  /** The block at `a` gave way to one at `b` with `n` bytes. */
  ghost predicate Moves(s: State, t: State, a: int, b: int, n: int) {
    forall x, m :: Holds(t, x, m) <==> (Holds(s, x, m) && x != a) || (x == b && m == n)
  }

  ghost predicate MovesAtLeast(s: State, t: State, a: int, b: int, least: int) {
    exists n :: n >= least && Moves(s, t, a, b, n)
  }

  lemma StillInUse(s: State, t: State, a: int, b: int, least: int)
    requires GainsAtLeast(s, t, b, least) && InUse(s, a)
    ensures InUse(t, a) && a != b
  {
    hide Holds;
    var n :| Holds(s, a, n);
    assert Holds(t, a, n);
  }

  lemma Moved(s: State, t: State, u: State, a: int, b: int, least: int)
    requires GainsAtLeast(s, t, b, least) && Loses(t, u, a) && a != b
    ensures MovesAtLeast(s, u, a, b, least)
  {
    hide Holds;
    var n :| n >= least && Gains(s, t, b, n);
    assert Moves(s, u, a, b, n);
  }

  lemma Untouched(s: State, i: nat, least: int)
    requires Tiled(s) && Used(s, i) && Payload(s.cuts, i) >= least
    ensures ResizesAtLeast(s, s, s.cuts[i], least)
  {
    hide Holds;
    forall m ensures Holds(s, s.cuts[i], m) <==> m == Payload(s.cuts, i) { HoldsOnce(s, i, m); }
    assert Resizes(s, s, s.cuts[i], Payload(s.cuts, i));
  }

  lemma AllocatedGains(s: State, i: nat, n: nat)
    requires Sound(s) && i < |s.cuts| - 1 && s.cuts[i] in s.free && n <= Payload(s.cuts, i) && n % 8 == 0
    ensures Gains(s, Allocated(s, i, n), s.cuts[i], if Splits(Payload(s.cuts, i), n) then n else Payload(s.cuts, i))
  {
    hide Holds, Allocated;
    forall x, m ensures !Holds(s, s.cuts[i], m) && (Holds(Allocated(s, i, n), x, m) <==>
      Holds(s, x, m) || (x == s.cuts[i] && m == if Splits(Payload(s.cuts, i), n) then n else Payload(s.cuts, i)))
    {
      AllocatedHolds(s, i, n, x, m);
    }
  }

  lemma FreedLoses(s: State, i: nat)
    requires Sound(s) && Used(s, i)
    ensures Loses(s, Freed(s, i), s.cuts[i])
  {
    hide Holds, Freed;
    forall x, m ensures Holds(Freed(s, i), x, m) <==> Holds(s, x, m) && x != s.cuts[i] { FreedHolds(s, i, x, m); }
  }

  lemma ShrunkResizes(s: State, i: nat, n: nat)
    requires Sound(s) && Used(s, i) && n % 8 == 0 && n + ITEM <= Payload(s.cuts, i)
    ensures Resizes(s, Shrunk(s, i, n), s.cuts[i], n)
  {
    hide Holds, Shrunk;
    forall x, m ensures Holds(Shrunk(s, i, n), x, m) <==> if x == s.cuts[i] then m == n else Holds(s, x, m) {
      ShrunkHolds(s, i, n, x, m);
    }
  }

  lemma GrownResizes(s: State, i: nat, n: nat)
    requires Sound(s) && Used(s, i) && FreeBehind(s, i) && n % 8 == 0 && n >= Payload(s.cuts, i)
    requires n + ITEM <= Payload(s.cuts, i) + ITEM + Payload(s.cuts, i + 1)
    ensures Resizes(s, Grown(s, i, n), s.cuts[i], n)
  {
    hide Holds, Grown;
    forall x, m ensures Holds(Grown(s, i, n), x, m) <==> if x == s.cuts[i] then m == n else Holds(s, x, m) {
      GrownHolds(s, i, n, x, m);
    }
  }

  /** The bytes of the block at `x`. */
  ghost function SizeAt(cuts: seq<int>, x: int): int
    requires x in cuts
  {
    if IndexOf(cuts, x) + 1 < |cuts| then Payload(cuts, IndexOf(cuts, x)) else 0
  }

  /** The first on the free ring with `n` bytes, by its place on the ring, or the ring's length. */
  ghost predicate FirstFit(s: State, n: nat, k: nat) {
    && k <= |s.free| && (forall j :: 0 <= j < |s.free| ==> s.free[j] in s.cuts)
    && (forall j :: 0 <= j < k ==> SizeAt(s.cuts, s.free[j]) < n)
    && (k < |s.free| ==> SizeAt(s.cuts, s.free[k]) >= n)
  }

  // ---- The calls, by the block's address ----

  /** An item before the tail. */
  ghost predicate Block(s: State, b: int) {
    b in s.cuts && b != s.cuts[|s.cuts| - 1]
  }

  ghost function Granted(s: State, b: int, n: nat): State {
    if Block(s, b) then Allocated(s, IndexOf(s.cuts, b), n) else s
  }

  ghost function Released(s: State, b: int): State {
    if Block(s, b) then Freed(s, IndexOf(s.cuts, b)) else s
  }

  /**
   * There is room in place: the block is no larger than it was, or the free block behind it leaves more than the
   * minimum.
   */
  ghost predicate Stays(s: State, b: int, n: nat) {
    && Block(s, b)
    && var i := IndexOf(s.cuts, b);
       || n <= Payload(s.cuts, i)
       || (FreeBehind(s, i) && i + 2 < |s.cuts| && Payload(s.cuts, i) + Payload(s.cuts, i + 1) > n + MINI)
  }

  /** In place: grown to `n` bytes, as it was if the end could not be a block, or cut to `n` bytes. */
  ghost function Resized(s: State, b: int, n: nat): State {
    if !Block(s, b) then s
    else
      var i := IndexOf(s.cuts, b);
      if n > Payload(s.cuts, i) then Grown(s, i, n)
      else if n + ITEM + MINI >= Payload(s.cuts, i) then s
      else Shrunk(s, i, n)
  }

  lemma NumberOf(s: State, i: nat)
    requires Tiled(s) && i < |s.cuts| - 1
    ensures Block(s, s.cuts[i]) && IndexOf(s.cuts, s.cuts[i]) == i
  {
    CutsDistinct(s);
  }
}
