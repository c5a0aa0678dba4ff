/** What each call on a memory heap leaves: the items in address order, and the free ring. */
module MemHeapEffects {
  import opened Lists
  import opened MemHeapBlocks

  /** `cuts` with a further item at `x` behind item `i`. */
  ghost predicate WithItem(cuts: seq<int>, i: nat, x: int, after: seq<int>) {
    i < |cuts| && after == cuts[..i + 1] + [x] + cuts[i + 1..]
  }

  /** `cuts` without items `i` up to `j`. */
  ghost predicate WithoutItems(cuts: seq<int>, i: nat, j: nat, after: seq<int>) {
    i <= j <= |cuts| && after == cuts[..i] + cuts[j..]
  }

  /**
   * A block is handed out whole unless what `n` bytes leave can hold an item and the least number of bytes: then it is
   * cut behind them, and the rest goes to the front of the free ring.
   */
  lemma AllocatedIs(s: State, i: nat, n: nat)
    requires Sound(s) && i < |s.cuts| - 1 && s.cuts[i] in s.free && n <= Payload(s.cuts, i)
    ensures var t, b := Allocated(s, i, n), s.cuts[i];
      && i < |t.cuts| - 1 && t.cuts[i] == b && n <= Payload(t.cuts, i) < n + ITEM + MINI
      && (Payload(s.cuts, i) < n + ITEM + MINI ==> t.cuts == s.cuts && TakenOut(s.free, b, t.free))
      && (Payload(s.cuts, i) >= n + ITEM + MINI ==>
            && WithItem(s.cuts, i, b + ITEM + n, t.cuts)
            && t.free != [] && t.free[0] == b + ITEM + n && TakenOut(s.free, b, t.free[1..]))
  {
    hide Sound, TakenOut;
    RemoveTakesOut(s.free, s.cuts[i]);
  }

  /**
   * A block that is given back becomes part of a free one before it, whose place on the ring stays, and a free one
   * behind it becomes part of both; on its own, or with the one behind, it goes to the front of the ring.
   */
  lemma FreedIs(s: State, i: nat)
    requires Sound(s) && i < |s.cuts| - 1 && s.cuts[i] !in s.free
    ensures var t, b := Freed(s, i), s.cuts[i];
      var before, behind := i > 0 && s.cuts[i - 1] in s.free, s.cuts[i + 1] in s.free;
      && (before ==> WithoutItems(s.cuts, i, if behind then i + 2 else i + 1, t.cuts))
      && (!before ==> WithoutItems(s.cuts, i + 1, if behind then i + 2 else i + 1, t.cuts))
      && (if before then
            if behind then TakenOut(s.free, s.cuts[i + 1], t.free) else t.free == s.free
          else
            && t.free != [] && t.free[0] == b
            && if behind then TakenOut(s.free, s.cuts[i + 1], t.free[1..]) else t.free[1..] == s.free)
  {
    hide Sound, TakenOut;
    RemoveTakesOut(s.free, s.cuts[i + 1]);
    assert ([s.cuts[i]] + s.free)[1..] == s.free;
  }

  /** The end of a block that shrinks becomes a free block, together with one behind it, first on the ring. */
  lemma ShrunkIs(s: State, i: nat, n: nat)
    requires Sound(s) && i < |s.cuts| - 1
    ensures var t, x := Shrunk(s, i, n), s.cuts[i] + ITEM + n;
      && t.free != [] && t.free[0] == x
      && if s.cuts[i + 1] in s.free then
           t.cuts == s.cuts[..i + 1] + [x] + s.cuts[i + 2..] && TakenOut(s.free, s.cuts[i + 1], t.free[1..])
         else
           WithItem(s.cuts, i, x, t.cuts) && t.free[1..] == s.free
  {
    hide Sound, TakenOut;
    RemoveTakesOut(s.free, s.cuts[i + 1]);
    assert (s.cuts[..i + 1] + [s.cuts[i] + ITEM + n] + s.cuts[i + 1..])[..i + 2]
        == s.cuts[..i + 1] + [s.cuts[i] + ITEM + n];
  }

  /** A block that grows takes the place of the free one behind it, whose rest goes to the front of the ring. */
  lemma GrownIs(s: State, i: nat, n: nat)
    requires Sound(s) && i + 1 < |s.cuts| && s.cuts[i + 1] in s.free
    ensures var t, x := Grown(s, i, n), s.cuts[i] + ITEM + n;
      && t.cuts == s.cuts[..i + 1] + [x] + s.cuts[i + 2..]
      && t.free != [] && t.free[0] == x && TakenOut(s.free, s.cuts[i + 1], t.free[1..])
  {
    hide Sound, TakenOut;
    RemoveTakesOut(s.free, s.cuts[i + 1]);
  }

  /** No more is handed out than was asked for and what could not be a block of its own. */
  lemma GrantedBytes(s: State, i: nat, n: nat, m: int)
    requires Sound(s) && i < |s.cuts| - 1 && s.cuts[i] in s.free && n <= Payload(s.cuts, i) && n % 8 == 0
    requires Holds(Allocated(s, i, n), s.cuts[i], m)
    ensures n <= m < n + ITEM + MINI
  {
    hide Sound, Holds, Allocated;
    AllocatedGains(s, i, n);
  }

  // ---- By what is in the items ----

  /** A block keeps its place exactly when it is no larger than it was, or the free block behind leaves enough. */
  lemma StaysExactly(s: State, i: nat, n: nat)
    requires Sound(s) && i < |s.cuts| - 1
    ensures s.cuts[i + 1] in s.free ==> i + 2 < |s.cuts|
    ensures Stays(s, s.cuts[i], n) <==>
      || n <= s.cuts[i + 1] - s.cuts[i] - ITEM
      || (s.cuts[i + 1] in s.free && s.cuts[i + 2] - s.cuts[i] - 2 * ITEM > n + MINI)
  {
    hide Tiled, Coalesced;
    NumberOf(s, i);
    if s.cuts[i + 1] in s.free { NotTail(s, i + 1); }
  }

  lemma NotTail(s: State, i: nat)
    requires Tiled(s) && i < |s.cuts| && s.cuts[i] in s.free
    ensures i + 1 < |s.cuts|
  {}

  /** In place it grows into the free block behind, keeps an end too small to be a block, or gives the end back. */
  lemma ResizedIs(s: State, i: nat, n: nat)
    requires Sound(s) && i < |s.cuts| - 1 && Stays(s, s.cuts[i], n)
    ensures var t, x, size := Resized(s, s.cuts[i], n), s.cuts[i] + ITEM + n, s.cuts[i + 1] - s.cuts[i] - ITEM;
      && (n <= size <= n + ITEM + MINI ==> t == s)
      && (n > size || size > n + ITEM + MINI ==>
            && t.free != [] && t.free[0] == x
            && if s.cuts[i + 1] in s.free then
                 t.cuts == s.cuts[..i + 1] + [x] + s.cuts[i + 2..] && TakenOut(s.free, s.cuts[i + 1], t.free[1..])
               else
                 WithItem(s.cuts, i, x, t.cuts) && t.free[1..] == s.free)
  {
    hide Tiled, Coalesced, TakenOut;
    NumberOf(s, i);
    StaysExactly(s, i, n);
    if n > Payload(s.cuts, i) { GrownIs(s, i, n); } else { ShrunkIs(s, i, n); }
  }

  /** The first on the ring that fits is missing exactly when no free block has `n` bytes. */
  lemma NoneFits(s: State, n: nat)
    requires Sound(s)
    ensures FirstFit(s, n, |s.free|) <==>
      forall i: nat :: i < |s.cuts| - 1 && s.cuts[i] in s.free ==> s.cuts[i + 1] - s.cuts[i] - ITEM < n
  {
    hide Tiled, Coalesced, FirstFit;
    if FirstFit(s, n, |s.free|) {
      forall i: nat | i < |s.cuts| - 1 && s.cuts[i] in s.free ensures s.cuts[i + 1] - s.cuts[i] - ITEM < n {
        NumberOf(s, i);
        FitsAt(s, n, |s.free|, s.cuts[i]);
      }
    }
    if forall i: nat :: i < |s.cuts| - 1 && s.cuts[i] in s.free ==> s.cuts[i + 1] - s.cuts[i] - ITEM < n {
      forall j: nat | j < |s.free| ensures s.free[j] in s.cuts && SizeAt(s.cuts, s.free[j]) < n {
        OnRing(s, j);
        var i := IndexOf(s.cuts, s.free[j]);
        NotTail(s, i);
      }
      FitsNone(s, n);
    }
  }

  lemma OnRing(s: State, j: nat)
    requires Tiled(s) && j < |s.free|
    ensures s.free[j] in s.cuts && s.free[j] in s.free
  {
    var x := s.free[j];
    assert x in s.free;
  }

  lemma FitsAt(s: State, n: nat, k: nat, b: int)
    requires FirstFit(s, n, k) && k == |s.free| && b in s.free
    ensures b in s.cuts && SizeAt(s.cuts, b) < n
  {}

  lemma FitsNone(s: State, n: nat)
    requires forall j: nat :: j < |s.free| ==> s.free[j] in s.cuts && SizeAt(s.cuts, s.free[j]) < n
    ensures FirstFit(s, n, |s.free|)
  {}

  /** The block that is served is the first on the ring with `n` bytes. */
  lemma FirstServed(s: State, n: nat, k: nat)
    requires Sound(s) && FirstFit(s, n, k) && k < |s.free|
    ensures exists i: nat :: i < |s.cuts| - 1 && s.cuts[i] == s.free[k] && s.cuts[i + 1] - s.cuts[i] - ITEM >= n
    ensures forall j, i: nat :: 0 <= j < k && i < |s.cuts| - 1 && s.cuts[i] == s.free[j] ==>
      s.cuts[i + 1] - s.cuts[i] - ITEM < n
  {
    hide Tiled, Coalesced;
    OnRing(s, k);
    var i := IndexOf(s.cuts, s.free[k]);
    NotTail(s, i);
    forall j, i: nat | 0 <= j < k && i < |s.cuts| - 1 && s.cuts[i] == s.free[j]
      ensures s.cuts[i + 1] - s.cuts[i] - ITEM < n
    {
      NumberOf(s, i);
    }
  }
}
