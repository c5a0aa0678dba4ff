/** Which payloads are live, how many bytes are in use, and how each operation changes both. */
module SmallMemAccounting {
  import opened Common
  import opened SmallMemBlocks

  /** A live block's header lies at `at` and its payload is `len` bytes long. */
  ghost predicate LiveAt(bs: seq<Block>, at: nat, len: int) {
    exists i :: 0 <= i < |bs| - 1 && LiveBlock(bs, i, at, len)
  }

  ghost predicate LiveBlock(bs: seq<Block>, i: nat, at: nat, len: int)
    requires i < |bs| - 1
  {
    bs[i] == Block(at, false) && Payload(bs, i) == len
  }

  /** Header and payload bytes of the live blocks among the first `k`. */
  ghost function UsedTo(bs: seq<Block>, k: nat): int
    requires k < |bs|
  {
    if k == 0 then 0
    else UsedTo(bs, k - 1) + (if bs[k - 1].free then 0 else bs[k].at - bs[k - 1].at)
  }

  ghost function FreeTo(bs: seq<Block>, k: nat): int
    requires k < |bs|
  {
    if k == 0 then 0
    else FreeTo(bs, k - 1) + (if bs[k - 1].free then bs[k].at - bs[k - 1].at else 0)
  }

  ghost function Used(bs: seq<Block>): int
    requires bs != []
  {
    UsedTo(bs, |bs| - 1)
  }

  /** Conservation: used and free extents add up to the region. */
  lemma {:induction false} UsedAndFree(bs: seq<Block>, end: nat, k: nat)
    requires Tiled(bs, end) && k < |bs|
    ensures UsedTo(bs, k) + FreeTo(bs, k) == bs[k].at
    ensures k == |bs| - 1 ==> Used(bs) + FreeTo(bs, k) == end
    ensures 0 <= UsedTo(bs, k) && 0 <= FreeTo(bs, k)
  {
    if k > 0 {
      UsedAndFree(bs, end, k - 1);
      Ascending(bs, end, k - 1, k);
    }
  }

  /** Sums over the same stretch of blocks agree, wherever the stretch starts. */
  lemma {:induction false} UsedStretch(bs: seq<Block>, cs: seq<Block>, i: nat, j: nat, n: nat)
    requires i + n < |bs| && j + n < |cs|
    requires forall k {:trigger cs[k]} :: j <= k <= j + n ==> cs[k].at == bs[i + (k - j)].at
    requires forall k {:trigger cs[k]} :: j <= k < j + n ==> cs[k].free == bs[i + (k - j)].free
    ensures UsedTo(cs, j + n) - UsedTo(cs, j) == UsedTo(bs, i + n) - UsedTo(bs, i)
  {
    if n > 0 {
      UsedStretch(bs, cs, i, j, n - 1);
      assert cs[j + n].at == bs[i + n].at && cs[j + n - 1] == bs[i + n - 1];
    }
  }

  lemma MarkUsedSum(bs: seq<Block>, i: nat, free: bool)
    requires i < |bs| - 1
    ensures Used(Mark(bs, i, free)) == Used(bs)
              + (if bs[i].free then 0 else bs[i].at - bs[i + 1].at) + (if free then 0 else bs[i + 1].at - bs[i].at)
  {
    var cs := Mark(bs, i, free);
    UsedStretch(bs, cs, 0, 0, i);
    UsedStretch(bs, cs, i + 1, i + 1, |bs| - 1 - (i + 1));
  }

  lemma SplitUsedSum(bs: seq<Block>, i: nat, at: nat)
    requires i < |bs| - 1
    ensures Used(Split(bs, i, at)) == Used(bs) - (if bs[i].free then 0 else bs[i + 1].at - at)
  {
    var cs := Split(bs, i, at);
    SplitAt(bs, i, at);
    UsedStretch(bs, cs, 0, 0, i);
    UsedStretch(bs, cs, i + 1, i + 2, |bs| - 1 - (i + 1));
  }

  lemma MergeUsedSum(bs: seq<Block>, i: nat)
    requires i + 2 < |bs| && bs[i].free && bs[i + 1].free
    ensures Used(Merge(bs, i)) == Used(bs)
  {
    var cs := Merge(bs, i);
    MergeAt(bs, i);
    UsedStretch(bs, cs, 0, 0, i);
    UsedStretch(bs, cs, i + 2, i + 1, |bs| - 1 - (i + 2));
  }

  lemma MarkLive(bs: seq<Block>, end: nat, i: nat, free: bool, at: nat, len: int)
    requires Tiled(bs, end) && i < |bs| - 1
    ensures LiveAt(Mark(bs, i, free), at, len) <==>
            if at == bs[i].at then !free && len == Payload(bs, i) else LiveAt(bs, at, len)
  {
    var cs := Mark(bs, i, free);
    if LiveAt(bs, at, len) && at != bs[i].at {
      var k :| 0 <= k < |bs| - 1 && LiveBlock(bs, k, at, len);
      assert LiveBlock(cs, k, at, len);
    }
    if LiveAt(cs, at, len) {
      var k :| 0 <= k < |cs| - 1 && LiveBlock(cs, k, at, len);
      if at == bs[i].at { SameAddress(bs, end, i, k); } else { assert LiveBlock(bs, k, at, len); }
    }
    if at == bs[i].at && !free && len == Payload(bs, i) { assert LiveBlock(cs, i, at, len); }
  }

  lemma SplitLive(bs: seq<Block>, end: nat, i: nat, x: nat, at: nat, len: int)
    requires Tiled(bs, end) && i < |bs| - 1
    ensures LiveAt(Split(bs, i, x), at, len) <==>
            if at == bs[i].at then !bs[i].free && len == x - at - HEADER else LiveAt(bs, at, len)
  {
    hide Split, LiveAt;
    if LiveAt(Split(bs, i, x), at, len) {
      SplitLiveBack(bs, end, i, x, at, len);
    } else if if at == bs[i].at then !bs[i].free && len == x - at - HEADER else LiveAt(bs, at, len) {
      SplitLiveForth(bs, i, x, at, len);
    }
  }

  lemma SplitLiveForth(bs: seq<Block>, i: nat, x: nat, at: nat, len: int)
    requires i < |bs| - 1
    requires if at == bs[i].at then !bs[i].free && len == x - at - HEADER else LiveAt(bs, at, len)
    ensures LiveAt(Split(bs, i, x), at, len)
  {
    hide Split;
    var cs := Split(bs, i, x);
    SplitAt(bs, i, x);
    if at == bs[i].at {
      assert LiveBlock(cs, i, at, len);
    } else {
      var k :| 0 <= k < |bs| - 1 && LiveBlock(bs, k, at, len);
      var j := if k < i then k else k + 1;
      assert cs[j] == bs[k] && cs[j + 1] == bs[k + 1];
      assert LiveBlock(cs, j, at, len);
    }
  }

  lemma SplitLiveBack(bs: seq<Block>, end: nat, i: nat, x: nat, at: nat, len: int)
    requires Tiled(bs, end) && i < |bs| - 1 && LiveAt(Split(bs, i, x), at, len)
    ensures if at == bs[i].at then !bs[i].free && len == x - at - HEADER else LiveAt(bs, at, len)
  {
    hide Split;
    var cs := Split(bs, i, x);
    SplitAt(bs, i, x);
    var k :| 0 <= k < |cs| - 1 && LiveBlock(cs, k, at, len);
    var j := if k <= i then k else k - 1;
    assert cs[k] == bs[j];
    if at == bs[i].at {
      SameAddress(bs, end, i, j);
    } else {
      assert cs[k + 1] == bs[j + 1];
      assert LiveBlock(bs, j, at, len);
    }
  }

  lemma MergeLive(bs: seq<Block>, i: nat, at: nat, len: int)
    requires i + 2 < |bs| && bs[i].free && bs[i + 1].free
    ensures LiveAt(Merge(bs, i), at, len) <==> LiveAt(bs, at, len)
  {
    hide Merge;
    var cs := Merge(bs, i);
    MergeAt(bs, i);
    if LiveAt(bs, at, len) {
      var k :| 0 <= k < |bs| - 1 && LiveBlock(bs, k, at, len);
      var j := if k < i then k else k - 1;
      assert cs[j] == bs[k] && cs[j + 1] == bs[k + 1];
      assert LiveBlock(cs, j, at, len);
    }
    if LiveAt(cs, at, len) {
      var k :| 0 <= k < |cs| - 1 && LiveBlock(cs, k, at, len);
      var j := if k < i then k else k + 1;
      assert cs[k] == bs[j] && cs[k + 1] == bs[j + 1];
      assert LiveBlock(bs, j, at, len);
    }
  }

  // ---- The operations ----

  lemma PluggedKeeps(bs: seq<Block>, i: nat, at: nat, len: int)
    requires i < |bs| - 1 && bs[i].free && !bs[|bs| - 1].free
    ensures LiveAt(Plugged(bs, i), at, len) <==> LiveAt(bs, at, len)
    ensures Plugged(bs, i) != [] && Used(Plugged(bs, i)) == Used(bs)
  {
    var f := PluggedFront(bs, i);
    if i + 2 < |bs| && bs[i + 1].free {
      MergeLive(bs, i, at, len);
      MergeUsedSum(bs, i);
      MergeAt(bs, i);
    }
    hide Merge;
    if 0 < i && f[i - 1].free {
      MergeLive(f, i - 1, at, len);
      MergeUsedSum(f, i - 1);
    }
  }

  /** Allocation adds exactly one live block and its extent. */
  lemma AllocatedLive(bs: seq<Block>, end: nat, i: nat, size: nat, at: nat, len: int)
    requires Tiled(bs, end) && i < |bs| - 1 && bs[i].free && Payload(bs, i) >= size
    requires Aligned(size) && size >= MIN_SIZE_ALIGNED
    ensures var r := Allocated(bs, i, size);
      && |r| > i + 1
      && (LiveAt(r, at, len) <==> if at == bs[i].at then len == Payload(r, i) else LiveAt(bs, at, len))
      && Used(r) == Used(bs) + HEADER + Payload(r, i)
  {
    hide LiveAt, Used, Tiled, Split;
    if Payload(bs, i) >= size + HEADER + MIN_SIZE_ALIGNED {
      var x := bs[i].at + HEADER + size;
      SplitAt(bs, i, x);
      BlockAligned(bs, end, i);
      AlignedSum(bs[i].at, size);
      SplitTiled(bs, end, i, x);
      var cs := Split(bs, i, x);
      SplitUsedSum(bs, i, x);
      MarkUsedSum(cs, i, false);
      SplitLive(bs, end, i, x, at, len);
      MarkLive(cs, end, i, false, at, len);
    } else {
      MarkLive(bs, end, i, false, at, len);
      MarkUsedSum(bs, i, false);
    }
  }

  /** Freeing removes exactly one live block and its extent. */
  lemma FreedLive(bs: seq<Block>, end: nat, i: nat, at: nat, len: int)
    requires Tiled(bs, end) && i < |bs| - 1 && !bs[i].free
    ensures LiveAt(Freed(bs, i), at, len) <==> at != bs[i].at && LiveAt(bs, at, len)
    ensures Freed(bs, i) != [] && Used(Freed(bs, i)) == Used(bs) - HEADER - Payload(bs, i)
  {
    hide LiveAt, Used, Plugged;
    MarkLive(bs, end, i, true, at, len);
    MarkUsedSum(bs, i, true);
    LastBlock(bs, end);
    PluggedKeeps(Mark(bs, i, true), i, at, len);
  }

  /** Shrinking cuts one live payload to exactly `size` bytes. */
  lemma ShrunkLive(bs: seq<Block>, end: nat, i: nat, size: nat, at: nat, len: int)
    requires Tiled(bs, end) && i < |bs| - 1 && !bs[i].free
    ensures LiveAt(Shrunk(bs, i, size), at, len) <==> if at == bs[i].at then len == size else LiveAt(bs, at, len)
    ensures Shrunk(bs, i, size) != [] && Used(Shrunk(bs, i, size)) == Used(bs) - (Payload(bs, i) - size)
  {
    hide LiveAt, Used, Plugged, Split;
    var x := bs[i].at + HEADER + size;
    SplitAt(bs, i, x);
    SplitLive(bs, end, i, x, at, len);
    SplitUsedSum(bs, i, x);
    LastBlock(bs, end);
    PluggedKeeps(Split(bs, i, x), i + 1, at, len);
  }

  // ---- What the invariant says about live payloads ----

  /** Two live payloads never overlap, nor does a payload overlap a header. */
  lemma LiveDisjoint(bs: seq<Block>, end: nat, a: nat, m: int, b: nat, n: int)
    requires Tiled(bs, end) && LiveAt(bs, a, m) && LiveAt(bs, b, n) && a != b
    ensures a + HEADER + m <= b || b + HEADER + n <= a
  {
    var i :| 0 <= i < |bs| - 1 && LiveBlock(bs, i, a, m);
    var j :| 0 <= j < |bs| - 1 && LiveBlock(bs, j, b, n);
    if i < j {
      if i + 1 < j { Ascending(bs, end, i + 1, j); }
    } else {
      if j + 1 < i { Ascending(bs, end, j + 1, i); }
    }
  }

  /** A live payload is aligned, at least one alignment unit long and inside the region. */
  lemma LiveInside(bs: seq<Block>, end: nat, a: nat, m: int)
    requires Tiled(bs, end) && LiveAt(bs, a, m)
    ensures (a + HEADER) % RT_ALIGN_SIZE == 0 && RT_ALIGN_SIZE <= m && a + HEADER + m <= end
  {
    var i :| 0 <= i < |bs| - 1 && LiveBlock(bs, i, a, m);
    if i + 1 < |bs| - 1 { Ascending(bs, end, i + 1, |bs| - 1); }
    assert Aligned(bs[i].at);
  }

  ghost predicate NothingLive(bs: seq<Block>) {
    forall i :: 0 <= i < |bs| - 1 ==> bs[i].free
  }

  /** A coalesced heap with nothing live is the one initial free block, and nothing is in use. */
  lemma NothingLiveInitial(bs: seq<Block>, end: nat)
    requires Canonical(bs, end) && NothingLive(bs)
    ensures bs == [Block(0, true), Block(end, false)] && Used(bs) == 0
  {
    if |bs| > 2 { NextUsed(bs, 0); }
    assert bs == [bs[0], bs[1]];
    assert UsedTo(bs, 1) == UsedTo(bs, 0);
  }
}
