/** The whole slab heap: zones, spare zones, large blocks, and the table that tells what each page is for. */
module SlabState {
  import opened Lists
  import opened SlabSizes
  import opened SlabZones

  datatype Kind = Unused | Small | Large

  datatype Usage = Usage(kind: Kind, size: nat)

  /** `blocks` is what the page allocator has handed out; one of them holds the usage table itself. */
  datatype State = State(zonePages: nat, zones: map<nat, Zone>, byIndex: seq<seq<nat>>, spare: seq<nat>,
                         large: map<nat, nat>, usage: seq<Usage>, blocks: map<nat, nat>, table: nat)

  /** The pages of a zone say how far they are from its first page. */
  ghost predicate Marked(s: State, p: nat) {
    p + s.zonePages <= |s.usage| && forall k :: 0 <= k < s.zonePages ==> s.usage[p + k] == Usage(Small, k)
  }

  ghost predicate ZoneAt(s: State, p: nat)
    requires p in s.zones
  {
    && ZoneRight(p, s.zones[p], s.zonePages) && Marked(s, p)
    && p in s.blocks && s.blocks[p] == s.zonePages && p !in s.spare && p !in s.large && p != s.table
  }

  ghost predicate SpareAt(s: State, p: nat) {
    Marked(s, p) && p in s.blocks && s.blocks[p] == s.zonePages && p !in s.zones && p !in s.large && p != s.table
  }

  ghost predicate LargeAt(s: State, p: nat)
    requires p in s.large
  {
    && p in s.blocks && s.blocks[p] == s.large[p] && p < |s.usage| && s.usage[p] == Usage(Large, s.large[p])
    && p !in s.zones && p !in s.spare && p != s.table
  }

  /** The list of an index holds exactly the zones of that index with chunks to give. */
  ghost predicate ListAt(s: State, i: nat)
    requires i < |s.byIndex|
  {
    && Distinct(s.byIndex[i])
    && (forall p: nat :: p in s.byIndex[i] <==> p in s.zones && s.zones[p].zoneIndex == i && s.zones[p].nfree > 0)
  }

  ghost predicate BlocksRight(s: State) {
    && (forall a :: a in s.blocks ==> s.blocks[a] > 0 && a + s.blocks[a] <= |s.usage|)
    && (forall a, b :: a in s.blocks && b in s.blocks && a < b ==> a + s.blocks[a] <= b)
  }

  ghost predicate Owned(s: State, a: nat) {
    a == s.table || a in s.zones || a in s.spare || a in s.large
  }

  ghost predicate Valid(s: State) {
    && |s.byIndex| == NZONES && s.zonePages > 0 && Distinct(s.spare) && BlocksRight(s) && s.table in s.blocks
    && (forall p: nat :: p in s.zones ==> ZoneAt(s, p))
    && (forall p: nat :: p in s.spare ==> SpareAt(s, p))
    && (forall p: nat :: p in s.large ==> LargeAt(s, p))
    && (forall i: nat :: i < NZONES ==> ListAt(s, i))
    && (forall a: nat :: a in s.blocks ==> Owned(s, a))
  }

  // ---- Live pointers ----

  ghost predicate LiveIn(s: State, p: nat, q: nat) {
    || (p in s.zones && LiveChunk(p, s.zones[p], q))
    || (p in s.large && q == p * PAGE)
  }

  ghost predicate Live(s: State, q: nat) {
    exists p: nat :: LiveIn(s, p, q)
  }

  ghost function Extent(s: State, p: nat): nat {
    if p in s.zones then s.zones[p].chunkSize else if p in s.large then s.large[p] * PAGE else 0
  }

  lemma LiveInside(s: State, p: nat, q: nat)
    requires Valid(s) && LiveIn(s, p, q)
    ensures p in s.blocks && p * PAGE <= q && q + Extent(s, p) <= (p + s.blocks[p]) * PAGE && Extent(s, p) > 0
  {
    if p in s.zones {
      assert ZoneAt(s, p);
      var z := s.zones[p];
      var i: nat :| i < z.uindex + 1 && q == ChunkAt(p, z, i);
      ChunksApart(p, z, s.zonePages, i, i);
    } else {
      assert LargeAt(s, p);
    }
  }

  /** What different live pointers stand for never overlaps. */
  lemma LiveApart(s: State, p: nat, q: nat, o: nat, r: nat)
    requires Valid(s) && LiveIn(s, p, q) && LiveIn(s, o, r) && q < r
    ensures q + Extent(s, p) <= r
  {
    LiveInside(s, p, q);
    LiveInside(s, o, r);
    if p == o {
      if p in s.zones {
        assert ZoneAt(s, p);
        var z := s.zones[p];
        var i: nat :| i < z.uindex + 1 && q == ChunkAt(p, z, i);
        var j: nat :| j < z.uindex + 1 && r == ChunkAt(p, z, j);
        ChunksApart(p, z, s.zonePages, i, j);
        ChunksApart(p, z, s.zonePages, j, i);
      }
    } else {
      PagesApart(s, p, o);
    }
  }

  lemma PagesApart(s: State, p: nat, o: nat)
    requires BlocksRight(s) && p in s.blocks && o in s.blocks && p != o
    ensures (p + s.blocks[p]) * PAGE <= o * PAGE || (o + s.blocks[o]) * PAGE <= p * PAGE
  {}

  /** The usage table leads from a live pointer back to its zone or its block. */
  lemma Located(s: State, p: nat, q: nat)
    requires Valid(s) && LiveIn(s, p, q)
    ensures q / PAGE < |s.usage|
    ensures p in s.zones ==> s.usage[q / PAGE].kind == Small && q / PAGE - s.usage[q / PAGE].size == p
    ensures p in s.large ==> s.usage[q / PAGE] == Usage(Large, s.large[p]) && q / PAGE == p
  {
    hide ZoneRight, LiveChunk, BlocksRight;
    LiveInside(s, p, q);
    if p in s.zones {
      assert ZoneAt(s, p);
      PageOf(q, p, s.zonePages);
      assert s.usage[p + (q / PAGE - p)] == Usage(Small, q / PAGE - p);
    } else {
      assert LargeAt(s, p);
      PageOf(q, p, 1);
    }
  }

  lemma PageOf(q: nat, p: nat, n: nat)
    requires p * PAGE <= q < (p + n) * PAGE
    ensures p <= q / PAGE < p + n
  {}

  // ---- Bytes in use ----

  ghost function Weight(s: State, p: nat): int {
    if p in s.zones then (s.zones[p].nmax - s.zones[p].nfree) * s.zones[p].chunkSize
    else if p in s.large then s.large[p] * PAGE
    else 0
  }

  ghost function Bytes(s: State, n: nat): int {
    if n == 0 then 0 else Bytes(s, n - 1) + Weight(s, n - 1)
  }

  /** Everything that live pointers stand for, in bytes. */
  ghost function InUse(s: State): int {
    Bytes(s, |s.usage|)
  }

  lemma {:induction false} BytesChanged(s: State, t: State, p: nat, n: nat)
    requires forall o: nat :: o != p ==> Weight(t, o) == Weight(s, o)
    ensures Bytes(t, n) == Bytes(s, n) + if p < n then Weight(t, p) - Weight(s, p) else 0
  {
    if n > 0 { BytesChanged(s, t, p, n - 1); }
  }
}
