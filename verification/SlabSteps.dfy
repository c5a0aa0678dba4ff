/** What allocation and release do to the slab heap, one step at a time. */
module SlabSteps {
  import opened Lists
  import opened SlabSizes
  import opened SlabZones
  import opened SlabState

  /** `q` became a live pointer, and nothing else changed for the others. */
  ghost predicate OneMore(s: State, n: State, q: nat) {
    !Live(s, q) && forall r: nat :: Live(n, r) <==> Live(s, r) || r == q
  }

  ghost predicate OneLess(s: State, n: State, q: nat) {
    Live(s, q) && forall r: nat :: Live(n, r) <==> Live(s, r) && r != q
  }

  ghost predicate SameLive(s: State, n: State) {
    forall r: nat :: Live(n, r) <==> Live(s, r)
  }

  /** Zones and large blocks other than `p` are as they were. */
  ghost predicate SameBut(s: State, n: State, p: nat) {
    && (forall o: nat :: o != p ==> (o in n.zones <==> o in s.zones) && (o in n.large <==> o in s.large))
    && (forall o: nat :: o != p && o in s.zones ==> n.zones[o] == s.zones[o])
    && (forall o: nat :: o != p && o in s.large ==> n.large[o] == s.large[o])
  }

  lemma LiveElsewhere(s: State, n: State, p: nat, r: nat)
    requires SameBut(s, n, p)
    ensures Live(n, r) <==> LiveIn(n, p, r) || exists o: nat :: o != p && LiveIn(s, o, r)
    ensures Live(s, r) <==> LiveIn(s, p, r) || exists o: nat :: o != p && LiveIn(s, o, r)
  {
    hide LiveChunk;
    assert forall o: nat :: o != p ==> (LiveIn(n, o, r) <==> LiveIn(s, o, r));
  }

  lemma BecomesLive(s: State, n: State, p: nat, q: nat)
    requires SameBut(s, n, p) && !Live(s, q) && forall r: nat :: LiveIn(n, p, r) <==> LiveIn(s, p, r) || r == q
    ensures OneMore(s, n, q)
  {
    hide LiveIn;
    forall r: nat ensures Live(n, r) <==> Live(s, r) || r == q { LiveElsewhere(s, n, p, r); }
  }

  lemma BecomesFree(s: State, n: State, p: nat, q: nat)
    requires Valid(s) && SameBut(s, n, p) && LiveIn(s, p, q)
    requires forall r: nat :: LiveIn(n, p, r) <==> LiveIn(s, p, r) && r != q
    ensures OneLess(s, n, q)
  {
    forall r: nat ensures Live(n, r) <==> Live(s, r) && r != q {
      LiveElsewhere(s, n, p, r);
      if r == q { OnlyIn(s, p, q); }
    }
  }

  /** A live pointer lies in one block only. */
  lemma OnlyIn(s: State, p: nat, q: nat)
    requires Valid(s) && LiveIn(s, p, q)
    ensures forall o: nat :: LiveIn(s, o, q) ==> o == p
  {
    hide LiveIn, ZoneAt, LargeAt, SpareAt, ListAt, Owned, Distinct;
    forall o: nat | LiveIn(s, o, q) ensures o == p {
      LiveInside(s, p, q);
      LiveInside(s, o, q);
      if o != p { PagesApart(s, p, o); }
    }
  }

  lemma StaysLive(s: State, n: State, p: nat)
    requires SameBut(s, n, p) && forall r: nat :: LiveIn(n, p, r) <==> LiveIn(s, p, r)
    ensures SameLive(s, n)
  {
    hide LiveIn;
    forall r: nat ensures Live(n, r) <==> Live(s, r) { LiveElsewhere(s, n, p, r); }
  }

  lemma BytesElsewhere(s: State, n: State, p: nat)
    requires SameBut(s, n, p) && |n.usage| == |s.usage| && p < |s.usage|
    ensures InUse(n) == InUse(s) + Weight(n, p) - Weight(s, p)
  {
    BytesChanged(s, n, p, |s.usage|);
  }

  /** Nothing in pages that are not in use is live. */
  lemma NotLiveIn(s: State, n: State, p: nat, q: nat)
    requires Valid(s) && BlocksRight(n) && p in n.blocks && |n.usage| == |s.usage|
    requires forall a: nat :: a in s.blocks && a != p ==> a in n.blocks && n.blocks[a] == s.blocks[a]
    requires p * PAGE <= q < (p + n.blocks[p]) * PAGE && !LiveIn(s, p, q)
    ensures !Live(s, q)
  {
    hide LiveIn, ZoneAt, LargeAt, SpareAt, ListAt, Owned, Distinct;
    forall o: nat | LiveIn(s, o, q) ensures o == p {
      LiveInside(s, o, q);
      if o != p { PagesApart(n, p, o); }
    }
  }

  lemma OwnersInBlocks(s: State)
    requires Valid(s)
    ensures forall p: nat :: p in s.zones || p in s.spare || p in s.large ==> p in s.blocks
  {
    forall p: nat | p in s.zones || p in s.spare || p in s.large ensures p in s.blocks {
      if p in s.zones { assert ZoneAt(s, p); }
      else if p in s.spare { assert SpareAt(s, p); }
      else { assert LargeAt(s, p); }
    }
  }

  // ---- Large blocks ----

  ghost function LargeTaken(s: State, p: nat, n: nat): State
    requires p < |s.usage|
  {
    s.(large := s.large[p := n], blocks := s.blocks[p := n], usage := s.usage[p := Usage(Large, n)])
  }

  ghost function LargeGiven(s: State, p: nat): State
    requires p < |s.usage|
  {
    s.(large := s.large - {p}, blocks := s.blocks - {p}, usage := s.usage[p := Usage(Large, 0)])
  }

  /** Writing the usage of a page outside a zone leaves the marks of the zone alone. */
  lemma MarkedStill(s: State, n: State, p: nat, z: nat)
    requires Marked(s, z) && n.zonePages == s.zonePages && |n.usage| == |s.usage|
    requires forall k: nat :: k < |s.usage| && (k < p || k >= p + 1) ==> n.usage[k] == s.usage[k]
    requires p < z || z + s.zonePages <= p
    ensures Marked(n, z)
  {}

  lemma LargeTakenValid(s: State, p: nat, n: nat)
    requires Valid(s) && p !in s.blocks && p < |s.usage| && BlocksRight(LargeTaken(s, p, n))
    ensures Valid(LargeTaken(s, p, n)) && OneMore(s, LargeTaken(s, p, n), p * PAGE)
    ensures InUse(LargeTaken(s, p, n)) == InUse(s) + n * PAGE
  {
    hide ZoneRight, Distinct, LiveChunk, BlocksRight, Marked;
    var t := LargeTaken(s, p, n);
    OwnersInBlocks(s);
    forall z: nat | z in t.zones ensures ZoneAt(t, z) {
      assert ZoneAt(s, z);
      BlocksApart(t, z, p);
      MarkedStill(s, t, p, z);
    }
    forall z: nat | z in t.spare ensures SpareAt(t, z) {
      assert SpareAt(s, z);
      BlocksApart(t, z, p);
      MarkedStill(s, t, p, z);
    }
    forall o: nat | o in t.large ensures LargeAt(t, o) { if o != p { assert LargeAt(s, o); } }
    forall i: nat | i < NZONES ensures ListAt(t, i) { assert ListAt(s, i); }
    forall a: nat | a in t.blocks ensures Owned(t, a) { if a != p { assert Owned(s, a); } }
    BlocksApart(t, p, p);
    NotLiveIn(s, t, p, p * PAGE);
    BecomesLive(s, t, p, p * PAGE);
    BytesElsewhere(s, t, p);
  }

  lemma BlocksApart(s: State, a: nat, b: nat)
    requires BlocksRight(s) && a in s.blocks && b in s.blocks
    ensures s.blocks[a] > 0 && a + s.blocks[a] <= |s.usage| && (a < b ==> a + s.blocks[a] <= b)
  {}

  lemma LargeGivenValid(s: State, p: nat)
    requires Valid(s) && p in s.large
    ensures p < |s.usage| && p in s.blocks && Valid(LargeGiven(s, p)) && OneLess(s, LargeGiven(s, p), p * PAGE)
    ensures InUse(LargeGiven(s, p)) == InUse(s) - s.large[p] * PAGE
  {
    hide ZoneRight, Distinct, LiveChunk, BlocksRight, Marked;
    assert LargeAt(s, p);
    var t := LargeGiven(s, p);
    forall z: nat | z in t.zones ensures ZoneAt(t, z) {
      assert ZoneAt(s, z);
      BlocksApart(s, z, p);
      MarkedStill(s, t, p, z);
    }
    forall z: nat | z in t.spare ensures SpareAt(t, z) {
      assert SpareAt(s, z);
      BlocksApart(s, z, p);
      MarkedStill(s, t, p, z);
    }
    forall o: nat | o in t.large ensures LargeAt(t, o) { assert LargeAt(s, o); }
    forall i: nat | i < NZONES ensures ListAt(t, i) { assert ListAt(s, i); }
    forall a: nat | a in t.blocks ensures Owned(t, a) { assert Owned(s, a); }
    FewerBlocks(s, t);
    BecomesFree(s, t, p, p * PAGE);
    BytesElsewhere(s, t, p);
  }

  lemma FewerBlocks(s: State, t: State)
    requires BlocksRight(s) && |t.usage| == |s.usage|
    requires forall a :: a in t.blocks ==> a in s.blocks && t.blocks[a] == s.blocks[a]
    ensures BlocksRight(t)
  {}

  // ---- Chunks ----

  ghost function WithZone(s: State, p: nat, z: Zone, row: seq<nat>): State
    requires z.zoneIndex < |s.byIndex|
  {
    s.(zones := s.zones[p := z], byIndex := s.byIndex[z.zoneIndex := row])
  }

  /** A chunk is taken from the zone at `p`; a zone with nothing left leaves its list. */
  ghost function Taken(s: State, p: nat): State
    requires Valid(s) && p in s.zones && s.zones[p].nfree > 0
  {
    TakeReady(s, p);
    var z := Take(p, s.zones[p]).0;
    WithZone(s, p, z, if z.nfree == 0 then Remove(s.byIndex[z.zoneIndex], p) else s.byIndex[z.zoneIndex])
  }

  lemma TakeReady(s: State, p: nat)
    requires Valid(s) && p in s.zones && s.zones[p].nfree > 0
    ensures ZoneRight(p, s.zones[p], s.zonePages) && s.zones[p].zoneIndex < |s.byIndex|
    ensures s.zones[p].uindex + 1 == s.zones[p].nmax ==> s.zones[p].free != []
  {
    assert ZoneAt(s, p);
    TakeRight(p, s.zones[p], s.zonePages);
  }

  /** A chunk comes back to the zone at `p`; a zone that had nothing left rejoins its list, in front. */
  ghost function Given(s: State, p: nat, q: nat): State
    requires Valid(s) && p in s.zones
  {
    assert ZoneAt(s, p);
    var z := Give(s.zones[p], q);
    WithZone(s, p, z, if s.zones[p].nfree == 0 then [p] + s.byIndex[z.zoneIndex] else s.byIndex[z.zoneIndex])
  }

  /** Writing one zone, and the list of its index to match, keeps everything. */
  lemma WithZoneValid(s: State, p: nat, z: Zone, row: seq<nat>)
    requires Valid(s) && p in s.zones && ZoneRight(p, z, s.zonePages) && z.zoneIndex == s.zones[p].zoneIndex
    requires Distinct(row)
    requires forall o: nat :: o in row <==> if o == p then z.nfree > 0 else o in s.byIndex[z.zoneIndex]
    ensures Valid(WithZone(s, p, z, row))
  {
    hide ZoneRight, Distinct, LiveChunk, BlocksRight, Marked;
    IndexInRange(s, p);
    var t := WithZone(s, p, z, row);
    forall o: nat | o in t.zones ensures ZoneAt(t, o) {
      assert ZoneAt(s, o);
      SameMarks(s, t, o);
    }
    forall o: nat | o in t.spare ensures SpareAt(t, o) {
      assert SpareAt(s, o);
      SameMarks(s, t, o);
    }
    forall o: nat | o in t.large ensures LargeAt(t, o) { assert LargeAt(s, o); }
    forall i: nat | i < NZONES ensures ListAt(t, i) { assert ListAt(s, i); }
    forall a: nat | a in t.blocks ensures Owned(t, a) { assert Owned(s, a); }
    FewerBlocks(s, t);
  }

  lemma IndexInRange(s: State, p: nat)
    requires Valid(s) && p in s.zones
    ensures s.zones[p].zoneIndex < NZONES == |s.byIndex| && ListAt(s, s.zones[p].zoneIndex)
  {
    assert ZoneAt(s, p);
  }

  lemma SameMarks(s: State, t: State, p: nat)
    requires Marked(s, p) && t.usage == s.usage && t.zonePages == s.zonePages
    ensures Marked(t, p)
  {}

  lemma ZoneSameBut(s: State, p: nat, z: Zone, row: seq<nat>)
    requires p in s.zones && z.zoneIndex < |s.byIndex|
    ensures SameBut(s, WithZone(s, p, z, row), p)
  {}

  lemma ListWithout(s: State, p: nat)
    requires Valid(s) && p in s.zones
    ensures s.zones[p].zoneIndex < |s.byIndex|
    ensures var row := s.byIndex[s.zones[p].zoneIndex];
      && Distinct(Remove(row, p)) && Distinct(row) && (p in row <==> s.zones[p].nfree > 0)
        && (p !in row ==> Distinct([p] + row))
      && forall o: nat :: o in Remove(row, p) <==> o in row && o != p
  {
    IndexInRange(s, p);
    RemoveMembers(s.byIndex[s.zones[p].zoneIndex], p);
  }

  lemma TakenValid(s: State, p: nat)
    requires Valid(s) && p in s.zones && s.zones[p].nfree > 0
    ensures s.zones[p].uindex + 1 == s.zones[p].nmax ==> s.zones[p].free != []
    ensures Valid(Taken(s, p)) && OneMore(s, Taken(s, p), Take(p, s.zones[p]).1)
    ensures InUse(Taken(s, p)) == InUse(s) + s.zones[p].chunkSize
  {
    hide ZoneRight, Distinct, LiveChunk, BlocksRight, Marked, ZoneAt, Remove;
    TakeReady(s, p);
    var z := s.zones[p];
    var (n, c) := Take(p, z);
    TakeRight(p, z, s.zonePages);
    ListWithout(s, p);
    WithZoneValid(s, p, n, if n.nfree == 0 then Remove(s.byIndex[n.zoneIndex], p) else s.byIndex[n.zoneIndex]);
    ZoneSameBut(s, p, n, if n.nfree == 0 then Remove(s.byIndex[n.zoneIndex], p) else s.byIndex[n.zoneIndex]);
    TakenInside(s, p);
    NotLiveIn(s, s, p, c);
    assert forall r: nat :: LiveIn(Taken(s, p), p, r) <==> LiveIn(s, p, r) || r == c;
    BecomesLive(s, Taken(s, p), p, c);
    BytesElsewhere(s, Taken(s, p), p);
    OneChunk(z.nmax, z.nfree, z.chunkSize);
  }

  /** A chunk that is taken lies in the pages of its zone. */
  lemma TakenInside(s: State, p: nat)
    requires Valid(s) && p in s.zones && s.zones[p].nfree > 0
    requires s.zones[p].uindex + 1 == s.zones[p].nmax ==> s.zones[p].free != []
    ensures p in s.blocks && p < |s.usage| && p !in s.large
    ensures p * PAGE <= Take(p, s.zones[p]).1 < (p + s.blocks[p]) * PAGE && !LiveIn(s, p, Take(p, s.zones[p]).1)
  {
    hide Distinct, LiveChunk;
    assert ZoneAt(s, p);
    var z := s.zones[p];
    TakeRight(p, z, s.zonePages);
    BlocksApart(s, p, p);
    if z.uindex + 1 != z.nmax {
      ChunksApart(p, z, s.zonePages, z.uindex + 1, z.uindex + 1);
    } else {
      assert HandedOut(p, z, z.free[0]);
      var i: nat :| i < z.uindex + 1 && z.free[0] == ChunkAt(p, z, i);
      ChunksApart(p, z, s.zonePages, i, i);
    }
  }

  lemma OneChunk(nmax: nat, nfree: nat, c: nat)
    ensures (nmax - (nfree - 1)) * c == (nmax - nfree) * c + c
    ensures (nmax - (nfree + 1)) * c == (nmax - nfree) * c - c
  {}

  lemma GivenValid(s: State, p: nat, q: nat)
    requires Valid(s) && p in s.zones && LiveIn(s, p, q)
    ensures Valid(Given(s, p, q)) && OneLess(s, Given(s, p, q), q) && s.zones[p].nfree < s.zones[p].nmax
    ensures InUse(Given(s, p, q)) == InUse(s) - s.zones[p].chunkSize
  {
    hide ZoneRight, Distinct, LiveChunk, BlocksRight, Marked, Remove;
    assert ZoneAt(s, p);
    hide ZoneAt;
    var z := s.zones[p];
    var n := Give(z, q);
    GiveRight(p, z, s.zonePages, q);
    ListWithout(s, p);
    var row := if z.nfree == 0 then [p] + s.byIndex[z.zoneIndex] else s.byIndex[z.zoneIndex];
    WithZoneValid(s, p, n, row);
    ZoneSameBut(s, p, n, row);
    BlocksApart(s, p, p);
    assert forall r: nat :: LiveIn(Given(s, p, q), p, r) <==> LiveIn(s, p, r) && r != q;
    BecomesFree(s, Given(s, p, q), p, q);
    BytesElsewhere(s, Given(s, p, q), p);
    OneChunk(z.nmax, z.nfree, z.chunkSize);
  }

  // ---- Whole zones ----

  ghost function PagesMarked(usage: seq<Usage>, p: nat, n: nat, kind: Kind): (u: seq<Usage>)
    requires p + n <= |usage|
    ensures |u| == |usage|
    ensures forall o :: p <= o < p + n ==> u[o] == Usage(kind, if kind == Small then o - p else 0)
    ensures forall o :: 0 <= o < |usage| && !(p <= o < p + n) ==> u[o] == usage[o]
  {
    seq(|usage|, o requires 0 <= o < |usage| =>
      if p <= o < p + n then Usage(kind, if kind == Small then o - p else 0) else usage[o])
  }

  /** Pages for a zone, not yet used for one. */
  ghost function Spared(s: State, p: nat): State
    requires p + s.zonePages <= |s.usage|
  {
    s.(blocks := s.blocks[p := s.zonePages], spare := [p] + s.spare,
      usage := PagesMarked(s.usage, p, s.zonePages, Small))
  }

  /** The first spare zone goes back to the page allocator. */
  ghost function Released(s: State): State
    requires s.spare != [] && s.spare[0] + s.zonePages <= |s.usage|
  {
    s.(blocks := s.blocks - {s.spare[0]}, spare := s.spare[1..],
       usage := PagesMarked(s.usage, s.spare[0], s.zonePages, Unused))
  }

  function Capacity(total: nat, offset: nat, chunk: nat): nat {
    if chunk > 0 && total > offset then (total - offset) / chunk else 0
  }

  /** A new zone, of which the first chunk is handed out at once. */
  function NewZone(i: nat, zonePages: nat): Zone {
    var chunk := ChunkOf(i);
    var offset := if chunk > 0 then Offset(chunk) else 0;
    var nmax := Capacity(zonePages * PAGE, offset, chunk);
    Zone(nmax, if nmax > 0 then nmax - 1 else 0, 0, chunk, i, offset, [])
  }

  /** The first spare zone becomes a zone of index `i`. */
  ghost function Opened(s: State, i: nat): State
    requires s.spare != [] && i < |s.byIndex|
  {
    WithZone(s, s.spare[0], NewZone(i, s.zonePages), [s.spare[0]] + s.byIndex[i]).(spare := s.spare[1..])
  }

  /** A zone without live chunks becomes spare. */
  ghost function Closed(s: State, p: nat): State
    requires p in s.zones && s.zones[p].zoneIndex < |s.byIndex|
  {
    var i := s.zones[p].zoneIndex;
    s.(zones := s.zones - {p}, byIndex := s.byIndex[i := Remove(s.byIndex[i], p)], spare := [p] + s.spare)
  }

  lemma MarkedApart(s: State, n: State, p: nat, z: nat)
    requires Marked(s, z) && n.zonePages == s.zonePages && |n.usage| == |s.usage|
    requires forall o: nat :: o < |s.usage| && !(p <= o < p + s.zonePages) ==> n.usage[o] == s.usage[o]
    requires p + s.zonePages <= z || z + s.zonePages <= p
    ensures Marked(n, z)
  {}

  lemma LargeApart(s: State, n: State, p: nat, o: nat)
    requires Valid(s) && o in s.large && n.large == s.large && n.zones == s.zones && n.table == s.table
      && |n.usage| == |s.usage|
    requires forall a: nat :: a < |s.usage| && !(p <= a < p + s.zonePages) ==> n.usage[a] == s.usage[a]
    requires (o < p || p + s.zonePages <= o) && o !in n.spare && o in n.blocks && n.blocks[o] == s.blocks[o]
    ensures LargeAt(n, o)
  {
    assert LargeAt(s, o);
  }

  lemma SparedValid(s: State, p: nat)
    requires Valid(s) && p !in s.blocks && p + s.zonePages <= |s.usage| && BlocksRight(Spared(s, p))
    ensures Valid(Spared(s, p)) && SameLive(s, Spared(s, p)) && InUse(Spared(s, p)) == InUse(s)
  {
    hide ZoneRight, LiveChunk, BlocksRight, Marked;
    var t := Spared(s, p);
    OwnersInBlocks(s);
    FreshMarked(t, p);
    assert Distinct(t.spare) by { assert p !in s.spare; }
    hide Distinct;
    forall z: nat | z in t.zones ensures ZoneAt(t, z) {
      assert ZoneAt(s, z);
      BlocksApart(t, z, p);
      BlocksApart(t, p, z);
      MarkedApart(s, t, p, z);
    }
    forall z: nat | z in t.spare ensures SpareAt(t, z) {
      if z != p {
        assert SpareAt(s, z);
        BlocksApart(t, z, p);
        BlocksApart(t, p, z);
        MarkedApart(s, t, p, z);
      }
    }
    forall o: nat | o in t.large ensures LargeAt(t, o) {
      BlocksApart(t, p, o);
      LargeApart(s, t, p, o);
    }
    forall i: nat | i < NZONES ensures ListAt(t, i) { assert ListAt(s, i); }
    forall a: nat | a in t.blocks ensures Owned(t, a) { if a != p { assert Owned(s, a); } }
    StaysLive(s, t, p);
    BlocksApart(t, p, p);
    BytesElsewhere(s, t, p);
  }

  lemma FreshMarked(t: State, p: nat)
    requires p + t.zonePages <= |t.usage| && forall o :: p <= o < p + t.zonePages ==> t.usage[o] == Usage(Small, o - p)
    ensures Marked(t, p)
  {}

  lemma ReleasedValid(s: State)
    requires Valid(s) && s.spare != []
    ensures s.spare[0] in s.blocks && s.spare[0] + s.zonePages <= |s.usage| && s.blocks[s.spare[0]] == s.zonePages
    ensures Valid(Released(s)) && SameLive(s, Released(s)) && InUse(Released(s)) == InUse(s)
  {
    hide ZoneRight, LiveChunk, BlocksRight, Distinct, Marked;
    assert SpareAt(s, s.spare[0]);
    MarkedFits(s, s.spare[0]);
    var p, t := s.spare[0], Released(s);
    RestDistinct(s.spare);
    BlocksApart(s, p, p);
    forall z: nat | z in t.zones ensures ZoneAt(t, z) {
      assert ZoneAt(s, z);
      BlocksApart(s, z, p);
      BlocksApart(s, p, z);
      MarkedApart(s, t, p, z);
    }
    forall z: nat | z in t.spare ensures SpareAt(t, z) {
      assert SpareAt(s, z);
      BlocksApart(s, z, p);
      BlocksApart(s, p, z);
      MarkedApart(s, t, p, z);
    }
    forall o: nat | o in t.large ensures LargeAt(t, o) {
      assert LargeAt(s, o);
      BlocksApart(s, p, o);
      LargeApart(s, t, p, o);
    }
    forall i: nat | i < NZONES ensures ListAt(t, i) { assert ListAt(s, i); }
    forall a: nat | a in t.blocks ensures Owned(t, a) { assert Owned(s, a); }
    FewerBlocks(s, t);
    ReleasedLive(s);
  }

  lemma ReleasedLive(s: State)
    requires Valid(s) && s.spare != [] && s.spare[0] + s.zonePages <= |s.usage|
    ensures SameLive(s, Released(s)) && InUse(Released(s)) == InUse(s)
  {
    hide LiveChunk, BlocksRight, Marked, Distinct, ListAt, ZoneAt, LargeAt, Owned, InUse, Bytes, PagesMarked;
    StaysLive(s, Released(s), s.spare[0]);
    BytesElsewhere(s, Released(s), s.spare[0]);
  }

  lemma MarkedFits(s: State, p: nat)
    requires Marked(s, p)
    ensures p + s.zonePages <= |s.usage|
  {}

  lemma RestDistinct(row: seq<nat>)
    requires Distinct(row) && row != []
    ensures Distinct(row[1..]) && row[0] !in row[1..] && forall p: nat :: p in row <==> p == row[0] || p in row[1..]
  {
    assert row == [row[0]] + row[1..];
  }

  /** A chunk size of at most a quarter of the zone leaves room for the header and two chunks. */
  lemma NewZoneRight(p: nat, i: nat, zonePages: nat)
    requires i < NZONES && zonePages >= 8 && 4 * ChunkOf(i) <= zonePages * PAGE
    ensures var z := NewZone(i, zonePages);
      && ZoneRight(p, z, zonePages) && z.nfree == z.nmax - 1 && z.nfree > 0
      && forall q: nat :: LiveChunk(p, z, q) <==> q == ChunkAt(p, z, 0)
  {
    var z := NewZone(i, zonePages);
    ChunkGrows(i, i + 1);
    Quotient(zonePages * PAGE - z.offset, z.chunkSize);
    FitsTwo((zonePages * PAGE - z.offset) / z.chunkSize, z.chunkSize, zonePages * PAGE - z.offset);
    forall q: nat ensures AmongFirst(p, z, q, 1) <==> q == ChunkAt(p, z, 0) { MoreFirst(p, z, q, 0); }
  }

  lemma FitsTwo(k: nat, c: nat, room: nat)
    requires c > 0 && room < k * c + c && room >= 2 * c
    ensures k >= 2
  {
    if k < 2 { Spacing(k, 2, c); }
  }

  lemma OpenedValid(s: State, i: nat)
    requires Valid(s) && s.spare != [] && i < NZONES && s.zonePages >= 8 && 4 * ChunkOf(i) <= s.zonePages * PAGE
    ensures Valid(Opened(s, i)) && InUse(Opened(s, i)) == InUse(s) + ChunkOf(i)
    ensures OneMore(s, Opened(s, i), ChunkAt(s.spare[0], NewZone(i, s.zonePages), 0))
  {
    hide ZoneRight, LiveChunk, BlocksRight, Marked, NewZone;
    var p, z, t := s.spare[0], NewZone(i, s.zonePages), Opened(s, i);
    assert SpareAt(s, p) && ListAt(s, i);
    NewZoneRight(p, i, s.zonePages);
    NewZoneIndex(i, s.zonePages);
    RestDistinct(s.spare);
    assert Distinct(t.byIndex[i]) by { assert p !in s.byIndex[i]; }
    hide Distinct;
    forall o: nat | o in t.zones ensures ZoneAt(t, o) {
      if o != p { assert ZoneAt(s, o); }
      SameMarks(s, t, o);
    }
    forall o: nat | o in t.spare ensures SpareAt(t, o) {
      assert SpareAt(s, o);
      SameMarks(s, t, o);
    }
    forall o: nat | o in t.large ensures LargeAt(t, o) { assert LargeAt(s, o); }
    forall j: nat | j < NZONES ensures ListAt(t, j) { assert ListAt(s, j); }
    forall a: nat | a in t.blocks ensures Owned(t, a) { assert Owned(s, a); }
    FewerBlocks(s, t);
    OpenedLive(s, i);
  }

  lemma OpenedLive(s: State, i: nat)
    requires Valid(s) && s.spare != [] && i < NZONES && s.zonePages >= 8 && 4 * ChunkOf(i) <= s.zonePages * PAGE
    ensures InUse(Opened(s, i)) == InUse(s) + ChunkOf(i)
    ensures OneMore(s, Opened(s, i), ChunkAt(s.spare[0], NewZone(i, s.zonePages), 0))
  {
    hide ZoneRight, LiveChunk, BlocksRight, Marked, NewZone, Distinct, ListAt, ZoneAt, LargeAt, Owned, InUse, Bytes,
      ChunkOf;
    var p, z, t := s.spare[0], NewZone(i, s.zonePages), Opened(s, i);
    assert SpareAt(s, p);
    NewZoneRight(p, i, s.zonePages);
    NewZoneIndex(i, s.zonePages);
    BlocksApart(s, p, p);
    FirstInside(p, z, s.zonePages);
    NotLiveIn(s, s, p, ChunkAt(p, z, 0));
    BecomesLive(s, t, p, ChunkAt(p, z, 0));
    BytesElsewhere(s, t, p);
    OneChunk(z.nmax, z.nmax, z.chunkSize);
  }

  lemma NewZoneIndex(i: nat, zonePages: nat)
    ensures NewZone(i, zonePages).zoneIndex == i && NewZone(i, zonePages).chunkSize == ChunkOf(i)
  {}

  lemma FirstInside(p: nat, z: Zone, zonePages: nat)
    requires ZoneRight(p, z, zonePages)
    ensures p * PAGE <= ChunkAt(p, z, 0) < (p + zonePages) * PAGE
  {
    ChunksApart(p, z, zonePages, 0, 0);
  }

  lemma ClosedValid(s: State, p: nat)
    requires Valid(s) && p in s.zones && s.zones[p].nfree == s.zones[p].nmax
    ensures s.zones[p].zoneIndex < |s.byIndex|
    ensures Valid(Closed(s, p)) && SameLive(s, Closed(s, p)) && InUse(Closed(s, p)) == InUse(s)
  {
    hide ZoneRight, LiveChunk, BlocksRight, Marked, Remove;
    assert ZoneAt(s, p);
    ListWithout(s, p);
    var t := Closed(s, p);
    assert Distinct(t.spare) by { assert p !in s.spare; }
    hide Distinct;
    forall o: nat | o in t.zones ensures ZoneAt(t, o) {
      assert ZoneAt(s, o);
      SameMarks(s, t, o);
    }
    forall o: nat | o in t.spare ensures SpareAt(t, o) {
      if o != p { assert SpareAt(s, o); }
      SameMarks(s, t, o);
    }
    forall o: nat | o in t.large ensures LargeAt(t, o) { assert LargeAt(s, o); }
    forall i: nat | i < NZONES ensures ListAt(t, i) { assert ListAt(s, i); }
    forall a: nat | a in t.blocks ensures Owned(t, a) { assert Owned(s, a); }
    FewerBlocks(s, t);
    ClosedLive(s, p);
  }

  lemma ClosedLive(s: State, p: nat)
    requires Valid(s) && p in s.zones && s.zones[p].nfree == s.zones[p].nmax && s.zones[p].zoneIndex < |s.byIndex|
    ensures SameLive(s, Closed(s, p)) && InUse(Closed(s, p)) == InUse(s)
  {
    hide ZoneRight, LiveChunk, BlocksRight, Marked, Remove, Distinct, ListAt, SpareAt, LargeAt, Owned, InUse, Bytes;
    assert ZoneAt(s, p);
    AllFree(p, s.zones[p], s.zonePages);
    BlocksApart(s, p, p);
    StaysLive(s, Closed(s, p), p);
    BytesElsewhere(s, Closed(s, p), p);
  }

  /** A zone whose chunks are all free has no live one. */
  lemma AllFree(p: nat, z: Zone, zonePages: nat)
    requires ZoneRight(p, z, zonePages) && z.nfree == z.nmax
    ensures forall q: nat :: !LiveChunk(p, z, q)
  {
    hide ZoneRight, LiveChunk;
    var live := LiveCount(p, z, zonePages);
    assert live == {};
  }
}
