/** What a zone looks like when it is made, and the order in which its chunks come. */
module SlabEffects {
  import opened Common
  import opened Lists
  import opened SlabSizes
  import opened SlabZones
  import opened SlabState
  import opened SlabSteps

  /**
   * A new zone has as many chunks as fit: no further one would fit behind the last. They begin at the first place
   * behind the header that has their alignment, and all but the first, which is handed out, are untouched.
   */
  lemma NewZoneFull(i: nat, zonePages: nat)
    requires i < NZONES && zonePages >= 8 && 4 * ChunkOf(i) <= zonePages * PAGE
    ensures var z, c := NewZone(i, zonePages), ChunkOf(i);
      && z.zoneIndex == i && z.chunkSize == c > 0 && z.uindex == 0 && z.free == [] && z.nfree == z.nmax - 1
      && z.offset + z.nmax * c <= zonePages * PAGE < z.offset + (z.nmax + 1) * c
      && var grain := if PowerOfTwo(c) then c else 8;
      HEADER <= z.offset < HEADER + grain && z.offset % grain == 0
  {
    hide Offset, PowerOfTwo, ZoneRight, LiveChunk;
    NewZoneRight(0, i, zonePages);
    RightSizes(0, NewZone(i, zonePages), zonePages);
    NewZoneParts(i, zonePages);
    var o: nat := Offset(ChunkOf(i));
    FilledUp(zonePages * PAGE - o, ChunkOf(i));
  }

  lemma RightSizes(p: nat, z: Zone, zonePages: nat)
    requires ZoneRight(p, z, zonePages)
    ensures z.chunkSize > 0 && z.offset == Offset(z.chunkSize) && z.nmax >= 2
    ensures z.offset + z.nmax * z.chunkSize <= zonePages * PAGE
  {}

  lemma NewZoneParts(i: nat, zonePages: nat)
    requires ChunkOf(i) > 0 && Offset(ChunkOf(i)) < zonePages * PAGE
    ensures var z := NewZone(i, zonePages);
      && z.zoneIndex == i && z.chunkSize == ChunkOf(i) && z.uindex == 0 && z.free == []
      && z.nmax == (zonePages * PAGE - Offset(ChunkOf(i))) / ChunkOf(i)
  {}

  lemma FilledUp(room: nat, c: nat)
    requires c > 0
    ensures room / c * c <= room < (room / c + 1) * c
  {
    Quotient(room, c);
  }

  /** Every chunk is aligned to eight bytes. */
  lemma ChunksAligned(p: nat, z: Zone, zonePages: nat, k: nat)
    requires ZoneRight(p, z, zonePages)
    ensures ChunkAt(p, z, k) % 8 == 0
  {
    var a := EightsOf(z);
    var b := OffsetEights(z, a);
    Eights(p, b, k, a, ChunkAt(p, z, k));
  }

  lemma Eights(p: nat, b: nat, k: nat, a: nat, at: nat)
    requires at == p * 4096 + 8 * b + k * (8 * a)
    ensures at % 8 == 0
  {
    Regroup(k, a);
    assert at == 8 * (512 * p + b + k * a);
  }

  lemma EightsOf(z: Zone) returns (a: nat)
    requires z.zoneIndex < NZONES && z.chunkSize == ChunkOf(z.zoneIndex)
    ensures z.chunkSize == 8 * a
  {
    a := z.chunkSize / 8;
  }

  lemma OffsetEights(z: Zone, a: nat) returns (b: nat)
    requires z.chunkSize == 8 * a > 0 && z.offset == Offset(z.chunkSize)
    ensures z.offset == 8 * b
  {
    hide PowerOfTwo, RoundUp;
    if PowerOfTwo(z.chunkSize) {
      var k := Rounds(HEADER, z.chunkSize);
      Regroup(k, a);
      b := k * a;
    } else {
      b := z.offset / 8;
    }
  }

  lemma Rounds(n: nat, grain: nat) returns (k: nat)
    requires grain > 0
    ensures RoundUp(n, grain) == k * grain
  {
    k := (n + grain - 1) / grain;
  }

  lemma Regroup(k: nat, a: nat)
    ensures k * (8 * a) == 8 * (k * a)
  {}

  /** While a chunk has never been handed out, none that has is handed out again. */
  lemma UntouchedFirst(p: nat, z: Zone, zonePages: nat)
    requires ZoneRight(p, z, zonePages) && z.uindex + 1 < z.nmax
    ensures z.nfree > 0 && !HandedOut(p, z, Take(p, z).1) && Take(p, z).0.free == z.free
    ensures HandedOut(p, Take(p, z).0, Take(p, z).1)
  {
    NotAmongFirst(p, z, z.uindex + 1);
    SameChunks(p, z, Take(p, z).0, Take(p, z).1, z.uindex + 2);
    MoreFirst(p, z, Take(p, z).1, z.uindex + 1);
  }

  /** After that, the chunk given back last is handed out first, and taking it undoes giving it back. */
  lemma LastGivenFirst(p: nat, z: Zone, zonePages: nat, q: nat)
    requires ZoneRight(p, z, zonePages) && z.uindex + 1 == z.nmax && LiveChunk(p, z, q)
    ensures Take(p, Give(z, q)) == (z, q)
  {
    assert ([q] + z.free)[1..] == z.free;
  }
}
