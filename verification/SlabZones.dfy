/** One zone: an array of chunks of one size, taken in order at first and from a free list later. */
module SlabZones {
  import opened Lists
  import opened SlabSizes

  /** `free` is the chain of freed chunks, by address; `offset` is where the chunk array begins in the zone. */
  datatype Zone = Zone(nmax: nat, nfree: nat, uindex: nat, chunkSize: nat, zoneIndex: nat, offset: nat, free: seq<nat>)

  /** The address of chunk `i` of the zone at page `p`. */
  function ChunkAt(p: nat, z: Zone, i: nat): nat {
    p * PAGE + z.offset + i * z.chunkSize
  }

  /** `q` is one of the first `n` chunks. */
  ghost predicate AmongFirst(p: nat, z: Zone, q: nat, n: nat) {
    exists i: nat :: i < n && q == ChunkAt(p, z, i)
  }

  /** `q` is a chunk that has left the array at least once. */
  ghost predicate HandedOut(p: nat, z: Zone, q: nat) {
    AmongFirst(p, z, q, z.uindex + 1)
  }

  /**
   * The zone fits its pages, and chunks up to `uindex` have been handed out before: the freed ones are on the free
   * list once each, and `nfree` counts those and the untouched ones.
   */
  ghost predicate ZoneRight(p: nat, z: Zone, zonePages: nat) {
    && z.zoneIndex < NZONES && z.chunkSize == ChunkOf(z.zoneIndex) && z.chunkSize > 0 && z.offset == Offset(z.chunkSize)
    && z.offset + z.nmax * z.chunkSize <= zonePages * PAGE
    && 2 <= z.nmax && z.uindex < z.nmax && z.nfree == z.nmax - 1 - z.uindex + |z.free|
    && Distinct(z.free) && (forall k :: 0 <= k < |z.free| ==> HandedOut(p, z, z.free[k]))
  }

  ghost predicate LiveChunk(p: nat, z: Zone, q: nat) {
    HandedOut(p, z, q) && q !in z.free
  }

  // ---- Addresses ----

  lemma Spacing(i: nat, j: nat, c: nat)
    requires i < j
    ensures i * c + c <= j * c
  {
    assert j * c == i * c + (j - i) * c;
    AtLeast(j - i, c);
  }

  lemma AtLeast(k: nat, c: nat)
    requires k >= 1
    ensures k * c >= c
  {}

  /** Chunks are inside their zone, and different chunks do not overlap. */
  lemma ChunksApart(p: nat, z: Zone, zonePages: nat, i: nat, j: nat)
    requires z.offset + z.nmax * z.chunkSize <= zonePages * PAGE && i < z.nmax
    ensures p * PAGE <= ChunkAt(p, z, i) && ChunkAt(p, z, i) + z.chunkSize <= (p + zonePages) * PAGE
    ensures i < j ==> ChunkAt(p, z, i) + z.chunkSize <= ChunkAt(p, z, j)
  {
    Spacing(i, z.nmax, z.chunkSize);
    if i < j { Spacing(i, j, z.chunkSize); }
  }

  /** A chunk of a power-of-two size is aligned to its size exactly when its zone is. */
  lemma PowersAligned(p: nat, z: Zone, i: nat)
    requires z.chunkSize > 0 && PowerOfTwo(z.chunkSize) && z.offset == Offset(z.chunkSize)
    ensures ChunkAt(p, z, i) % z.chunkSize == 0 <==> (p * PAGE) % z.chunkSize == 0
  {
    var c := z.chunkSize;
    var k := z.offset / c;
    assert z.offset == k * c;
    assert ChunkAt(p, z, i) == p * PAGE + (k + i) * c;
    AddMultiple(p * PAGE, k + i, c);
  }

  lemma AddMultiple(n: nat, k: nat, c: nat)
    requires c > 0
    ensures (n + k * c) % c == n % c
  {
    if k > 0 {
      AddMultiple(n, k - 1, c);
      assert n + k * c == (n + (k - 1) * c) + c;
      AddGrain(n + (k - 1) * c, c);
    }
  }

  lemma MoreFirst(p: nat, z: Zone, q: nat, n: nat)
    ensures AmongFirst(p, z, q, n + 1) <==> AmongFirst(p, z, q, n) || q == ChunkAt(p, z, n)
  {}

  lemma NotAmongFirst(p: nat, z: Zone, n: nat)
    requires z.chunkSize > 0
    ensures !AmongFirst(p, z, ChunkAt(p, z, n), n)
  {
    forall i: nat | i < n ensures ChunkAt(p, z, i) != ChunkAt(p, z, n) { Spacing(i, n, z.chunkSize); }
  }

  // ---- Taking and giving back one chunk ----

  /** Untouched chunks first, then freed ones, the one freed last before the others. */
  function Take(p: nat, z: Zone): (r: (Zone, nat))
    requires z.nfree > 0 && (z.uindex + 1 == z.nmax ==> z.free != [])
  {
    if z.uindex + 1 != z.nmax then (z.(uindex := z.uindex + 1, nfree := z.nfree - 1), ChunkAt(p, z, z.uindex + 1))
    else (z.(free := z.free[1..], nfree := z.nfree - 1), z.free[0])
  }

  function Give(z: Zone, q: nat): Zone {
    z.(free := [q] + z.free, nfree := z.nfree + 1)
  }

  /** Taking makes exactly one chunk live, which was not. */
  lemma TakeRight(p: nat, z: Zone, zonePages: nat)
    requires ZoneRight(p, z, zonePages) && z.nfree > 0
    ensures z.uindex + 1 == z.nmax ==> z.free != []
    ensures ZoneRight(p, Take(p, z).0, zonePages) && !LiveChunk(p, z, Take(p, z).1)
    ensures forall q: nat :: LiveChunk(p, Take(p, z).0, q) <==> LiveChunk(p, z, q) || q == Take(p, z).1
  {
    var (n, c) := Take(p, z);
    if z.uindex + 1 != z.nmax {
      NotAmongFirst(p, z, z.uindex + 1);
      forall q: nat ensures HandedOut(p, n, q) <==> HandedOut(p, z, q) || q == c {
        MoreFirst(p, z, q, z.uindex + 1);
        SameChunks(p, z, n, q, z.uindex + 2);
      }
      forall k | 0 <= k < |z.free| ensures z.free[k] != c { assert HandedOut(p, z, z.free[k]); }
    } else {
      forall q: nat ensures HandedOut(p, n, q) <==> HandedOut(p, z, q) {
        SameChunks(p, z, n, q, z.uindex + 1);
      }
      assert z.free == [z.free[0]] + z.free[1..];
    }
  }

  lemma SameChunks(p: nat, z: Zone, n: Zone, q: nat, k: nat)
    requires n.offset == z.offset && n.chunkSize == z.chunkSize
    ensures AmongFirst(p, n, q, k) <==> AmongFirst(p, z, q, k)
  {
    if AmongFirst(p, n, q, k) {
      var i: nat :| i < k && q == ChunkAt(p, n, i);
      assert q == ChunkAt(p, z, i);
    }
    if AmongFirst(p, z, q, k) {
      var i: nat :| i < k && q == ChunkAt(p, z, i);
      assert q == ChunkAt(p, n, i);
    }
  }

  /** Giving back takes exactly this chunk from the live ones. */
  lemma GiveRight(p: nat, z: Zone, zonePages: nat, c: nat)
    requires ZoneRight(p, z, zonePages) && LiveChunk(p, z, c)
    ensures z.nfree < z.nmax && ZoneRight(p, Give(z, c), zonePages)
    ensures forall q: nat :: LiveChunk(p, Give(z, c), q) <==> LiveChunk(p, z, q) && q != c
  {
    var n := Give(z, c);
    forall q: nat ensures HandedOut(p, n, q) <==> HandedOut(p, z, q) {
      SameChunks(p, z, n, q, z.uindex + 1);
    }
    FreeCount(p, z, z.uindex + 1, c);
  }

  /** The first `n` chunks, as a set. */
  ghost function FirstChunks(p: nat, z: Zone, n: nat): (s: set<nat>)
    requires z.chunkSize > 0
    ensures |s| == n && forall q: nat :: q in s <==> AmongFirst(p, z, q, n)
  {
    if n == 0 then {}
    else
      NotAmongFirst(p, z, n - 1);
      MoreFirstAll(p, z, n - 1);
      FirstChunks(p, z, n - 1) + {ChunkAt(p, z, n - 1)}
  }

  lemma MoreFirstAll(p: nat, z: Zone, n: nat)
    ensures forall q: nat :: AmongFirst(p, z, q, n + 1) <==> AmongFirst(p, z, q, n) || q == ChunkAt(p, z, n)
  {
    forall q: nat ensures AmongFirst(p, z, q, n + 1) <==> AmongFirst(p, z, q, n) || q == ChunkAt(p, z, n) {
      MoreFirst(p, z, q, n);
    }
  }

  ghost function SetOf(row: seq<nat>): (s: set<nat>)
    ensures forall q: nat :: q in s <==> q in row
  {
    if row == [] then {} else {row[0]} + SetOf(row[1..])
  }

  lemma {:induction false} SetOfSize(row: seq<nat>)
    requires Distinct(row)
    ensures |SetOf(row)| == |row|
  {
    if row != [] {
      SetOfSize(row[1..]);
      assert row[0] !in row[1..];
    }
  }

  /** A chunk that is live leaves less on the free list than was handed out. */
  lemma FreeCount(p: nat, z: Zone, n: nat, c: nat)
    requires z.chunkSize > 0 && Distinct(z.free) && AmongFirst(p, z, c, n) && c !in z.free
    requires forall k :: 0 <= k < |z.free| ==> AmongFirst(p, z, z.free[k], n)
    ensures |z.free| < n
  {
    hide AmongFirst, Distinct;
    var all, freed := FirstChunks(p, z, n), SetOf(z.free);
    SetOfSize(z.free);
    forall q: nat | q in freed ensures q in all - {c} {}
    Smaller(freed, all - {c});
  }

  lemma Smaller(a: set<nat>, b: set<nat>)
    requires a <= b
    ensures |a| <= |b|
  {
    assert b == a + (b - a);
  }

  /** The number of live chunks is what `nfree` leaves of `nmax`. */
  lemma LiveCount(p: nat, z: Zone, zonePages: nat) returns (live: set<nat>)
    requires ZoneRight(p, z, zonePages)
    ensures z.nfree <= z.nmax && |live| == z.nmax - z.nfree && forall q: nat :: q in live <==> LiveChunk(p, z, q)
  {
    hide ZoneRight;
    ZoneFacts(p, z, zonePages);
    live := HandedLive(p, z, z.uindex + 1);
  }

  lemma ZoneFacts(p: nat, z: Zone, zonePages: nat)
    requires ZoneRight(p, z, zonePages)
    ensures z.chunkSize > 0 && Distinct(z.free) && z.nfree == z.nmax - 1 - z.uindex + |z.free| && z.uindex < z.nmax
    ensures forall k :: 0 <= k < |z.free| ==> AmongFirst(p, z, z.free[k], z.uindex + 1)
  {
    forall k | 0 <= k < |z.free| ensures AmongFirst(p, z, z.free[k], z.uindex + 1) {
      assert HandedOut(p, z, z.free[k]);
    }
  }

  lemma HandedLive(p: nat, z: Zone, n: nat) returns (live: set<nat>)
    requires z.chunkSize > 0 && Distinct(z.free)
    requires forall k :: 0 <= k < |z.free| ==> AmongFirst(p, z, z.free[k], n)
    ensures |z.free| <= n && |live| == n - |z.free|
    ensures forall q: nat :: q in live <==> AmongFirst(p, z, q, n) && q !in z.free
  {
    hide AmongFirst, Distinct;
    var all, freed := FirstChunks(p, z, n), SetOf(z.free);
    SetOfSize(z.free);
    forall q: nat | q in freed ensures q in all {}
    Smaller(freed, all);
    live := all - freed;
    assert all == live + freed;
  }
}
