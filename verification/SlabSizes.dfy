/** Size classes of the slab heap: from a request to a zone index and a chunk size. */
module SlabSizes {

  const NZONES := 72
  const PAGE := 4096

  /** sizeof(struct rt_slab_zone) with 32-bit words. */
  const HEADER := 36

  function RoundUp(n: nat, grain: nat): (r: nat)
    requires grain > 0
    ensures n <= r < n + grain && r % grain == 0
  {
    var k := (n + grain - 1) / grain;
    Quotient(n + grain - 1, grain);
    Multiple(k, grain);
    k * grain
  }

  lemma Quotient(n: nat, grain: nat)
    requires grain > 0
    ensures n / grain * grain <= n < n / grain * grain + grain
  {}

  lemma Multiple(k: nat, grain: nat)
    requires grain > 0
    ensures (k * grain) % grain == 0
  {
    if k > 0 {
      Multiple(k - 1, grain);
      assert k * grain == (k - 1) * grain + grain;
      AddGrain((k - 1) * grain, grain);
    }
  }

  lemma AddGrain(n: nat, grain: nat)
    requires grain > 0
    ensures (n + grain) % grain == n % grain
  {
    var q, r := n / grain, n % grain;
    assert n + grain == (q + 1) * grain + r;
    UniqueRest(n + grain, grain, q + 1, r);
  }

  lemma UniqueRest(n: nat, grain: nat, q: nat, r: nat)
    requires grain > 0 && n == q * grain + r && r < grain
    ensures n % grain == r
  {
    var d := n / grain - q;
    assert d * grain == r - n % grain;
    ProductSign(d, grain);
  }

  lemma ProductSign(d: int, g: int)
    requires g > 0
    ensures (d >= 1 ==> d * g >= g) && (d <= -1 ==> d * g <= -g)
  {}

  /** `zoneindex`: the index of the zone, and the request rounded up to the zone's chunk size. */
  function ZoneIndex(n: nat): (r: (nat, nat))
    requires 0 < n < 16384
  {
    if n < 128 then var m := (n + 7) / 8 * 8; (m / 8 - 1, m)
    else if n < 256 then var m := (n + 15) / 16 * 16; (m / 16 + 7, m)
    else if n < 512 then var m := (n + 31) / 32 * 32; (m / 32 + 15, m)
    else if n < 1024 then var m := (n + 63) / 64 * 64; (m / 64 + 23, m)
    else if n < 2048 then var m := (n + 127) / 128 * 128; (m / 128 + 31, m)
    else if n < 4096 then var m := (n + 255) / 256 * 256; (m / 256 + 39, m)
    else if n < 8192 then var m := (n + 511) / 512 * 512; (m / 512 + 47, m)
    else var m := (n + 1023) / 1024 * 1024; (m / 1024 + 55, m)
  }

  /** The chunk size of a zone index. */
  function ChunkOf(i: nat): nat {
    if i < 16 then 8 * (i + 1)
    else if i < 24 then 16 * (i - 7)
    else if i < 32 then 32 * (i - 15)
    else if i < 40 then 64 * (i - 23)
    else if i < 48 then 128 * (i - 31)
    else if i < 56 then 256 * (i - 39)
    else if i < 64 then 512 * (i - 47)
    else 1024 * (i - 55)
  }

  /** Index and chunk size determine each other across all branches, and rounding never loses more than a small part. */
  lemma ZoneIndexChunk(n: nat)
    requires 0 < n < 16384
    ensures var (i, m) := ZoneIndex(n); i < NZONES && m == ChunkOf(i) && n <= m && (m < n + 8 || 8 * m < 9 * n)
    ensures ZoneIndex(n).0 > 0 ==> ChunkOf(ZoneIndex(n).0 - 1) < n
  {
    if n < 128 { Grain8(n); }
    else if n < 256 { Grain16(n); }
    else if n < 512 { Grain32(n); }
    else if n < 1024 { Grain64(n); }
    else if n < 2048 { Grain128(n); }
    else if n < 4096 { Grain256(n); }
    else if n < 8192 { Grain512(n); }
    else { Grain1024(n); }
  }

  lemma Grain8(n: nat)
    ensures n <= (n + 7) / 8 * 8 < n + 8 && (n + 7) / 8 * 8 / 8 == (n + 7) / 8
  {}

  lemma Grain16(n: nat)
    ensures n <= (n + 15) / 16 * 16 < n + 16 && (n + 15) / 16 * 16 / 16 == (n + 15) / 16
  {}

  lemma Grain32(n: nat)
    ensures n <= (n + 31) / 32 * 32 < n + 32 && (n + 31) / 32 * 32 / 32 == (n + 31) / 32
  {}

  lemma Grain64(n: nat)
    ensures n <= (n + 63) / 64 * 64 < n + 64 && (n + 63) / 64 * 64 / 64 == (n + 63) / 64
  {}

  lemma Grain128(n: nat)
    ensures n <= (n + 127) / 128 * 128 < n + 128 && (n + 127) / 128 * 128 / 128 == (n + 127) / 128
  {}

  lemma Grain256(n: nat)
    ensures n <= (n + 255) / 256 * 256 < n + 256 && (n + 255) / 256 * 256 / 256 == (n + 255) / 256
  {}

  lemma Grain512(n: nat)
    ensures n <= (n + 511) / 512 * 512 < n + 512 && (n + 511) / 512 * 512 / 512 == (n + 511) / 512
  {}

  lemma Grain1024(n: nat)
    ensures n <= (n + 1023) / 1024 * 1024 < n + 1024 && (n + 1023) / 1024 * 1024 / 1024 == (n + 1023) / 1024
  {}

  lemma {:induction false} ChunkGrows(i: nat, j: nat)
    requires i < j
    ensures 0 < ChunkOf(i) < ChunkOf(j)
    decreases j
  {
    if i + 1 < j { ChunkGrows(i, j - 1); }
  }

  /** Two requests share a zone index if and only if they are rounded to the same size. */
  lemma SameZoneSameSize(a: nat, b: nat)
    requires 0 < a < 16384 && 0 < b < 16384
    ensures ZoneIndex(a).0 == ZoneIndex(b).0 <==> ZoneIndex(a).1 == ZoneIndex(b).1
  {
    ZoneIndexChunk(a);
    ZoneIndexChunk(b);
    var i, j := ZoneIndex(a).0, ZoneIndex(b).0;
    if i < j { ChunkGrows(i, j); }
    if j < i { ChunkGrows(j, i); }
  }

  /** Every request gets the smallest class that holds it. */
  lemma SmallestClass(n: nat, i: nat)
    requires 0 < n < 16384 && n <= ChunkOf(i)
    ensures ZoneIndex(n).0 <= i
  {
    ZoneIndexChunk(n);
    var j := ZoneIndex(n).0;
    if i + 1 < j { ChunkGrows(i, j - 1); }
  }

  predicate PowerOfTwo(n: nat)
  {
    n == 1 || (n > 1 && n % 2 == 0 && PowerOfTwo(n / 2))
  }

  /** Where the chunks of a zone begin: powers of two aligned to their own size, all others to eight. */
  function Offset(chunk: nat): (o: nat)
    requires chunk > 0
    ensures PowerOfTwo(chunk) ==> HEADER <= o < HEADER + chunk && o % chunk == 0
    ensures !PowerOfTwo(chunk) ==> HEADER <= o < HEADER + 8 && o % 8 == 0
  {
    if PowerOfTwo(chunk) then RoundUp(HEADER, chunk) else 40
  }
}
