/** Where a reader of the image looks: everything apart, in order, and aligned exactly when the names allow it. */
module RomExtents {
  import opened Common
  import opened RomImage

  datatype Extent = Extent(start: nat, end: nat)

  /** Every stretch of memory that following `count` entries from `at` reads: names up to their zero, data, tables. */
  ghost function Touched(im: seq<Byte>, base: nat, at: nat, count: nat, depth: nat): seq<Extent>
    decreases depth, count + 1
  {
    if count == 0 then []
    else TouchedBy(im, base, at, depth) + Touched(im, base, at + DIRENT, count - 1, depth)
  }

  ghost function TouchedBy(im: seq<Byte>, base: nat, at: nat, depth: nat): seq<Extent>
    decreases depth, 0
  {
    match Cut(im, base, at, DIRENT)
    case None => []
    case Some(d) =>
      var kind, name, data, size := Unword(d[..4]), Unword(d[4..8]), Unword(d[8..12]), Unword(d[12..]);
      match Text(im, base, name)
      case None => []
      case Some(text) =>
        [Extent(name, name + |text| + 1)]
        + if kind == TYPE_FILE then [Extent(data, data + size)]
          else if kind == TYPE_DIR && depth > 0 then Table(im, base, data, size, depth - 1)
          else []
  }

  /** A table of entries, and all that they lead to. */
  ghost function Table(im: seq<Byte>, base: nat, at: nat, count: nat, depth: nat): seq<Extent>
    decreases depth, count + 2
  {
    [Extent(at, at + DIRENT * count)] + Touched(im, base, at, count, depth)
  }

  /** One after the other between `low` and `high`. */
  ghost predicate InOrder(es: seq<Extent>, low: nat, high: nat) {
    if es == [] then low <= high
    else low <= es[0].start <= es[0].end && InOrder(es[1..], es[0].end, high)
  }

  lemma InOrderJoin(a: seq<Extent>, b: seq<Extent>, low: nat, middle: nat, high: nat)
    requires InOrder(a, low, middle) && InOrder(b, middle, high)
    ensures InOrder(a + b, low, high)
    decreases |a|
  {
    if a != [] {
      assert (a + b)[1..] == a[1..] + b;
      InOrderJoin(a[1..], b, a[0].end, middle, high);
    } else {
      assert a + b == b;
      InOrderWider(b, low, middle, high, high);
    }
  }

  lemma InOrderWider(es: seq<Extent>, low: nat, from: nat, to: nat, high: nat)
    requires InOrder(es, from, to) && low <= from && to <= high
    ensures InOrder(es, low, high)
    decreases |es|
  {
    if es != [] { InOrderWider(es[1..], es[0].end, es[0].end, to, high); }
  }

  /** In order means inside the bounds and pairwise apart. */
  lemma InOrderApart(es: seq<Extent>, low: nat, high: nat, i: nat, j: nat)
    requires InOrder(es, low, high) && i < |es|
    ensures low <= es[i].start <= es[i].end <= high
    ensures i < j < |es| ==> es[i].end <= es[j].start
    decreases |es|
  {
    if i > 0 {
      InOrderApart(es[1..], es[0].end, high, i - 1, if j > 0 then j - 1 else 0);
    } else if 0 < j < |es| {
      InOrderApart(es[1..], es[0].end, high, j - 1, 0);
    } else if |es| > 1 {
      InOrderApart(es[1..], es[0].end, high, 0, 0);
      InOrderEnds(es[1..], es[0].end, high);
    }
  }

  lemma InOrderEnds(es: seq<Extent>, low: nat, high: nat)
    requires InOrder(es, low, high)
    ensures low <= high
    decreases |es|
  {
    if es != [] { InOrderEnds(es[1..], es[0].end, high); }
  }

  ghost predicate Aligned(es: seq<Extent>) {
    forall i :: 0 <= i < |es| ==> es[i].start % 4 == 0
  }

  lemma AlignedJoin(a: seq<Extent>, b: seq<Extent>)
    ensures Aligned(a + b) <==> Aligned(a) && Aligned(b)
  {
    forall i | 0 <= i < |a| ensures (a + b)[i] == a[i] {}
    forall i | 0 <= i < |b| ensures (a + b)[|a| + i] == b[i] {}
  }

  /** Padding by characters rounds a name up to a multiple of four exactly when this holds of its bytes. */
  predicate Even(name: seq<Byte>) {
    (|name| - Characters(name)) % 4 == 0
  }

  ghost predicate EvenNames(n: Node)
    decreases n, 1
  {
    Even(n.name) && (n.Folder? ==> EvenAll(n.children))
  }

  ghost predicate EvenAll(cs: seq<Node>)
    decreases cs, 0
  {
    cs != [] ==> EvenNames(cs[0]) && EvenAll(cs[1..])
  }

  lemma EvenName(name: seq<Byte>)
    ensures Even(name) <==> |BinName(name)| % 4 == 0
  {}

  lemma EntryTouched(im: seq<Byte>, base: nat, dirent: nat, n: Node, at: nat, depth: nat)
    requires HoldsEntry(im, base, dirent, n, at) && Named(n) && Height(n) <= depth
    requires at + |BinName(n.name)| < WORD && EntrySize(n) < WORD && Fits(n, at + |BinName(n.name)|)
    ensures InOrder(TouchedBy(im, base, dirent, depth), at, at + |Stored(n, at)|)
    ensures at % 4 == 0 ==> (Aligned(TouchedBy(im, base, dirent, depth)) <==> EvenNames(n))
    decreases n, 1
  {
    hide Dirents, Payload, BinName, FitAll, NamedAll, HeightAll, Touched, Cut, Text, Unword, Dirent, Padded, InOrder,
      Aligned, Characters;
    var data := at + |BinName(n.name)|;
    DirentRead(im, base, dirent, EntryType(n), at, data, EntrySize(n));
    NameRead(im, base, at, n.name);
    EvenName(n.name);
    var es, name := TouchedBy(im, base, dirent, depth), Extent(at, at + |n.name| + 1);
    OneInOrder(at, data, |n.name| + 1);
    if n.File? {
      assert es == [name] + [Extent(data, data + |n.data|)];
      OneInOrder(data, at + |Stored(n, at)|, |n.data|);
      OneAligned(data, data + |n.data|);
      NameAndRest(name, [Extent(data, data + |n.data|)], data, at + |Stored(n, at)|);
    } else {
      HoldsFolder(im, base, n, data);
      var rest := Table(im, base, data, |n.children|, depth - 1);
      assert es == [name] + rest;
      TableTouched(im, base, data, n.children, depth - 1);
      InOrderWider(rest, data, data, data + |Data(n, data)|, at + |Stored(n, at)|);
      NameAndRest(name, rest, data, at + |Stored(n, at)|);
    }
  }

  /** The extent of a name, and those of what it names. */
  lemma NameAndRest(name: Extent, rest: seq<Extent>, data: nat, end: nat)
    requires InOrder([name], name.start, data) && InOrder(rest, data, end)
    ensures InOrder([name] + rest, name.start, end)
    ensures name.start % 4 == 0 ==> (Aligned([name] + rest) <==> Aligned(rest))
  {
    hide InOrder, Aligned;
    InOrderJoin([name], rest, name.start, data, end);
    AlignedJoin([name], rest);
    OneAligned(name.start, name.end);
  }

  lemma OneInOrder(start: nat, end: nat, size: nat)
    requires start + size <= end
    ensures InOrder([Extent(start, start + size)], start, end)
  {
    assert [Extent(start, start + size)][1..] == [];
  }

  lemma OneAligned(start: nat, end: nat)
    ensures Aligned([Extent(start, end)]) <==> start % 4 == 0
  {
    assert [Extent(start, end)][0].start == start;
  }

  lemma TableTouched(im: seq<Byte>, base: nat, at: nat, cs: seq<Node>, depth: nat)
    requires Holds(im, base, at, Dirents(cs, at + DIRENT * |cs|))
    requires Holds(im, base, at + DIRENT * |cs|, Payload(cs, at + DIRENT * |cs|))
    requires NamedAll(cs) && HeightAll(cs) <= depth && FitAll(cs, at + DIRENT * |cs|)
    ensures InOrder(Table(im, base, at, |cs|, depth), at, at + DIRENT * |cs| + |Payload(cs, at + DIRENT * |cs|)|)
    ensures Aligned(Table(im, base, at, |cs|, depth)) <==> at % 4 == 0 && EvenAll(cs)
    decreases cs, 1
  {
    hide *;
    var payload := at + DIRENT * |cs|;
    TableParts(im, base, at, |cs|, depth);
    EntriesTouched(im, base, at, cs, payload, depth);
    var rest := Touched(im, base, at, |cs|, depth);
    OneInOrder(at, payload, DIRENT * |cs|);
    InOrderJoin([Extent(at, payload)], rest, at, payload, payload + |Payload(cs, payload)|);
    AlignedJoin([Extent(at, payload)], rest);
    OneAligned(at, payload);
  }

  lemma TableParts(im: seq<Byte>, base: nat, at: nat, count: nat, depth: nat)
    ensures Table(im, base, at, count, depth) == [Extent(at, at + DIRENT * count)] + Touched(im, base, at, count, depth)
    ensures at % 4 == (at + DIRENT * count) % 4
  {
    hide Touched;
    FourMore(at, 4 * count);
  }

  lemma FourMore(at: nat, n: nat)
    ensures at % 4 == (at + 4 * n) % 4
  {}

  lemma EntriesTouched(im: seq<Byte>, base: nat, dirents: nat, cs: seq<Node>, at: nat, depth: nat)
    requires Holds(im, base, dirents, Dirents(cs, at)) && Holds(im, base, at, Payload(cs, at))
    requires NamedAll(cs) && HeightAll(cs) <= depth && FitAll(cs, at)
    ensures InOrder(Touched(im, base, dirents, |cs|, depth), at, at + |Payload(cs, at)|)
    ensures at % 4 == 0 ==> (Aligned(Touched(im, base, dirents, |cs|, depth)) <==> EvenAll(cs))
    decreases cs, 0
  {
    hide Holds, HoldsEntry, Dirents, Stored, BinName, Fits, Named, Height, Cut, Text, TouchedBy, Aligned, InOrder,
      EvenNames;
    if cs == [] {
      NothingTouched(at);
    } else {
      var next := at + |Stored(cs[0], at)|;
      var first, rest := TouchedBy(im, base, dirents, depth), Touched(im, base, dirents + DIRENT, |cs| - 1, depth);
      HoldsFirst(im, base, dirents, cs, at);
      EntryTouched(im, base, dirents, cs[0], at, depth);
      EntriesTouched(im, base, dirents + DIRENT, cs[1..], next, depth);
      InOrderJoin(first, rest, at, next, at + |Payload(cs, at)|);
      AlignedJoin(first, rest);
      StoredEven(cs[0], at);
    }
  }

  lemma NothingTouched(at: nat)
    ensures InOrder([], at, at) && Aligned([])
  {}

  lemma StoredEven(n: Node, at: nat)
    ensures EvenNames(n) ==> |Stored(n, at)| % 4 == 0
  {
    hide Padded, Data, Characters, BinName, Dirents, Payload, EvenAll;
    EvenName(n.name);
    PaddedEven(Data(n, at + |BinName(n.name)|));
  }

  lemma PaddedEven(data: seq<Byte>)
    ensures |Padded(data)| % 4 == 0
  {}
}
