/** `mkromfs`: writing an image out, and reading every image that was written. */
module RomWriter {
  import opened Common
  import opened RomImage
  import opened RomExtents

  /** Packs an entry; numbers over 32 bits are an error. */
  method Pack(kind: nat, name: nat, data: nat, size: nat) returns (r: Option<seq<Byte>>)
    ensures r == if kind < WORD && name < WORD && data < WORD && size < WORD
                 then Some(Dirent(kind, name, data, size)) else None
  {
    if kind >= WORD || name >= WORD || data >= WORD || size >= WORD {
      return None;
    }
    return Some(Dirent(kind, name, data, size));
  }

  /** `File.bin_data` and `Folder.bin_data`: writes in one pass what the layout says, unless a number does not fit. */
  method BinData(n: Node, base: nat) returns (r: Option<seq<Byte>>)
    ensures r == if Fits(n, base) then Some(Data(n, base)) else None
    decreases n
  {
    hide Dirents, Payload, FitAll, Dirent, BinName, Padded, Stored, Data, Fits, EntrySize;
    if n.File? {
      FileData(n, base);
      return Some(n.data);
    }
    var cs := n.children;
    var payload := base + DIRENT * |cs|;
    var vLen: nat, dirents, stored := payload, [], [];
    FolderData(n, base);
    for i := 0 to |cs|
      invariant FitAll(cs, payload) <==> FitAll(cs[i..], vLen)
      invariant dirents + Dirents(cs[i..], vLen) == Dirents(cs, payload)
      invariant stored + Payload(cs[i..], vLen) == Payload(cs, payload)
    {
      var c := cs[i];
      ghost var at := vLen;
      ChildStored(cs, i, at);
      var name := BinName(c.name);
      var nameAddr := vLen;
      vLen := vLen + |name|;
      var bytes := BinData(c, vLen);
      if bytes == None {
        return None;
      }
      var dataAddr := vLen;
      var data := Padded(bytes.value);
      vLen := vLen + |data|;
      var d := Pack(EntryType(c), nameAddr, dataAddr, EntrySize(c));
      if d == None {
        return None;
      }
      Associates(dirents, d.value, Dirents(cs[i + 1..], vLen));
      Associates(stored, name + data, Payload(cs[i + 1..], vLen));
      dirents := dirents + d.value;
      stored := stored + (name + data);
    }
    NoChildren(vLen);
    assert cs[|cs|..] == [] && dirents + [] == dirents && stored + [] == stored;
    return Some(dirents + stored);
  }

  lemma Associates(a: seq<Byte>, b: seq<Byte>, c: seq<Byte>)
    ensures (a + b) + c == a + (b + c)
  {}

  lemma FileData(n: Node, base: nat)
    requires n.File?
    ensures Data(n, base) == n.data && Fits(n, base)
  {}

  lemma FolderData(n: Node, base: nat)
    requires n.Folder?
    ensures var cs, payload := n.children, base + DIRENT * |n.children|;
      && cs[0..] == cs && Data(n, base) == Dirents(cs, payload) + Payload(cs, payload)
      && (Fits(n, base) <==> FitAll(cs, payload))
      && [] + Dirents(cs, payload) == Dirents(cs, payload) && [] + Payload(cs, payload) == Payload(cs, payload)
  {
    hide Dirents, Payload, FitAll;
  }

  lemma ChildStored(cs: seq<Node>, i: nat, at: nat)
    requires i < |cs|
    ensures cs[i..][0] == cs[i] && cs[i..][1..] == cs[i + 1..]
    ensures var data := at + |BinName(cs[i].name)|; var next := at + |Stored(cs[i], at)|;
      && Dirents(cs[i..], at) == Dirent(EntryType(cs[i]), at, data, EntrySize(cs[i])) + Dirents(cs[i + 1..], next)
      && Payload(cs[i..], at) == Stored(cs[i], at) + Payload(cs[i + 1..], next)
      && (FitAll(cs[i..], at) <==>
            data < WORD && EntrySize(cs[i]) < WORD && Fits(cs[i], data) && FitAll(cs[i + 1..], next))
      && next == data + |Padded(Data(cs[i], data))|
      && Stored(cs[i], at) == BinName(cs[i].name) + Padded(Data(cs[i], data))
  {
    hide Data, Padded, BinName, Dirent, Fits;
    assert cs[i..][1..] == cs[i + 1..];
  }

  lemma NoChildren(at: nat)
    ensures Dirents([], at) == [] && Payload([], at) == [] && FitAll([], at)
  {}

  const ROOT: seq<Byte> := [47]

  lemma RootName()
    ensures BinName(ROOT) == [47, 0, 0, 0]
  {
    assert ROOT[1..] == [] && Characters(ROOT) == 1 + Characters(ROOT[1..]);
    assert Zeros(3) == [0, 0, 0];
  }

  /** The root as the reader sees it: a directory called "/". */
  function Mounted(children: seq<Node>): Node {
    Folder(ROOT, children)
  }

  ghost predicate ImageFits(children: seq<Node>, base: nat) {
    base + DIRENT + 4 < WORD && |children| < WORD && Fits(Mounted(children), base + DIRENT + 4)
  }

  ghost function Image(children: seq<Node>, base: nat): seq<Byte> {
    Dirent(TYPE_DIR, base + DIRENT, base + DIRENT + 4, |children|) + BinName(ROOT)
    + Data(Mounted(children), base + DIRENT + 4)
  }

  /** `get_bin_data`. */
  method GetBinData(children: seq<Node>, base: nat) returns (r: Option<seq<Byte>>)
    ensures r == if ImageFits(children, base) then Some(Image(children, base)) else None
  {
    RootName();
    var nameAddr := base + DIRENT;
    var name: seq<Byte> := [47, 0, 0, 0];
    var dataAddr := nameAddr + |name|;
    var data := Pack(TYPE_DIR, nameAddr, dataAddr, |children|);
    if data == None {
      return None;
    }
    var tree := BinData(Mounted(children), dataAddr);
    if tree == None {
      return None;
    }
    return Some(data.value + name + tree.value);
  }

  /** An image that fits in the 32-bit address space is written. */
  lemma SmallImageFits(children: seq<Node>, base: nat)
    requires base + |Image(children, base)| < WORD
    ensures ImageFits(children, base)
  {
    RootName();
    DataFits(Mounted(children), base + DIRENT + 4);
  }

  lemma DataFits(n: Node, base: nat)
    requires base + |Data(n, base)| < WORD
    ensures Fits(n, base) && EntrySize(n) < WORD
    decreases n, 1
  {
    if n.Folder? { PayloadFits(n.children, base + DIRENT * |n.children|); }
  }

  lemma PayloadFits(cs: seq<Node>, at: nat)
    requires at + |Payload(cs, at)| < WORD
    ensures FitAll(cs, at)
    decreases cs, 0
  {
    hide Data, Padded, BinName, Dirents, Fits;
    if cs != [] {
      DataFits(cs[0], at + |BinName(cs[0].name)|);
      PayloadFits(cs[1..], at + |Stored(cs[0], at)|);
    }
  }

  lemma HoldsWhole(im: seq<Byte>, base: nat)
    ensures Holds(im, base, base, im)
  {
    assert im[0..|im|] == im;
  }

  lemma ImageHolds(children: seq<Node>, base: nat)
    ensures |BinName(ROOT)| == 4
    ensures HoldsEntry(Image(children, base), base, base, Mounted(children), base + DIRENT)
  {
    var im := Image(children, base);
    var root := Dirent(TYPE_DIR, base + DIRENT, base + DIRENT + 4, |children|);
    var data := Data(Mounted(children), base + DIRENT + 4);
    RootName();
    HoldsWhole(im, base);
    HoldsParts(im, base, base, root + BinName(ROOT), data);
    HoldsParts(im, base, base, root, BinName(ROOT));
  }

  /** Whatever image is written, a reader that starts at its base finds exactly the tree it was written from. */
  lemma RoundTrip(children: seq<Node>, base: nat, depth: nat)
    requires ImageFits(children, base) && NamedAll(children) && HeightAll(children) < depth
    ensures ReadEntry(Image(children, base), base, base, depth) == Some(Mounted(children))
  {
    ImageHolds(children, base);
    EntryRead(Image(children, base), base, base, Mounted(children), base + DIRENT, depth);
  }

  /** All that a reader of the whole image looks at. */
  ghost function Reading(children: seq<Node>, base: nat, depth: nat): seq<Extent> {
    [Extent(base, base + DIRENT)] + TouchedBy(Image(children, base), base, base, depth)
  }

  /** What a reader follows never overlaps and never leaves the image; it is aligned iff base and names allow it. */
  lemma ExtentsApart(children: seq<Node>, base: nat, depth: nat)
    requires ImageFits(children, base) && NamedAll(children) && HeightAll(children) < depth
    ensures var es := Reading(children, base, depth);
      && (forall i :: 0 <= i < |es| ==> base <= es[i].start <= es[i].end <= base + |Image(children, base)|)
      && (forall i, j :: 0 <= i < j < |es| ==> es[i].end <= es[j].start)
      && (Aligned(es) <==> base % 4 == 0 && EvenAll(children))
  {
    hide Image, ImageFits, NamedAll, HeightAll, EvenAll, TouchedBy, InOrder, Aligned, Data, BinName, Dirent;
    var low, high, root := base + DIRENT, base + |Image(children, base)|, [Extent(base, base + DIRENT)];
    RootTouched(children, base, depth);
    var rest := TouchedBy(Image(children, base), base, base, depth);
    var es := Reading(children, base, depth);
    OneInOrder(base, low, DIRENT);
    InOrderJoin(root, rest, base, low, high);
    AlignedJoin(root, rest);
    OneAligned(base, low);
    forall i, j | 0 <= i < |es| && 0 <= j
      ensures base <= es[i].start <= es[i].end <= high && (i < j < |es| ==> es[i].end <= es[j].start)
    {
      InOrderApart(es, base, high, i, j);
    }
  }

  lemma RootTouched(children: seq<Node>, base: nat, depth: nat)
    requires ImageFits(children, base) && NamedAll(children) && HeightAll(children) < depth
    ensures var es := TouchedBy(Image(children, base), base, base, depth);
      && InOrder(es, base + DIRENT, base + |Image(children, base)|)
      && (Aligned(es) <==> base % 4 == 0 && EvenAll(children))
  {
    hide Image, ImageFits, Holds, Cut, Text, Unword, InOrder, Aligned, Touched, FitAll, NamedAll, HeightAll, EvenAll,
      Data, Dirents, Payload, Table, TouchedBy, HoldsEntry, BinName;
    var im, low, data := Image(children, base), base + DIRENT, base + DIRENT + 4;
    RootPointers(children, base);
    RootLeadsTo(im, base, |children|, depth);
    TableTouched(im, base, data, children, depth - 1);
    var name, rest := [Extent(low, low + 2)], Table(im, base, data, |children|, depth - 1);
    OneInOrder(low, data, 2);
    InOrderJoin(name, rest, low, data, base + |im|);
    AlignedJoin(name, rest);
    OneAligned(low, low + 2);
  }

  lemma RootLeadsTo(im: seq<Byte>, base: nat, size: nat, depth: nat)
    requires var c := Cut(im, base, base, DIRENT);
      && c.Some? && Unword(c.value[..4]) == TYPE_DIR && Unword(c.value[4..8]) == base + DIRENT
      && Unword(c.value[8..12]) == base + DIRENT + 4 && Unword(c.value[12..]) == size
      && Text(im, base, base + DIRENT) == Some(ROOT) && depth > 0
    ensures TouchedBy(im, base, base, depth)
         == [Extent(base + DIRENT, base + DIRENT + 2)] + Table(im, base, base + DIRENT + 4, size, depth - 1)
  {
    hide Cut, Text, Unword, Table;
  }

  /** Where the root entry points, and what is there. */
  lemma RootPointers(children: seq<Node>, base: nat)
    requires ImageFits(children, base)
    ensures var im, data := Image(children, base), base + DIRENT + 4;
      var payload := data + DIRENT * |children|; var c := Cut(im, base, base, DIRENT);
      && c.Some? && Unword(c.value[..4]) == TYPE_DIR && Unword(c.value[4..8]) == base + DIRENT
      && Unword(c.value[8..12]) == data && Unword(c.value[12..]) == |children|
      && Text(im, base, base + DIRENT) == Some(ROOT) && FitAll(children, payload)
      && Holds(im, base, data, Dirents(children, payload)) && Holds(im, base, payload, Payload(children, payload))
      && base + |im| == payload + |Payload(children, payload)|
  {
    hide Cut, Text, Unword, Holds, FitAll, Dirent, BinName, Dirents, Payload;
    var im, data := Image(children, base), base + DIRENT + 4;
    ImageHolds(children, base);
    DirentRead(im, base, base, TYPE_DIR, base + DIRENT, data, |children|);
    NameRead(im, base, base + DIRENT, ROOT);
    HoldsFolder(im, base, Mounted(children), data);
  }

  /** Plain ASCII names are always fine. */
  lemma AsciiIsEven(name: seq<Byte>)
    requires forall i :: 0 <= i < |name| ==> name[i] < 128
    ensures Characters(name) == |name| && Even(name)
  {}

  /** A one-letter accented name is two bytes and gets three zeros, so its data begins off a word boundary. */
  lemma AccentedNameMisaligns()
    ensures var name: seq<Byte> := [0xC3, 0xA9]; |BinName(name)| == 5 && !Even(name)
  {
    var name: seq<Byte> := [0xC3, 0xA9];
    assert name[1..] == [0xA9] && name[1..][1..] == [];
    assert Characters(name[1..]) == 0 + Characters(name[1..][1..]);
  }
}
