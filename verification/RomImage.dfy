/** The read-only file system image: its layout, and a reader that only knows the directory entry format. */
module RomImage {
  import opened Common

  type Byte = x: int | 0 <= x < 256

  /** Names are the bytes of their UTF-8 form. */
  datatype Node =
    | File(name: seq<Byte>, data: seq<Byte>)
    | Folder(name: seq<Byte>, children: seq<Node>)

  const DIRENT := 16
  const TYPE_FILE := 0
  const TYPE_DIR := 1

  /** How many characters a UTF-8 name has: every byte but the continuation bytes begins one. */
  function Characters(name: seq<Byte>): (n: nat)
    ensures n <= |name|
  {
    if name == [] then 0
    else (if 0x80 <= name[0] < 0xC0 then 0 else 1) + Characters(name[1..])
  }

  function Zeros(n: nat): (z: seq<Byte>)
    ensures |z| == n && forall i :: 0 <= i < n ==> z[i] == 0
  {
    seq(n, i => 0)
  }

  /** The name, then one to four zeros, counted by characters and not by bytes. */
  function BinName(name: seq<Byte>): (s: seq<Byte>)
    ensures |name| < |s| <= |name| + 4 && s[..|name|] == name && s[|name|] == 0
  {
    name + Zeros(4 - Characters(name) % 4)
  }

  function Padded(data: seq<Byte>): (s: seq<Byte>)
    ensures |data| <= |s| && s[..|data|] == data && |s| % 4 == 0
  {
    if |data| % 4 == 0 then data else data + Zeros(4 - |data| % 4)
  }

  function EntrySize(n: Node): nat {
    match n
    case File(_, data) => |data|
    case Folder(_, children) => |children|
  }

  function EntryType(n: Node): nat {
    if n.File? then TYPE_FILE else TYPE_DIR
  }

  function Word(x: nat): (w: seq<Byte>)
    ensures |w| == 4
  {
    [x % 256, x / 256 % 256, x / 256 / 256 % 256, x / 256 / 256 / 256 % 256]
  }

  function Unword(w: seq<Byte>): (x: nat)
    requires |w| == 4
    ensures x < WORD
  {
    var low: int, second: int, third: int, high: int := w[0], w[1], w[2], w[3];
    low + 256 * (second + 256 * (third + 256 * high))
  }

  lemma WordRead(x: nat)
    requires x < WORD
    ensures Unword(Word(x)) == x
  {}

  function Dirent(kind: nat, name: nat, data: nat, size: nat): (d: seq<Byte>)
    ensures |d| == DIRENT
  {
    Word(kind) + Word(name) + Word(data) + Word(size)
  }

  // ---- Layout ----

  /** What is stored for `n` when it begins at address `base`. */
  ghost function Data(n: Node, base: nat): seq<Byte>
    decreases n, 1
  {
    match n
    case File(_, data) => data
    case Folder(_, children) =>
      Dirents(children, base + DIRENT * |children|) + Payload(children, base + DIRENT * |children|)
  }

  ghost function Stored(n: Node, at: nat): seq<Byte>
    decreases n, 2
  {
    BinName(n.name) + Padded(Data(n, at + |BinName(n.name)|))
  }

  /** The entries of `cs` when their names and data are stored from address `at` on. */
  ghost function Dirents(cs: seq<Node>, at: nat): (d: seq<Byte>)
    ensures |d| == DIRENT * |cs|
    decreases cs, 0
  {
    if cs == [] then []
    else
      Dirent(EntryType(cs[0]), at, at + |BinName(cs[0].name)|, EntrySize(cs[0]))
      + Dirents(cs[1..], at + |Stored(cs[0], at)|)
  }

  ghost function Payload(cs: seq<Node>, at: nat): seq<Byte>
    decreases cs, 0
  {
    if cs == [] then []
    else Stored(cs[0], at) + Payload(cs[1..], at + |Stored(cs[0], at)|)
  }

  /** Every number that goes into an entry fits its 32-bit field. */
  ghost predicate Fits(n: Node, base: nat)
    decreases n, 1
  {
    n.Folder? ==> FitAll(n.children, base + DIRENT * |n.children|)
  }

  ghost predicate FitAll(cs: seq<Node>, at: nat)
    decreases cs, 0
  {
    cs != [] ==>
      var data := at + |BinName(cs[0].name)|;
      && data < WORD && EntrySize(cs[0]) < WORD && Fits(cs[0], data)
      && FitAll(cs[1..], at + |Stored(cs[0], at)|)
  }

  // ---- Reader ----

  /** `n` bytes at address `at` of an image loaded at `base`. */
  function Cut(im: seq<Byte>, base: nat, at: nat, n: nat): Option<seq<Byte>> {
    if base <= at && at + n <= base + |im| then Some(im[at - base..at - base + n]) else None
  }

  /** The zero-terminated text at address `at`. */
  function Text(im: seq<Byte>, base: nat, at: nat): Option<seq<Byte>>
    decreases base + |im| - at
  {
    if !(base <= at < base + |im|) then None
    else if im[at - base] == 0 then Some([])
    else match Text(im, base, at + 1)
      case None => None
      case Some(rest) => Some([im[at - base]] + rest)
  }

  /** The entry at `at`, following its pointers through at most `depth` directories. */
  function ReadEntry(im: seq<Byte>, base: nat, at: nat, depth: nat): Option<Node>
    decreases depth, 0
  {
    match Cut(im, base, at, DIRENT)
    case None => None
    case Some(d) =>
      var kind, name, data, size := Unword(d[..4]), Unword(d[4..8]), Unword(d[8..12]), Unword(d[12..]);
      match Text(im, base, name)
      case None => None
      case Some(text) =>
        if kind == TYPE_FILE then
          match Cut(im, base, data, size) { case None => None case Some(bytes) => Some(File(text, bytes)) }
        else if kind == TYPE_DIR && depth > 0 then
          match ReadEntries(im, base, data, size, depth - 1) {
            case None => None
            case Some(cs) => Some(Folder(text, cs))
          }
        else None
  }

  /** `count` entries in a row. */
  function ReadEntries(im: seq<Byte>, base: nat, at: nat, count: nat, depth: nat): Option<seq<Node>>
    decreases depth, count + 1
  {
    if count == 0 then Some([])
    else match (ReadEntry(im, base, at, depth), ReadEntries(im, base, at + DIRENT, count - 1, depth))
      case (Some(n), Some(rest)) => Some([n] + rest)
      case _ => None
  }

  // ---- Reading back what was laid out ----

  /** Directories can nest this deep. */
  ghost function Height(n: Node): nat
    decreases n, 1
  {
    if n.File? then 0 else 1 + HeightAll(n.children)
  }

  ghost function HeightAll(cs: seq<Node>): (h: nat)
    decreases cs, 0
  {
    if cs == [] then 0
    else var rest := HeightAll(cs[1..]); if Height(cs[0]) > rest then Height(cs[0]) else rest
  }

  /** File names never hold a zero. */
  ghost predicate Named(n: Node)
    decreases n, 1
  {
    (forall i :: 0 <= i < |n.name| ==> n.name[i] != 0) && (n.Folder? ==> NamedAll(n.children))
  }

  ghost predicate NamedAll(cs: seq<Node>)
    decreases cs, 0
  {
    cs != [] ==> Named(cs[0]) && NamedAll(cs[1..])
  }

  ghost predicate Holds(im: seq<Byte>, base: nat, at: nat, s: seq<Byte>) {
    Cut(im, base, at, |s|) == Some(s)
  }

  lemma HoldsParts(im: seq<Byte>, base: nat, at: nat, a: seq<Byte>, b: seq<Byte>)
    requires Holds(im, base, at, a + b)
    ensures Holds(im, base, at, a) && Holds(im, base, at + |a|, b)
  {
    var o := at - base;
    var s := im[o..o + |a| + |b|];
    assert s == a + b && s[..|a|] == a && s[|a|..] == b;
    assert im[o..o + |a|] == s[..|a|] && im[o + |a|..o + |a| + |b|] == s[|a|..];
  }

  lemma HoldsPrefix(im: seq<Byte>, base: nat, at: nat, s: seq<Byte>, n: nat)
    requires Holds(im, base, at, s) && n <= |s|
    ensures Holds(im, base, at, s[..n])
  {
    assert s == s[..n] + s[n..];
    HoldsParts(im, base, at, s[..n], s[n..]);
  }

  lemma TextRead(im: seq<Byte>, base: nat, at: nat, name: seq<Byte>)
    requires forall i :: 0 <= i < |name| ==> name[i] != 0
    requires Holds(im, base, at, name + [0])
    ensures Text(im, base, at) == Some(name)
    decreases |name|
  {
    assert im[at - base] == im[at - base..at - base + |name| + 1][0] == (name + [0])[0];
    if name != [] {
      assert name + [0] == [name[0]] + (name[1..] + [0]);
      HoldsParts(im, base, at, [name[0]], name[1..] + [0]);
      TextRead(im, base, at + 1, name[1..]);
      assert [name[0]] + name[1..] == name;
    }
  }

  lemma NameRead(im: seq<Byte>, base: nat, at: nat, name: seq<Byte>)
    requires forall i :: 0 <= i < |name| ==> name[i] != 0
    requires Holds(im, base, at, BinName(name))
    ensures Text(im, base, at) == Some(name)
  {
    HoldsPrefix(im, base, at, BinName(name), |name| + 1);
    assert BinName(name)[..|name| + 1] == name + [0];
    TextRead(im, base, at, name);
  }

  lemma DirentRead(im: seq<Byte>, base: nat, at: nat, kind: nat, name: nat, data: nat, size: nat)
    requires Holds(im, base, at, Dirent(kind, name, data, size))
    requires kind < WORD && name < WORD && data < WORD && size < WORD
    ensures var c := Cut(im, base, at, DIRENT);
      c.Some? && Unword(c.value[..4]) == kind && Unword(c.value[4..8]) == name
      && Unword(c.value[8..12]) == data && Unword(c.value[12..]) == size
  {
    var d := Dirent(kind, name, data, size);
    WordRead(kind);
    WordRead(name);
    WordRead(data);
    WordRead(size);
    assert d[..4] == Word(kind) && d[4..8] == Word(name) && d[8..12] == Word(data) && d[12..] == Word(size);
  }

  lemma HoldsData(im: seq<Byte>, base: nat, at: nat, data: seq<Byte>)
    requires Holds(im, base, at, Padded(data))
    ensures Holds(im, base, at, data)
  {
    HoldsPrefix(im, base, at, Padded(data), |data|);
  }

  /** What one stored child looks like in the image. */
  ghost predicate HoldsEntry(im: seq<Byte>, base: nat, dirent: nat, n: Node, at: nat) {
    var data := at + |BinName(n.name)|;
    && Holds(im, base, dirent, Dirent(EntryType(n), at, data, EntrySize(n)))
    && Holds(im, base, at, BinName(n.name)) && Holds(im, base, data, Data(n, data))
  }

  lemma HoldsFirst(im: seq<Byte>, base: nat, dirents: nat, cs: seq<Node>, at: nat)
    requires cs != [] && Holds(im, base, dirents, Dirents(cs, at)) && Holds(im, base, at, Payload(cs, at))
    ensures HoldsEntry(im, base, dirents, cs[0], at)
    ensures var next := at + |Stored(cs[0], at)|;
      && Holds(im, base, dirents + DIRENT, Dirents(cs[1..], next)) && Holds(im, base, next, Payload(cs[1..], next))
  {
    hide Holds, Cut, Data, Padded, BinName;
    var name, next := BinName(cs[0].name), at + |Stored(cs[0], at)|;
    var data := Data(cs[0], at + |name|);
    HoldsParts(im, base, dirents, Dirent(EntryType(cs[0]), at, at + |name|, EntrySize(cs[0])), Dirents(cs[1..], next));
    HoldsParts(im, base, at, Stored(cs[0], at), Payload(cs[1..], next));
    HoldsParts(im, base, at, name, Padded(data));
    HoldsData(im, base, at + |name|, data);
  }

  lemma HoldsFolder(im: seq<Byte>, base: nat, n: Node, data: nat)
    requires n.Folder? && Holds(im, base, data, Data(n, data))
    ensures var payload := data + DIRENT * |n.children|;
      Holds(im, base, data, Dirents(n.children, payload)) && Holds(im, base, payload, Payload(n.children, payload))
  {
    var payload := data + DIRENT * |n.children|;
    HoldsParts(im, base, data, Dirents(n.children, payload), Payload(n.children, payload));
  }

  lemma EntryRead(im: seq<Byte>, base: nat, dirent: nat, n: Node, at: nat, depth: nat)
    requires HoldsEntry(im, base, dirent, n, at) && Named(n) && Height(n) <= depth
    requires at + |BinName(n.name)| < WORD && EntrySize(n) < WORD && Fits(n, at + |BinName(n.name)|)
    ensures ReadEntry(im, base, dirent, depth) == Some(n)
    decreases n, 1
  {
    hide Dirents, Payload, Stored, BinName, FitAll, NamedAll, HeightAll, ReadEntries, Cut, Text, Unword, Dirent;
    var data := at + |BinName(n.name)|;
    DirentRead(im, base, dirent, EntryType(n), at, data, EntrySize(n));
    NameRead(im, base, at, n.name);
    if n.Folder? {
      HoldsFolder(im, base, n, data);
      EntriesRead(im, base, data, n.children, data + DIRENT * |n.children|, depth - 1);
    }
  }

  /** A reader that follows the pointers sees the very children that were laid out. */
  lemma EntriesRead(im: seq<Byte>, base: nat, dirents: nat, cs: seq<Node>, at: nat, depth: nat)
    requires Holds(im, base, dirents, Dirents(cs, at)) && Holds(im, base, at, Payload(cs, at))
    requires NamedAll(cs) && HeightAll(cs) <= depth && FitAll(cs, at)
    ensures ReadEntries(im, base, dirents, |cs|, depth) == Some(cs)
    decreases cs, 0
  {
    hide Holds, HoldsEntry, Dirents, Payload, Stored, BinName, Fits, Named, Height, ReadEntry, Cut, Text;
    if cs != [] {
      HoldsFirst(im, base, dirents, cs, at);
      EntryRead(im, base, dirents, cs[0], at, depth);
      EntriesRead(im, base, dirents + DIRENT, cs[1..], at + |Stored(cs[0], at)|, depth);
      assert [cs[0]] + cs[1..] == cs;
    }
  }
}
