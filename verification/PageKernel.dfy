/** The page allocator of the slab heap: a list of free runs, kept in the free pages themselves. */
module PageKernel {
  import opened Common
  import opened PageRuns

  /** What the first page of a free run holds: the next run, and how many pages this one has. */
  datatype Header = Header(next: Option<nat>, pages: nat)

  ghost predicate Listed(pages: seq<Header>, from: Option<nat>, runs: seq<Run>) {
    && from == (if runs == [] then None else Some(runs[0].start))
    && (forall i :: 0 <= i < |runs| ==> ListedAt(pages, runs, i))
  }

  ghost predicate ListedAt(pages: seq<Header>, runs: seq<Run>, i: nat)
    requires i < |runs|
  {
    && runs[i].start < |pages|
    && pages[runs[i].start] == Header(if i + 1 < |runs| then Some(runs[i + 1].start) else None, runs[i].pages)
  }

  /** The run numbers before `i` as seen from a link: none, or the last of them. */
  ghost predicate Before(runs: seq<Run>, previous: Option<nat>, i: nat) {
    i <= |runs| && previous == if i == 0 then None else Some(runs[i - 1].start)
  }

  ghost function StartOf(runs: seq<Run>, i: nat): Option<nat> {
    if i < |runs| then Some(runs[i].start) else None
  }

  /**
   * Replacing the runs from `f` up to `g` by at most one run, when only the link before them and that run are written.
   */
  lemma Spliced(pages: seq<Header>, from: Option<nat>, runs: seq<Run>, f: nat, g: nat, middle: seq<Run>,
                now: seq<Header>, list: Option<nat>)
    requires Listed(pages, from, runs) && f <= g <= |runs| && |middle| <= 1 && |now| == |pages|
    requires forall k :: 0 <= k < |runs| && (k + 1 < f || k >= g) && runs[k].start < |pages| ==>
      now[runs[k].start] == pages[runs[k].start]
    requires var next := if middle == [] then StartOf(runs, g) else Some(middle[0].start);
      if f == 0 then list == next
      else list == from && runs[f - 1].start < |now| && now[runs[f - 1].start] == Header(next, runs[f - 1].pages)
    requires middle != [] ==>
      middle[0].start < |now| && now[middle[0].start] == Header(StartOf(runs, g), middle[0].pages)
    ensures Listed(now, list, runs[..f] + middle + runs[g..])
  {
    var all := runs[..f] + middle + runs[g..];
    forall i | 0 <= i < |all| ensures ListedAt(now, all, i) {
      if i < f {
        assert all[i] == runs[i] && ListedAt(pages, runs, i);
      } else if i >= f + |middle| {
        var k := i - f - |middle| + g;
        assert all[i] == runs[k] && ListedAt(pages, runs, k);
        if i + 1 < |all| { assert all[i + 1] == runs[k + 1]; }
      }
    }
  }

  /** No other run starts where run `i` starts or in its pages. */
  lemma StartsApart(runs: seq<Run>, limit: nat, i: nat)
    requires Canonical(runs, limit) && i < |runs|
    ensures forall k :: 0 <= k < i ==> runs[k].start < runs[i].start
    ensures forall k :: i < k < |runs| ==> runs[k].start > runs[i].End()
  {}

  class PageHeap {
    const pages: array<Header>
    var list: Option<nat>
    ghost var runs: seq<Run>

    /** The pages in use, in blocks as they were handed out. */
    ghost var blocks: map<nat, nat>

    ghost predicate Valid()
      reads this, pages
    {
      Linked() && Partition(runs, blocks, pages.Length)
    }

    ghost predicate Linked()
      reads this, pages
    {
      Canonical(runs, pages.Length) && Listed(pages[..], list, runs)
    }

    /** `rt_slab_page_init`. */
    constructor (npages: nat)
      requires npages > 0
      ensures Valid() && fresh(pages) && pages.Length == npages && blocks == map[] && runs == [Run(0, npages)]
    {
      pages := new Header[npages](_ => Header(None, 0));
      list, runs, blocks := None, [], map[0 := npages];
      new;
      AllInUse(npages);
      PageFree(0, npages);
      assert Merged([], 0, npages, 0) == [Run(0, npages)];
    }

    /** `rt_slab_page_alloc`: the first run that is long enough gives up its first pages. */
    method PageAlloc(npages: nat) returns (page: Option<nat>)
      requires Valid()
      modifies this, pages
      ensures Valid()
      ensures npages == 0 ==> page == None
      ensures page == None ==>
        runs == old(runs) && blocks == old(blocks) && (npages > 0 ==> FirstFit(runs, npages, |runs|))
      ensures page.Some? ==> page.value !in old(blocks) && blocks == old(blocks)[page.value := npages]
      ensures page.Some? ==> npages > 0 && exists i: nat ::
        FirstFit(old(runs), npages, i) && i < |old(runs)| && page.value == old(runs)[i].start
          && runs == Carved(old(runs), i, npages)
    {
      if npages == 0 {
        return None;
      }
      var previous: Option<nat> := None;
      var b := list;
      ghost var i: nat := 0;
      while b.Some?
        invariant Valid() && runs == old(runs) && Before(runs, previous, i) && pages[..] == old(pages[..])
          && list == old(list)
        invariant blocks == old(blocks)
        invariant b == if i < |runs| then Some(runs[i].start) else None
        invariant forall k :: 0 <= k < i ==> runs[k].pages < npages
        decreases |runs| - i
      {
        assert ListedAt(pages[..], runs, i);
        var header := pages[b.value];
        if header.pages >= npages {
          CarvedPartition(runs, blocks, pages.Length, i, npages);
          Take(b.value, previous, i, npages);
          blocks := blocks[b.value := npages];
          return b;
        }
        previous := b;
        b := header.next;
        i := i + 1;
      }
      page := None;
    }

    /** Points the link before run `i` somewhere else. */
    method SetLink(previous: Option<nat>, to: Option<nat>)
      requires previous.Some? ==> previous.value < pages.Length
      modifies this`list, pages
      ensures previous == None ==> list == to && pages[..] == old(pages[..])
      ensures previous.Some? ==> list == old(list)
      ensures previous.Some? ==>
        pages[..] == old(pages[..])[previous.value := Header(to, old(pages[previous.value].pages))]
    {
      if previous == None {
        list := to;
      } else {
        pages[previous.value] := pages[previous.value].(next := to);
      }
    }

    /** Splits run `i`, or unlinks it when all of it is taken. */
    method Take(b: nat, previous: Option<nat>, ghost i: nat, npages: nat)
      requires Linked() && i < |runs| && b == runs[i].start && Before(runs, previous, i) && 0 < npages <= runs[i].pages
      modifies this, pages
      ensures Linked() && blocks == old(blocks) && runs == Carved(old(runs), i, npages)
    {
      hide Canonical, Listed;
      ghost var was, start, from := runs, pages[..], list;
      RunListed(i);
      if i > 0 { RunListed(i - 1); }
      StartsApart(was, pages.Length, i);
      if i > 0 { StartsApart(was, pages.Length, i - 1); }
      CarvedCanonical(was, pages.Length, i, npages);
      var header := pages[b];
      if header.pages > npages {
        var n := b + npages;
        pages[n] := Header(header.next, header.pages - npages);
        SetLink(previous, Some(n));
        Spliced(start, from, was, i, i + 1, [Run(n, header.pages - npages)], pages[..], list);
      } else {
        SetLink(previous, header.next);
        Spliced(start, from, was, i, i + 1, [], pages[..], list);
        assert was[..i] + [] + was[i + 1..] == was[..i] + was[i + 1..];
      }
      runs := Carved(was, i, npages);
    }

    lemma RunListed(i: nat)
      requires Linked() && i < |runs|
      ensures runs[i].start < pages.Length && runs[i].pages > 0 && runs[i].End() <= pages.Length
      ensures pages[runs[i].start] == Header(StartOf(runs, i + 1), runs[i].pages)
    {
      assert ListedAt(pages[..], runs, i);
    }

    /** `rt_slab_page_free`: the pages join the runs that they touch, or become a run between two others. */
    method PageFree(n: nat, npages: nat)
      requires Valid() && n in blocks && blocks[n] == npages
      modifies this, pages
      ensures Valid() && blocks == old(blocks) - {n}
      ensures exists i: nat :: Place(old(runs), n, i) && runs == Merged(old(runs), n, npages, i)
    {
      ghost var i := GiveBack(n, npages);
      MergedPartition(old(runs), blocks, pages.Length, n, i);
      blocks := blocks - {n};
    }

    /** The walk along the list, up to where the pages belong. */
    method GiveBack(n: nat, npages: nat) returns (ghost place: nat)
      requires Linked() && npages > 0 && n + npages <= pages.Length
      requires forall p: nat :: n <= p < n + npages ==> !Free(runs, p)
      modifies this, pages
      ensures Linked() && blocks == old(blocks) && Place(old(runs), n, place)
        && runs == Merged(old(runs), n, npages, place)
    {
      hide Canonical, Free;
      var previous: Option<nat> := None;
      var b := list;
      ghost var i: nat := 0;
      while b.Some?
        invariant Linked() && runs == old(runs) && Before(runs, previous, i) && pages[..] == old(pages[..])
          && list == old(list)
        invariant b == StartOf(runs, i) && blocks == old(blocks)
        invariant forall k :: 0 <= k < i ==> runs[k].start < n && runs[k].End() != n
        decreases |runs| - i
      {
        RunListed(i);
        var header := pages[b.value];
        RunApart(n, npages, i);
        if b.value + header.pages == n {
          PlaceBehind(runs, pages.Length, n, npages, i);
          ExtendUp(b.value, i, n, npages);
          return i + 1;
        }
        if b.value == n + npages {
          ExtendDown(previous, b.value, i, n, npages);
          return i;
        }
        if b.value > n + npages {
          break;
        }
        previous := b;
        b := header.next;
        i := i + 1;
      }
      Separate(previous, b, i, n, npages);
      place := i;
    }

    /** Run `i` lies wholly below or wholly above pages that are not free. */
    lemma RunApart(n: nat, npages: nat, i: nat)
      requires Linked() && i < |runs| && npages > 0
      requires forall p: nat :: n <= p < n + npages ==> !Free(runs, p)
      ensures runs[i].start > n || runs[i].End() <= n
      ensures runs[i].start < n || runs[i].start >= n + npages
    {
      RunInside(runs, pages.Length, i);
      assert runs[i].Has(runs[i].start);
      assert runs[i].start <= n < runs[i].End() ==> runs[i].Has(n);
    }

    lemma FirstListed()
      requires Linked()
      ensures list == StartOf(runs, 0)
    {}

    /** No run starts at a page that is not free. */
    lemma NoStart(n: nat)
      requires Linked() && !Free(runs, n)
      ensures forall k :: 0 <= k < |runs| ==> runs[k].start != n
    {
      forall k | 0 <= k < |runs| ensures runs[k].start != n {
        RunInside(runs, pages.Length, k);
        assert runs[k].Has(runs[k].start);
      }
    }

    /** The pages follow run `i`; the next run may follow them in turn. */
    method ExtendUp(b: nat, ghost i: nat, n: nat, npages: nat)
      requires Linked() && i < |runs| && b == runs[i].start && runs[i].End() == n && npages > 0
        && n + npages <= pages.Length
      requires forall p: nat :: n <= p < n + npages ==> !Free(runs, p)
      requires Place(runs, n, i + 1)
      modifies this, pages
      ensures Linked() && blocks == old(blocks) && runs == Merged(old(runs), n, npages, i + 1)
    {
      hide Canonical, Free, Listed, Place;
      ghost var was, start, from := runs, pages[..], list;
      RunListed(i);
      StartsApart(was, pages.Length, i);
      FirstListed();
      if i > 0 { RunListed(i - 1); }
      MergedCanonical(was, pages.Length, n, npages, i + 1);
      pages[b] := pages[b].(pages := pages[b].pages + npages);
      if pages[b].next == Some(b + pages[b].pages) {
        HeaderListed(was, start, from, i + 1);
        var above := pages[pages[b].next.value];
        pages[b] := Header(above.next, pages[b].pages + above.pages);
        Spliced(start, from, was, i, i + 2, [Run(b, pages[b].pages)], pages[..], list);
      } else {
        Spliced(start, from, was, i, i + 1, [Run(b, pages[b].pages)], pages[..], list);
      }
      runs := Merged(was, n, npages, i + 1);
    }

    /** The pages come right before run `i`, and not right behind another one. */
    method ExtendDown(previous: Option<nat>, b: nat, ghost i: nat, n: nat, npages: nat)
      requires Linked() && i < |runs| && b == runs[i].start == n + npages && Before(runs, previous, i) && npages > 0
      requires forall p: nat :: n <= p < n + npages ==> !Free(runs, p)
      requires forall k :: 0 <= k < i ==> runs[k].start < n && runs[k].End() != n
      modifies this, pages
      ensures Linked() && blocks == old(blocks) && runs == Merged(old(runs), n, npages, i) && Place(old(runs), n, i)
    {
      hide Canonical, Free, Listed;
      ghost var was, start, from := runs, pages[..], list;
      RunListed(i);
      StartsApart(was, pages.Length, i);
      if i > 0 {
        RunListed(i - 1);
        StartsApart(was, pages.Length, i - 1);
      }
      NoStart(n);
      MergedCanonical(was, pages.Length, n, npages, i);
      pages[n] := Header(pages[b].next, pages[b].pages + npages);
      SetLink(previous, Some(n));
      Spliced(start, from, was, i, i + 1, [Run(n, pages[n].pages)], pages[..], list);
      runs := Merged(was, n, npages, i);
    }

    /** The pages become a run of their own before run `i`. */
    method Separate(previous: Option<nat>, b: Option<nat>, ghost i: nat, n: nat, npages: nat)
      requires Linked() && b == StartOf(runs, i) && Before(runs, previous, i) && npages > 0
        && n + npages <= pages.Length
      requires forall p: nat :: n <= p < n + npages ==> !Free(runs, p)
      requires forall k :: 0 <= k < i ==> runs[k].start < n && runs[k].End() != n
      requires b.Some? ==> b.value > n + npages
      modifies this, pages
      ensures Linked() && blocks == old(blocks) && runs == Merged(old(runs), n, npages, i) && Place(old(runs), n, i)
    {
      hide Canonical, Free, Listed;
      ghost var was, start, from := runs, pages[..], list;
      if i > 0 {
        RunListed(i - 1);
        StartsApart(was, pages.Length, i - 1);
      }
      NoStart(n);
      MergedCanonical(was, pages.Length, n, npages, i);
      pages[n] := Header(b, npages);
      SetLink(previous, Some(n));
      Spliced(start, from, was, i, i, [Run(n, npages)], pages[..], list);
      runs := Merged(was, n, npages, i);
    }
  }

  lemma HeaderListed(runs: seq<Run>, pages: seq<Header>, from: Option<nat>, i: nat)
    requires Listed(pages, from, runs) && i < |runs|
    ensures runs[i].start < |pages| && pages[runs[i].start] == Header(StartOf(runs, i + 1), runs[i].pages)
  {
    assert ListedAt(pages, runs, i);
  }

  lemma AllInUse(npages: nat)
    requires npages > 0
    ensures Canonical([], npages) && Partition([], map[0 := npages], npages)
  {
    forall p: nat | p < npages ensures InBlock(map[0 := npages], p) {
      var blocks := map[0 := npages];
      assert 0 in blocks && blocks[0] == npages;
    }
  }

  lemma PlaceBehind(runs: seq<Run>, limit: nat, n: nat, npages: nat, i: nat)
    requires Canonical(runs, limit) && i < |runs| && runs[i].End() == n
    ensures Place(runs, n, i + 1)
  {}
}
