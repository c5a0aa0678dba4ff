/** Free pages as runs: in address order, never touching, and so determined by the set of pages alone. */
module PageRuns {

  datatype Run = Run(start: nat, pages: nat) {
    function End(): nat { start + pages }

    ghost predicate Has(p: nat) { start <= p < End() }
  }

  /** Address order, no empty run, a gap behind every run, all below `limit`. */
  ghost predicate Canonical(runs: seq<Run>, limit: nat) {
    && (forall i :: 0 <= i < |runs| ==> runs[i].pages > 0 && runs[i].End() <= limit)
    && (forall i, j :: 0 <= i < j < |runs| ==> runs[i].End() < runs[j].start)
  }

  ghost predicate Free(runs: seq<Run>, p: nat) {
    exists i :: 0 <= i < |runs| && runs[i].Has(p)
  }

  lemma FreeRest(runs: seq<Run>, p: nat)
    requires runs != []
    ensures Free(runs, p) <==> runs[0].Has(p) || Free(runs[1..], p)
  {
    if Free(runs, p) && !runs[0].Has(p) {
      var i :| 0 <= i < |runs| && runs[i].Has(p);
      assert runs[1..][i - 1].Has(p);
    }
  }

  /** Two canonical lists with the same free pages are the same list. */
  lemma {:induction false} CanonicalUnique(a: seq<Run>, b: seq<Run>, limit: nat)
    requires Canonical(a, limit) && Canonical(b, limit) && forall p: nat :: Free(a, p) <==> Free(b, p)
    ensures a == b
    decreases |a|
  {
    hide Canonical, Free;
    if a == [] || b == [] {
      BothEmpty(a, b, limit);
    } else {
      FirstSame(a, b, limit);
      RestSame(a, b, limit);
      RestCanonical(a, limit);
      RestCanonical(b, limit);
      CanonicalUnique(a[1..], b[1..], limit);
      assert a == [a[0]] + a[1..] && b == [b[0]] + b[1..];
    }
  }

  lemma BothEmpty(a: seq<Run>, b: seq<Run>, limit: nat)
    requires Canonical(a, limit) && Canonical(b, limit) && (a == [] || b == [])
    requires forall p: nat :: Free(a, p) <==> Free(b, p)
    ensures a == b
  {
    if a != [] { StartFree(a, limit); }
    if b != [] { StartFree(b, limit); }
  }

  lemma StartFree(runs: seq<Run>, limit: nat)
    requires Canonical(runs, limit) && runs != []
    ensures Free(runs, runs[0].start)
  {
    assert runs[0].Has(runs[0].start);
  }

  lemma RestCanonical(runs: seq<Run>, limit: nat)
    requires Canonical(runs, limit) && runs != []
    ensures Canonical(runs[1..], limit)
  {}

  /** Without their common first run they still have the same free pages. */
  lemma RestSame(a: seq<Run>, b: seq<Run>, limit: nat)
    requires Canonical(a, limit) && Canonical(b, limit) && a != [] && b != [] && a[0] == b[0]
    requires forall p: nat :: Free(a, p) <==> Free(b, p)
    ensures forall p: nat :: Free(a[1..], p) <==> Free(b[1..], p)
  {
    hide Canonical, Free;
    forall p: nat ensures Free(a[1..], p) <==> Free(b[1..], p) {
      FreeRest(a, p);
      FreeRest(b, p);
      if Free(a[1..], p) { BehindFirst(a, p, limit); }
      if Free(b[1..], p) { BehindFirst(b, p, limit); }
    }
  }

  lemma BehindFirst(runs: seq<Run>, p: nat, limit: nat)
    requires Canonical(runs, limit) && runs != [] && Free(runs[1..], p)
    ensures runs[0].End() < p && !runs[0].Has(p)
  {
    var i :| 0 <= i < |runs| - 1 && runs[1..][i].Has(p);
    assert runs[i + 1].Has(p);
  }

  lemma NotBefore(runs: seq<Run>, p: nat, limit: nat)
    requires Canonical(runs, limit) && runs != [] && Free(runs, p)
    ensures runs[0].start <= p && p != runs[0].End()
  {
    FreeRest(runs, p);
    if Free(runs[1..], p) { BehindFirst(runs, p, limit); }
  }

  lemma FirstSame(a: seq<Run>, b: seq<Run>, limit: nat)
    requires Canonical(a, limit) && Canonical(b, limit) && a != [] && b != []
    requires forall p: nat :: Free(a, p) <==> Free(b, p)
    ensures a[0] == b[0]
  {
    assert a[0].Has(a[0].start) && b[0].Has(b[0].start);
    NotBefore(a, b[0].start, limit);
    NotBefore(b, a[0].start, limit);
    if a[0].pages < b[0].pages {
      assert b[0].Has(a[0].End()) && Free(b, a[0].End());
      NotBefore(a, a[0].End(), limit);
    }
    if b[0].pages < a[0].pages {
      assert a[0].Has(b[0].End()) && Free(a, b[0].End());
      NotBefore(b, b[0].End(), limit);
    }
  }

  // ---- Pieces ----

  lemma FreeJoin(a: seq<Run>, b: seq<Run>, p: nat)
    ensures Free(a + b, p) <==> Free(a, p) || Free(b, p)
  {
    if Free(a, p) {
      var k :| 0 <= k < |a| && a[k].Has(p);
      assert (a + b)[k].Has(p);
    }
    if Free(b, p) {
      var k :| 0 <= k < |b| && b[k].Has(p);
      assert (a + b)[|a| + k].Has(p);
    }
  }

  lemma FreeOne(r: Run, p: nat)
    ensures Free([r], p) <==> r.Has(p)
  {
    assert [r][0] == r;
  }

  lemma CanonicalJoin(a: seq<Run>, b: seq<Run>, limit: nat)
    requires Canonical(a, limit) && Canonical(b, limit)
    requires a != [] && b != [] ==> a[|a| - 1].End() < b[0].start
    ensures Canonical(a + b, limit)
  {
    hide Canonical;
    forall i: nat | i < |a| ensures a[i].pages > 0 && a[i].End() <= limit { RunInside(a, limit, i); }
    forall i: nat | i < |b| ensures b[i].pages > 0 && b[i].End() <= limit { RunInside(b, limit, i); }
    var c := a + b;
    forall i: nat, j: nat | i < j < |c| ensures c[i].End() < c[j].start {
      if j < |a| { RunsApart(a, limit, i, j); }
      else if i >= |a| { RunsApart(b, limit, i - |a|, j - |a|); }
      else {
        if i < |a| - 1 { RunsApart(a, limit, i, |a| - 1); }
        if j > |a| { RunsApart(b, limit, 0, j - |a|); }
      }
    }
    IsCanonical(c, limit);
  }

  lemma RunsApart(runs: seq<Run>, limit: nat, i: nat, j: nat)
    requires Canonical(runs, limit) && i < j < |runs|
    ensures runs[i].End() < runs[j].start
  {}

  lemma IsCanonical(runs: seq<Run>, limit: nat)
    requires forall i: nat :: i < |runs| ==> runs[i].pages > 0 && runs[i].End() <= limit
    requires forall i: nat, j: nat :: i < j < |runs| ==> runs[i].End() < runs[j].start
    ensures Canonical(runs, limit)
  {}

  /** `[at, at + n)` between two lists is canonical with them if it touches neither. */
  lemma CanonicalBetween(a: seq<Run>, r: Run, b: seq<Run>, limit: nat)
    requires Canonical(a, limit) && Canonical(b, limit) && r.pages > 0 && r.End() <= limit
    requires (a != [] ==> a[|a| - 1].End() < r.start) && (b != [] ==> r.End() < b[0].start)
    ensures Canonical(a + [r] + b, limit)
  {
    CanonicalJoin(a, [r], limit);
    CanonicalJoin(a + [r], b, limit);
  }

  lemma FreeBetween(a: seq<Run>, r: Run, b: seq<Run>, p: nat)
    ensures Free(a + [r] + b, p) <==> Free(a, p) || r.Has(p) || Free(b, p)
  {
    FreeJoin(a, [r], p);
    FreeOne(r, p);
    FreeJoin(a + [r], b, p);
  }

  lemma CanonicalSlice(runs: seq<Run>, limit: nat, i: nat)
    requires Canonical(runs, limit) && i <= |runs|
    ensures Canonical(runs[..i], limit) && Canonical(runs[i..], limit)
    ensures forall p: nat :: Free(runs, p) <==> Free(runs[..i], p) || Free(runs[i..], p)
  {
    forall p: nat ensures Free(runs, p) <==> Free(runs[..i], p) || Free(runs[i..], p) {
      FreeJoin(runs[..i], runs[i..], p);
      assert runs[..i] + runs[i..] == runs;
    }
  }

  /** A list around one of its runs. */
  lemma CanonicalAround(runs: seq<Run>, limit: nat, i: nat, p: nat)
    requires Canonical(runs, limit) && i < |runs|
    ensures runs == runs[..i] + [runs[i]] + runs[i + 1..]
    ensures Canonical(runs[..i], limit) && Canonical(runs[i + 1..], limit)
    ensures i > 0 ==> runs[..i][i - 1].End() < runs[i].start
    ensures i + 1 < |runs| ==> runs[i].End() < runs[i + 1..][0].start
    ensures Free(runs, p) <==> Free(runs[..i], p) || runs[i].Has(p) || Free(runs[i + 1..], p)
    ensures runs[i].Has(p) ==> !Free(runs[..i], p) && !Free(runs[i + 1..], p)
  {
    assert runs == runs[..i] + [runs[i]] + runs[i + 1..];
    FreeBetween(runs[..i], runs[i], runs[i + 1..], p);
  }

  // ---- Taking pages ----

  /** The first run that is long enough, or the number of runs. */
  ghost predicate FirstFit(runs: seq<Run>, n: nat, i: nat) {
    i <= |runs| && (forall k :: 0 <= k < i ==> runs[k].pages < n) && (i < |runs| ==> runs[i].pages >= n)
  }

  ghost function Carved(runs: seq<Run>, i: nat, n: nat): seq<Run>
    requires i < |runs| && n <= runs[i].pages
  {
    if runs[i].pages > n then runs[..i] + [Run(runs[i].start + n, runs[i].pages - n)] + runs[i + 1..]
    else runs[..i] + runs[i + 1..]
  }

  /** Taking pages from a run leaves the list canonical and takes those pages only. */
  lemma CarvedCanonical(runs: seq<Run>, limit: nat, i: nat, n: nat)
    requires Canonical(runs, limit) && i < |runs| && 0 < n <= runs[i].pages
    ensures Canonical(Carved(runs, i, n), limit)
    ensures forall p: nat :: Free(Carved(runs, i, n), p) <==> Free(runs, p) && !(runs[i].start <= p < runs[i].start + n)
  {
    hide Canonical, Free;
    CanonicalAround(runs, limit, i, 0);
    var front, back := runs[..i], runs[i + 1..];
    var rest := Run(runs[i].start + n, runs[i].pages - n);
    RunInside(runs, limit, i);
    if runs[i].pages > n {
      CanonicalBetween(front, rest, back, limit);
    } else {
      CanonicalJoin(front, back, limit);
    }
    forall p: nat ensures Free(Carved(runs, i, n), p) <==> Free(runs, p) && !(runs[i].start <= p < runs[i].start + n) {
      CanonicalAround(runs, limit, i, p);
      FreeBetween(front, rest, back, p);
      FreeJoin(front, back, p);
    }
  }

  lemma RunInside(runs: seq<Run>, limit: nat, i: nat)
    requires Canonical(runs, limit) && i < |runs|
    ensures runs[i].pages > 0 && runs[i].End() <= limit
    ensures forall p: nat :: runs[i].Has(p) ==> Free(runs, p)
  {}

  // ---- Giving pages back ----

  /** Where the run `[at, at + n)` belongs: behind every run that lies below it. */
  ghost predicate Place(runs: seq<Run>, at: nat, i: nat) {
    i <= |runs| && (forall k :: 0 <= k < i ==> runs[k].start < at) && (i < |runs| ==> at < runs[i].start)
  }

  ghost predicate TouchesLow(runs: seq<Run>, at: nat, i: nat) {
    0 < i <= |runs| && runs[i - 1].End() == at
  }

  ghost predicate TouchesHigh(runs: seq<Run>, end: nat, i: nat) {
    i < |runs| && end == runs[i].start
  }

  /** With the pages put back at place `i` and merged with the neighbours that they touch. */
  ghost function Merged(runs: seq<Run>, at: nat, n: nat, i: nat): seq<Run>
    requires i <= |runs|
  {
    var low, high := TouchesLow(runs, at, i), TouchesHigh(runs, at + n, i);
    runs[..if low then i - 1 else i]
    + [Run(if low then runs[i - 1].start else at,
           (if low then runs[i - 1].pages else 0) + n + if high then runs[i].pages else 0)]
    + runs[if high then i + 1 else i..]
  }

  /** Pages that are not free lie in a gap. */
  lemma InGap(runs: seq<Run>, limit: nat, at: nat, n: nat, i: nat)
    requires Canonical(runs, limit) && n > 0 && Place(runs, at, i)
    requires forall p: nat :: at <= p < at + n ==> !Free(runs, p)
    ensures i > 0 ==> runs[i - 1].End() <= at
    ensures i < |runs| ==> at + n <= runs[i].start
  {
    if i > 0 {
      RunInside(runs, limit, i - 1);
      assert !runs[i - 1].Has(at);
    }
    if i < |runs| {
      RunInside(runs, limit, i);
      assert runs[i].Has(runs[i].start) && Free(runs, runs[i].start);
    }
  }

  /** Pages given back join the runs that they touch, on one side or on both, and the list stays canonical. */
  lemma MergedCanonical(runs: seq<Run>, limit: nat, at: nat, n: nat, i: nat)
    requires Canonical(runs, limit) && n > 0 && at + n <= limit && Place(runs, at, i)
    requires forall p: nat :: at <= p < at + n ==> !Free(runs, p)
    ensures Canonical(Merged(runs, at, n, i), limit)
    ensures forall p: nat :: Free(Merged(runs, at, n, i), p) <==> Free(runs, p) || at <= p < at + n
  {
    hide Canonical, Free, Place, Merged;
    InGap(runs, limit, at, n, i);
    GapRuns(runs, limit, at, i);
    MergedOrder(runs, limit, at, n, i);
    forall p: nat ensures Free(Merged(runs, at, n, i), p) <==> Free(runs, p) || at <= p < at + n {
      MergedFree(runs, limit, at, n, i, p);
    }
  }

  lemma MergedOrder(runs: seq<Run>, limit: nat, at: nat, n: nat, i: nat)
    requires Canonical(runs, limit) && i <= |runs| && n > 0 && at + n <= limit
    requires i > 0 ==> runs[i - 1].End() <= at
    requires i < |runs| ==> at + n <= runs[i].start
    ensures Canonical(Merged(runs, at, n, i), limit)
  {
    hide Canonical;
    LowPart(runs, limit, at, i);
    HighPart(runs, limit, at + n, i);
    var low, high := TouchesLow(runs, at, i), TouchesHigh(runs, at + n, i);
    var r := Run(if low then runs[i - 1].start else at,
                 (if low then runs[i - 1].pages else 0) + n + if high then runs[i].pages else 0);
    CanonicalBetween(runs[..if low then i - 1 else i], r, runs[if high then i + 1 else i..], limit);
  }

  /** What stays in front of pages that join a run below or not. */
  lemma LowPart(runs: seq<Run>, limit: nat, at: nat, i: nat)
    requires Canonical(runs, limit) && i <= |runs| && (i > 0 ==> runs[i - 1].End() <= at)
    ensures var low := TouchesLow(runs, at, i);
      var front := runs[..if low then i - 1 else i];
      && Canonical(front, limit)
      && (front != [] ==> front[|front| - 1].End() < if low then runs[i - 1].start else at)
  {}

  /** And what stays behind pages that join a run above or not. */
  lemma HighPart(runs: seq<Run>, limit: nat, end: nat, i: nat)
    requires Canonical(runs, limit) && i <= |runs| && (i < |runs| ==> end <= runs[i].start)
    ensures var high := TouchesHigh(runs, end, i);
      var back := runs[if high then i + 1 else i..];
      && Canonical(back, limit) && (high ==> runs[i].End() <= limit)
      && (back != [] ==> (if high then runs[i].End() else end) < back[0].start)
  {}

  lemma MergedFree(runs: seq<Run>, limit: nat, at: nat, n: nat, i: nat, p: nat)
    requires Canonical(runs, limit) && i <= |runs|
    requires i > 0 ==> runs[i - 1].End() <= at
    requires i < |runs| ==> at + n <= runs[i].start
    ensures Free(Merged(runs, at, n, i), p) <==> Free(runs, p) || at <= p < at + n
  {
    hide Canonical, Free;
    var low, high := TouchesLow(runs, at, i), TouchesHigh(runs, at + n, i);
    var r := Run(if low then runs[i - 1].start else at,
                 (if low then runs[i - 1].pages else 0) + n + if high then runs[i].pages else 0);
    FreeBetween(runs[..if low then i - 1 else i], r, runs[if high then i + 1 else i..], p);
    FreeAround(runs, limit, i, low, high, p);
  }

  lemma GapRuns(runs: seq<Run>, limit: nat, at: nat, i: nat)
    requires Canonical(runs, limit) && Place(runs, at, i)
    ensures i <= |runs|
    ensures i > 1 ==> runs[i - 2].End() < runs[i - 1].start
    ensures i + 1 < |runs| ==> runs[i].End() < runs[i + 1].start
  {}

  /** The free pages of a list with up to two neighbouring runs set apart. */
  lemma FreeAround(runs: seq<Run>, limit: nat, i: nat, low: bool, high: bool, p: nat)
    requires Canonical(runs, limit) && i <= |runs| && (low ==> i > 0) && (high ==> i < |runs|)
    ensures Free(runs, p) <==>
      || Free(runs[..if low then i - 1 else i], p)
      || (low && runs[i - 1].Has(p)) || (high && runs[i].Has(p))
      || Free(runs[if high then i + 1 else i..], p)
  {
    hide Canonical, Free;
    CanonicalSlice(runs, limit, i);
    if low {
      assert runs[..i] == runs[..i - 1] + [runs[i - 1]] + [];
      FreeBetween(runs[..i - 1], runs[i - 1], [], p);
      NothingFree(p);
    }
    if high {
      assert runs[i..] == [] + [runs[i]] + runs[i + 1..];
      FreeBetween([], runs[i], runs[i + 1..], p);
      NothingFree(p);
    }
  }

  lemma NothingFree(p: nat)
    ensures !Free([], p)
  {}

  /** Giving pages back where they came from restores the very list that there was before they were taken. */
  lemma FreeUndoesAlloc(runs: seq<Run>, limit: nat, i: nat, n: nat, j: nat)
    requires Canonical(runs, limit) && i < |runs| && 0 < n <= runs[i].pages
    requires Place(Carved(runs, i, n), runs[i].start, j)
    ensures Merged(Carved(runs, i, n), runs[i].start, n, j) == runs
  {
    hide Canonical, Free, Carved, Merged;
    var less, at := Carved(runs, i, n), runs[i].start;
    RunInside(runs, limit, i);
    CarvedCanonical(runs, limit, i, n);
    MergedCanonical(less, limit, at, n, j);
    forall p: nat ensures Free(Merged(less, at, n, j), p) <==> Free(runs, p) {
      if at <= p < at + n { assert runs[i].Has(p); }
    }
    CanonicalUnique(Merged(less, at, n, j), runs, limit);
  }

  // ---- Blocks in use ----

  /** Blocks in use and free runs together are the whole region, each page in one of them only. */
  ghost predicate Partition(runs: seq<Run>, blocks: map<nat, nat>, limit: nat) {
    && (forall a :: a in blocks ==> blocks[a] > 0 && a + blocks[a] <= limit)
    && (forall a, p: nat :: a in blocks && a <= p < a + blocks[a] ==> !Free(runs, p))
    && (forall a, b :: a in blocks && b in blocks && a < b ==> a + blocks[a] <= b)
    && (forall p: nat :: p < limit && !Free(runs, p) ==> InBlock(blocks, p))
  }

  ghost predicate InBlock(blocks: map<nat, nat>, p: nat) {
    exists a :: a in blocks && a <= p < a + blocks[a]
  }

  lemma CarvedPartition(runs: seq<Run>, blocks: map<nat, nat>, limit: nat, i: nat, n: nat)
    requires Canonical(runs, limit) && Partition(runs, blocks, limit) && i < |runs| && 0 < n <= runs[i].pages
    ensures runs[i].start !in blocks && Partition(Carved(runs, i, n), blocks[runs[i].start := n], limit)
  {
    hide Canonical, Free, Carved;
    var at, less, more := runs[i].start, Carved(runs, i, n), blocks[runs[i].start := n];
    RunInside(runs, limit, i);
    CarvedCanonical(runs, limit, i, n);
    assert forall p: nat :: at <= p < at + n ==> runs[i].Has(p) && Free(runs, p);
    assert runs[i].Has(at);
    forall b: nat | b in blocks ensures b + blocks[b] <= at || at + n <= b {
      assert !Free(runs, b) && Free(runs, at);
    }
    forall p: nat | p < limit && !Free(less, p) ensures InBlock(more, p) {
      if Free(runs, p) {
        assert at in more;
      } else {
        var a :| a in blocks && a <= p < a + blocks[a];
        assert a in more && more[a] == blocks[a];
      }
    }
  }

  lemma MergedPartition(runs: seq<Run>, blocks: map<nat, nat>, limit: nat, at: nat, i: nat)
    requires Canonical(runs, limit) && Partition(runs, blocks, limit) && at in blocks && Place(runs, at, i)
    ensures Partition(Merged(runs, at, blocks[at], i), blocks - {at}, limit)
  {
    hide Canonical, Free, Merged;
    var n, more, fewer := blocks[at], Merged(runs, at, blocks[at], i), blocks - {at};
    GapRuns(runs, limit, at, i);
    MergedCanonical(runs, limit, at, n, i);
    forall p: nat | p < limit && !Free(more, p) ensures InBlock(fewer, p) {
      assert InBlock(blocks, p);
      var a :| a in blocks && a <= p < a + blocks[a];
      assert a in fewer;
    }
  }
}
