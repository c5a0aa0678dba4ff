/** `calc_all_wcs`: a memoised depth-first search that writes its results into the functions. */
module WorstCaseStack {
  import opened Common
  import opened CallGraph

  /** The dictionary kept for one function. */
  class Function {
    const id: nat
    const localStack: nat
    const hasPtrCall: bool
    var rCalls: seq<Function>
    var unresolvedCalls: set<string>
    var wcs: Option<Stack>

    constructor (id: nat, localStack: nat, hasPtrCall: bool)
      ensures this.id == id && this.localStack == localStack && this.hasPtrCall == hasPtrCall
      ensures rCalls == [] && unresolvedCalls == {} && wcs == None
    {
      this.id, this.localStack, this.hasPtrCall := id, localStack, hasPtrCall;
      rCalls, unresolvedCalls, wcs := [], {}, None;
    }
  }

  /** The functions, by number, and the graph they make up. */
  ghost predicate Represents(fs: seq<Function>, g: seq<Node>)
    reads fs`rCalls
  {
    && Closed(g) && |fs| == |g|
    && (forall u :: 0 <= u < |g| ==> RepresentsAt(fs, g, u))
  }

  ghost predicate RepresentsAt(fs: seq<Function>, g: seq<Node>, u: nat)
    requires u < |fs| == |g|
    reads fs`rCalls
  {
    && fs[u].id == u && fs[u].localStack == g[u].local && fs[u].hasPtrCall == g[u].ptrCall
    && |fs[u].rCalls| == |g[u].calls|
    && (forall k :: 0 <= k < |g[u].calls| ==> g[u].calls[k] < |fs| && fs[u].rCalls[k] == fs[g[u].calls[k]])
  }

  /** What is recorded for one function. */
  datatype Entry = Entry(wcs: Option<Stack>, unresolved: set<string>)

  ghost function Entries(fs: seq<Function>): (rs: seq<Entry>)
    reads fs
    ensures |rs| == |fs|
  {
    seq(|fs|, u requires 0 <= u < |fs| reads fs => Entry(fs[u].wcs, fs[u].unresolvedCalls))
  }

  /** A recorded result is right. */
  ghost predicate Right(g: seq<Node>, u: nat, w: Stack, unresolved: set<string>) {
    if w == Unbounded then Hopeless(g, u)
    else !Hopeless(g, u) && WorstCase(g, u, w.size) && forall x :: x in unresolved <==> Unresolvable(g, u, x)
  }

  /** Every result so far is right, and a function not looked at yet lists its own unresolved calls only. */
  ghost predicate Progress(g: seq<Node>, rs: seq<Entry>, active: set<nat>) {
    |rs| == |g| && forall u :: 0 <= u < |g| ==> ProgressAt(g, rs, active, u)
  }

  ghost predicate ProgressAt(g: seq<Node>, rs: seq<Entry>, active: set<nat>, u: nat)
    requires u < |rs| == |g|
  {
    && (rs[u].wcs.Some? ==> Right(g, u, rs[u].wcs.value, rs[u].unresolved))
    && (rs[u].wcs == None && u !in active ==> rs[u].unresolved == g[u].own)
  }

  /** Results once recorded stay, and functions being worked on keep their unresolved calls. */
  ghost predicate Extends(rs: seq<Entry>, now: seq<Entry>, active: set<nat>) {
    && |now| == |rs|
    && (forall u :: 0 <= u < |rs| && rs[u].wcs.Some? ==> now[u].wcs == rs[u].wcs)
    && (forall u :: 0 <= u < |rs| && u in active ==>
          now[u].unresolved == rs[u].unresolved && (now[u].wcs == rs[u].wcs || now[u].wcs == Some(Unbounded)))
  }

  /** `parents` is a chain of calls that ends in a caller of `f`. */
  ghost predicate Chain(g: seq<Node>, parents: seq<nat>, f: nat) {
    f < |g| && (parents != [] ==> Path(g, parents) && f in g[parents[|parents| - 1]].calls)
  }

  ghost function Ids(parents: seq<Function>): (ids: seq<nat>)
    ensures |ids| == |parents| && forall i :: 0 <= i < |ids| ==> ids[i] == parents[i].id
  {
    seq(|parents|, i requires 0 <= i < |parents| => parents[i].id)
  }

  /** A function found among its own callers is recursive. */
  lemma ParentIsRecursive(g: seq<Node>, parents: seq<nat>, f: nat)
    requires Chain(g, parents, f) && f in parents
    ensures Recursive(g, f)
  {
    var i :| 0 <= i < |parents| && parents[i] == f;
    var p := parents[i..] + [f];
    assert PathFrom(g, p, f) && |p| > 1 && p[|p| - 1] == f;
  }

  lemma ChainExtends(g: seq<Node>, parents: seq<nat>, f: nat, c: nat)
    requires Closed(g) && Chain(g, parents, f) && c in g[f].calls
    ensures Chain(g, parents + [f], c)
  {
    assert CallsInside(g, f);
    var p := parents + [f];
    assert forall i :: 0 <= i < |p| - 1 ==> p[i] == parents[i];
  }

  ghost function Below(n: nat): (r: set<nat>)
    ensures forall u: nat :: u in r <==> u < n
  {
    if n == 0 then {} else Below(n - 1) + {n - 1}
  }

  ghost predicate Known(fs: seq<Function>, f: Function) {
    f.id < |fs| && fs[f.id] == f
  }

  ghost predicate Parents(fs: seq<Function>, parents: seq<Function>, active: set<nat>) {
    && (forall i :: 0 <= i < |parents| ==> Known(fs, parents[i]))
    && (forall u: nat :: u in active <==> u in Ids(parents))
  }

  lemma ParentsExtend(fs: seq<Function>, parents: seq<Function>, active: set<nat>, f: Function)
    requires Parents(fs, parents, active) && Known(fs, f)
    ensures Parents(fs, parents + [f], active + {f.id}) && Ids(parents + [f]) == Ids(parents) + [f.id]
  {
    assert Ids(parents + [f]) == Ids(parents) + [f.id];
  }

  // ---- Steps of the search ----

  lemma Record(g: seq<Node>, rs: seq<Entry>, active: set<nat>, u: nat, w: Stack)
    requires Progress(g, rs, active + {u}) && u < |g| && Right(g, u, w, rs[u].unresolved)
    ensures Progress(g, rs[u := Entry(Some(w), rs[u].unresolved)], active)
  {
    var now := rs[u := Entry(Some(w), rs[u].unresolved)];
    forall v | 0 <= v < |g| ensures ProgressAt(g, now, active, v) { assert ProgressAt(g, rs, active + {u}, v); }
  }

  lemma StartWork(g: seq<Node>, rs: seq<Entry>, active: set<nat>, u: nat)
    requires Progress(g, rs, active)
    ensures Progress(g, rs, active + {u})
  {
    forall v | 0 <= v < |g| ensures ProgressAt(g, rs, active + {u}, v) { assert ProgressAt(g, rs, active, v); }
  }

  /** What the first `n` callees add up to. */
  ghost predicate Gathered(g: seq<Node>, rs: seq<Entry>, u: nat, n: nat, callMax: nat) {
    && u < |rs| == |g| && n <= |g[u].calls|
    && (forall k :: 0 <= k < n ==> BoundedBy(g, rs, g[u].calls[k], callMax))
    && (callMax == 0 || exists k :: 0 <= k < n && WorstCase(g, g[u].calls[k], callMax))
    && (forall x :: x in rs[u].unresolved <==> x in g[u].own || UnresolvableIn(g, g[u].calls[..n], x))
  }

  ghost predicate UnresolvableIn(g: seq<Node>, calls: seq<nat>, x: string) {
    exists k :: 0 <= k < |calls| && Unresolvable(g, calls[k], x)
  }

  ghost predicate BoundedBy(g: seq<Node>, rs: seq<Entry>, c: nat, callMax: nat) {
    && c < |rs| && rs[c].wcs.Some? && rs[c].wcs.value.Bounded? && rs[c].wcs.value.size <= callMax
    && WorstCase(g, c, rs[c].wcs.value.size) && !Hopeless(g, c)
  }

  lemma MoreUnresolvable(g: seq<Node>, calls: seq<nat>, n: nat, x: string)
    requires n < |calls|
    ensures UnresolvableIn(g, calls[..n + 1], x) <==> UnresolvableIn(g, calls[..n], x) || Unresolvable(g, calls[n], x)
  {
    hide Unresolvable;
    if UnresolvableIn(g, calls[..n], x) {
      var k :| 0 <= k < n && Unresolvable(g, calls[..n][k], x);
      assert calls[..n + 1][k] == calls[..n][k];
    }
    if Unresolvable(g, calls[n], x) { assert calls[..n + 1][n] == calls[n]; }
  }

  ghost function Larger(a: nat, b: nat): nat { if a < b then b else a }

  lemma GatherMore(g: seq<Node>, rs: seq<Entry>, now: seq<Entry>, active: set<nat>, u: nat, n: nat, callMax: nat)
    requires Gathered(g, rs, u, n, callMax) && n < |g[u].calls|
    requires Extends(rs, now, active + {u}) && Progress(g, now, active + {u})
    requires var c := g[u].calls[n]; c < |now| && now[c].wcs.Some? && now[c].wcs.value.Bounded?
    ensures var c := g[u].calls[n];
      Gathered(g, now[u := Entry(now[u].wcs, now[u].unresolved + now[c].unresolved)], u, n + 1,
               Larger(callMax, now[c].wcs.value.size))
  {
    hide Hopeless, WorstCase, Unresolvable, UnresolvableIn;
    var c := g[u].calls[n];
    assert ProgressAt(g, now, active + {u}, c);
    var m := Larger(callMax, now[c].wcs.value.size);
    var more := now[u := Entry(now[u].wcs, now[u].unresolved + now[c].unresolved)];
    forall k | 0 <= k < n + 1 ensures BoundedBy(g, more, g[u].calls[k], m) {
      if k < n { assert BoundedBy(g, rs, g[u].calls[k], callMax); }
    }
    forall x ensures x in more[u].unresolved <==> x in g[u].own || UnresolvableIn(g, g[u].calls[..n + 1], x) {
      MoreUnresolvable(g, g[u].calls, n, x);
    }
  }

  lemma GatheredAll(g: seq<Node>, rs: seq<Entry>, u: nat, callMax: nat)
    requires Closed(g) && u < |g| && !g[u].ptrCall && Gathered(g, rs, u, |g[u].calls|, callMax)
    ensures Right(g, u, Bounded(callMax + g[u].local), rs[u].unresolved)
  {
    hide WorstCase, Unresolvable, Hopeless;
    forall k | 0 <= k < |g[u].calls|
      ensures !Hopeless(g, g[u].calls[k]) && AtMost(g, g[u].calls[k], callMax)
    {
      assert BoundedBy(g, rs, g[u].calls[k], callMax);
    }
    if Hopeless(g, u) { HopelessCases(g, u); }
    WorstCaseStep(g, u, callMax);
    assert g[u].calls[..|g[u].calls|] == g[u].calls;
    forall x ensures x in rs[u].unresolved <==> Unresolvable(g, u, x) { UnresolvableStep(g, u, x); }
  }

  lemma EntryAt(fs: seq<Function>, u: nat)
    requires u < |fs|
    ensures Entries(fs)[u] == Entry(fs[u].wcs, fs[u].unresolvedCalls)
  {}

  lemma ActiveIsParent(fs: seq<Function>, parents: seq<Function>, active: set<nat>, f: Function)
    requires Parents(fs, parents, active) && Known(fs, f) && f.id in active
    ensures f in parents
  {
    var i :| 0 <= i < |parents| && Ids(parents)[i] == f.id;
    assert Known(fs, parents[i]);
  }

  lemma CalleeOf(fs: seq<Function>, g: seq<Node>, u: nat, k: nat)
    requires Represents(fs, g) && u < |g| && k < |g[u].calls|
    ensures u < |fs| && |fs[u].rCalls| == |g[u].calls| && Known(fs, fs[u].rCalls[k])
      && fs[u].rCalls[k].id == g[u].calls[k]
    ensures Closed(g) && g[u].calls[k] < |g| == |fs| && !g[u].ptrCall == !fs[u].hasPtrCall
  {
    assert RepresentsAt(fs, g, u);
    assert RepresentsAt(fs, g, g[u].calls[k]);
  }

  lemma MoreActive(n: nat, active: set<nat>, u: nat)
    requires u < n && u !in active
    ensures Below(n) - (active + {u}) < Below(n) - active
  {
    assert u in Below(n) - active;
  }

  lemma ExtendsTransitive(start: seq<Entry>, before: seq<Entry>, after: seq<Entry>, active: set<nat>, u: nat)
    requires Extends(start, before, active) && Extends(before, after, active + {u})
    ensures Extends(start, after, active) && |after| == |start|
    ensures u < |start| ==> after[u].unresolved == before[u].unresolved
                            && (after[u].wcs == before[u].wcs || after[u].wcs == Some(Unbounded))
  {}

  lemma ExtendsHere(start: seq<Entry>, after: seq<Entry>, active: set<nat>, u: nat, e: Entry)
    requires Extends(start, after, active) && u < |start| && start[u].wcs == None && u !in active
    ensures |after| == |start| && Extends(start, after[u := e], active)
  {}

  lemma CalleeHopeless(g: seq<Node>, rs: seq<Entry>, active: set<nat>, u: nat, c: nat)
    requires Progress(g, rs, active) && u < |g| && c < |g| && c in g[u].calls && |rs| == |g|
    requires rs[c].wcs == Some(Unbounded)
    ensures Right(g, u, Unbounded, rs[u].unresolved)
  {
    assert ProgressAt(g, rs, active, c);
    HopelessCallee(g, u, c);
  }

  lemma MoreProgress(g: seq<Node>, rs: seq<Entry>, active: set<nat>, u: nat, more: set<string>)
    requires Progress(g, rs, active + {u}) && u < |rs| && (rs[u].wcs == None || rs[u].wcs == Some(Unbounded))
    ensures Progress(g, rs[u := Entry(rs[u].wcs, more)], active + {u})
  {
    var now := rs[u := Entry(rs[u].wcs, more)];
    forall v | 0 <= v < |g| ensures ProgressAt(g, now, active + {u}, v) { assert ProgressAt(g, rs, active + {u}, v); }
  }

  method Store(fs: seq<Function>, ghost g: seq<Node>, f: Function, wcs: Option<Stack>, unresolved: set<string>)
    requires Represents(fs, g) && Known(fs, f)
    modifies f`wcs, f`unresolvedCalls
    ensures Entries(fs) == old(Entries(fs))[f.id := Entry(wcs, unresolved)]
  {
    f.wcs := wcs;
    f.unresolvedCalls := unresolved;
    forall u | 0 <= u < |fs| ensures Entries(fs)[u] == old(Entries(fs))[f.id := Entry(wcs, unresolved)][u] {
      assert RepresentsAt(fs, g, u);
    }
  }

  /** `calc_wcs`. */
  method CalcWcs(fs: seq<Function>, ghost g: seq<Node>, f: Function, parents: seq<Function>, ghost active: set<nat>)
    requires Represents(fs, g) && Known(fs, f) && Parents(fs, parents, active) && Chain(g, Ids(parents), f.id)
    requires Progress(g, Entries(fs), active)
    modifies fs`wcs, fs`unresolvedCalls
    ensures Progress(g, Entries(fs), active) && Extends(old(Entries(fs)), Entries(fs), active)
    ensures f.wcs.Some?
    decreases Below(|fs|) - active, 2
  {
    ghost var u, start := f.id, Entries(fs);
    assert RepresentsAt(fs, g, u);
    EntryAt(fs, u);
    if f.wcs.Some? {
      return;
    }
    StartWork(g, start, active, u);
    if f.hasPtrCall {
      HopelessItself(g, u);
      Record(g, start, active, u, Unbounded);
      Store(fs, g, f, Some(Unbounded), f.unresolvedCalls);
      EntryAt(fs, u);
      return;
    }
    if f in parents {
      assert u in Ids(parents);
      ParentIsRecursive(g, Ids(parents), u);
      HopelessItself(g, u);
      Record(g, start, active, u, Unbounded);
      Store(fs, g, f, Some(Unbounded), f.unresolvedCalls);
      EntryAt(fs, u);
      return;
    }
    if u in active { ActiveIsParent(fs, parents, active, f); }
    ParentsExtend(fs, parents, active, f);
    assert Gathered(g, start, u, 0, 0) by { assert ProgressAt(g, start, active, u); }
    assert Extends(start, start, active);
    var bounded, callMax := VisitCallees(fs, g, f, parents, active);
    ghost var done := Entries(fs);
    if bounded {
      GatheredAll(g, done, u, callMax);
      Record(g, done, active, u, Bounded(callMax + f.localStack));
    } else {
      Record(g, done, active, u, Unbounded);
    }
    EntryAt(fs, u);
    var wcs := if bounded then Bounded(callMax + f.localStack) else Unbounded;
    ExtendsHere(start, done, active, u, Entry(Some(wcs), done[u].unresolved));
    Store(fs, g, f, Some(wcs), f.unresolvedCalls);
    EntryAt(fs, u);
  }

  lemma NothingYet(fs: seq<Function>, g: seq<Node>, u: nat, active: set<nat>)
    requires Represents(fs, g) && u < |g|
    ensures |fs| == |g| && |fs[u].rCalls| == |g[u].calls| && Closed(g) && CallsInside(g, u)
    ensures Extends(Entries(fs), Entries(fs), active)
  {
    assert RepresentsAt(fs, g, u);
  }

  /** One round of the loop over the callees. */
  method VisitCallee(fs: seq<Function>, ghost g: seq<Node>, f: Function, parents: seq<Function>, ghost active: set<nat>,
                     ghost start: seq<Entry>, k: nat, callMax: nat)
    returns (bounded: bool, now: nat)
    requires Represents(fs, g) && Known(fs, f) && f.id < |g| && f.id !in active && k < |f.rCalls| == |g[f.id].calls|
    requires Parents(fs, parents + [f], active + {f.id}) && Chain(g, Ids(parents + [f]), g[f.id].calls[k])
    requires Progress(g, Entries(fs), active + {f.id}) && (f.wcs == None || f.wcs == Some(Unbounded))
    requires |start| == |g| && start[f.id].wcs == None && Extends(start, Entries(fs), active)
    requires Gathered(g, Entries(fs), f.id, k, callMax)
    modifies fs`wcs, fs`unresolvedCalls
    ensures Progress(g, Entries(fs), active + {f.id}) && Extends(start, Entries(fs), active)
    ensures f.wcs == None || f.wcs == Some(Unbounded)
    ensures if bounded then Gathered(g, Entries(fs), f.id, k + 1, now)
            else Right(g, f.id, Unbounded, Entries(fs)[f.id].unresolved)
    decreases Below(|fs|) - active, 0
  {
    hide Represents, Progress, Gathered, Hopeless, Right, Chain, Parents, Extends, Entries, Closed, Below;
    ghost var u, before := f.id, Entries(fs);
    CalleeOf(fs, g, u, k);
    var callee := f.rCalls[k];
    MoreActive(|fs|, active, u);
    EntryAt(fs, u);
    CalcWcs(fs, g, callee, parents + [f], active + {u});
    EntryAt(fs, callee.id);
    EntryAt(fs, u);
    AfterCallee(g, start, before, Entries(fs), active, u, k, callMax);
    if callee.wcs == Some(Unbounded) {
      return false, 0;
    }
    now := if callMax < callee.wcs.value.size then callee.wcs.value.size else callMax;
    Store(fs, g, f, f.wcs, f.unresolvedCalls + callee.unresolvedCalls);
    EntryAt(fs, u);
    bounded := true;
  }

  /** The loop over the callees. */
  method VisitCallees(fs: seq<Function>, ghost g: seq<Node>, f: Function, parents: seq<Function>,
      ghost active: set<nat>)
    returns (bounded: bool, callMax: nat)
    requires Represents(fs, g) && Known(fs, f) && f.id < |g| && f.id !in active && Chain(g, Ids(parents), f.id)
    requires Parents(fs, parents + [f], active + {f.id}) && Ids(parents + [f]) == Ids(parents) + [f.id]
    requires Progress(g, Entries(fs), active + {f.id}) && f.wcs == None && Gathered(g, Entries(fs), f.id, 0, 0)
    modifies fs`wcs, fs`unresolvedCalls
    ensures Progress(g, Entries(fs), active + {f.id}) && Extends(old(Entries(fs)), Entries(fs), active)
    ensures if bounded then Gathered(g, Entries(fs), f.id, |g[f.id].calls|, callMax)
            else Right(g, f.id, Unbounded, Entries(fs)[f.id].unresolved)
    decreases Below(|fs|) - active, 1
  {
    hide Represents, Progress, Gathered, Hopeless, Right, Chain, Parents, Extends, Entries, Closed, Below;
    ghost var u, start := f.id, Entries(fs);
    NothingYet(fs, g, u, active);
    EntryAt(fs, u);
    bounded, callMax := true, 0;
    for k := 0 to |f.rCalls|
      invariant bounded && |f.rCalls| == |g[u].calls| && (f.wcs == None || f.wcs == Some(Unbounded))
      invariant Progress(g, Entries(fs), active + {u}) && Extends(start, Entries(fs), active)
      invariant Gathered(g, Entries(fs), u, k, callMax)
    {
      CalleeOf(fs, g, u, k);
      ChainExtends(g, Ids(parents), u, g[u].calls[k]);
      bounded, callMax := VisitCallee(fs, g, f, parents, active, start, k, callMax);
      if !bounded {
        return;
      }
    }
  }

  lemma AfterCallee(g: seq<Node>, start: seq<Entry>, before: seq<Entry>, after: seq<Entry>, active: set<nat>,
                    u: nat, n: nat, callMax: nat)
    requires u < |g| == |start| && n < |g[u].calls| && g[u].calls[n] < |g| && u !in active
    requires start[u].wcs == None && Extends(start, before, active) && Gathered(g, before, u, n, callMax)
    requires Extends(before, after, active + {u}) && Progress(g, after, active + {u})
    requires |before| == |after| == |g| && (before[u].wcs == None || before[u].wcs == Some(Unbounded))
    requires after[g[u].calls[n]].wcs.Some?
    ensures Extends(start, after, active) && (after[u].wcs == None || after[u].wcs == Some(Unbounded))
    ensures var w := after[g[u].calls[n]].wcs.value;
      var more := after[u := Entry(after[u].wcs, after[u].unresolved + after[g[u].calls[n]].unresolved)];
      if w == Unbounded then Right(g, u, Unbounded, after[u].unresolved)
      else
        && Progress(g, more, active + {u}) && Extends(start, more, active)
        && Gathered(g, more, u, n + 1, if callMax < w.size then w.size else callMax)
  {
    hide Progress, Gathered, Right, Extends;
    var c := g[u].calls[n];
    ExtendsTransitive(start, before, after, active, u);
    if after[c].wcs.value == Unbounded {
      CalleeHopeless(g, after, active + {u}, u, c);
    } else {
      GatherMore(g, before, after, active, u, n, callMax);
      MoreProgress(g, after, active, u, after[u].unresolved + after[c].unresolved);
      ExtendsHere(start, after, active, u, Entry(after[u].wcs, after[u].unresolved + after[c].unresolved));
    }
  }

  // ---- The whole run ----

  /** What resolving the calls leaves: nothing computed, except for the functions whose stack was given by hand. */
  ghost predicate Resolved(fs: seq<Function>, g: seq<Node>)
    reads fs
  {
    && Represents(fs, g)
    && (forall u :: 0 <= u < |g| ==>
          && fs[u].unresolvedCalls == g[u].own
          && (fs[u].wcs == None || (fs[u].wcs == Some(Bounded(g[u].local)) && GivenByHand(g[u]))))
  }

  ghost predicate GivenByHand(n: Node) {
    !n.ptrCall && n.calls == [] && n.own == {}
  }

  lemma ResolvedProgress(fs: seq<Function>, g: seq<Node>)
    requires Resolved(fs, g)
    ensures Progress(g, Entries(fs), {}) && |fs| == |g| && Represents(fs, g)
  {
    forall u | 0 <= u < |g| ensures ProgressAt(g, Entries(fs), {}, u) {
      assert RepresentsAt(fs, g, u);
      if fs[u].wcs.Some? {
        assert Gathered(g, Entries(fs), u, 0, 0);
        GatheredAll(g, Entries(fs), u, 0);
      }
    }
  }

  /** The same program, its calls listed in any order. */
  ghost predicate SameCalls(g: seq<Node>, h: seq<Node>) {
    |g| == |h| && forall u :: 0 <= u < |g| ==>
      && g[u].local == h[u].local && g[u].ptrCall == h[u].ptrCall && g[u].own == h[u].own
      && (forall v :: v in g[u].calls <==> v in h[u].calls)
  }

  lemma SameTotal(g: seq<Node>, h: seq<Node>, p: seq<nat>)
    requires SameCalls(g, h) && forall i :: 0 <= i < |p| ==> p[i] < |g|
    ensures Total(g, p) == Total(h, p)
  {}

  lemma SamePaths(g: seq<Node>, h: seq<Node>)
    requires SameCalls(g, h)
    ensures forall p, u :: PathFrom(g, p, u) <==> PathFrom(h, p, u)
  {}

  /** Two right results for a program agree, in whatever orders functions and calls were visited. */
  lemma OrderIrrelevant(g: seq<Node>, h: seq<Node>, u: nat, a: Stack, x: set<string>, b: Stack, y: set<string>)
    requires SameCalls(g, h) && u < |g| && Right(g, u, a, x) && Right(h, u, b, y)
    ensures a == b && (a.Bounded? ==> x == y)
  {
    SamePaths(g, h);
    assert forall v, w :: Reaches(g, v, w) <==> Reaches(h, v, w);
    assert forall v :: Recursive(g, v) <==> Recursive(h, v);
    assert Hopeless(g, u) <==> Hopeless(h, u);
    if a.Bounded? {
      assert forall s :: Unresolvable(g, u, s) <==> Unresolvable(h, u, s);
      var p :| PathFrom(g, p, u) && Total(g, p) == a.size;
      var q :| PathFrom(h, q, u) && Total(h, q) == b.size;
      SameTotal(g, h, p);
      SameTotal(g, h, q);
    }
  }

  /** `calc_all_wcs`: every function ends with a right result. */
  method CalcAllWcs(fs: seq<Function>, ghost g: seq<Node>, globals: seq<Function>, locals: seq<seq<Function>>)
    requires Resolved(fs, g)
    requires forall i :: 0 <= i < |globals| ==> Known(fs, globals[i])
    requires forall i, j :: 0 <= i < |locals| && 0 <= j < |locals[i]| ==> Known(fs, locals[i][j])
    requires forall u :: 0 <= u < |fs| ==> fs[u] in globals || exists i :: 0 <= i < |locals| && fs[u] in locals[i]
    modifies fs`wcs, fs`unresolvedCalls
    ensures |fs| == |g| && forall u :: 0 <= u < |fs| ==>
      fs[u].wcs.Some? && Right(g, u, fs[u].wcs.value, fs[u].unresolvedCalls)
  {
    hide Right, Hopeless, WorstCase, Unresolvable, Represents, Resolved, Progress, Entries;
    ResolvedProgress(fs, g);
    for i := 0 to |globals|
      invariant Progress(g, Entries(fs), {})
      invariant forall k :: 0 <= k < i ==> globals[k].wcs.Some?
    {
      VisitTop(fs, g, globals[i]);
    }
    for i := 0 to |locals|
      invariant Progress(g, Entries(fs), {})
      invariant forall k :: 0 <= k < |globals| ==> globals[k].wcs.Some?
      invariant forall k, l :: 0 <= k < i && 0 <= l < |locals[k]| ==> locals[k][l].wcs.Some?
    {
      for j := 0 to |locals[i]|
        invariant Progress(g, Entries(fs), {})
        invariant forall k :: 0 <= k < |globals| ==> globals[k].wcs.Some?
        invariant forall k, l :: 0 <= k < i && 0 <= l < |locals[k]| ==> locals[k][l].wcs.Some?
        invariant forall l :: 0 <= l < j ==> locals[i][l].wcs.Some?
      {
        VisitTop(fs, g, locals[i][j]);
      }
    }
    forall u | 0 <= u < |fs| ensures fs[u].wcs.Some? && Right(g, u, fs[u].wcs.value, fs[u].unresolvedCalls) {
      RightAt(fs, g, u);
    }
  }

  lemma RightAt(fs: seq<Function>, g: seq<Node>, u: nat)
    requires Progress(g, Entries(fs), {}) && u < |fs| && fs[u].wcs.Some?
    ensures Right(g, u, fs[u].wcs.value, fs[u].unresolvedCalls)
  {
    assert ProgressAt(g, Entries(fs), {}, u);
  }

  /** A search that starts with no callers keeps every result there is. */
  method VisitTop(fs: seq<Function>, ghost g: seq<Node>, f: Function)
    requires Represents(fs, g) && Known(fs, f) && Progress(g, Entries(fs), {})
    modifies fs`wcs, fs`unresolvedCalls
    ensures Progress(g, Entries(fs), {}) && f.wcs.Some?
    ensures forall u :: 0 <= u < |fs| && old(fs[u].wcs).Some? ==> fs[u].wcs == old(fs[u].wcs)
  {
    ghost var start := Entries(fs);
    CalcWcs(fs, g, f, [], {});
    forall u | 0 <= u < |fs| && old(fs[u].wcs).Some? ensures fs[u].wcs == old(fs[u].wcs) {
      assert Entries(fs)[u].wcs == start[u].wcs;
    }
  }
}
