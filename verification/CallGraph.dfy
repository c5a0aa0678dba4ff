/** A resolved call graph, and what the worst-case stack of a function is. */
module CallGraph {

  /** One function: its own stack use, whether it calls through a pointer, whom it calls, what it cannot resolve. */
  datatype Node = Node(local: nat, ptrCall: bool, calls: seq<nat>, own: set<string>)

  datatype Stack = Unbounded | Bounded(size: nat)

  ghost predicate Closed(g: seq<Node>) {
    forall u :: 0 <= u < |g| ==> CallsInside(g, u)
  }

  ghost predicate CallsInside(g: seq<Node>, u: nat)
    requires u < |g|
  {
    forall k :: 0 <= k < |g[u].calls| ==> g[u].calls[k] < |g|
  }

  /** A chain of calls: every function calls the next one. */
  ghost predicate Path(g: seq<Node>, p: seq<nat>) {
    && p != []
    && (forall i :: 0 <= i < |p| ==> p[i] < |g|)
    && (forall i :: 0 <= i < |p| - 1 ==> p[i + 1] in g[p[i]].calls)
  }

  ghost predicate PathFrom(g: seq<Node>, p: seq<nat>, u: nat) {
    Path(g, p) && p[0] == u
  }

  ghost function Total(g: seq<Node>, p: seq<nat>): nat
    requires forall i :: 0 <= i < |p| ==> p[i] < |g|
  {
    if p == [] then 0 else g[p[0]].local + Total(g, p[1..])
  }

  ghost predicate Reaches(g: seq<Node>, u: nat, v: nat) {
    exists p :: PathFrom(g, p, u) && p[|p| - 1] == v
  }

  /** `u` may come back to itself. */
  ghost predicate Recursive(g: seq<Node>, u: nat) {
    exists p :: PathFrom(g, p, u) && |p| > 1 && p[|p| - 1] == u
  }

  /** `u` reaches recursion or a call through a pointer: no bound can be given. */
  ghost predicate Hopeless(g: seq<Node>, u: nat) {
    exists v :: 0 <= v < |g| && Reaches(g, u, v) && (g[v].ptrCall || Recursive(g, v))
  }

  /** `w` is the largest stack total over all call chains from `u`. */
  ghost predicate WorstCase(g: seq<Node>, u: nat, w: nat) {
    && (exists p :: PathFrom(g, p, u) && Total(g, p) == w)
    && (forall p :: PathFrom(g, p, u) ==> Total(g, p) <= w)
  }

  /** `x` is an unresolved name of `u` or of something `u` reaches. */
  ghost predicate Unresolvable(g: seq<Node>, u: nat, x: string) {
    exists v :: 0 <= v < |g| && Reaches(g, u, v) && x in g[v].own
  }

  // ---- Paths ----

  lemma Itself(g: seq<Node>, u: nat)
    requires u < |g|
    ensures PathFrom(g, [u], u) && Reaches(g, u, u)
  {
    assert PathFrom(g, [u], u);
  }

  lemma Prepend(g: seq<Node>, u: nat, p: seq<nat>)
    requires u < |g| && Path(g, p) && p[0] in g[u].calls
    ensures PathFrom(g, [u] + p, u) && ([u] + p)[|p|] == p[|p| - 1]
    ensures Total(g, [u] + p) == g[u].local + Total(g, p)
  {
    assert ([u] + p)[1..] == p;
  }

  lemma Rest(g: seq<Node>, p: seq<nat>)
    requires Path(g, p) && |p| > 1
    ensures PathFrom(g, p[1..], p[1]) && p[1] in g[p[0]].calls
    ensures p[1..][|p| - 2] == p[|p| - 1]
    ensures Total(g, p) == g[p[0]].local + Total(g, p[1..])
  {}

  lemma ReachesThrough(g: seq<Node>, u: nat, c: nat, v: nat)
    requires u < |g| && c in g[u].calls && Reaches(g, c, v)
    ensures Reaches(g, u, v)
  {
    var p :| PathFrom(g, p, c) && p[|p| - 1] == v;
    Prepend(g, u, p);
  }

  lemma ReachesCases(g: seq<Node>, u: nat, v: nat)
    requires u < |g| && Reaches(g, u, v)
    ensures u == v || exists k :: 0 <= k < |g[u].calls| && Reaches(g, g[u].calls[k], v)
  {
    var p :| PathFrom(g, p, u) && p[|p| - 1] == v;
    if |p| > 1 {
      Rest(g, p);
      var k :| 0 <= k < |g[u].calls| && g[u].calls[k] == p[1];
    }
  }

  // ---- What a function's callees say about it ----

  lemma HopelessCallee(g: seq<Node>, u: nat, c: nat)
    requires u < |g| && c in g[u].calls && Hopeless(g, c)
    ensures Hopeless(g, u)
  {
    var v :| 0 <= v < |g| && Reaches(g, c, v) && (g[v].ptrCall || Recursive(g, v));
    ReachesThrough(g, u, c, v);
  }

  lemma HopelessItself(g: seq<Node>, u: nat)
    requires u < |g| && (g[u].ptrCall || Recursive(g, u))
    ensures Hopeless(g, u)
  {
    Itself(g, u);
  }

  /** No function is hopeless, not even through recursion, unless it or one of its callees is. */
  lemma HopelessCases(g: seq<Node>, u: nat)
    requires Closed(g) && u < |g| && Hopeless(g, u)
    ensures g[u].ptrCall || exists k :: 0 <= k < |g[u].calls| && Hopeless(g, g[u].calls[k])
  {
    var v :| 0 <= v < |g| && Reaches(g, u, v) && (g[v].ptrCall || Recursive(g, v));
    if u != v {
      ReachesCases(g, u, v);
      var k :| 0 <= k < |g[u].calls| && Reaches(g, g[u].calls[k], v);
      assert Hopeless(g, g[u].calls[k]);
    } else if !g[u].ptrCall {
      var p :| PathFrom(g, p, u) && |p| > 1 && p[|p| - 1] == u;
      Rest(g, p);
      var k :| 0 <= k < |g[u].calls| && g[u].calls[k] == p[1];
      assert Reaches(g, p[1], u);
      assert Hopeless(g, g[u].calls[k]);
    }
  }

  ghost predicate AtMost(g: seq<Node>, u: nat, w: nat) {
    exists x: nat :: x <= w && WorstCase(g, u, x)
  }

  /** The worst case is the own stack plus the worst callee's. */
  lemma WorstCaseStep(g: seq<Node>, u: nat, w: nat)
    requires u < |g|
    requires w == 0 || exists k :: 0 <= k < |g[u].calls| && WorstCase(g, g[u].calls[k], w)
    requires forall k :: 0 <= k < |g[u].calls| ==> AtMost(g, g[u].calls[k], w)
    ensures WorstCase(g, u, w + g[u].local)
  {
    Itself(g, u);
    if w == 0 {
      assert Total(g, [u]) == g[u].local + Total(g, [u][1..]);
    } else {
      var k :| 0 <= k < |g[u].calls| && WorstCase(g, g[u].calls[k], w);
      var p :| PathFrom(g, p, g[u].calls[k]) && Total(g, p) == w;
      Prepend(g, u, p);
    }
    forall p | PathFrom(g, p, u) ensures Total(g, p) <= w + g[u].local {
      if |p| > 1 {
        Rest(g, p);
        var k :| 0 <= k < |g[u].calls| && g[u].calls[k] == p[1];
        var x: nat :| x <= w && WorstCase(g, g[u].calls[k], x);
        assert Total(g, p[1..]) <= x;
      } else {
        assert p[1..] == [];
      }
    }
  }

  lemma UnresolvableStep(g: seq<Node>, u: nat, x: string)
    requires Closed(g) && u < |g|
    ensures Unresolvable(g, u, x) <==>
            x in g[u].own || exists k :: 0 <= k < |g[u].calls| && Unresolvable(g, g[u].calls[k], x)
  {
    Itself(g, u);
    if Unresolvable(g, u, x) {
      var v :| 0 <= v < |g| && Reaches(g, u, v) && x in g[v].own;
      ReachesCases(g, u, v);
      if u != v {
        var k :| 0 <= k < |g[u].calls| && Reaches(g, g[u].calls[k], v);
        assert Unresolvable(g, g[u].calls[k], x);
      }
    }
    if k :| 0 <= k < |g[u].calls| && Unresolvable(g, g[u].calls[k], x) {
      var v :| 0 <= v < |g| && Reaches(g, g[u].calls[k], v) && x in g[v].own;
      ReachesThrough(g, u, g[u].calls[k], v);
    }
  }
}
