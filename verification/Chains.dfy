/** Chains of threads that wait for one another: `g[u]` is the thread that keeps `u` waiting. */
module Chains {

  /** `u` waits, through a chain of `n` others, for `t`. */
  ghost predicate Reaches<T>(g: map<T, T>, u: T, t: T, n: nat) {
    if n == 0 then u == t else u in g && Reaches(g, g[u], t, n - 1)
  }

  ghost predicate Waits<T>(g: map<T, T>, u: T, t: T) {
    exists n: nat :: Reaches(g, u, t, n)
  }

  /** No thread waits, directly or through others, for itself. */
  ghost predicate Acyclic<T>(g: map<T, T>) {
    forall t, n: nat | t in g && n > 0 :: !Reaches(g, t, t, n)
  }

  lemma {:induction false} ReachesAppend<T>(g: map<T, T>, u: T, t: T, v: T, m: nat, n: nat)
    requires Reaches(g, u, t, m) && Reaches(g, t, v, n)
    ensures Reaches(g, u, v, m + n)
    decreases m
  {
    if m > 0 { ReachesAppend(g, g[u], t, v, m - 1, n); }
  }

  /** Every thread of `r` waits for whom it waited in `g`, or for `n`, who waits for nobody. */
  ghost predicate Narrower<T>(g: map<T, T>, r: map<T, T>, n: T) {
    n !in r && forall u | u in r :: r[u] == n || (u in g && r[u] == g[u])
  }

  lemma {:induction false} NarrowerReaches<T>(g: map<T, T>, r: map<T, T>, n: T, u: T, t: T, k: nat)
    requires Narrower(g, r, n) && t != n && Reaches(r, u, t, k)
    ensures Reaches(g, u, t, k)
    decreases k
  {
    if k > 0 { NarrowerReaches(g, r, n, r[u], t, k - 1); }
  }

  /** Dropping waiting edges, or turning some towards one thread that does not wait, closes no cycle. */
  lemma NarrowerAcyclic<T>(g: map<T, T>, r: map<T, T>, n: T)
    requires Narrower(g, r, n) && Acyclic(g)
    ensures Acyclic(r)
  {
    forall t, k: nat | t in r && k > 0 ensures !Reaches(r, t, t, k) {
      if Reaches(r, t, t, k) { NarrowerReaches(g, r, n, t, t, k); }
    }
  }

  lemma {:induction false} WiderBack<T>(g: map<T, T>, t: T, o: T, u: T, k: nat)
    requires t !in g && Reaches(g[t := o], u, t, k)
    ensures Waits(g, u, t)
    decreases k
  {
    if u == t {
      assert Reaches(g, u, t, 0);
    } else {
      WiderBack(g, t, o, g[u], k - 1);
      var j: nat :| Reaches(g, g[u], t, j);
      assert Reaches(g, u, t, j + 1);
    }
  }

  lemma {:induction false} WiderForth<T>(g: map<T, T>, t: T, o: T, u: T, k: nat)
    requires t !in g && Reaches(g, u, t, k)
    ensures Reaches(g[t := o], u, t, k)
    decreases k
  {
    if k > 0 { WiderForth(g, t, o, g[u], k - 1); }
  }

  /** A chain in the wider graph either is one in the old graph or comes by `t`. */
  lemma {:induction false} WiderSplit<T>(g: map<T, T>, t: T, o: T, u: T, v: T, k: nat) returns (i: nat)
    requires t !in g && Reaches(g[t := o], u, v, k)
    ensures i <= k && (i < k ==> Reaches(g[t := o], u, t, i) && Reaches(g[t := o], t, v, k - i))
    ensures i == k ==> Reaches(g, u, v, k)
    decreases k
  {
    if k == 0 || u == t {
      i := 0;
    } else {
      i := WiderSplit(g, t, o, g[u], v, k - 1);
      i := i + 1;
    }
  }

  /** One more waiting edge keeps the graph acyclic exactly when its target does not wait for its source. */
  lemma WiderAcyclic<T>(g: map<T, T>, t: T, o: T)
    requires t !in g && Acyclic(g)
    ensures Acyclic(g[t := o]) <==> !Waits(g, o, t)
  {
    var r := g[t := o];
    if Waits(g, o, t) {
      var k: nat :| Reaches(g, o, t, k);
      WiderForth(g, t, o, o, k);
      assert Reaches(r, t, t, k + 1);
    } else {
      forall x, k: nat | x in r && k > 0 ensures !Reaches(r, x, x, k) {
        if Reaches(r, x, x, k) {
          var i := WiderSplit(g, t, o, x, x, k);
          if i < k {
            ReachesAppend(r, t, x, t, k - i, i);
            WiderBack(g, t, o, o, k - 1);
          }
        }
      }
    }
  }
}
