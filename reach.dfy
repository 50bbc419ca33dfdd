/**
 * Paths in a directed graph whose nodes are the indices `0 .. n - 1` and
 * whose edges are a list of index pairs (parallel edges allowed), and the
 * search that decides whether one node reaches another. Every node reaches
 * itself through the path of length zero.
 */
module Reach {
  type Edge = (nat, nat)

  /** Every edge joins two of the `n` nodes. */
  predicate EdgesWithin(n: nat, edges: seq<Edge>) {
    forall k :: 0 <= k < |edges| ==> edges[k].0 < n && edges[k].1 < n
  }

  /** Consecutive nodes of `path` are joined by edges. */
  ghost predicate IsPath(edges: seq<Edge>, path: seq<nat>) {
    |path| >= 1 && forall k :: 0 <= k < |path| - 1 ==> (path[k], path[k + 1]) in edges
  }

  /** Some path leads from `a` to `b`. */
  ghost predicate Reaches(edges: seq<Edge>, a: nat, b: nat) {
    exists path :: IsPath(edges, path) && path[0] == a && path[|path| - 1] == b
  }

  lemma ReachesSelf(edges: seq<Edge>, a: nat)
    ensures Reaches(edges, a, a)
  {
    assert IsPath(edges, [a]);
  }

  /** A path to the tail of an edge extends to its head. */
  lemma ReachesStep(edges: seq<Edge>, a: nat, e: Edge)
    requires e in edges && Reaches(edges, a, e.0)
    ensures Reaches(edges, a, e.1)
  {
    var path :| IsPath(edges, path) && path[0] == a && path[|path| - 1] == e.0;
    var longer := path + [e.1];
    forall k | 0 <= k < |longer| - 1 ensures (longer[k], longer[k + 1]) in edges {
      if k < |path| - 1 {
        assert longer[k] == path[k] && longer[k + 1] == path[k + 1];
      } else {
        assert longer[k] == e.0 && longer[k + 1] == e.1;
      }
    }
    assert IsPath(edges, longer);
  }

  /** No edge leaves `s`. */
  predicate Closed(edges: seq<Edge>, s: set<nat>) {
    forall k :: 0 <= k < |edges| && edges[k].0 in s ==> edges[k].1 in s
  }

  /** Every path that starts in a closed set stays in it. */
  lemma {:induction false} ClosedKeepsPaths(edges: seq<Edge>, s: set<nat>, path: seq<nat>)
    requires Closed(edges, s) && IsPath(edges, path) && path[0] in s
    ensures path[|path| - 1] in s
    decreases |path|
  {
    if |path| > 1 {
      var init := path[..|path| - 1];
      assert IsPath(edges, init) by {
        forall k | 0 <= k < |init| - 1 ensures (init[k], init[k + 1]) in edges {
          assert init[k] == path[k] && init[k + 1] == path[k + 1];
        }
      }
      ClosedKeepsPaths(edges, s, init);
      var e := (path[|path| - 2], path[|path| - 1]);
      assert e in edges;
      var k :| 0 <= k < |edges| && edges[k] == e;
    }
  }

  /** Whatever `a` reaches lies in every closed set that holds `a`. */
  lemma ClosedHoldsReach(edges: seq<Edge>, s: set<nat>, a: nat, b: nat)
    requires Closed(edges, s) && a in s && Reaches(edges, a, b)
    ensures b in s
  {
    var path :| IsPath(edges, path) && path[0] == a && path[|path| - 1] == b;
    ClosedKeepsPaths(edges, s, path);
  }

  /** The nodes `0 .. n - 1`. */
  function Nodes(n: nat): (s: set<nat>)
    ensures forall i: nat :: i in s <==> i < n
    ensures |s| == n
  {
    if n == 0 then {} else Nodes(n - 1) + {n - 1}
  }

  lemma {:induction false} SubsetSize<T>(a: set<T>, b: set<T>)
    requires a <= b
    ensures |a| <= |b|
    decreases |a|
  {
    if a != {} {
      var x :| x in a;
      SubsetSize(a - {x}, b - {x});
    }
  }

  lemma SubsetOfNodes(s: set<nat>, n: nat)
    requires forall i :: i in s ==> i < n
    ensures |s| <= n
  {
    SubsetSize(s, Nodes(n));
  }

  /** The heads of the edges leaving `frontier` that are not yet in `seen`. */
  function NewHeads(edges: seq<Edge>, frontier: set<nat>, seen: set<nat>): (r: set<nat>)
    ensures forall k :: 0 <= k < |edges| && edges[k].0 in frontier && edges[k].1 !in seen ==> edges[k].1 in r
    ensures forall j :: j in r ==> j !in seen && exists k :: 0 <= k < |edges| && edges[k].0 in frontier && edges[k].1 == j
  {
    set k | 0 <= k < |edges| && edges[k].0 in frontier && edges[k].1 !in seen :: edges[k].1
  }

  /**
   * `has_path_connecting`: a search outwards from `a`, one layer of new
   * nodes at a time, until no edge leads to an unseen node; then `b` is
   * reached exactly when it was seen.
   */
  method HasPath(n: nat, edges: seq<Edge>, a: nat, b: nat) returns (r: bool)
    requires a < n && EdgesWithin(n, edges)
    ensures r <==> Reaches(edges, a, b)
  {
    var seen: set<nat> := {a};
    var frontier: set<nat> := {a};
    ReachesSelf(edges, a);
    while frontier != {}
      invariant frontier <= seen
      invariant forall i :: i in seen ==> i < n
      invariant forall i :: i in seen ==> Reaches(edges, a, i)
      invariant a in seen
      invariant forall k :: 0 <= k < |edges| && edges[k].0 in seen && edges[k].0 !in frontier ==> edges[k].1 in seen
      decreases n - |seen|, |frontier|
    {
      var next := NewHeads(edges, frontier, seen);
      forall j | j in next ensures Reaches(edges, a, j) && j < n {
        var k :| 0 <= k < |edges| && edges[k].0 in frontier && edges[k].1 == j;
        ReachesStep(edges, a, edges[k]);
      }
      SubsetOfNodes(seen + next, n);
      seen := seen + next;
      frontier := next;
    }
    assert Closed(edges, seen);
    if b in seen {
      r := true;
    } else {
      r := false;
      if Reaches(edges, a, b) {
        ClosedHoldsReach(edges, seen, a, b);
      }
    }
  }
}
