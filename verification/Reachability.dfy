/** Reachability in a finite graph given by its successor lists. */
module Reachability {

  type Graph = map<string, seq<string>>

  predicate Edge(g: Graph, u: string, v: string) {
    u in g && v in g[u]
  }

  ghost predicate Total(g: Graph) {
    forall u, v :: Edge(g, u, v) ==> v in g
  }

  ghost predicate IsPath(g: Graph, p: seq<string>) {
    p != [] && forall i, j :: 0 <= i < j < |p| && j == i + 1 ==> Edge(g, p[i], p[j])
  }

  ghost predicate Links(g: Graph, p: seq<string>, u: string, v: string) {
    IsPath(g, p) && p[0] == u && p[|p| - 1] == v
  }

  /** By zero or more edges. */
  ghost predicate Reach(g: Graph, u: string, v: string) {
    exists p :: Links(g, p, u, v)
  }

  /** By one or more edges back to itself. */
  ghost predicate OnCycle(g: Graph, u: string) {
    exists v :: Edge(g, u, v) && Reach(g, v, u)
  }

  ghost predicate ClosedUnder(g: Graph, xs: set<string>) {
    forall u, v :: u in xs && Edge(g, u, v) ==> v in xs
  }

  lemma ReachRefl(g: Graph, u: string)
    ensures Reach(g, u, u)
  {
    assert Links(g, [u], u, u);
  }

  lemma ReachTrans(g: Graph, u: string, v: string, w: string)
    requires Reach(g, u, v) && Reach(g, v, w)
    ensures Reach(g, u, w)
  {
    var p :| Links(g, p, u, v);
    var q :| Links(g, q, v, w);
    assert Links(g, p + q[1..], u, w);
  }

  lemma ReachEdge(g: Graph, u: string, v: string)
    requires Edge(g, u, v)
    ensures Reach(g, u, v)
  {
    assert Links(g, [u, v], u, v);
  }

  lemma ReachFirst(g: Graph, u: string, w: string) returns (v: string)
    requires Reach(g, u, w) && u != w
    ensures Edge(g, u, v) && Reach(g, v, w)
  {
    var p :| Links(g, p, u, w);
    v := p[1];
    assert Links(g, p[1..], v, w);
  }

  lemma {:induction false} PathStays(g: Graph, xs: set<string>, p: seq<string>)
    requires ClosedUnder(g, xs) && IsPath(g, p) && p[0] in xs
    ensures p[|p| - 1] in xs
  {
    if |p| > 1 {
      PathStays(g, xs, p[1..]);
    }
  }

  lemma ReachStays(g: Graph, xs: set<string>, u: string, v: string)
    requires ClosedUnder(g, xs) && u in xs && Reach(g, u, v)
    ensures v in xs
  {
    var p :| Links(g, p, u, v);
    PathStays(g, xs, p);
  }

  /** Two distinct nodes that reach each other are both on a cycle. */
  lemma MutualCycle(g: Graph, u: string, v: string)
    requires u != v && Reach(g, u, v) && Reach(g, v, u)
    ensures OnCycle(g, u)
  {
    var w := ReachFirst(g, u, v);
    ReachTrans(g, w, v, u);
  }
}
