/** Directed graphs as the source keeps them: a dictionary from a node to its successors. */
module Graphs {

  function Succ<N(==)>(g: map<N, set<N>>, v: N): set<N> {
    if v in g then g[v] else {}
  }

  ghost predicate IsPath<N>(g: map<N, set<N>>, p: seq<N>) {
    && p != []
    && forall i :: 0 < i < |p| ==> p[i] in Succ(g, p[i - 1])
  }

  ghost predicate PathBetween<N>(g: map<N, set<N>>, p: seq<N>, x: N, y: N) {
    IsPath(g, p) && p[0] == x && p[|p| - 1] == y
  }

  ghost predicate Reaches<N(!new)>(g: map<N, set<N>>, x: N, y: N) {
    exists p :: PathBetween(g, p, x, y)
  }

  /** x and y are in one strongly connected component. */
  ghost predicate Connected<N(!new)>(g: map<N, set<N>>, x: N, y: N) {
    Reaches(g, x, y) && Reaches(g, y, x)
  }

  ghost predicate Closed<N>(g: map<N, set<N>>, s: set<N>) {
    forall x :: x in s ==> Succ(g, x) <= s
  }

  lemma {:induction false} ReachesSelf<N(!new)>(g: map<N, set<N>>, x: N)
    ensures Reaches(g, x, x)
  {
    assert PathBetween(g, [x], x, x);
  }

  lemma {:induction false} ReachesEdge<N(!new)>(g: map<N, set<N>>, x: N, y: N)
    requires y in Succ(g, x)
    ensures Reaches(g, x, y)
  {
    assert PathBetween(g, [x, y], x, y);
  }

  lemma {:induction false} ReachesTrans<N(!new)>(g: map<N, set<N>>, x: N, y: N, z: N)
    requires Reaches(g, x, y) && Reaches(g, y, z)
    ensures Reaches(g, x, z)
  {
    var p :| PathBetween(g, p, x, y);
    var q :| PathBetween(g, q, y, z);
    var r := p + q[1..];
    assert PathBetween(g, r, x, z);
  }

  lemma {:induction false} ClosedReach<N(!new)>(g: map<N, set<N>>, s: set<N>, x: N, y: N)
    requires Closed(g, s) && x in s && Reaches(g, x, y)
    ensures y in s
  {
    var p :| PathBetween(g, p, x, y);
    var i := 0;
    while i < |p| - 1
      invariant 0 <= i < |p| && p[i] in s
    {
      i := i + 1;
      assert p[i] in Succ(g, p[i - 1]);
    }
  }

  /** Every listed node comes after all its successors, itself excepted. */
  ghost predicate SuccessorsFirst<N>(g: map<N, set<N>>, order: seq<N>) {
    forall i, w :: 0 <= i < |order| && w in Succ(g, order[i]) && w != order[i] ==> w in order[..i]
  }

  lemma {:induction false} ReachesBack<N(!new)>(g: map<N, set<N>>, order: seq<N>, p: seq<N>, i: nat)
    requires SuccessorsFirst(g, order) && IsPath(g, p) && i < |order| && order[i] == p[0]
    ensures p[|p| - 1] in order[..i + 1]
    decreases |p|
  {
    if |p| == 1 {
      assert order[..i + 1][i] == p[0];
    } else {
      var w := p[1];
      assert w in Succ(g, p[0]);
      var j: nat :| j <= i && order[j] == w;
      assert forall k :: 0 < k < |p[1..]| ==> p[1..][k] == p[k + 1] && p[k + 1] in Succ(g, p[k]);
      ReachesBack(g, order, p[1..], j);
      assert order[..j + 1] <= order[..i + 1];
      var k :| 0 <= k < |order[..j + 1]| && order[..j + 1][k] == p[|p| - 1];
      assert order[..i + 1][k] == p[|p| - 1];
    }
  }

  /** With such an order and no repetition, nodes that reach each other are equal. */
  lemma {:induction false} OrderedIsAcyclic<N(!new)>(g: map<N, set<N>>, order: seq<N>, x: N, y: N)
    requires SuccessorsFirst(g, order) && (forall i, j :: 0 <= i < j < |order| ==> order[i] != order[j])
    requires x in order && Connected(g, x, y)
    ensures x == y
  {
    var i :| 0 <= i < |order| && order[i] == x;
    var p :| PathBetween(g, p, x, y);
    ReachesBack(g, order, p, i);
    var j :| 0 <= j <= i && order[j] == y;
    var q :| PathBetween(g, q, y, x);
    ReachesBack(g, order, q, j);
    var k :| 0 <= k <= j && order[k] == x;
  }
}
