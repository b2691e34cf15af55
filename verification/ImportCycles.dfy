/** The import-cycle search of scripts/python_checks/detect_circular_imports.py. */
module ImportCycles {
  import opened Graphs
  import opened Lists
  import opened Orders

  /** A closed path whose nodes, but for the repeated first one, are all different. */
  ghost predicate IsCycle<N>(g: map<N, set<N>>, c: seq<N>) {
    && |c| >= 2 && c[0] == c[|c| - 1]
    && IsPath(g, c) && Distinct(c[..|c| - 1])
  }

  /** No two different nodes reach each other: the graph has no cycle but self-loops. */
  ghost predicate Acyclic<N(!new)>(g: map<N, set<N>>) {
    forall x, y :: Connected(g, x, y) ==> x == y
  }

  /** All of the graph's nodes. */
  ghost function Nodes<N>(g: map<N, set<N>>): set<N> {
    g.Keys + (set v, w | v in g && w in g[v] :: w)
  }

  function IndexOf<N(==)>(s: seq<N>, x: N): (i: nat)
    requires x in s
    ensures i < |s| && s[i] == x && x !in s[..i]
  {
    if s[0] == x then 0 else
      var i := 1 + IndexOf(s[1..], x);
      assert s[..i] == [s[0]] + s[1..][..i - 1];
      i
  }

  /** The cycle that an edge back to a node of the path closes. */
  function Closing<N(==)>(p: seq<N>, w: N): (c: seq<N>)
    requires w in p
    ensures |c| >= 2
  {
    p[IndexOf(p, w)..] + [w]
  }

  /** An edge back into the path closes a cycle; it is longer than a self-loop unless it leads to the end. */
  lemma {:induction false} BackEdge<N>(g: map<N, set<N>>, p: seq<N>, w: N)
    requires p != [] && IsPath(g, p) && Distinct(p) && w in p && w in Succ(g, p[|p| - 1])
    ensures IsCycle(g, Closing(p, w))
    ensures |Closing(p, w)| < 3 <==> w == p[|p| - 1]
  {
    var i, c := IndexOf(p, w), Closing(p, w);
    assert c[..|c| - 1] == p[i..];
    forall k | 0 < k < |c| ensures c[k] in Succ(g, c[k - 1]) {
      assert k < |c| - 1 ==> c[k] == p[i + k];
      assert c[k - 1] == p[i + k - 1];
    }
  }

  // ---------------------------------------------------------------- depth-first forests

  /** The path kept for a node: it ends there, and each node before has the part up to it. */
  ghost predicate PathTo<N(!new)>(g: map<N, set<N>>, paths: map<N, seq<N>>, v: N)
    requires v in paths
  {
    && paths[v] != [] && paths[v][|paths[v]| - 1] == v && IsPath(g, paths[v]) && Distinct(paths[v])
    && forall k :: 0 <= k < |paths[v]| ==> paths[v][k] in paths && paths[paths[v][k]] == paths[v][..k + 1]
  }

  /** Each edge of the node left at i leads back into its path or to a node left before; its path is left later. */
  ghost predicate LeftAt<N(!new)>(g: map<N, set<N>>, order: seq<N>, paths: map<N, seq<N>>, i: nat)
    requires i < |order| && order[i] in paths
  {
    && (forall w :: w in Succ(g, order[i]) ==> w in paths[order[i]] || w in order[..i])
    && (forall u :: u in paths[order[i]] && u != order[i] ==> u !in order[..i])
  }

  ghost predicate Left<N(!new)>(g: map<N, set<N>>, order: seq<N>, paths: map<N, seq<N>>) {
    forall i :: 0 <= i < |order| ==> order[i] in paths && LeftAt(g, order, paths, i)
  }

  /** An edge from a node back into its own path. */
  ghost predicate IsBack<N(!new)>(g: map<N, set<N>>, paths: map<N, seq<N>>, v: N, w: N) {
    v in paths && w in Succ(g, v) && w in paths[v]
  }

  /**
   A depth-first search of the graph: the order in which it leaves the nodes, and for each node the path on
   which it entered it. It leaves every node, and a node only after all that its edges lead to outside its path.
   */
  ghost predicate DepthFirst<N(!new)>(g: map<N, set<N>>, order: seq<N>, paths: map<N, seq<N>>) {
    && Distinct(order) && (forall v :: v in order <==> v in Nodes(g))
    && (forall v :: v in order <==> v in paths) && (forall v :: v in paths ==> PathTo(g, paths, v))
    && Left(g, order, paths)
  }

  /** What holds of the shared variables; `finished` lists the nodes left behind, in order. */
  ghost predicate Marks<N(!new)>(g: map<N, set<N>>, visited: set<N>, stack: seq<N>, onStack: set<N>, finished: seq<N>) {
    && Distinct(stack) && Distinct(finished)
    && (forall x :: x in onStack <==> x in stack)
    && (forall x :: x in visited <==> x in stack || x in finished)
    && (forall x :: x in finished ==> x !in stack)
    && visited <= Nodes(g)
  }

  ghost predicate Tree<N(!new)>(g: map<N, set<N>>, visited: set<N>, stack: seq<N>, paths: map<N, seq<N>>) {
    && paths.Keys == visited && (forall v :: v in paths ==> PathTo(g, paths, v))
    && forall k :: 0 <= k < |stack| ==> stack[k] in paths && paths[stack[k]] == stack[..k + 1]
  }

  /** The cycles recorded are those closed by back edges, and none of a node left behind is missing. */
  ghost predicate Recorded<N(!new)>(g: map<N, set<N>>, cycles: seq<seq<N>>, finished: seq<N>,
                                    paths: map<N, seq<N>>) {
    && (forall v, w :: v in finished && IsBack(g, paths, v, w) ==> Closing(paths[v], w) in cycles)
    && (forall c :: c in cycles ==> exists v, w :: IsBack(g, paths, v, w) && c == Closing(paths[v], w))
  }

  ghost predicate Consistent<N(!new)>(g: map<N, set<N>>, visited: set<N>, stack: seq<N>, onStack: set<N>,
                                      cycles: seq<seq<N>>, finished: seq<N>, paths: map<N, seq<N>>) {
    && Marks(g, visited, stack, onStack, finished) && Tree(g, visited, stack, paths)
    && Left(g, finished, paths) && Recorded(g, cycles, finished, paths)
  }

  /** The successors of the node on top that have been dealt with. */
  ghost predicate Handled<N(!new)>(cycles: seq<seq<N>>, finished: seq<N>, stack: seq<N>, done: set<N>) {
    forall w :: w in done ==> if w in stack then Closing(stack, w) in cycles else w in finished
  }

  /** Paths are kept, and new ones go on from the given one. */
  ghost predicate Extends<N(!new)>(before: map<N, seq<N>>, after: map<N, seq<N>>, p: seq<N>) {
    && (forall v :: v in before ==> v in after && after[v] == before[v])
    && (forall v :: v in after && v !in before ==> p <= after[v])
  }

  lemma {:induction false} EnterTree<N(!new)>(g: map<N, set<N>>, visited: set<N>, stack: seq<N>, paths: map<N, seq<N>>,
    node: N)
    requires Tree(g, visited, stack, paths) && node !in visited && Distinct(stack)
    requires stack != [] ==> node in Succ(g, stack[|stack| - 1])
    ensures Tree(g, visited + {node}, stack + [node], paths[node := stack + [node]])
  {
    hide Succ, IsPath, Distinct;
    var after, all := paths[node := stack + [node]], stack + [node];
    forall k | 0 <= k < |all| ensures all[k] in after && after[all[k]] == all[..k + 1] {
      assert k < |stack| ==> all[..k + 1] == stack[..k + 1];
    }
    PathGoesOn(g, paths, stack, node);
    assert PathTo(g, after, node);
    forall v | v in after ensures PathTo(g, after, v) {
      if v != node {
        assert PathTo(g, paths, v);
      }
    }
  }

  lemma {:induction false} PathGoesOn<N(!new)>(g: map<N, set<N>>, paths: map<N, seq<N>>, stack: seq<N>, node: N)
    requires (forall v :: v in paths ==> PathTo(g, paths, v)) && node !in paths && Distinct(stack)
    requires forall k :: 0 <= k < |stack| ==> stack[k] in paths && paths[stack[k]] == stack[..k + 1]
    requires stack != [] ==> node in Succ(g, stack[|stack| - 1])
    ensures IsPath(g, stack + [node]) && Distinct(stack + [node])
  {
    hide Succ;
    if stack != [] {
      var last := stack[|stack| - 1];
      assert PathTo(g, paths, last) && paths[last] == stack[..|stack|] == stack;
    }
  }

  lemma {:induction false} SamePaths<N(!new)>(g: map<N, set<N>>, cycles: seq<seq<N>>, finished: seq<N>,
    paths: map<N, seq<N>>, after: map<N, seq<N>>)
    requires Left(g, finished, paths) && Recorded(g, cycles, finished, paths)
    requires forall v :: v in paths ==> v in after && after[v] == paths[v]
    ensures Left(g, finished, after) && Recorded(g, cycles, finished, after)
  {
    hide Succ, Closing;
    forall i | 0 <= i < |finished| ensures finished[i] in after && LeftAt(g, finished, after, i) {
      assert LeftAt(g, finished, paths, i);
    }
    forall c | c in cycles ensures exists v, w :: IsBack(g, after, v, w) && c == Closing(after[v], w) {
      var v, w :| IsBack(g, paths, v, w) && c == Closing(paths[v], w);
      assert IsBack(g, after, v, w);
    }
    forall v, w | v in finished && IsBack(g, after, v, w) ensures Closing(after[v], w) in cycles {
      assert IsBack(g, paths, v, w);
    }
  }

  lemma {:induction false} Enter<N(!new)>(g: map<N, set<N>>, visited: set<N>, stack: seq<N>, onStack: set<N>,
                       cycles: seq<seq<N>>, finished: seq<N>, paths: map<N, seq<N>>, node: N)
    requires Consistent(g, visited, stack, onStack, cycles, finished, paths)
    requires node in Nodes(g) && node !in visited
    requires stack != [] ==> node in Succ(g, stack[|stack| - 1])
    ensures Consistent(g, visited + {node}, stack + [node], onStack + {node}, cycles, finished,
      paths[node := stack + [node]])
  {
    hide Nodes, Left, Recorded, Tree, Succ;
    EnterTree(g, visited, stack, paths, node);
    TreeKeys(g, visited, stack, paths);
    SamePaths(g, cycles, finished, paths, paths[node := stack + [node]]);
  }

  lemma {:induction false} TreeKeys<N(!new)>(g: map<N, set<N>>, visited: set<N>, stack: seq<N>, paths: map<N, seq<N>>)
    requires Tree(g, visited, stack, paths)
    ensures paths.Keys == visited
    ensures stack != [] ==> stack[|stack| - 1] in paths && paths[stack[|stack| - 1]] == stack
  {
    if stack != [] {
      assert stack[..|stack| - 1 + 1] == stack;
    }
  }

  lemma {:induction false} Found<N(!new)>(g: map<N, set<N>>, visited: set<N>, stack: seq<N>, onStack: set<N>,
                       cycles: seq<seq<N>>, finished: seq<N>, paths: map<N, seq<N>>, next: N)
    requires Consistent(g, visited, stack, onStack, cycles, finished, paths)
    requires stack != [] && next in stack && next in Succ(g, stack[|stack| - 1])
    ensures Consistent(g, visited, stack, onStack, cycles + [Closing(stack, next)], finished, paths)
  {
    hide Marks, Tree, Left, Succ, Closing;
    TreeKeys(g, visited, stack, paths);
    var c, last := Closing(stack, next), stack[|stack| - 1];
    assert IsBack(g, paths, last, next) && c == Closing(paths[last], next);
    assert forall d :: d in cycles ==> d in cycles + [c];
  }

  lemma {:induction false} ExitMarks<N(!new)>(g: map<N, set<N>>, visited: set<N>, stack: seq<N>, onStack: set<N>,
    finished: seq<N>, node: N)
    requires Marks(g, visited, stack + [node], onStack, finished)
    ensures Marks(g, visited, stack, onStack - {node}, finished + [node])
  {
    hide Nodes;
    var all, left := stack + [node], finished + [node];
    assert all[|stack|] == node && forall i :: 0 <= i < |stack| ==> all[i] == stack[i];
    assert forall x :: x in all <==> x in stack || x == node;
    assert forall x :: x in left <==> x in finished || x == node;
    assert node !in stack && node !in finished;
  }

  lemma {:induction false} ExitTree<N(!new)>(g: map<N, set<N>>, visited: set<N>, stack: seq<N>, paths: map<N, seq<N>>,
    node: N)
    requires Tree(g, visited, stack + [node], paths)
    ensures Tree(g, visited, stack, paths) && node in paths && paths[node] == stack + [node]
  {
    hide PathTo;
    var all := stack + [node];
    TreeKeys(g, visited, all, paths);
    forall k | 0 <= k < |stack| ensures stack[k] in paths && paths[stack[k]] == stack[..k + 1] {
      assert all[k] == stack[k] && all[..k + 1] == stack[..k + 1];
    }
  }

  lemma {:induction false} ExitLeft<N(!new)>(g: map<N, set<N>>, cycles: seq<seq<N>>, finished: seq<N>,
    paths: map<N, seq<N>>, node: N)
    requires Left(g, finished, paths) && Recorded(g, cycles, finished, paths) && node in paths
    requires Handled(cycles, finished, paths[node], Succ(g, node))
    requires forall u :: u in paths[node] && u != node ==> u !in finished
    ensures Left(g, finished + [node], paths) && Recorded(g, cycles, finished + [node], paths)
  {
    hide Succ, Closing;
    var left := finished + [node];
    forall i | 0 <= i < |left| ensures left[i] in paths && LeftAt(g, left, paths, i) {
      if i < |finished| {
        assert LeftAt(g, finished, paths, i) && left[i] == finished[i] && left[..i] == finished[..i];
      } else {
        assert left[..i] == finished;
      }
    }
  }

  lemma {:induction false} Exit<N(!new)>(g: map<N, set<N>>, visited: set<N>, stack: seq<N>, onStack: set<N>,
                      cycles: seq<seq<N>>, finished: seq<N>, paths: map<N, seq<N>>, node: N)
    requires Consistent(g, visited, stack + [node], onStack, cycles, finished, paths)
    requires Handled(cycles, finished, stack + [node], Succ(g, node))
    ensures Consistent(g, visited, stack, onStack - {node}, cycles, finished + [node], paths)
  {
    hide Tree, Left, Recorded, Handled, Nodes, Distinct;
    ExitMarks(g, visited, stack, onStack, finished, node);
    ExitTree(g, visited, stack, paths, node);
    assert forall u :: u in stack + [node] ==> u !in finished;
    ExitLeft(g, cycles, finished, paths, node);
  }

  // ---------------------------------------------------------------- what a search visits

  /** A path from one node to the other avoids the nodes visited before. */
  ghost predicate WhiteReaches<N(!new)>(g: map<N, set<N>>, before: set<N>, x: N, y: N) {
    exists p | PathBetween(g, p, x, y) :: forall k :: 0 <= k < |p| ==> p[k] !in before
  }

  /** A search from `node` visits exactly what it reaches on such paths. */
  ghost predicate VisitsExactly<N(!new)>(g: map<N, set<N>>, before: set<N>, after: set<N>, node: N) {
    forall x :: x in after <==> x in before || WhiteReaches(g, before, node, x)
  }

  /** Part of the way: all of that but for the successors of `node` that are still to do. */
  ghost predicate Spread<N(!new)>(g: map<N, set<N>>, before: set<N>, now: set<N>, node: N, done: set<N>) {
    && before + {node} <= now && done <= now
    && (forall x :: x in now && x !in before && x != node ==> Succ(g, x) <= now)
    && (forall x :: x in now && x !in before ==> WhiteReaches(g, before, node, x))
  }

  lemma {:induction false} SpreadStart<N(!new)>(g: map<N, set<N>>, before: set<N>, node: N)
    requires node !in before
    ensures Spread(g, before, before + {node}, node, {})
  {
    assert PathBetween(g, [node], node, node);
  }

  lemma {:induction false} SpreadSeen<N(!new)>(g: map<N, set<N>>, before: set<N>, now: set<N>, node: N, done: set<N>,
    next: N)
    requires Spread(g, before, now, node, done) && next in now
    ensures Spread(g, before, now, node, done + {next})
  {
    hide WhiteReaches;
  }

  lemma {:induction false} WhiteStep<N(!new)>(g: map<N, set<N>>, before: set<N>, x: N, y: N, z: N)
    requires WhiteReaches(g, before, x, y) && z in Succ(g, y) && z !in before
    ensures WhiteReaches(g, before, x, z)
  {
    hide Succ;
    var p :| PathBetween(g, p, x, y) && forall k :: 0 <= k < |p| ==> p[k] !in before;
    assert PathBetween(g, p + [z], x, z);
  }

  /** From a node to a successor, and on from there avoiding more. */
  lemma {:induction false} WhiteFrom<N(!new)>(g: map<N, set<N>>, before: set<N>, now: set<N>, node: N, next: N, x: N)
    requires before <= now && node !in before && next in Succ(g, node) && WhiteReaches(g, now, next, x)
    ensures WhiteReaches(g, before, node, x)
  {
    hide Succ;
    var p :| PathBetween(g, p, next, x) && forall k :: 0 <= k < |p| ==> p[k] !in now;
    assert PathBetween(g, [node] + p, node, x);
  }

  lemma {:induction false} SpreadSearch<N(!new)>(g: map<N, set<N>>, before: set<N>, now: set<N>, node: N, done: set<N>,
                              next: N, later: set<N>)
    requires Spread(g, before, now, node, done) && node !in before && next in Succ(g, node) && next !in now
    requires VisitsExactly(g, now, later, next)
    ensures Spread(g, before, later, node, done + {next})
  {
    hide WhiteReaches, Succ;
    assert WhiteReaches(g, now, next, next) by { WhiteSelf(g, now, next); }
    forall x | x in later && x !in before && x != node ensures Succ(g, x) <= later {
      forall z | z in Succ(g, x) && z !in now && x !in now ensures z in later {
        WhiteStep(g, now, next, x, z);
      }
    }
    forall x | x in later && x !in before ensures WhiteReaches(g, before, node, x) {
      if x !in now {
        WhiteFrom(g, before, now, node, next, x);
      }
    }
  }

  lemma {:induction false} WhiteSelf<N(!new)>(g: map<N, set<N>>, before: set<N>, x: N)
    requires x !in before
    ensures WhiteReaches(g, before, x, x)
  {
    assert PathBetween(g, [x], x, x);
  }

  lemma {:induction false} SpreadPath<N(!new)>(g: map<N, set<N>>, before: set<N>, now: set<N>, node: N, p: seq<N>,
    k: nat)
    requires Spread(g, before, now, node, Succ(g, node)) && IsPath(g, p) && p[0] == node && k < |p|
    requires forall i :: 0 <= i < |p| ==> p[i] !in before
    ensures p[k] in now
  {
    hide Succ, WhiteReaches;
    if k > 0 {
      SpreadPath(g, before, now, node, p, k - 1);
    }
  }

  lemma {:induction false} SpreadEnd<N(!new)>(g: map<N, set<N>>, before: set<N>, now: set<N>, node: N)
    requires Spread(g, before, now, node, Succ(g, node))
    ensures VisitsExactly(g, before, now, node)
  {
    hide Succ;
    forall x | WhiteReaches(g, before, node, x) ensures x in now {
      var p :| PathBetween(g, p, node, x) && forall k :: 0 <= k < |p| ==> p[k] !in before;
      SpreadPath(g, before, now, node, p, |p| - 1);
    }
  }

  /** What a search has marked: the nodes visited and left, the paths, and the cycles recorded. */
  datatype Marked<N> = Marked(visited: set<N>, cycles: seq<seq<N>>, finished: seq<N>, paths: map<N, seq<N>>)

  /** Nodes are only added to the visited ones, and cycles and finished nodes only at the end. */
  ghost predicate Grown<N(!new)>(before: Marked<N>, after: Marked<N>) {
    before.visited <= after.visited && before.cycles <= after.cycles && before.finished <= after.finished
  }

  /** What a search below the node on top adds to what was marked before. */
  ghost predicate Added<N(!new)>(before: Marked<N>, after: Marked<N>, stack: seq<N>)
    requires stack != []
  {
    && Grown(before, after) && Extends(before.paths, after.paths, stack)
    && RootedFrom(after.cycles, |before.cycles|, after.paths, stack[0])
  }

  /** Part of the way: the successors in `done` have been dealt with. */
  ghost predicate Searching<N(!new)>(g: map<N, set<N>>, before: Marked<N>, now: Marked<N>, stack: seq<N>, node: N,
                                     done: set<N>)
    requires stack != []
  {
    && Added(before, now, stack) && Handled(now.cycles, now.finished, stack, done)
    && Spread(g, before.visited, now.visited, node, done)
  }

  lemma {:induction false} SuccInNodes<N(!new)>(g: map<N, set<N>>, v: N)
    ensures Succ(g, v) <= Nodes(g)
  {
  }

  /** The variables that the nested function shares with its enclosing one. */
  class CycleFinder<N(==, !new)> {
    const graph: map<N, set<N>>
    var visited: set<N>
    var stack: seq<N>
    var onStack: set<N>
    var cycles: seq<seq<N>>
    ghost var finished: seq<N>
    ghost var paths: map<N, seq<N>>

    ghost predicate Valid()
      reads this
    {
      Consistent(graph, visited, stack, onStack, cycles, finished, paths)
    }

    constructor (graph: map<N, set<N>>)
      ensures Valid() && this.graph == graph
      ensures visited == {} && stack == [] && finished == [] && cycles == [] && paths == map[]
    {
      this.graph := graph;
      visited, stack, onStack, cycles, finished, paths := {}, [], {}, [], [], map[];
    }

    method Dfs(node: N)
      requires Valid() && node in Nodes(graph) && node !in visited
      requires stack != [] ==> node in Succ(graph, stack[|stack| - 1])
      modifies this
      ensures Valid() && stack == old(stack)
      ensures finished != [] && finished[|finished| - 1] == node && old(visited) <= visited
      ensures Added(old(Marked(visited, cycles, finished, paths)), Marked(visited, cycles, finished, paths),
        old(stack) + [node])
      ensures VisitsExactly(graph, old(visited), visited, node)
      decreases Nodes(graph) - visited
    {
      hide Consistent, Nodes, Succ, VisitsExactly, Handled, Added, Searching, Closing;
      ghost var before := Marked(visited, cycles, finished, paths);
      Enter(graph, visited, stack, onStack, cycles, finished, paths, node);
      SearchStart(graph, visited, stack, onStack, cycles, finished, paths, node);
      visited := visited + {node};
      stack := stack + [node];
      onStack := onStack + {node};
      paths := paths[node := stack];
      var todo := Succ(graph, node);
      SuccInNodes(graph, node);
      while todo != {}
        invariant Valid() && stack == old(stack) + [node] && before.visited + {node} <= visited
        invariant todo <= Succ(graph, node)
        invariant Searching(graph, before, Marked(visited, cycles, finished, paths), stack, node,
          Succ(graph, node) - todo)
        decreases todo
      {
        ghost var now, done := Marked(visited, cycles, finished, paths), Succ(graph, node) - todo;
        var next :| next in todo;
        Without(Succ(graph, node), todo, next);
        todo := todo - {next};
        SameStack(graph, visited, stack, onStack, cycles, finished, paths);
        if next !in visited {
          Dfs(next);
          SearchDeeper(graph, before, now, Marked(visited, cycles, finished, paths), stack, node, done, next);
        } else if next in onStack {
          Found(graph, visited, stack, onStack, cycles, finished, paths, next);
          SearchFound(graph, before, visited, stack, onStack, cycles, finished, paths, node, done, next);
          var i := IndexOf(stack, next);
          ClosingOf(stack, next);
          cycles := cycles + [stack[i..] + [next]];
        } else {
          SearchSkip(graph, before, now, stack, node, done, next);
        }
      }
      NothingLeft(Succ(graph, node));
      SearchEnd(graph, before, Marked(visited, cycles, finished, paths), stack, node);
      Exit(graph, visited, old(stack), onStack, cycles, finished, paths, node);
      stack := stack[..|stack| - 1];
      onStack := onStack - {node};
      finished := finished + [node];
      AddedEnd(before, visited, cycles, finished, paths, old(stack), node);
    }
  }

  /** The cycles recorded from the n-th on start at nodes whose paths come from the root. */
  ghost predicate RootedFrom<N(!new)>(cycles: seq<seq<N>>, n: nat, paths: map<N, seq<N>>, root: N) {
    forall k :: n <= k < |cycles| ==> Rooted(cycles[k], paths, root)
  }

  ghost predicate Rooted<N(!new)>(c: seq<N>, paths: map<N, seq<N>>, root: N) {
    c != [] && c[0] in paths && paths[c[0]] != [] && paths[c[0]][0] == root
  }

  lemma {:induction false} RootedMore<N(!new)>(seen: seq<seq<N>>, cycles: seq<seq<N>>, n: nat, before: map<N, seq<N>>,
                            after: map<N, seq<N>>, stack: seq<N>, next: N)
    requires stack != [] && n <= |seen| && seen <= cycles && RootedFrom(seen, n, before, stack[0])
    requires Extends(before, after, stack + [next])
    requires RootedFrom(cycles, |seen|, after, (stack + [next])[0])
    ensures RootedFrom(cycles, n, after, stack[0])
  {
    forall k | n <= k < |cycles| ensures Rooted(cycles[k], after, stack[0]) {
      if k < |seen| {
        assert Rooted(seen[k], before, stack[0]) && cycles[k] == seen[k];
      }
    }
  }

  lemma {:induction false} RootedFound<N(!new)>(g: map<N, set<N>>, visited: set<N>, stack: seq<N>, onStack: set<N>,
    cycles: seq<seq<N>>, finished: seq<N>, paths: map<N, seq<N>>, n: nat, next: N)
    requires Consistent(g, visited, stack, onStack, cycles, finished, paths) && next in stack
    requires n <= |cycles| && RootedFrom(cycles, n, paths, stack[0])
    ensures RootedFrom(cycles + [Closing(stack, next)], n, paths, stack[0])
  {
    hide Marks, Left, Recorded, PathTo;
    assert stack[IndexOf(stack, next)] == next;
  }

  lemma {:induction false} ClosingOf<N>(p: seq<N>, w: N)
    requires w in p
    ensures Closing(p, w) == p[IndexOf(p, w)..] + [w]
  {
  }

  lemma {:induction false} ExtendsMore<N(!new)>(first: map<N, seq<N>>, before: map<N, seq<N>>, after: map<N, seq<N>>,
    p: seq<N>, next: N)
    requires Extends(first, before, p) && Extends(before, after, p + [next])
    ensures Extends(first, after, p)
  {
    forall v | v in after && v !in first ensures p <= after[v] {
      if v !in before {
        assert p <= p + [next] <= after[v];
      }
    }
  }

  lemma {:induction false} SameStack<N(!new)>(g: map<N, set<N>>, visited: set<N>, stack: seq<N>, onStack: set<N>,
                           cycles: seq<seq<N>>, finished: seq<N>, paths: map<N, seq<N>>)
    requires Consistent(g, visited, stack, onStack, cycles, finished, paths)
    ensures forall x :: x in onStack <==> x in stack
    ensures forall x :: x in visited <==> x in stack || x in finished
  {
    hide Tree, Left, Recorded;
  }

  /** Dealing with one more successor. */
  lemma {:induction false} HandledNext<N(!new)>(before: seq<seq<N>>, after: seq<seq<N>>, left: seq<N>, finished: seq<N>,
                             stack: seq<N>, done: set<N>, next: N)
    requires before <= after && left <= finished && Handled(before, left, stack, done)
    requires if next in stack then Closing(stack, next) in after else next in finished
    ensures Handled(after, finished, stack, done + {next})
  {
    hide Closing;
    forall w | w in done ensures if w in stack then Closing(stack, w) in after else w in finished {
      if w in stack {
        assert Closing(stack, w) in before;
      } else {
        assert w in left;
      }
    }
  }

  lemma {:induction false} SearchStart<N(!new)>(g: map<N, set<N>>, visited: set<N>, stack: seq<N>, onStack: set<N>,
                             cycles: seq<seq<N>>, finished: seq<N>, paths: map<N, seq<N>>, node: N)
    requires Consistent(g, visited, stack, onStack, cycles, finished, paths) && node !in visited
    ensures Searching(g, Marked(visited, cycles, finished, paths),
      Marked(visited + {node}, cycles, finished, paths[node := stack + [node]]), stack + [node], node,
      Succ(g, node) - Succ(g, node))
  {
    hide Marks, Left, Recorded, PathTo, Spread, Succ;
    SpreadStart(g, visited, node);
    assert Succ(g, node) - Succ(g, node) == {};
  }

  lemma {:induction false} SearchSkip<N(!new)>(g: map<N, set<N>>, before: Marked<N>, now: Marked<N>, stack: seq<N>,
    node: N, done: set<N>, next: N)
    requires stack != [] && Searching(g, before, now, stack, node, done)
    requires next in now.visited && next !in stack && next in now.finished
    ensures Searching(g, before, now, stack, node, done + {next})
  {
    hide Added, Spread, Closing;
    SpreadSeen(g, before.visited, now.visited, node, done, next);
  }

  lemma {:induction false} SearchFound<N(!new)>(g: map<N, set<N>>, before: Marked<N>, visited: set<N>, stack: seq<N>,
    onStack: set<N>, cycles: seq<seq<N>>, finished: seq<N>, paths: map<N, seq<N>>, node: N, done: set<N>, next: N)
    requires Consistent(g, visited, stack, onStack, cycles, finished, paths) && next in visited && next in stack
    requires Searching(g, before, Marked(visited, cycles, finished, paths), stack, node, done)
    ensures Searching(g, before, Marked(visited, cycles + [Closing(stack, next)], finished, paths), stack, node,
      done + {next})
  {
    hide Marks, Left, Recorded, Tree, Spread, Closing, Extends, RootedFrom;
    RootedFound(g, visited, stack, onStack, cycles, finished, paths, |before.cycles|, next);
    SpreadSeen(g, before.visited, visited, node, done, next);
    HandledNext(cycles, cycles + [Closing(stack, next)], finished, finished, stack, done, next);
  }

  lemma {:induction false} SearchDeeper<N(!new)>(g: map<N, set<N>>, before: Marked<N>, now: Marked<N>,
    after: Marked<N>, stack: seq<N>, node: N, done: set<N>, next: N)
    requires stack != [] && Searching(g, before, now, stack, node, done)
    requires node !in before.visited && next in Succ(g, node) && next !in now.visited && next !in stack
    requires Added(now, after, stack + [next]) && VisitsExactly(g, now.visited, after.visited, next)
    requires next in after.finished
    ensures Searching(g, before, after, stack, node, done + {next})
  {
    hide Handled, Spread, VisitsExactly, Succ, Extends, RootedFrom;
    HandledNext(now.cycles, after.cycles, now.finished, after.finished, stack, done, next);
    SpreadSearch(g, before.visited, now.visited, node, done, next, after.visited);
    ExtendsMore(before.paths, now.paths, after.paths, stack, next);
    RootedMore(now.cycles, after.cycles, |before.cycles|, now.paths, after.paths, stack, next);
  }

  lemma {:induction false} SearchEnd<N(!new)>(g: map<N, set<N>>, before: Marked<N>, now: Marked<N>, stack: seq<N>,
    node: N)
    requires stack != [] && Searching(g, before, now, stack, node, Succ(g, node))
    ensures Added(before, now, stack) && Handled(now.cycles, now.finished, stack, Succ(g, node))
    ensures VisitsExactly(g, before.visited, now.visited, node)
  {
    hide Added, Handled, Spread, VisitsExactly;
    SpreadEnd(g, before.visited, now.visited, node);
  }

  lemma {:induction false} AddedEnd<N(!new)>(before: Marked<N>, visited: set<N>, cycles: seq<seq<N>>, finished: seq<N>,
                          paths: map<N, seq<N>>, stack: seq<N>, node: N)
    requires finished != [] && finished[|finished| - 1] == node
    requires Added(before, Marked(visited, cycles, finished[..|finished| - 1], paths), stack + [node])
    ensures Added(before, Marked(visited, cycles, finished, paths), stack + [node])
  {
    hide Extends, RootedFrom;
  }

  lemma {:induction false} Without<T>(all: set<T>, todo: set<T>, x: T)
    requires x in todo && todo <= all
    ensures all - (todo - {x}) == all - todo + {x}
  {
  }

  lemma {:induction false} NothingLeft<T>(all: set<T>)
    ensures all - {} == all
  {
  }

  // ---------------------------------------------------------------- rotations

  function Rotate<T>(core: seq<T>, i: nat): (r: seq<T>)
    requires i <= |core|
    ensures |r| == |core|
    ensures forall k :: 0 <= k < |core| ==> r[k] == core[if k + i < |core| then k + i else k + i - |core|]
  {
    core[i..] + core[..i]
  }

  ghost predicate IsRotation<T>(a: seq<T>, b: seq<T>) {
    exists i: nat :: i < |b| && a == Rotate(b, i)
  }

  lemma {:induction false} RotateTwice<T>(core: seq<T>, i: nat, j: nat)
    requires i < |core| && j < |core|
    ensures IsRotation(Rotate(Rotate(core, i), j), core)
  {
    var k := if i + j < |core| then i + j else i + j - |core|;
    assert Rotate(Rotate(core, i), j) == Rotate(core, k);
  }

  lemma {:induction false} RotationTransitive<T>(a: seq<T>, b: seq<T>, c: seq<T>)
    requires IsRotation(a, b) && IsRotation(b, c)
    ensures IsRotation(a, c)
  {
    var j :| 0 <= j < |b| && a == Rotate(b, j);
    var i :| 0 <= i < |c| && b == Rotate(c, i);
    RotateTwice(c, i, j);
  }

  lemma {:induction false} RotationSymmetric<T>(a: seq<T>, b: seq<T>)
    requires IsRotation(a, b)
    ensures IsRotation(b, a)
  {
    var i :| 0 <= i < |b| && a == Rotate(b, i);
    var j := if i == 0 then 0 else |b| - i;
    assert b == Rotate(a, j);
  }

  /** The distinct nodes of a cycle, closed up again. */
  function Close<T>(core: seq<T>): seq<T>
    requires core != []
  {
    core + [core[0]]
  }

  lemma {:induction false} RotatedCycle<N>(g: map<N, set<N>>, core: seq<N>, i: nat)
    requires i < |core| && IsCycle(g, Close(core))
    ensures IsCycle(g, Close(Rotate(core, i)))
  {
    var n, r := |core|, Rotate(core, i);
    var c, d := Close(core), Close(r);
    assert c[..n] == core && d[..n] == r;
    forall k | 0 < k < |d| ensures d[k] in Succ(g, d[k - 1]) {
      var from := if k - 1 + i < n then k - 1 + i else k - 1 + i - n;
      assert d[k - 1] == c[from];
      assert d[k] == c[from + 1];
    }
  }

  // ---------------------------------------------------------------- the canonical rotation

  function Rotations(core: seq<string>): (r: seq<seq<string>>)
    ensures |r| == |core| && forall i :: 0 <= i < |core| ==> r[i] == Rotate(core, i)
  {
    seq(|core|, i requires 0 <= i < |core| => Rotate(core, i))
  }

  /** Python's `min` of a list of tuples. */
  function LeastTuple(ts: seq<seq<string>>): (m: seq<string>)
    requires ts != []
    ensures m in ts
  {
    if |ts| == 1 then ts[0]
    else
      var m := LeastTuple(ts[1..]);
      if TupleLe(ts[0], m) then ts[0] else m
  }

  lemma {:induction false} LeastTupleLe(ts: seq<seq<string>>, t: seq<string>)
    requires ts != [] && t in ts
    ensures TupleLe(LeastTuple(ts), t)
  {
    TupleOrder();
    hide TupleLe;
    if t != ts[0] {
      assert t in ts[1..];
    }
    if |ts| > 1 {
      LeastTupleLe(ts[1..], if t == ts[0] then LeastTuple(ts[1..]) else t);
    }
  }

  function Key(core: seq<string>): seq<string>
    requires core != []
  {
    LeastTuple(Rotations(core))
  }

  lemma {:induction false} KeyIsRotation(core: seq<string>)
    requires core != []
    ensures IsRotation(Key(core), core)
  {
    hide LeastTuple;
    var i :| 0 <= i < |core| && Rotations(core)[i] == Key(core);
  }

  lemma {:induction false} KeyIsLeast(core: seq<string>, r: seq<string>)
    requires core != [] && IsRotation(r, core)
    ensures TupleLe(Key(core), r)
  {
    hide LeastTuple, TupleLe;
    var i :| 0 <= i < |core| && r == Rotate(core, i);
    assert Rotations(core)[i] == r;
    LeastTupleLe(Rotations(core), r);
  }

  /** Rotations of one another have the same key. */
  lemma {:induction false} SameKey(a: seq<string>, b: seq<string>)
    requires a != [] && b != [] && IsRotation(a, b)
    ensures Key(a) == Key(b)
  {
    hide LeastTuple, TupleLe, IsRotation, Key;
    KeyIsRotation(a);
    KeyIsRotation(b);
    RotationTransitive(Key(a), a, b);
    KeyIsLeast(b, Key(a));
    RotationSymmetric(a, b);
    RotationTransitive(Key(b), b, a);
    KeyIsLeast(a, Key(b));
    TupleOrder();
  }

  // ---------------------------------------------------------------- cycles in canonical form

  /** A cycle without its repeated last node. */
  function Core<T>(c: seq<T>): seq<T>
    requires c != []
  {
    c[..|c| - 1]
  }

  /** A real cycle of two modules or more, written in its one canonical form. */
  ghost predicate Canonical(g: map<string, set<string>>, c: seq<string>) {
    |c| >= 3 && IsCycle(g, c) && Core(c) == Key(Core(c))
  }

  /** What the list of reported cycles promises. */
  ghost predicate ReportedOk(g: map<string, set<string>>, unique: seq<seq<string>>) {
    (forall c :: c in unique ==> Canonical(g, c)) && Distinct(unique)
  }

  lemma {:induction false} CanonicalRotations(g: map<string, set<string>>, a: seq<string>, b: seq<string>)
    requires Canonical(g, a) && Canonical(g, b) && IsRotation(Core(a), Core(b))
    ensures a == b
  {
    hide Key, IsRotation;
    SameKey(Core(a), Core(b));
    assert a == Close(Core(a)) && b == Close(Core(b));
  }

  /** Two reported cycles are never rotations of each other. */
  lemma {:induction false} NoTwoRotations(g: map<string, set<string>>, unique: seq<seq<string>>, i: nat, j: nat)
    requires ReportedOk(g, unique) && i < |unique| && j < |unique| && i != j
    ensures unique[i] != [] && unique[j] != [] && !IsRotation(Core(unique[i]), Core(unique[j]))
  {
    hide IsRotation, Key, IsCycle;
    assert unique[i] in unique && unique[j] in unique;
    if IsRotation(Core(unique[i]), Core(unique[j])) {
      CanonicalRotations(g, unique[i], unique[j]);
    }
  }

  lemma {:induction false} KeyCanonical(g: map<string, set<string>>, c: seq<string>)
    requires IsCycle(g, c) && |c| >= 3
    ensures Canonical(g, Close(Key(Core(c)))) && Core(Close(Key(Core(c)))) == Key(Core(c))
  {
    var core := Core(c);
    var key := Key(core);
    hide Key, IsCycle;
    ClosedCore(g, c);
    KeyIsRotation(core);
    var i :| 0 <= i < |core| && key == Rotate(core, i);
    RotatedCycle(g, core, i);
    assert Core(Close(key)) == key;
    SameKey(key, core);
  }

  lemma {:induction false} ClosedCore<N>(g: map<N, set<N>>, c: seq<N>)
    requires IsCycle(g, c)
    ensures Close(Core(c)) == c
  {
  }

  /** A cycle in its canonical rotation. */
  function Form(c: seq<string>): seq<string>
    requires |c| >= 2
  {
    Close(Key(Core(c)))
  }

  // ---------------------------------------------------------------- repeated rotations

  /** The keys seen so far are the cores of the cycles kept so far. */
  ghost predicate Kept(unique: seq<seq<string>>, seen: set<seq<string>>) {
    && (forall c :: c in unique ==> c != [] && Core(c) in seen)
    && (forall k :: k in seen ==> k != [] && Close(k) in unique)
  }

  /** The list holds the forms of the cycles longer than self-loops, in the order in which they first occur. */
  ghost predicate FormsOf(cycles: seq<seq<string>>, n: nat, unique: seq<seq<string>>) {
    && n <= |cycles|
    && (forall k :: 0 <= k < n && |cycles[k]| >= 3 ==> Form(cycles[k]) in unique)
    && (forall i :: 0 <= i < |unique| ==> Occurs(cycles, n, unique[i]))
    && (forall i, j, k :: 0 <= i < j < |unique| && 0 <= k < n && IsForm(cycles[k], unique[j]) ==>
          Occurs(cycles, k, unique[i]))
  }

  ghost predicate IsForm(c: seq<string>, form: seq<string>) {
    |c| >= 3 && Form(c) == form
  }

  ghost predicate Occurs(cycles: seq<seq<string>>, n: nat, form: seq<string>) {
    exists k :: 0 <= k < n && k < |cycles| && IsForm(cycles[k], form)
  }

  /** What the loop over the recorded cycles has done after n of them. */
  ghost predicate Deduplicated(g: map<string, set<string>>, cycles: seq<seq<string>>, n: nat,
                               unique: seq<seq<string>>, seen: set<seq<string>>) {
    ReportedOk(g, unique) && Kept(unique, seen) && FormsOf(cycles, n, unique)
  }

  lemma {:induction false} DedupStart(g: map<string, set<string>>, cycles: seq<seq<string>>)
    ensures Deduplicated(g, cycles, 0, [], {})
  {
  }

  lemma {:induction false} OccursLater(cycles: seq<seq<string>>, n: nat, m: nat, form: seq<string>)
    requires Occurs(cycles, n, form) && n <= m
    ensures Occurs(cycles, m, form)
  {
    hide IsForm;
  }

  lemma {:induction false} FormsSkip(cycles: seq<seq<string>>, n: nat, unique: seq<seq<string>>)
    requires FormsOf(cycles, n, unique) && n < |cycles|
    requires |cycles[n]| >= 3 ==> Form(cycles[n]) in unique
    ensures FormsOf(cycles, n + 1, unique)
  {
    hide Form, Occurs;
    forall i | 0 <= i < |unique| ensures Occurs(cycles, n + 1, unique[i]) {
      OccursLater(cycles, n, n + 1, unique[i]);
    }
    forall i, j, k | 0 <= i < j < |unique| && 0 <= k < n + 1 && IsForm(cycles[k], unique[j])
      ensures Occurs(cycles, k, unique[i])
    {
      if k == n {
        assert Occurs(cycles, n, unique[i]);
      }
    }
  }

  lemma {:induction false} FormsAdd(cycles: seq<seq<string>>, n: nat, unique: seq<seq<string>>, form: seq<string>)
    requires FormsOf(cycles, n, unique) && n < |cycles| && IsForm(cycles[n], form) && form !in unique
    ensures FormsOf(cycles, n + 1, unique + [form])
  {
    hide Form, Occurs;
    var all := unique + [form];
    assert form in all;
    assert forall x :: IsForm(cycles[n], x) ==> x == form;
    assert forall k, x :: 0 <= k < n && IsForm(cycles[k], x) ==> x in unique;
    assert Occurs(cycles, n + 1, form) by { OccursNow(cycles, n, form); }
    forall i | 0 <= i < |all| ensures Occurs(cycles, n + 1, all[i]) {
      if i < |unique| {
        OccursLater(cycles, n, n + 1, unique[i]);
      }
    }
    forall i, j, k | 0 <= i < j < |all| && 0 <= k < n + 1 && IsForm(cycles[k], all[j])
      ensures Occurs(cycles, k, all[i])
    {
      if j < |unique| {
        assert all[j] == unique[j] && all[i] == unique[i] && unique[j] in unique;
      }
    }
  }

  lemma {:induction false} OccursNow(cycles: seq<seq<string>>, n: nat, form: seq<string>)
    requires n < |cycles| && IsForm(cycles[n], form)
    ensures Occurs(cycles, n + 1, form)
  {
    hide IsForm;
  }

  /** A self-loop, or a rotation of a cycle that is already kept. */
  lemma {:induction false} DedupSkip(g: map<string, set<string>>, cycles: seq<seq<string>>, n: nat,
                  unique: seq<seq<string>>, seen: set<seq<string>>)
    requires Deduplicated(g, cycles, n, unique, seen) && n < |cycles|
    requires |cycles[n]| >= 3 ==> Key(Core(cycles[n])) in seen
    ensures Deduplicated(g, cycles, n + 1, unique, seen)
  {
    hide Key, ReportedOk, FormsOf;
    FormsSkip(cycles, n, unique);
  }

  lemma {:induction false} DedupAdd(g: map<string, set<string>>, cycles: seq<seq<string>>, n: nat,
                 unique: seq<seq<string>>, seen: set<seq<string>>, key: seq<string>)
    requires Deduplicated(g, cycles, n, unique, seen) && n < |cycles| && IsCycle(g, cycles[n]) && |cycles[n]| >= 3
    requires key == Key(Core(cycles[n])) && key !in seen && key != []
    ensures Deduplicated(g, cycles, n + 1, unique + [Close(key)], seen + {key})
  {
    hide Key, IsCycle, Canonical, Kept, FormsOf;
    KeyCanonical(g, cycles[n]);
    KeptGrows(unique, seen, key);
    FormsAdd(cycles, n, unique, Close(key));
  }

  /** The loop that drops repeated rotations. */
  method Deduplicate(ghost g: map<string, set<string>>, cycles: seq<seq<string>>) returns (unique: seq<seq<string>>)
    requires forall c :: c in cycles ==> IsCycle(g, c)
    ensures ReportedOk(g, unique) && FormsOf(cycles, |cycles|, unique)
  {
    hide Key, IsCycle, ReportedOk, FormsOf, Kept, Deduplicated, LeastTuple;
    var seen: set<seq<string>> := {};
    unique := [];
    DedupStart(g, cycles);
    for i := 0 to |cycles|
      invariant Deduplicated(g, cycles, i, unique, seen)
    {
      var cycle := cycles[i];
      if |cycle| < 3 {
        DedupSkip(g, cycles, i, unique, seen);
        continue;
      }
      var key := LeastTuple(Rotations(Core(cycle)));
      KeyOf(Core(cycle));
      if key in seen {
        DedupSkip(g, cycles, i, unique, seen);
        continue;
      }
      DedupAdd(g, cycles, i, unique, seen, key);
      seen := seen + {key};
      unique := unique + [Close(key)];
    }
    DedupEnd(g, cycles, unique, seen);
  }

  lemma {:induction false} DedupEnd(g: map<string, set<string>>, cycles: seq<seq<string>>,
                 unique: seq<seq<string>>, seen: set<seq<string>>)
    requires Deduplicated(g, cycles, |cycles|, unique, seen)
    ensures ReportedOk(g, unique) && FormsOf(cycles, |cycles|, unique)
  {
    hide ReportedOk, FormsOf, Kept;
  }

  lemma {:induction false} KeyOf(core: seq<string>)
    requires core != []
    ensures LeastTuple(Rotations(core)) == Key(core) && Key(core) != []
  {
    KeyIsRotation(core);
  }

  lemma {:induction false} KeptGrows(unique: seq<seq<string>>, seen: set<seq<string>>, key: seq<string>)
    requires Kept(unique, seen) && key !in seen && key != []
    ensures Close(key) !in unique && Kept(unique + [Close(key)], seen + {key})
  {
    hide Core, Close;
    CoreOfClosed(key);
    var all := unique + [Close(key)];
    forall c | c in all ensures c != [] && Core(c) in seen + {key} {
      assert c in unique || c == Close(key);
    }
    forall k | k in seen + {key} ensures k != [] && Close(k) in all {
      assert all[|unique|] == Close(key);
    }
  }

  lemma {:induction false} CoreOfClosed(key: seq<string>)
    requires key != []
    ensures Close(key) != [] && Core(Close(key)) == key
  {
  }

  // ---------------------------------------------------------------- the whole check

  /** A reported cycle is the canonical form of what an edge back into a path, no self-loop, closes. */
  ghost predicate ClosedBy(g: map<string, set<string>>, paths: map<string, seq<string>>, v: string, w: string,
                           c: seq<string>) {
    IsBack(g, paths, v, w) && v != w && c == Form(Closing(paths[v], w))
  }

  /** Starts are keys, and the smaller keys have been left before. */
  ghost predicate StartsInOrder(g: map<string, set<string>>, order: seq<string>, paths: map<string, seq<string>>) {
    forall i :: 0 <= i < |order| && order[i] in paths && paths[order[i]] == [order[i]] ==>
      order[i] in g && forall x :: x in g && StringLe(x, order[i]) && x != order[i] ==> x in order[..i]
  }

  /** The cycles come in the order of the starts from which they were found. */
  ghost predicate ByStart(paths: map<string, seq<string>>, cycles: seq<seq<string>>) {
    && (forall i :: 0 <= i < |cycles| ==> HasStart(cycles[i], paths))
    && (forall i, j :: 0 <= i < j < |cycles| ==> StringLe(StartOf(cycles[i], paths), StartOf(cycles[j], paths)))
  }

  ghost predicate HasStart(c: seq<string>, paths: map<string, seq<string>>) {
    c != [] && c[0] in paths && paths[c[0]] != []
  }

  ghost function StartOf(c: seq<string>, paths: map<string, seq<string>>): string
    requires HasStart(c, paths)
  {
    paths[c[0]][0]
  }

  /** The list is what some depth-first search from the sorted keys reports, all of it and nothing else. */
  ghost predicate FromSearch(g: map<string, set<string>>, unique: seq<seq<string>>) {
    exists order, paths :: DepthFirst(g, order, paths) && StartsInOrder(g, order, paths) && Reports(g, paths, unique)
  }

  ghost predicate Reports(g: map<string, set<string>>, paths: map<string, seq<string>>, unique: seq<seq<string>>) {
    && (forall c :: c in unique <==> exists v, w :: ClosedBy(g, paths, v, w, c))
    && ByStart(paths, unique)
  }

  /** What the loop over the starts has done after i of them. */
  ghost predicate Started(g: map<string, set<string>>, now: Marked<string>, starts: seq<string>, i: nat) {
    && i <= |starts| && StartsInOrder(g, now.finished, now.paths) && ByStart(now.paths, now.cycles)
    && (forall j :: 0 <= j < i ==> starts[j] in now.finished)
    && (forall k :: 0 <= k < |now.cycles| ==> StartOf(now.cycles[k], now.paths) in starts[..i])
  }

  lemma {:induction false} StartSkip(g: map<string, set<string>>, now: Marked<string>, starts: seq<string>, i: nat)
    requires Started(g, now, starts, i) && i < |starts| && starts[i] in now.finished
    ensures Started(g, now, starts, i + 1)
  {
    hide StartsInOrder, StringLe;
    assert starts[..i + 1] == starts[..i] + [starts[i]];
  }

  /** The keys that sort before a start come before it in the list. */
  ghost predicate SortedKeys(g: map<string, set<string>>, starts: seq<string>) {
    && (forall x :: x in starts <==> x in g) && Sorted(StringLe, starts)
    && forall i, x :: 0 <= i < |starts| && x in g && StringLe(x, starts[i]) && x != starts[i] ==> x in starts[..i]
  }

  lemma {:induction false} StartsAreSorted(g: map<string, set<string>>)
    ensures SortedKeys(g, SortedStrings(g.Keys))
  {
    var starts := SortedStrings(g.Keys);
    SortedStringsSorted(g.Keys);
    StringOrder();
    hide StringLe, SortedStrings;
    forall i, x | 0 <= i < |starts| && x in g && StringLe(x, starts[i]) && x != starts[i] ensures x in starts[..i] {
      var j :| 0 <= j < |starts| && starts[j] == x;
      assert j < i;
    }
  }

  lemma {:induction false} StartOrder(g: map<string, set<string>>, before: Marked<string>, after: Marked<string>,
    starts: seq<string>, i: nat)
    requires Started(g, before, starts, i) && i < |starts| && SortedKeys(g, starts)
    requires Added(before, after, [starts[i]]) && before.paths.Keys == before.visited
    requires (forall x :: x in before.finished ==> x in before.visited) && Distinct(after.finished)
    requires (forall x :: x in before.visited ==> x in before.finished)
    requires after.finished != [] && after.finished[|after.finished| - 1] == starts[i]
    ensures StartsInOrder(g, after.finished, after.paths)
  {
    hide StringLe, RootedFrom, ByStart, SortedKeys;
    var order, paths := after.finished, after.paths;
    forall k | 0 <= k < |order| && order[k] in paths && paths[order[k]] == [order[k]]
      ensures order[k] in g && forall x :: x in g && StringLe(x, order[k]) && x != order[k] ==> x in order[..k]
    {
      if k < |before.finished| {
        assert order[k] == before.finished[k] && order[..k] == before.finished[..k];
      } else {
        NewStart(before, after, starts[i], k);
        EarlierStarts(g, before, starts, i);
      }
    }
  }

  /** Of the nodes left by the search from a start only the start itself is one. */
  lemma {:induction false} NewStart(before: Marked<string>, after: Marked<string>, start: string, k: nat)
    requires Added(before, after, [start]) && before.paths.Keys == before.visited
    requires (forall x :: x in before.visited ==> x in before.finished) && Distinct(after.finished)
    requires |before.finished| <= k < |after.finished| && after.finished[|after.finished| - 1] == start
    requires after.finished[k] in after.paths && after.paths[after.finished[k]] == [after.finished[k]]
    ensures after.finished[k] == start && before.finished <= after.finished[..k]
  {
    hide RootedFrom;
    var v := after.finished[k];
    forall j | 0 <= j < |before.finished| ensures before.finished[j] != v {
      assert after.finished[j] == before.finished[j];
    }
    assert v !in before.paths;
  }

  lemma {:induction false} EarlierStarts(g: map<string, set<string>>, before: Marked<string>, starts: seq<string>,
    i: nat)
    requires Started(g, before, starts, i) && i < |starts| && SortedKeys(g, starts)
    ensures starts[i] in g
    ensures forall x :: x in g && StringLe(x, starts[i]) && x != starts[i] ==> x in before.finished
  {
    hide StringLe, StartsInOrder, ByStart, Sorted;
    forall x | x in g && StringLe(x, starts[i]) && x != starts[i] ensures x in before.finished {
      var j :| 0 <= j < i && starts[j] == x;
    }
  }

  lemma {:induction false} StartCycles(g: map<string, set<string>>, before: Marked<string>, after: Marked<string>,
    starts: seq<string>, i: nat)
    requires Started(g, before, starts, i) && i < |starts| && SortedKeys(g, starts)
    requires Added(before, after, [starts[i]])
    ensures ByStart(after.paths, after.cycles)
    ensures forall k :: 0 <= k < |after.cycles| ==> StartOf(after.cycles[k], after.paths) in starts[..i + 1]
  {
    hide StringLe, StartsInOrder;
    var n := |before.cycles|;
    StringReflexive(starts[i]);
    assert starts[..i + 1] == starts[..i] + [starts[i]];
    forall k | 0 <= k < |after.cycles|
      ensures HasStart(after.cycles[k], after.paths)
      ensures StartOf(after.cycles[k], after.paths) ==
        if k < n then StartOf(before.cycles[k], before.paths) else starts[i]
    {
      if k < n {
        assert after.cycles[k] == before.cycles[k] && HasStart(before.cycles[k], before.paths);
      } else {
        assert Rooted(after.cycles[k], after.paths, starts[i]);
      }
    }
    forall k, l | 0 <= k < l < |after.cycles|
      ensures StringLe(StartOf(after.cycles[k], after.paths), StartOf(after.cycles[l], after.paths))
    {
      if k < n <= l {
        var j :| 0 <= j < i && starts[j] == StartOf(before.cycles[k], before.paths);
        assert StringLe(starts[j], starts[i]);
      }
    }
  }

  lemma {:induction false} StringReflexive(a: string)
    ensures StringLe(a, a)
  {
    StringOrder();
  }

  lemma {:induction false} StartNext(g: map<string, set<string>>, before: Marked<string>, after: Marked<string>,
    starts: seq<string>, i: nat)
    requires Started(g, before, starts, i) && i < |starts| && SortedKeys(g, starts)
    requires Consistent(g, before.visited, [], {}, before.cycles, before.finished, before.paths)
    requires Consistent(g, after.visited, [], {}, after.cycles, after.finished, after.paths)
    requires Added(before, after, [starts[i]])
    requires after.finished != [] && after.finished[|after.finished| - 1] == starts[i]
    ensures Started(g, after, starts, i + 1)
  {
    hide StringLe, Consistent, StartsInOrder, ByStart, SortedKeys, StartOf, Added;
    LeftBehind(g, before);
    LeftBehind(g, after);
    StartOrder(g, before, after, starts, i);
    StartCycles(g, before, after, starts, i);
    StillLeft(before, after, [starts[i]]);
    StartsLeft(before.finished, after.finished, starts, i);
  }

  lemma {:induction false} StillLeft<N(!new)>(before: Marked<N>, after: Marked<N>, p: seq<N>)
    requires p != [] && Added(before, after, p)
    ensures before.visited <= after.visited
  {
  }

  lemma {:induction false} StartsLeft<N(!new)>(before: seq<N>, after: seq<N>, starts: seq<N>, i: nat)
    requires i < |starts| && (forall j :: 0 <= j < i ==> starts[j] in before)
    requires (forall x :: x in before ==> x in after) && after != [] && after[|after| - 1] == starts[i]
    ensures forall j :: 0 <= j < i + 1 ==> starts[j] in after
  {
  }

  /** With an empty stack the visited nodes are those left behind. */
  lemma {:induction false} LeftBehind<N(!new)>(g: map<N, set<N>>, now: Marked<N>)
    requires Consistent(g, now.visited, [], {}, now.cycles, now.finished, now.paths)
    ensures (forall x :: x in now.finished <==> x in now.visited) && Distinct(now.finished)
    ensures now.paths.Keys == now.visited
  {
    hide Left, Recorded, PathTo;
  }

  /** The searches from all starts together are a depth-first search of the whole graph. */
  lemma {:induction false} AllLeft<N(!new)>(g: map<N, set<N>>, now: Marked<N>)
    requires Consistent(g, now.visited, [], {}, now.cycles, now.finished, now.paths) && g.Keys <= now.visited
    ensures DepthFirst(g, now.finished, now.paths)
  {
    LeftBehind(g, now);
    hide Recorded, Distinct;
    forall v | v in Nodes(g) ensures v in now.finished {
      if v !in g {
        var u :| u in g && v in g[u];
        var i :| 0 <= i < |now.finished| && now.finished[i] == u;
        assert LeftAt(g, now.finished, now.paths, i) && v in Succ(g, u);
        assert PathTo(g, now.paths, u);
      }
    }
  }

  method FindCycles(graph: map<string, set<string>>) returns (unique: seq<seq<string>>)
    ensures ReportedOk(graph, unique) && FromSearch(graph, unique)
    ensures unique == [] <==> Acyclic(graph)
  {
    hide *;
    var finder := new CycleFinder(graph);
    var starts := SortedStrings(graph.Keys);
    StartsAreSorted(graph);
    NothingStarted(graph, starts);
    for i := 0 to |starts|
      invariant finder.Valid() && finder.graph == graph && finder.stack == [] && fresh(finder)
      invariant Started(graph, Marked(finder.visited, finder.cycles, finder.finished, finder.paths), starts, i)
    {
      ghost var before := Marked(finder.visited, finder.cycles, finder.finished, finder.paths);
      EmptyStack(finder);
      if starts[i] !in finder.visited {
        StartIsNode(graph, starts, i);
        finder.Dfs(starts[i]);
        EmptyStack(finder);
        assert [] + [starts[i]] == [starts[i]];
        StartNext(graph, before, Marked(finder.visited, finder.cycles, finder.finished, finder.paths), starts, i);
      } else {
        LeftBehind(graph, before);
        StartSkip(graph, before, starts, i);
      }
    }
    EmptyStack(finder);
    ghost var now := Marked(finder.visited, finder.cycles, finder.finished, finder.paths);
    AllStarted(graph, now, starts);
    CyclesAreReal(graph, now);
    unique := Deduplicate(graph, finder.cycles);
    SearchReports(graph, now, starts, unique);
    NoneIffAcyclic(graph, unique);
  }

  lemma {:induction false} NothingStarted(g: map<string, set<string>>, starts: seq<string>)
    ensures Started(g, Marked({}, [], [], map[]), starts, 0)
  {
  }

  lemma {:induction false} EmptyStack(finder: CycleFinder<string>)
    requires finder.Valid() && finder.stack == []
    ensures Consistent(finder.graph, finder.visited, [], {}, finder.cycles, finder.finished, finder.paths)
  {
    hide Tree, Left, Recorded;
    assert finder.onStack == {} by {
      assert Marks(finder.graph, finder.visited, [], finder.onStack, finder.finished);
    }
  }

  lemma {:induction false} StartIsNode(g: map<string, set<string>>, starts: seq<string>, i: nat)
    requires SortedKeys(g, starts) && i < |starts|
    ensures starts[i] in Nodes(g)
  {
  }

  lemma {:induction false} AllStarted(g: map<string, set<string>>, now: Marked<string>, starts: seq<string>)
    requires Consistent(g, now.visited, [], {}, now.cycles, now.finished, now.paths)
    requires SortedKeys(g, starts) && Started(g, now, starts, |starts|)
    ensures DepthFirst(g, now.finished, now.paths) && StartsInOrder(g, now.finished, now.paths)
  {
    LeftBehind(g, now);
    hide Consistent, StartsInOrder, DepthFirst, ByStart;
    assert g.Keys <= now.visited;
    AllLeft(g, now);
  }

  lemma {:induction false} CyclesAreReal<N(!new)>(g: map<N, set<N>>, now: Marked<N>)
    requires Consistent(g, now.visited, [], {}, now.cycles, now.finished, now.paths)
    ensures forall c :: c in now.cycles ==> IsCycle(g, c)
  {
    hide Marks, Left, IsCycle, Closing, Succ;
    forall c | c in now.cycles ensures IsCycle(g, c) {
      var v, w :| IsBack(g, now.paths, v, w) && c == Closing(now.paths[v], w);
      assert PathTo(g, now.paths, v);
      BackEdge(g, now.paths[v], w);
    }
  }

  /** Every node of a closed path has the start of the path. */
  lemma {:induction false} ClosingStart<N(!new)>(g: map<N, set<N>>, paths: map<N, seq<N>>, v: N, w: N, x: N)
    requires v in paths && PathTo(g, paths, v) && w in paths[v] && x in Closing(paths[v], w)
    ensures x in paths && paths[x] != [] && paths[x][0] == paths[v][0]
  {
    hide IsPath;
    var m :| 0 <= m < |paths[v]| && paths[v][m] == x;
  }

  lemma {:induction false} FormStart(g: map<string, set<string>>, paths: map<string, seq<string>>, v: string, w: string)
    requires v in paths && PathTo(g, paths, v) && w in paths[v]
    ensures var c := Closing(paths[v], w);
      HasStart(Form(c), paths) && HasStart(c, paths) && StartOf(Form(c), paths) == StartOf(c, paths)
  {
    hide Key, IsPath, Closing;
    var c := Closing(paths[v], w);
    KeyIsRotation(Core(c));
    var i :| 0 <= i < |Core(c)| && Key(Core(c)) == Rotate(Core(c), i);
    assert Form(c)[0] == Core(c)[i] == c[i];
    ClosingStart(g, paths, v, w, c[i]);
    ClosingStart(g, paths, v, w, c[0]);
  }

  /** An occurrence of a form among the recorded cycles is a back edge of the search that is no self-loop. */
  lemma {:induction false} OccursIsClosed(g: map<string, set<string>>, now: Marked<string>, k: nat)
    requires Consistent(g, now.visited, [], {}, now.cycles, now.finished, now.paths)
    requires k < |now.cycles| && |now.cycles[k]| >= 3
    ensures exists v, w :: ClosedBy(g, now.paths, v, w, Form(now.cycles[k]))
  {
    hide Marks, Left, Closing, Form, Succ, IsPath, Distinct, IsCycle;
    assert now.cycles[k] in now.cycles;
    var v, w :| IsBack(g, now.paths, v, w) && now.cycles[k] == Closing(now.paths[v], w);
    assert PathTo(g, now.paths, v);
    BackEdge(g, now.paths[v], w);
    assert ClosedBy(g, now.paths, v, w, Form(now.cycles[k]));
  }

  lemma {:induction false} ClosedOccurs(g: map<string, set<string>>, now: Marked<string>, v: string, w: string,
    form: seq<string>)
    requires Consistent(g, now.visited, [], {}, now.cycles, now.finished, now.paths)
    requires ClosedBy(g, now.paths, v, w, form)
    ensures Occurs(now.cycles, |now.cycles|, form)
  {
    LeftBehind(g, now);
    hide Marks, Left, Closing, Form, Succ, IsPath, Distinct, IsCycle;
    assert PathTo(g, now.paths, v);
    BackEdge(g, now.paths[v], w);
    assert v in now.finished && IsBack(g, now.paths, v, w);
    assert Closing(now.paths[v], w) in now.cycles;
    var k :| 0 <= k < |now.cycles| && now.cycles[k] == Closing(now.paths[v], w);
    assert IsForm(now.cycles[k], form);
  }

  lemma {:induction false} OccursIff(g: map<string, set<string>>, now: Marked<string>, form: seq<string>)
    requires Consistent(g, now.visited, [], {}, now.cycles, now.finished, now.paths)
    ensures Occurs(now.cycles, |now.cycles|, form) <==> exists v, w :: ClosedBy(g, now.paths, v, w, form)
  {
    hide Consistent, Form, ClosedBy;
    if Occurs(now.cycles, |now.cycles|, form) {
      var k :| 0 <= k < |now.cycles| && IsForm(now.cycles[k], form);
      OccursIsClosed(g, now, k);
    }
    if v, w :| ClosedBy(g, now.paths, v, w, form) {
      ClosedOccurs(g, now, v, w, form);
    }
  }

  /** A recorded cycle and its form have the same start. */
  lemma {:induction false} RecordedStart(g: map<string, set<string>>, now: Marked<string>, k: nat)
    requires Consistent(g, now.visited, [], {}, now.cycles, now.finished, now.paths)
    requires k < |now.cycles| && |now.cycles[k]| >= 3
    ensures var c := now.cycles[k];
      HasStart(Form(c), now.paths) && HasStart(c, now.paths) && StartOf(Form(c), now.paths) == StartOf(c, now.paths)
  {
    hide Marks, Left, Closing, Form, Succ, PathTo;
    assert now.cycles[k] in now.cycles;
    var v, w :| IsBack(g, now.paths, v, w) && now.cycles[k] == Closing(now.paths[v], w);
    FormStart(g, now.paths, v, w);
  }

  /** The first occurrences come in the order of their starts, and so do the forms. */
  lemma {:induction false} FormsByStart(g: map<string, set<string>>, now: Marked<string>, unique: seq<seq<string>>)
    requires Consistent(g, now.visited, [], {}, now.cycles, now.finished, now.paths)
    requires ByStart(now.paths, now.cycles) && FormsOf(now.cycles, |now.cycles|, unique)
    ensures ByStart(now.paths, unique)
  {
    hide Consistent, Form, StringLe, HasStart, StartOf;
    forall i | 0 <= i < |unique| ensures HasStart(unique[i], now.paths) {
      var k :| 0 <= k < |now.cycles| && IsForm(now.cycles[k], unique[i]);
      RecordedStart(g, now, k);
    }
    forall i, j | 0 <= i < j < |unique| ensures StringLe(StartOf(unique[i], now.paths), StartOf(unique[j], now.paths)) {
      var l :| 0 <= l < |now.cycles| && IsForm(now.cycles[l], unique[j]);
      assert Occurs(now.cycles, l, unique[i]);
      var k :| 0 <= k < l && IsForm(now.cycles[k], unique[i]);
      RecordedStart(g, now, k);
      RecordedStart(g, now, l);
    }
  }

  lemma {:induction false} SearchReports(g: map<string, set<string>>, now: Marked<string>, starts: seq<string>,
    unique: seq<seq<string>>)
    requires Consistent(g, now.visited, [], {}, now.cycles, now.finished, now.paths)
    requires Started(g, now, starts, |starts|) && FormsOf(now.cycles, |now.cycles|, unique)
    requires DepthFirst(g, now.finished, now.paths) && StartsInOrder(g, now.finished, now.paths)
    ensures FromSearch(g, unique)
  {
    hide Consistent, DepthFirst, StartsInOrder, ClosedBy, IsForm, ByStart;
    forall c ensures c in unique <==> exists v, w :: ClosedBy(g, now.paths, v, w, c) {
      OccursIff(g, now, c);
      if c in unique {
        var i :| 0 <= i < |unique| && unique[i] == c;
        assert Occurs(now.cycles, |now.cycles|, unique[i]);
      }
      if Occurs(now.cycles, |now.cycles|, c) {
        var k :| 0 <= k < |now.cycles| && IsForm(now.cycles[k], c);
        FormListed(now.cycles, unique, k, c);
      }
    }
    FormsByStart(g, now, unique);
    assert Reports(g, now.paths, unique);
  }

  lemma {:induction false} FormListed(cycles: seq<seq<string>>, unique: seq<seq<string>>, k: nat, form: seq<string>)
    requires FormsOf(cycles, |cycles|, unique) && k < |cycles| && IsForm(cycles[k], form)
    ensures form in unique
  {
    hide Form, Occurs;
  }

  // ---------------------------------------------------------------- what the reported cycles cover

  /** The list contains the edge. */
  ghost predicate HasEdge<N>(c: seq<N>, v: N, w: N) {
    exists i :: 0 <= i < |c| - 1 && c[i] == v && c[i + 1] == w
  }

  lemma {:induction false} RotatedEdge<N>(core: seq<N>, r: nat)
    requires r < |core|
    ensures HasEdge(Close(Rotate(core, r)), core[|core| - 1], core[0])
  {
    var n, c := |core|, Close(Rotate(core, r));
    var i := if r == 0 then n - 1 else n - 1 - r;
    assert c[i] == core[n - 1] && c[i + 1] == core[0];
  }

  /** A walk that ends where it starts and goes elsewhere in between. */
  ghost predicate IsClosedWalk<N(!new)>(g: map<N, set<N>>, p: seq<N>) {
    IsPath(g, p) && p[|p| - 1] == p[0] && exists k :: 0 <= k < |p| && p[k] != p[0]
  }

  /** Some list has the edge from p[m]. */
  ghost predicate Meets<N(!new)>(unique: seq<seq<N>>, p: seq<N>, m: nat) {
    m < |p| - 1 && exists c :: c in unique && HasEdge(c, p[m], p[m + 1])
  }

  /** The edge that closes a cycle is one of its form. */
  lemma {:induction false} FormHasEdge(p: seq<string>, w: string)
    requires w in p
    ensures HasEdge(Form(Closing(p, w)), p[|p| - 1], w)
  {
    hide Key, HasEdge;
    var core := Core(Closing(p, w));
    assert core == p[IndexOf(p, w)..];
    KeyIsRotation(core);
    var r :| 0 <= r < |core| && Key(core) == Rotate(core, r);
    RotatedEdge(core, r);
  }

  /** An edge that a depth-first search does not leave downwards leads back into the path. */
  lemma {:induction false} BackOrBefore<N(!new)>(g: map<N, set<N>>, order: seq<N>, paths: map<N, seq<N>>, v: N, w: N)
    requires DepthFirst(g, order, paths) && w in Succ(g, v)
    ensures v in order && w in order
    ensures IsBack(g, paths, v, w) || IndexOf(order, w) < IndexOf(order, v)
  {
    hide PathTo, Distinct;
    var i := IndexOf(order, v);
    assert LeftAt(g, order, paths, i);
    if w in order[..i] {
      var j :| 0 <= j < i && order[j] == w;
      IndexBefore(order, w, j);
    }
  }

  lemma {:induction false} IndexBefore<N>(s: seq<N>, x: N, j: nat)
    requires j < |s| && s[j] == x
    ensures IndexOf(s, x) <= j
  {
    var i := IndexOf(s, x);
    forall k | 0 <= k < i ensures s[k] != x {
      assert s[..i][k] == s[k];
    }
  }

  /** A walk without back edges but self-loops stays where it is or goes to nodes left before. */
  lemma {:induction false} WalkDescends<N(!new)>(g: map<N, set<N>>, order: seq<N>, paths: map<N, seq<N>>, p: seq<N>,
                                                 k: nat)
    requires DepthFirst(g, order, paths) && IsPath(g, p) && k < |p| && p[0] in order
    requires forall m :: 0 <= m < |p| - 1 && IsBack(g, paths, p[m], p[m + 1]) ==> p[m] == p[m + 1]
    ensures p[k] in order
    ensures IndexOf(order, p[k]) < IndexOf(order, p[0]) || forall m :: 0 <= m <= k ==> p[m] == p[0]
  {
    hide DepthFirst, IsBack, Succ;
    if k > 0 {
      WalkDescends(g, order, paths, p, k - 1);
      assert p[k] in Succ(g, p[k - 1]);
      BackOrBefore(g, order, paths, p[k - 1], p[k]);
      assert IsBack(g, paths, p[k - 1], p[k - 1 + 1]) ==> p[k - 1] == p[k];
    }
  }

  lemma {:induction false} WalkEndsBack<N(!new)>(g: map<N, set<N>>, order: seq<N>, paths: map<N, seq<N>>, p: seq<N>)
    returns (m: nat)
    requires DepthFirst(g, order, paths) && IsClosedWalk(g, p)
    ensures m < |p| - 1 && IsBack(g, paths, p[m], p[m + 1]) && p[m] != p[m + 1]
  {
    hide DepthFirst, IsBack, Succ;
    BackOrBefore(g, order, paths, p[0], p[1]);
    if forall m :: 0 <= m < |p| - 1 && IsBack(g, paths, p[m], p[m + 1]) ==> p[m] == p[m + 1] {
      WalkDescends(g, order, paths, p, |p| - 1);
      assert false;
    }
    m :| 0 <= m < |p| - 1 && IsBack(g, paths, p[m], p[m + 1]) && p[m] != p[m + 1];
  }

  /** Every closed walk that is not only a self-loop shares an edge with a reported cycle. */
  lemma {:induction false} EveryCycleIsMet(g: map<string, set<string>>, unique: seq<seq<string>>, p: seq<string>)
    requires FromSearch(g, unique) && IsClosedWalk(g, p)
    ensures exists m :: Meets(unique, p, m)
  {
    hide HasEdge, Form, Closing, IsPath, StartsInOrder, ByStart, Left, IsClosedWalk;
    var order, paths :| DepthFirst(g, order, paths) && StartsInOrder(g, order, paths) && Reports(g, paths, unique);
    var m := WalkEndsBack(g, order, paths, p);
    var v, w := p[m], p[m + 1];
    assert PathTo(g, paths, v);
    FormHasEdge(paths[v], w);
    var c := Form(Closing(paths[v], w));
    assert ClosedBy(g, paths, v, w, c);
    assert c in unique && Meets(unique, p, m);
  }

  lemma {:induction false} PathPart<N(!new)>(g: map<N, set<N>>, p: seq<N>, i: nat, j: nat)
    requires IsPath(g, p) && i <= j < |p|
    ensures Reaches(g, p[i], p[j])
  {
    var q := p[i..j + 1];
    forall k | 0 < k < |q| ensures q[k] in Succ(g, q[k - 1]) {
      assert q[k] == p[i + k] && q[k - 1] == p[i + k - 1];
    }
    assert PathBetween(g, q, p[i], p[j]);
  }

  /** The nodes of a closed walk reach each other. */
  lemma {:induction false} ClosedWalkConnects<N(!new)>(g: map<N, set<N>>, p: seq<N>, i: nat, j: nat)
    requires IsPath(g, p) && p[|p| - 1] == p[0] && i < |p| && j < |p|
    ensures Connected(g, p[i], p[j])
  {
    hide Reaches, IsPath;
    var n := |p| - 1;
    PathPart(g, p, i, n);
    PathPart(g, p, 0, j);
    ReachesTrans(g, p[i], p[0], p[j]);
    PathPart(g, p, j, n);
    PathPart(g, p, 0, i);
    ReachesTrans(g, p[j], p[0], p[i]);
  }

  lemma {:induction false} ConnectedTrans<N(!new)>(g: map<N, set<N>>, x: N, y: N, z: N)
    requires Connected(g, x, y) && Connected(g, y, z)
    ensures Connected(g, x, z)
  {
    hide Reaches;
    ReachesTrans(g, x, y, z);
    ReachesTrans(g, z, y, x);
  }

  /** A closed walk through two nodes that reach each other. */
  lemma {:induction false} WalkThrough<N(!new)>(g: map<N, set<N>>, x: N, y: N) returns (p: seq<N>)
    requires Connected(g, x, y) && x != y
    ensures IsClosedWalk(g, p) && p[0] == x
  {
    hide Succ;
    var there :| PathBetween(g, there, x, y);
    var back :| PathBetween(g, back, y, x);
    p := there + back[1..];
    assert p[|there| - 1] == y;
  }

  /** Every strongly connected component of two nodes or more holds a reported cycle. */
  lemma {:induction false} EveryComponentIsMet(g: map<string, set<string>>, unique: seq<seq<string>>, x: string,
    y: string)
    requires FromSearch(g, unique) && ReportedOk(g, unique) && Connected(g, x, y) && x != y
    ensures exists c :: c in unique && forall z :: z in c ==> Connected(g, x, z)
  {
    hide FromSearch, Connected, Canonical, IsClosedWalk, HasEdge, Distinct;
    var p := WalkThrough(g, x, y);
    EveryCycleIsMet(g, unique, p);
    var m: nat :| Meets(unique, p, m);
    var c :| c in unique && HasEdge(c, p[m], p[m + 1]);
    WalkConnects(g, p, m);
    EdgeConnects(g, c, x, p[m], p[m + 1]);
  }

  lemma {:induction false} WalkConnects<N(!new)>(g: map<N, set<N>>, p: seq<N>, m: nat)
    requires IsClosedWalk(g, p) && m < |p|
    ensures p != [] && Connected(g, p[0], p[m])
  {
    hide Connected, IsPath;
    ClosedWalkConnects(g, p, 0, m);
  }

  lemma {:induction false} EdgeConnects(g: map<string, set<string>>, c: seq<string>, x: string, v: string, w: string)
    requires Canonical(g, c) && HasEdge(c, v, w) && Connected(g, x, v)
    ensures forall z :: z in c ==> Connected(g, x, z)
  {
    hide Connected, Key, IsPath, Distinct;
    var i :| 0 <= i < |c| - 1 && c[i] == v;
    forall z | z in c ensures Connected(g, x, z) {
      var j :| 0 <= j < |c| && c[j] == z;
      ClosedWalkConnects(g, c, i, j);
      ConnectedTrans(g, x, v, z);
    }
  }

  /** Nothing is reported exactly if the graph has no cycle but self-loops. */
  lemma {:induction false} NoneIffAcyclic(g: map<string, set<string>>, unique: seq<seq<string>>)
    requires FromSearch(g, unique) && ReportedOk(g, unique)
    ensures unique == [] <==> Acyclic(g)
  {
    hide FromSearch, Connected, Key;
    if unique == [] {
      forall x, y | Connected(g, x, y) ensures x == y {
        if x != y {
          EveryComponentIsMet(g, unique, x, y);
        }
      }
    } else {
      assert unique[0] in unique && Canonical(g, unique[0]);
      CycleConnects(g, unique[0]);
    }
  }

  /** The two ends of a real cycle's first edge are different and reach each other. */
  lemma {:induction false} CycleConnects<N(!new)>(g: map<N, set<N>>, c: seq<N>)
    requires IsCycle(g, c) && |c| >= 3
    ensures Connected(g, c[0], c[1]) && c[0] != c[1]
  {
    hide Connected, IsPath;
    ClosedWalkConnects(g, c, 0, 1);
    assert c[0] == c[..|c| - 1][0] && c[1] == c[..|c| - 1][1];
  }
}
