/**
 The iterative strongly-connected-components search of backend/app/spec/fk_cycles.py.

 The method `Sccs` keeps the source's local variables. Each of its steps is one of the pure functions
 `Push`, `Advance` and `Finish` on a `State`, and the lemmas say what every step keeps.
 */
module Tarjan {
  import opened Graphs
  import opened Lists

  /** A pair of the work stack: a node and how far its iterator has gone. */
  datatype Frame<N> = Frame(node: N, pos: nat)

  datatype State<N(==)> = State(
    index: map<N, nat>,
    low: map<N, nat>,
    onStack: set<N>,
    stack: seq<N>,
    work: seq<Frame<N>>,
    result: seq<seq<N>>,
    counter: nat)
  {
    function Idx(x: N): nat {
      if x in index then index[x] else 0
    }

    function Low(x: N): nat {
      if x in low then low[x] else 0
    }

    function Top(): Frame<N>
      requires work != []
    {
      work[|work| - 1]
    }
  }

  /** The graph together with the order in which a node's successors are visited. */
  datatype Search<!N(==)> = Search(adj: map<N, set<N>>, order: set<N> -> seq<N>) {
    function Next(v: N): seq<N> {
      order(Succ(adj, v))
    }

    /** The successors that a frame's iterator has yielded. */
    ghost function Looked(f: Frame<N>): set<N> {
      set i | 0 <= i < f.pos && i < |Next(f.node)| :: Next(f.node)[i]
    }
  }

  ghost predicate Valid<N(!new)>(t: Search<N>) {
    forall v, w :: w in t.Next(v) <==> w in Succ(t.adj, v)
  }

  /** The order lists each set's elements: the source's `sorted`. */
  ghost predicate Enumerates<N(!new)>(order: set<N> -> seq<N>) {
    forall s, w :: w in order(s) <==> w in s
  }

  ghost function Elements<N>(comps: seq<seq<N>>): set<N> {
    set comp, x | comp in comps && x in comp :: x
  }

  function Min(a: nat, b: nat): nat {
    if a <= b then a else b
  }

  function Reverse<N>(s: seq<N>): (r: seq<N>)
    ensures |r| == |s| && forall i :: 0 <= i < |s| ==> r[i] == s[|s| - 1 - i]
  {
    seq(|s|, i requires 0 <= i < |s| => s[|s| - 1 - i])
  }

  // ---------------------------------------------------------------- the invariant

  /** The stack lists its nodes in the order in which they were numbered. */
  ghost predicate StackOrder<N(!new)>(s: State<N>) {
    && (forall i, j :: 0 <= i < j < |s.stack| ==> s.Idx(s.stack[i]) < s.Idx(s.stack[j]))
    && (forall x :: x in s.stack <==> x in s.onStack)
    && (forall x :: x in s.index ==> s.Idx(x) < s.counter)
  }

  /** A numbered node is on the stack or in a component. */
  ghost predicate StackSets<N(!new)>(s: State<N>) {
    && s.low.Keys == s.index.Keys
    && s.index.Keys == s.onStack + Elements(s.result)
    && s.onStack !! Elements(s.result)
  }

  ghost predicate StackOk<N(!new)>(s: State<N>) {
    StackOrder(s) && StackSets(s)
  }

  ghost predicate WorkFrames<N(!new)>(t: Search<N>, s: State<N>) {
    && (forall k :: 0 <= k < |s.work| ==> s.work[k].node in s.onStack)
    && (forall k :: 0 <= k < |s.work| ==> s.work[k].pos <= |t.Next(s.work[k].node)|)
  }

  ghost predicate Increasing<N(!new)>(s: State<N>) {
    forall j, k :: 0 <= j < k < |s.work| ==> s.Idx(s.work[j].node) < s.Idx(s.work[k].node)
  }

  ghost predicate WorkBase<N(!new)>(s: State<N>) {
    && (s.work == [] <==> s.stack == [])
    && (s.work != [] ==> s.work[0].node == s.stack[0])
  }

  ghost predicate WorkOk<N(!new)>(t: Search<N>, s: State<N>) {
    WorkFrames(t, s) && Increasing(s) && WorkBase(s)
  }

  /** The nodes still being worked on. */
  ghost function Gray<N>(work: seq<Frame<N>>): set<N> {
    set k | 0 <= k < |work| :: work[k].node
  }

  ghost predicate LookedOk<N(!new)>(t: Search<N>, s: State<N>) {
    && (forall x :: x in s.index && x !in Gray(s.work) ==> Succ(t.adj, x) <= s.index.Keys)
    && (forall k, w | 0 <= k < |s.work| && w in t.Looked(s.work[k]) :: w in s.index)
  }

  /** A node being worked on reaches everything above it on the stack. */
  ghost predicate DownOk<N(!new)>(t: Search<N>, s: State<N>) {
    forall k, x | 0 <= k < |s.work| && x in s.onStack && s.Idx(s.work[k].node) <= s.Idx(x) ::
      Reaches(t.adj, s.work[k].node, x)
  }

  ghost predicate Anchored<N(!new)>(t: Search<N>, s: State<N>, x: N) {
    exists k :: 0 <= k < |s.work| && s.Idx(s.work[k].node) <= s.Idx(x) && Reaches(t.adj, x, s.work[k].node)
  }

  /** Everything on the stack reaches a node at or below it that is still being worked on. */
  ghost predicate UpOk<N(!new)>(t: Search<N>, s: State<N>) {
    forall x {:trigger Anchored(t, s, x)} :: x in s.onStack ==> Anchored(t, s, x)
  }

  /** The lowlink n of v names a stack node that v reaches. */
  ghost predicate LowWitness<N(!new)>(t: Search<N>, s: State<N>, v: N, n: nat) {
    exists u :: u in s.onStack && s.Idx(u) == n && Reaches(t.adj, v, u)
  }

  ghost predicate LowSound<N(!new)>(t: Search<N>, s: State<N>) {
    forall k :: 0 <= k < |s.work| ==>
      && s.Low(s.work[k].node) <= s.Idx(s.work[k].node)
      && LowWitness(t, s, s.work[k].node, s.Low(s.work[k].node))
  }

  /** x lies on the stack strictly between the k-th work node and the next one: its edges are all looked at. */
  ghost predicate Above<N(!new)>(s: State<N>, k: nat, x: N) {
    && k < |s.work| && x in s.onStack
    && s.Idx(s.work[k].node) < s.Idx(x)
    && (k + 1 < |s.work| ==> s.Idx(x) < s.Idx(s.work[k + 1].node))
  }

  /** No edge looked at from the k-th segment of the stack goes below that segment's lowlink. */
  ghost predicate LowAbove<N(!new)>(t: Search<N>, s: State<N>) {
    forall k: nat, x, w :: Above(s, k, x) && w in Succ(t.adj, x) && w in s.onStack ==>
      s.Low(s.work[k].node) <= s.Idx(w)
  }

  ghost predicate LowLooked<N(!new)>(t: Search<N>, s: State<N>) {
    forall k, w | 0 <= k < |s.work| && w in t.Looked(s.work[k]) && w in s.onStack ::
      s.Low(s.work[k].node) <= s.Idx(w)
  }

  ghost predicate LowComplete<N(!new)>(t: Search<N>, s: State<N>) {
    LowAbove(t, s) && LowLooked(t, s)
  }

  ghost predicate IsScc<N(!new)>(adj: map<N, set<N>>, comp: seq<N>) {
    && comp != []
    && (forall i, j :: 0 <= i < j < |comp| ==> comp[i] != comp[j])
    && (forall x, y :: x in comp ==> (y in comp <==> Connected(adj, x, y)))
  }

  ghost predicate ResultOk<N(!new)>(adj: map<N, set<N>>, result: seq<seq<N>>) {
    && (forall i :: 0 <= i < |result| ==> IsScc(adj, result[i]))
    && (forall i :: 0 <= i <= |result| ==> Closed(adj, Elements(result[..i])))
    && (forall i, j, x :: 0 <= i < j < |result| && x in result[i] ==> x !in result[j])
  }

  ghost predicate FromRoot<N(!new)>(adj: map<N, set<N>>, roots: set<N>, x: N) {
    exists r :: r in roots && Reaches(adj, r, x)
  }

  /** Everything met so far is reachable from one of the roots. */
  ghost predicate FromRoots<N(!new)>(adj: map<N, set<N>>, roots: set<N>, s: State<N>) {
    forall x {:trigger FromRoot(adj, roots, x)} :: x in s.index ==> FromRoot(adj, roots, x)
  }

  ghost predicate Inv<N(!new)>(t: Search<N>, roots: set<N>, s: State<N>) {
    && Valid(t)
    && StackOk(s) && WorkOk(t, s) && LookedOk(t, s)
    && DownOk(t, s) && UpOk(t, s)
    && LowSound(t, s) && LowComplete(t, s)
    && ResultOk(t.adj, s.result)
    && FromRoots(t.adj, roots, s)
  }

  // ---------------------------------------------------------------- the steps

  function Bump<N>(work: seq<Frame<N>>): (r: seq<Frame<N>>)
    requires work != []
    ensures |r| == |work| && forall k :: 0 <= k < |work| ==> r[k].node == work[k].node
  {
    var f := work[|work| - 1];
    work[|work| - 1 := f.(pos := f.pos + 1)]
  }

  /** Meets a new node: a root, or the next successor of the node on top. */
  function Push<N(==)>(s: State<N>, w: N): State<N> {
    State(s.index[w := s.counter], s.low[w := s.counter], s.onStack + {w}, s.stack + [w],
          (if s.work == [] then [] else Bump(s.work)) + [Frame(w, 0)], s.result, s.counter + 1)
  }

  ghost predicate AtNext<N>(t: Search<N>, s: State<N>, w: N) {
    && s.work != []
    && s.Top().pos < |t.Next(s.Top().node)| && t.Next(s.Top().node)[s.Top().pos] == w
  }

  ghost predicate CanPush<N(!new)>(t: Search<N>, roots: set<N>, s: State<N>, w: N) {
    && w !in s.index
    && if s.work == [] then w in roots else AtNext(t, s, w)
  }

  /** Looks at a successor that has been met already. */
  function Advance<N(==)>(s: State<N>, w: N): State<N>
    requires s.work != []
  {
    var v := s.Top().node;
    s.(work := Bump(s.work),
       low := if w in s.onStack then s.low[v := Min(s.Low(v), s.Idx(w))] else s.low)
  }

  // ---------------------------------------------------------------- meeting a new node

  lemma {:induction false} LookedGrows<N(!new)>(t: Search<N>, f: Frame<N>, w: N)
    requires f.pos < |t.Next(f.node)| && t.Next(f.node)[f.pos] == w
    ensures t.Looked(f.(pos := f.pos + 1)) == t.Looked(f) + {w}
  {
    assert forall i :: 0 <= i < f.pos ==> t.Next(f.node)[i] in t.Looked(f);
  }

  /** What meeting w changes, field by field. */
  ghost predicate Pushed<N(!new)>(s: State<N>, w: N, s': State<N>) {
    && w !in s.onStack
    && |s'.work| == |s.work| + 1 && s'.work[|s.work|] == Frame(w, 0)
    && (forall k :: 0 <= k < |s.work| ==> s'.work[k].node == s.work[k].node)
    && (forall k :: 0 <= k < |s.work| - 1 ==> s'.work[k].pos == s.work[k].pos)
    && (s.work != [] ==> s'.work[|s.work| - 1].pos == s.Top().pos + 1)
    && s'.onStack == s.onStack + {w}
    && (forall x :: x != w ==> s'.Idx(x) == s.Idx(x) && s'.Low(x) == s.Low(x))
    && s'.Idx(w) == s.counter && s'.Low(w) == s.counter
    && (forall x :: x in s.onStack ==> s.Idx(x) < s.counter)
    && (forall k :: 0 <= k < |s.work| ==> s.work[k].node in s.onStack)
  }

  lemma {:induction false} PushedFrames<N(!new)>(s: State<N>, w: N)
    ensures var s' := Push(s, w);
      && |s'.work| == |s.work| + 1 && s'.work[|s.work|] == Frame(w, 0)
      && (forall k :: 0 <= k < |s.work| ==> s'.work[k].node == s.work[k].node)
      && (forall k :: 0 <= k < |s.work| - 1 ==> s'.work[k].pos == s.work[k].pos)
      && (s.work != [] ==> s'.work[|s.work| - 1].pos == s.Top().pos + 1)
  {
  }

  lemma {:induction false} PushedMaps<N(!new)>(s: State<N>, w: N)
    ensures var s' := Push(s, w);
      && s'.onStack == s.onStack + {w} && s'.Idx(w) == s.counter && s'.Low(w) == s.counter
      && (forall x :: x != w ==> s'.Idx(x) == s.Idx(x) && s'.Low(x) == s.Low(x))
  {
    hide Bump;
  }

  lemma {:induction false} OnStackNumbered<N(!new)>(t: Search<N>, s: State<N>)
    requires StackOk(s) && WorkOk(t, s)
    ensures forall x :: x in s.onStack ==> x in s.index && s.Idx(x) < s.counter
    ensures forall k :: 0 <= k < |s.work| ==> s.work[k].node in s.onStack
  {
    hide Increasing, WorkBase, Elements;
  }

  lemma {:induction false} PushShape<N(!new)>(t: Search<N>, s: State<N>, w: N)
    requires StackOk(s) && WorkOk(t, s) && w !in s.index
    ensures Pushed(s, w, Push(s, w))
  {
    hide Push, StackOk, WorkOk;
    PushedFrames(s, w);
    PushedMaps(s, w);
    OnStackNumbered(t, s);
  }

  lemma {:induction false} PushedOrder<N(!new)>(s: State<N>, w: N, s': State<N>)
    requires StackOrder(s) && s'.stack == s.stack + [w] && s'.onStack == s.onStack + {w}
    requires s'.index.Keys == s.index.Keys + {w} && s'.counter == s.counter + 1 && s'.Idx(w) == s.counter
    requires forall x :: x != w ==> s'.Idx(x) == s.Idx(x)
    requires w !in s.index && forall x :: x in s.onStack ==> x in s.index
    ensures StackOrder(s')
  {
    assert forall i :: 0 <= i < |s.stack| ==> s'.stack[i] == s.stack[i] && s.stack[i] in s.onStack;
    assert forall x :: x in s'.stack <==> x in s.stack || x == w;
  }

  lemma {:induction false} PushOrder<N(!new)>(s: State<N>, w: N)
    requires StackOk(s) && w !in s.index
    ensures StackOrder(Push(s, w))
  {
    assert forall x :: x in s.onStack ==> x in s.index;
    assert Push(s, w).counter == s.counter + 1;
    hide Push, StackSets, StackOrder;
    PushedMaps(s, w);
    PushFields(s, w);
    PushedOrder(s, w, Push(s, w));
  }

  lemma {:induction false} PushStack<N(!new)>(s: State<N>, w: N)
    requires StackOk(s) && w !in s.index
    ensures StackOk(Push(s, w))
  {
    PushOrder(s, w);
    hide StackOrder, Elements;
  }

  lemma {:induction false} PushIncreasing<N(!new)>(s: State<N>, w: N, s': State<N>)
    requires Pushed(s, w, s') && Increasing(s)
    ensures Increasing(s')
  {
    forall j, k | 0 <= j < k < |s'.work| ensures s'.Idx(s'.work[j].node) < s'.Idx(s'.work[k].node) {
      assert s'.work[j].node == s.work[j].node;
    }
  }

  lemma {:induction false} PushWork<N(!new)>(t: Search<N>, s: State<N>, w: N, s': State<N>)
    requires Pushed(s, w, s') && WorkOk(t, s) && s'.stack == s.stack + [w]
    requires s.work == [] || AtNext(t, s, w)
    ensures WorkOk(t, s')
  {
    PushIncreasing(s, w, s');
    hide Increasing;
  }

  lemma {:induction false} PushGray<N(!new)>(s: State<N>, w: N, s': State<N>)
    requires Pushed(s, w, s')
    ensures Gray(s'.work) == Gray(s.work) + {w}
  {
    forall x ensures x in Gray(s'.work) <==> x in Gray(s.work) || x == w {
      if x in Gray(s.work) {
        var k :| 0 <= k < |s.work| && s.work[k].node == x;
        assert s'.work[k].node == x;
      }
      assert s'.work[|s.work|].node == w;
    }
  }

  lemma {:induction false} PushLookedAt<N(!new)>(t: Search<N>, s: State<N>, w: N, s': State<N>, k: nat, y: N)
    requires Pushed(s, w, s') && k < |s'.work| && y in t.Looked(s'.work[k])
    requires s.work == [] || AtNext(t, s, w)
    ensures k < |s.work|
    ensures y in t.Looked(s.work[k]) || (k == |s.work| - 1 && y == w)
  {
    if k == |s.work| - 1 {
      LookedGrows(t, s.Top(), w);
      assert s'.work[k] == s.Top().(pos := s.Top().pos + 1);
    } else if k < |s.work| {
      assert s'.work[k] == s.work[k];
    }
  }

  lemma {:induction false} PushLooked<N(!new)>(t: Search<N>, s: State<N>, w: N, s': State<N>)
    requires LookedOk(t, s) && Pushed(s, w, s') && s'.index.Keys == s.index.Keys + {w}
    requires s.work == [] || AtNext(t, s, w)
    ensures LookedOk(t, s')
  {
    PushGray(s, w, s');
    forall k, y | 0 <= k < |s'.work| && y in t.Looked(s'.work[k]) ensures y in s'.index {
      PushLookedAt(t, s, w, s', k, y);
    }
  }

  lemma {:induction false} PushDown<N(!new)>(t: Search<N>, s: State<N>, w: N, s': State<N>)
    requires Valid(t) && Pushed(s, w, s') && DownOk(t, s)
    requires forall k :: 0 <= k < |s.work| ==> s.Idx(s.work[k].node) <= s.Idx(s.Top().node)
    requires s.work == [] || AtNext(t, s, w)
    ensures DownOk(t, s')
  {
    forall k, x | 0 <= k < |s'.work| && x in s'.onStack && s'.Idx(s'.work[k].node) <= s'.Idx(x)
      ensures Reaches(t.adj, s'.work[k].node, x)
    {
      if x == w && k < |s.work| {
        var v := s.Top().node;
        ReachesEdge(t.adj, v, w);
        assert Reaches(t.adj, s.work[k].node, v);
        ReachesTrans(t.adj, s.work[k].node, v, w);
      } else if x == w {
        ReachesSelf(t.adj, w);
      } else {
        assert s'.Idx(x) == s.Idx(x);
        if k < |s.work| {
          assert Reaches(t.adj, s.work[k].node, x);
        }
      }
    }
  }

  lemma {:induction false} PushAnchored<N(!new)>(t: Search<N>, s: State<N>, w: N, s': State<N>, x: N)
    requires Pushed(s, w, s') && x in s.onStack && Anchored(t, s, x)
    ensures Anchored(t, s', x)
  {
    var k :| 0 <= k < |s.work| && s.Idx(s.work[k].node) <= s.Idx(x) && Reaches(t.adj, x, s.work[k].node);
    assert s'.work[k].node == s.work[k].node;
  }

  lemma {:induction false} PushUp<N(!new)>(t: Search<N>, s: State<N>, w: N, s': State<N>)
    requires Pushed(s, w, s') && UpOk(t, s)
    ensures UpOk(t, s')
  {
    assert Anchored(t, s', w) by {
      hide UpOk, Reaches;
      ReachesSelf(t.adj, w);
      assert s'.work[|s.work|].node == w;
    }
    hide Anchored;
    forall x | x in s'.onStack ensures Anchored(t, s', x) {
      if x != w {
        PushAnchored(t, s, w, s', x);
      }
    }
  }

  lemma {:induction false} PushRoots<N(!new)>(t: Search<N>, roots: set<N>, s: State<N>, w: N)
    requires Valid(t) && StackOk(s) && WorkOk(t, s) && FromRoots(t.adj, roots, s)
    requires CanPush(t, roots, s, w)
    ensures FromRoots(t.adj, roots, Push(s, w))
  {
    if s.work == [] {
      ReachesSelf(t.adj, w);
    } else {
      var v := s.Top().node;
      ReachesEdge(t.adj, v, w);
      assert FromRoot(t.adj, roots, v);
      var r :| r in roots && Reaches(t.adj, r, v);
      ReachesTrans(t.adj, r, v, w);
    }
    assert FromRoot(t.adj, roots, w);
  }

  lemma {:induction false} PushLowSound<N(!new)>(t: Search<N>, s: State<N>, w: N, s': State<N>)
    requires Pushed(s, w, s') && LowSound(t, s)
    ensures LowSound(t, s')
  {
    forall k | 0 <= k < |s'.work| ensures LowWitness(t, s', s'.work[k].node, s'.Low(s'.work[k].node)) {
      var v := s'.work[k].node;
      if k == |s.work| {
        ReachesSelf(t.adj, w);
      } else {
        assert LowWitness(t, s, v, s.Low(v));
        var u :| u in s.onStack && s.Idx(u) == s.Low(v) && Reaches(t.adj, v, u);
        assert u in s'.onStack && s'.Idx(u) == s.Idx(u);
      }
    }
  }

  lemma {:induction false} PushAbove<N(!new)>(s: State<N>, w: N, s': State<N>, k: nat, x: N)
    requires Pushed(s, w, s') && Above(s', k, x)
    ensures k < |s.work| && Above(s, k, x)
  {
    assert k + 1 < |s.work| ==> s'.work[k + 1].node == s.work[k + 1].node;
  }

  lemma {:induction false} PushLowAbove<N(!new)>(t: Search<N>, s: State<N>, w: N, s': State<N>)
    requires Pushed(s, w, s') && LowAbove(t, s)
    requires forall k :: 0 <= k < |s.work| ==> s.Low(s.work[k].node) <= s.Idx(s.work[k].node)
    ensures LowAbove(t, s')
  {
    forall k: nat, x, y | Above(s', k, x) && y in Succ(t.adj, x) && y in s'.onStack
      ensures s'.Low(s'.work[k].node) <= s'.Idx(y)
    {
      PushAbove(s, w, s', k, x);
      var v := s.work[k].node;
      assert s'.work[k].node == v && v in s.onStack && s.Idx(v) < s.counter;
      if y != w {
        assert y in s.onStack;
      }
    }
  }

  lemma {:induction false} PushLowComplete<N(!new)>(t: Search<N>, s: State<N>, w: N, s': State<N>)
    requires Pushed(s, w, s') && LowComplete(t, s) && LookedOk(t, s) && w !in s.index
    requires s.onStack <= s.index.Keys && Gray(s.work) <= s.onStack
    requires forall k :: 0 <= k < |s.work| ==> s.Low(s.work[k].node) <= s.Idx(s.work[k].node)
    requires s.work == [] || AtNext(t, s, w)
    ensures LowComplete(t, s')
  {
    hide LowAbove;
    PushLowAbove(t, s, w, s');
    forall k, y | 0 <= k < |s'.work| && y in t.Looked(s'.work[k]) && y in s'.onStack
      ensures s'.Low(s'.work[k].node) <= s'.Idx(y)
    {
      PushLookedAt(t, s, w, s', k, y);
    }
  }

  /** The parts of pushing that can be read off. */
  lemma {:induction false} PushFields<N(!new)>(s: State<N>, w: N)
    ensures Push(s, w).stack == s.stack + [w] && Push(s, w).result == s.result
    ensures Push(s, w).index.Keys == s.index.Keys + {w}
  {
  }

  lemma {:induction false} LowsBounded<N(!new)>(t: Search<N>, s: State<N>)
    requires StackOk(s) && WorkOk(t, s) && LowSound(t, s)
    ensures forall k :: 0 <= k < |s.work| ==> s.Idx(s.work[k].node) <= s.Idx(s.Top().node)
    ensures forall k :: 0 <= k < |s.work| ==> s.Low(s.work[k].node) <= s.Idx(s.work[k].node)
    ensures s.onStack <= s.index.Keys && Gray(s.work) <= s.onStack
  {
    hide LowWitness, Elements;
  }

  lemma {:induction false} PushKeeps<N(!new)>(t: Search<N>, roots: set<N>, s: State<N>, w: N)
    requires Inv(t, roots, s) && CanPush(t, roots, s, w)
    ensures Inv(t, roots, Push(s, w))
  {
    hide Push, Pushed, StackOk, WorkOk, LookedOk, DownOk, UpOk, LowSound, LowComplete, ResultOk, FromRoots, Valid,
      Gray, AtNext;
    var s' := Push(s, w);
    PushFields(s, w);
    LowsBounded(t, s);
    PushShape(t, s, w);
    PushStack(s, w);
    PushWork(t, s, w, s');
    PushLooked(t, s, w, s');
    PushDown(t, s, w, s');
    PushUp(t, s, w, s');
    PushRoots(t, roots, s, w);
    PushLowSound(t, s, w, s');
    PushLowComplete(t, s, w, s');
  }

  // ---------------------------------------------------------------- looking at a node met before

  /** What looking at w changes, field by field. */
  ghost predicate Advanced<N(!new)>(s: State<N>, w: N, s': State<N>) {
    && s.work != [] && |s'.work| == |s.work|
    && (forall k :: 0 <= k < |s.work| ==> s'.work[k].node == s.work[k].node)
    && (forall k :: 0 <= k < |s.work| - 1 ==> s'.work[k].pos == s.work[k].pos)
    && s'.Top().pos == s.Top().pos + 1
    && s'.onStack == s.onStack && s'.index == s.index && s'.stack == s.stack && s'.result == s.result
    && (forall x :: x != s.Top().node ==> s'.Low(x) == s.Low(x))
    && s'.Low(s.Top().node) == (if w in s.onStack then Min(s.Low(s.Top().node), s.Idx(w)) else s.Low(s.Top().node))
  }

  lemma {:induction false} AdvanceShape<N(!new)>(s: State<N>, w: N)
    requires s.work != []
    ensures Advanced(s, w, Advance(s, w))
  {
  }

  /** Nothing changes on the stack. */
  lemma {:induction false} StackOkKept<N(!new)>(s: State<N>, s': State<N>)
    requires StackOk(s) && s'.stack == s.stack && s'.onStack == s.onStack && s'.result == s.result
    requires s'.index == s.index && s'.counter == s.counter && s'.low.Keys == s.low.Keys
    ensures StackOk(s')
  {
    hide Elements;
    assert forall x :: s'.Idx(x) == s.Idx(x);
  }

  lemma {:induction false} AdvanceWork<N(!new)>(t: Search<N>, s: State<N>, w: N, s': State<N>)
    requires Advanced(s, w, s') && AtNext(t, s, w) && WorkOk(t, s)
    ensures WorkOk(t, s')
  {
    hide Min;
    assert forall x :: s'.Idx(x) == s.Idx(x);
  }

  lemma {:induction false} AdvanceLookedAt<N(!new)>(t: Search<N>, s: State<N>, w: N, s': State<N>, k: nat, y: N)
    requires Advanced(s, w, s') && AtNext(t, s, w) && k < |s'.work| && y in t.Looked(s'.work[k])
    ensures y in t.Looked(s.work[k]) || (k == |s.work| - 1 && y == w)
  {
    if k == |s.work| - 1 {
      LookedGrows(t, s.Top(), w);
      assert s'.work[k] == s.Top().(pos := s.Top().pos + 1);
    } else {
      assert s'.work[k] == s.work[k];
    }
  }

  lemma {:induction false} AdvanceLooked<N(!new)>(t: Search<N>, s: State<N>, w: N, s': State<N>)
    requires Advanced(s, w, s') && AtNext(t, s, w) && w in s.index && LookedOk(t, s)
    ensures LookedOk(t, s')
  {
    assert Gray(s'.work) == Gray(s.work) by {
      assert forall x :: x in Gray(s.work) ==> exists k :: 0 <= k < |s.work| && s'.work[k].node == x;
    }
    forall k, y | 0 <= k < |s'.work| && y in t.Looked(s'.work[k]) ensures y in s'.index {
      AdvanceLookedAt(t, s, w, s', k, y);
    }
  }

  lemma {:induction false} AdvanceAnchored<N(!new)>(t: Search<N>, s: State<N>, w: N, s': State<N>, x: N)
    requires Advanced(s, w, s') && Anchored(t, s, x)
    ensures Anchored(t, s', x)
  {
    var k :| 0 <= k < |s.work| && s.Idx(s.work[k].node) <= s.Idx(x) && Reaches(t.adj, x, s.work[k].node);
    assert s'.work[k].node == s.work[k].node;
  }

  lemma {:induction false} AdvanceReach<N(!new)>(t: Search<N>, s: State<N>, w: N, s': State<N>)
    requires Advanced(s, w, s') && DownOk(t, s) && UpOk(t, s)
    ensures DownOk(t, s') && UpOk(t, s')
  {
    hide Anchored, Reaches;
    forall x | x in s'.onStack ensures Anchored(t, s', x) {
      AdvanceAnchored(t, s, w, s', x);
    }
  }

  lemma {:induction false} AdvanceLowSound<N(!new)>(t: Search<N>, s: State<N>, w: N, s': State<N>)
    requires Valid(t) && Advanced(s, w, s') && AtNext(t, s, w) && LowSound(t, s)
    requires forall j, k :: 0 <= j < k < |s.work| ==> s.Idx(s.work[j].node) < s.Idx(s.work[k].node)
    ensures LowSound(t, s')
  {
    var v := s.Top().node;
    forall k | 0 <= k < |s'.work|
      ensures s'.Low(s'.work[k].node) <= s'.Idx(s'.work[k].node)
      ensures LowWitness(t, s', s'.work[k].node, s'.Low(s'.work[k].node))
    {
      var x := s'.work[k].node;
      if s'.Low(x) == s.Low(x) {
        assert LowWitness(t, s, x, s.Low(x));
        var u :| u in s.onStack && s.Idx(u) == s.Low(x) && Reaches(t.adj, x, u);
        assert u in s'.onStack && s'.Idx(u) == s.Idx(u);
      } else {
        ReachesEdge(t.adj, v, w);
        assert w in s'.onStack && s'.Idx(w) == s'.Low(v);
      }
    }
  }

  lemma {:induction false} AdvanceLowComplete<N(!new)>(t: Search<N>, s: State<N>, w: N, s': State<N>)
    requires Advanced(s, w, s') && AtNext(t, s, w) && LowComplete(t, s)
    ensures LowComplete(t, s')
  {
    forall k: nat, x, y | Above(s', k, x) && y in Succ(t.adj, x) && y in s'.onStack
      ensures s'.Low(s'.work[k].node) <= s'.Idx(y)
    {
      assert Above(s, k, x);
    }
    forall k, y | 0 <= k < |s'.work| && y in t.Looked(s'.work[k]) && y in s'.onStack
      ensures s'.Low(s'.work[k].node) <= s'.Idx(y)
    {
      AdvanceLookedAt(t, s, w, s', k, y);
    }
  }

  lemma {:induction false} AdvanceKeeps<N(!new)>(t: Search<N>, roots: set<N>, s: State<N>, w: N)
    requires Inv(t, roots, s) && AtNext(t, s, w) && w in s.index
    ensures Inv(t, roots, Advance(s, w))
  {
    hide LookedOk, DownOk, UpOk, LowSound, LowComplete, ResultOk, Reaches, FromRoot, Elements;
    var s' := Advance(s, w);
    AdvanceShape(s, w);
    StackOkKept(s, s');
    AdvanceWork(t, s, w, s');
    AdvanceLooked(t, s, w, s');
    AdvanceReach(t, s, w, s');
    AdvanceLowSound(t, s, w, s');
    AdvanceLowComplete(t, s, w, s');
  }

  // ---------------------------------------------------------------- leaving a finished node

  ghost predicate Finished<N>(t: Search<N>, s: State<N>) {
    s.work != [] && s.Top().pos == |t.Next(s.Top().node)|
  }

  /** Takes the finished frame off the work stack and passes its lowlink down. */
  function Return<N(==)>(s: State<N>): State<N>
    requires s.work != []
  {
    var v, rest := s.Top().node, s.work[..|s.work| - 1];
    if rest == [] then s.(work := rest)
    else
      var u := rest[|rest| - 1].node;
      s.(work := rest, low := s.low[u := Min(s.Low(u), s.Low(v))])
  }

  /** Moves the stack from position p upwards into a new component. */
  function Take<N(==)>(s: State<N>, p: nat): State<N>
    requires p <= |s.stack|
  {
    var comp := Reverse(s.stack[p..]);
    s.(stack := s.stack[..p], onStack := s.onStack - (set x | x in comp), result := s.result + [comp])
  }

  /** What returning changes, field by field; the stack may also lose what lies at or above v. */
  ghost predicate Returned<N(!new)>(s: State<N>, s': State<N>) {
    && s.work != [] && s'.work == s.work[..|s.work| - 1]
    && s'.index == s.index && s'.counter == s.counter
    && (forall x :: s'.work == [] || x != s'.Top().node ==> s'.Low(x) == s.Low(x))
    && (s'.work != [] ==> s'.Low(s'.Top().node) == Min(s.Low(s'.Top().node), s.Low(s.Top().node)))
    && s'.onStack <= s.onStack
  }

  lemma {:induction false} FinishedLooked<N(!new)>(t: Search<N>, s: State<N>)
    requires Valid(t) && Finished(t, s)
    ensures t.Looked(s.Top()) == Succ(t.adj, s.Top().node)
  {
    var v := s.Top().node;
    forall w | w in Succ(t.adj, v) ensures w in t.Looked(s.Top()) {
      assert w in t.Next(v);
    }
  }

  lemma {:induction false} ReturnLooked<N(!new)>(t: Search<N>, s: State<N>, s': State<N>)
    requires Valid(t) && Finished(t, s) && LookedOk(t, s) && Returned(s, s')
    ensures LookedOk(t, s')
  {
    FinishedLooked(t, s);
    forall x | x in Gray(s.work) && x != s.Top().node ensures x in Gray(s'.work) {
      var k :| 0 <= k < |s.work| && s.work[k].node == x;
      assert s'.work[k].node == x;
    }
    forall k, y | 0 <= k < |s'.work| && y in t.Looked(s'.work[k]) ensures y in s'.index {
      assert s'.work[k] == s.work[k];
    }
    assert s.work[|s.work| - 1] == s.Top();
  }

  lemma {:induction false} ReturnDown<N(!new)>(t: Search<N>, s: State<N>, s': State<N>)
    requires Returned(s, s') && DownOk(t, s)
    ensures DownOk(t, s')
  {
    hide Reaches;
  }

  ghost predicate IndexInjective<N(!new)>(s: State<N>) {
    forall x, y :: x in s.onStack && y in s.onStack && s.Idx(x) == s.Idx(y) ==> x == y
  }

  lemma {:induction false} StackInjective<N(!new)>(s: State<N>)
    requires StackOk(s)
    ensures IndexInjective(s)
  {
    hide Elements;
    forall x, y | x in s.onStack && y in s.onStack && s.Idx(x) == s.Idx(y) ensures x == y {
      var i :| 0 <= i < |s.stack| && s.stack[i] == x;
      var j :| 0 <= j < |s.stack| && s.stack[j] == y;
    }
  }

  // ---- a node whose lowlink lies below it: it stays on the stack

  ghost predicate LeftInside<N(!new)>(t: Search<N>, s: State<N>, s': State<N>) {
    && Finished(t, s) && Returned(s, s')
    && s'.onStack == s.onStack && s'.stack == s.stack && s'.result == s.result
    && s.Low(s.Top().node) < s.Idx(s.Top().node)
    && LowWitness(t, s, s.Top().node, s.Low(s.Top().node))
    && Increasing(s)
  }

  lemma {:induction false} InsideAnchored<N(!new)>(t: Search<N>, s: State<N>, s': State<N>, x: N, u: N)
    requires LeftInside(t, s, s')
    requires s.Idx(u) == s.Low(s.Top().node) && Reaches(t.adj, s.Top().node, u)
    requires Anchored(t, s, x) && Anchored(t, s, u)
    ensures Anchored(t, s', x)
  {
    hide LowWitness;
    var v := s.Top().node;
    var k :| 0 <= k < |s.work| && s.Idx(s.work[k].node) <= s.Idx(x) && Reaches(t.adj, x, s.work[k].node);
    if k < |s.work| - 1 {
      assert s'.work[k] == s.work[k];
    } else {
      var j :| 0 <= j < |s.work| && s.Idx(s.work[j].node) <= s.Idx(u) && Reaches(t.adj, u, s.work[j].node);
      ReachesTrans(t.adj, x, v, u);
      ReachesTrans(t.adj, x, u, s.work[j].node);
      assert s'.work[j] == s.work[j];
    }
  }

  lemma {:induction false} InsideUp<N(!new)>(t: Search<N>, s: State<N>, s': State<N>)
    requires LeftInside(t, s, s') && UpOk(t, s)
    ensures UpOk(t, s')
  {
    var v := s.Top().node;
    var u :| u in s.onStack && s.Idx(u) == s.Low(v) && Reaches(t.adj, v, u);
    hide Anchored, Reaches;
    forall x | x in s'.onStack ensures Anchored(t, s', x) {
      InsideAnchored(t, s, s', x, u);
    }
  }

  /** The top frame is not the only one. */
  lemma {:induction false} InsideBelow<N(!new)>(t: Search<N>, s: State<N>, s': State<N>)
    requires LeftInside(t, s, s') && StackOk(s) && WorkOk(t, s)
    ensures s'.work != []
  {
    hide Reaches, Elements;
    var u :| u in s.onStack && s.Idx(u) == s.Low(s.Top().node);
    var i :| 0 <= i < |s.stack| && s.stack[i] == u;
    assert s.Idx(s.stack[0]) <= s.Idx(u);
  }

  /** The work stack without its top frame. */
  lemma {:induction false} FramesKept<N(!new)>(t: Search<N>, s: State<N>, s': State<N>)
    requires s.work != [] && s'.work == s.work[..|s.work| - 1] && s'.index == s.index && WorkOk(t, s)
    ensures Increasing(s')
    ensures forall k :: 0 <= k < |s'.work| ==> s'.work[k].pos <= |t.Next(s'.work[k].node)|
    ensures forall k :: 0 <= k < |s'.work| ==> s'.work[k].node in s.onStack
  {
    assert forall x :: s'.Idx(x) == s.Idx(x);
    assert forall k :: 0 <= k < |s'.work| ==> s'.work[k] == s.work[k];
  }

  lemma {:induction false} InsideWork<N(!new)>(t: Search<N>, s: State<N>, s': State<N>)
    requires LeftInside(t, s, s') && WorkOk(t, s) && s'.work != []
    ensures WorkOk(t, s')
  {
    FramesKept(t, s, s');
    hide Increasing, LowWitness;
  }

  lemma {:induction false} InsideLowSound<N(!new)>(t: Search<N>, s: State<N>, s': State<N>)
    requires LeftInside(t, s, s') && LowSound(t, s) && s'.work != []
    requires Reaches(t.adj, s'.Top().node, s.Top().node)
    ensures LowSound(t, s')
  {
    var v := s.Top().node;
    var u :| u in s.onStack && s.Idx(u) == s.Low(v) && Reaches(t.adj, v, u);
    ReachesTrans(t.adj, s'.Top().node, v, u);
    hide Reaches;
    forall k | 0 <= k < |s'.work|
      ensures s'.Low(s'.work[k].node) <= s'.Idx(s'.work[k].node)
      ensures LowWitness(t, s', s'.work[k].node, s'.Low(s'.work[k].node))
    {
      var x := s'.work[k].node;
      assert s'.work[k] == s.work[k];
      if s'.Low(x) == s.Low(x) {
        assert LowWitness(t, s, x, s.Low(x));
        var y :| y in s.onStack && s.Idx(y) == s.Low(x) && Reaches(t.adj, x, y);
        assert y in s'.onStack && s'.Idx(y) == s.Idx(y);
      } else {
        assert u in s'.onStack && s'.Idx(u) == s'.Low(x);
      }
    }
  }

  lemma {:induction false} InsideLowAbove<N(!new)>(t: Search<N>, s: State<N>, s': State<N>)
    requires Valid(t) && LeftInside(t, s, s') && LowComplete(t, s) && s'.work != []
    requires IndexInjective(s) && s.Top().node in s.onStack
    ensures LowAbove(t, s')
  {
    hide LowWitness, Increasing;
    FinishedLooked(t, s);
    var n := |s'.work| - 1;
    forall k: nat, x, y | Above(s', k, x) && y in Succ(t.adj, x) && y in s'.onStack
      ensures s'.Low(s'.work[k].node) <= s'.Idx(y)
    {
      assert s'.work[k] == s.work[k];
      if k < n {
        assert s'.work[k + 1] == s.work[k + 1];
        assert Above(s, k, x);
      } else if s.Idx(x) < s.Idx(s.Top().node) {
        assert Above(s, n, x);
      } else if s.Idx(x) > s.Idx(s.Top().node) {
        assert Above(s, n + 1, x);
      } else {
        assert x == s.Top().node;
        assert y in t.Looked(s.work[n + 1]);
      }
    }
  }

  lemma {:induction false} InsideLowComplete<N(!new)>(t: Search<N>, s: State<N>, s': State<N>)
    requires Valid(t) && LeftInside(t, s, s') && LowComplete(t, s) && s'.work != []
    requires IndexInjective(s) && s.Top().node in s.onStack
    ensures LowComplete(t, s')
  {
    hide LowWitness, Increasing, LowAbove;
    InsideLowAbove(t, s, s');
    forall k, y | 0 <= k < |s'.work| && y in t.Looked(s'.work[k]) && y in s'.onStack
      ensures s'.Low(s'.work[k].node) <= s'.Idx(y)
    {
      assert s'.work[k] == s.work[k];
    }
  }


  lemma {:induction false} ReturnShape<N(!new)>(s: State<N>)
    requires s.work != []
    ensures Returned(s, Return(s))
  {
    hide Min;
  }

  lemma {:induction false} InsideShape<N(!new)>(t: Search<N>, s: State<N>)
    requires StackOk(s) && WorkOk(t, s) && LowSound(t, s)
    requires Finished(t, s) && s.Low(s.Top().node) != s.Idx(s.Top().node)
    ensures LeftInside(t, s, Return(s)) && Return(s).work != []
  {
    ReturnShape(s);
    var k := |s.work| - 1;
    assert LowWitness(t, s, s.work[k].node, s.Low(s.work[k].node)) && s.Low(s.work[k].node) <= s.Idx(s.work[k].node);
    hide StackOk, WorkOk, LowSound, LowWitness, Returned;
    assert Increasing(s) by { WorkIncreasing(t, s); }
    InsideBelow(t, s, Return(s));
  }

  lemma {:induction false} WorkIncreasing<N(!new)>(t: Search<N>, s: State<N>)
    requires WorkOk(t, s)
    ensures Increasing(s)
    ensures s.work != [] ==> s.Top().node in s.onStack
  {
  }

  /** The node below the top, and the lowlink map it is recorded in. */
  lemma {:induction false} BelowTop<N(!new)>(t: Search<N>, s: State<N>)
    requires StackOk(s) && WorkOk(t, s) && |s.work| > 1
    ensures Return(s).Top() == s.work[|s.work| - 2] && Return(s).low.Keys == s.low.Keys
  {
    hide Increasing, Min;
    assert s.work[|s.work| - 2].node in s.onStack;
  }

  lemma {:induction false} InsideKeeps<N(!new)>(t: Search<N>, roots: set<N>, s: State<N>)
    requires Inv(t, roots, s) && Finished(t, s) && s.Low(s.Top().node) != s.Idx(s.Top().node)
    ensures Inv(t, roots, Return(s))
  {
    hide StackOk, WorkOk, LookedOk, DownOk, UpOk, LowSound, LowComplete, ResultOk, Reaches, IndexInjective;
    var s' := Return(s);
    InsideShape(t, s);
    BelowTop(t, s);
    StackInjective(s);
    WorkIncreasing(t, s);
    InsideReach(t, s, s');
    StackOkKept(s, s');
    InsideWork(t, s, s');
    ReturnLooked(t, s, s');
    ReturnDown(t, s, s');
    InsideUp(t, s, s');
    InsideLowSound(t, s, s');
    InsideLowComplete(t, s, s');
  }

  lemma {:induction false} InsideReach<N(!new)>(t: Search<N>, s: State<N>, s': State<N>)
    requires LeftInside(t, s, s') && DownOk(t, s) && s'.work != [] && s.Top().node in s.onStack
    ensures Reaches(t.adj, s'.Top().node, s.Top().node)
  {
    hide Reaches, LowWitness;
    assert s'.Top() == s.work[|s.work| - 2];
  }

  // ---- a node that is its own lowlink: everything from it upwards is a component

  /** The step taken at such a node, whose stack position is p. */
  ghost predicate LeftWhole<N(!new)>(t: Search<N>, s: State<N>, p: nat, s': State<N>) {
    && Finished(t, s) && Returned(s, s')
    && p < |s.stack| && s.stack[p] == s.Top().node
    && s.Low(s.Top().node) == s.Idx(s.Top().node)
    && s'.stack == s.stack[..p]
    && (forall x :: x in s'.onStack <==> x in s.onStack && s.Idx(x) < s.Idx(s.Top().node))
    && (forall x :: x in s.stack[p..] <==> x in s.onStack && s.Idx(x) >= s.Idx(s.Top().node))
    && s'.result == s.result + [Reverse(s.stack[p..])]
  }

  /** The nodes at or above position p of the stack, in terms of their numbers. */
  lemma {:induction false} StackFrom<N(!new)>(s: State<N>, p: nat, x: N)
    requires StackOk(s) && p < |s.stack|
    ensures x in s.stack[p..] <==> x in s.onStack && s.Idx(x) >= s.Idx(s.stack[p])
  {
    hide Elements;
    if x in s.onStack {
      var i :| 0 <= i < |s.stack| && s.stack[i] == x;
      assert i >= p ==> s.stack[p..][i - p] == x;
    }
  }

  lemma {:induction false} ReverseElements<N>(s: seq<N>, x: N)
    ensures x in Reverse(s) <==> x in s
  {
    if x in s {
      var i :| 0 <= i < |s| && s[i] == x;
      assert Reverse(s)[|s| - 1 - i] == x;
    }
  }

  lemma {:induction false} TakeShape<N(!new)>(s: State<N>, p: nat)
    requires StackOk(s) && p < |s.stack|
    ensures forall x :: x in Take(s, p).onStack <==> x in s.onStack && s.Idx(x) < s.Idx(s.stack[p])
  {
    hide StackOk;
    var comp := Reverse(s.stack[p..]);
    forall x ensures x in Take(s, p).onStack <==> x in s.onStack && s.Idx(x) < s.Idx(s.stack[p]) {
      StackFrom(s, p, x);
      ReverseElements(s.stack[p..], x);
      assert x in (set y | y in comp) <==> x in comp;
    }
  }

  lemma {:induction false} WholeShape<N(!new)>(t: Search<N>, s: State<N>, p: nat)
    requires StackOk(s) && Finished(t, s) && s.Low(s.Top().node) == s.Idx(s.Top().node)
    requires p < |s.stack| && s.stack[p] == s.Top().node
    ensures LeftWhole(t, s, p, Return(Take(s, p)))
  {
    hide StackOk;
    TakeShape(s, p);
    forall x ensures x in s.stack[p..] <==> x in s.onStack && s.Idx(x) >= s.Idx(s.Top().node) {
      StackFrom(s, p, x);
    }
  }

  /** No edge leaves the new component except into components found before. */
  lemma {:induction false} WholeClosed<N(!new)>(t: Search<N>, s: State<N>, p: nat, s': State<N>, x: N, y: N)
    requires Valid(t) && LeftWhole(t, s, p, s') && LookedOk(t, s) && LowComplete(t, s) && IndexInjective(s)
    requires s.index.Keys == s.onStack + Elements(s.result) && WorkOk(t, s)
    requires x in s.stack[p..] && y in Succ(t.adj, x)
    ensures y in s.stack[p..] || y in Elements(s.result)
  {
    var v, n := s.Top().node, |s.work| - 1;
    assert s.work[n] == s.Top();
    WorkIncreasing(t, s);
    hide Elements, Returned, WorkOk, Valid;
    if x == v {
      FinishedLooked(t, s);
      TopEdge(t, s, n, y);
    } else {
      NotGray(t, s, x);
      AboveTopEdge(t, s, n, x, y);
    }
    hide LookedOk, LowComplete, IndexInjective;
  }

  /** An edge of the top node, which has been looked at. */
  lemma {:induction false} TopEdge<N(!new)>(t: Search<N>, s: State<N>, n: nat, y: N)
    requires LookedOk(t, s) && LowComplete(t, s) && n < |s.work| && y in t.Looked(s.work[n])
    ensures y in s.index && (y in s.onStack ==> s.Low(s.work[n].node) <= s.Idx(y))
  {
    hide LowAbove;
  }

  /** An edge of a node above the top node. */
  lemma {:induction false} AboveTopEdge<N(!new)>(t: Search<N>, s: State<N>, n: nat, x: N, y: N)
    requires LookedOk(t, s) && LowComplete(t, s) && n == |s.work| - 1 && x in s.onStack && x in s.index
    requires x !in Gray(s.work) && s.Idx(s.work[n].node) < s.Idx(x) && y in Succ(t.adj, x)
    ensures y in s.index && (y in s.onStack ==> s.Low(s.work[n].node) <= s.Idx(y))
  {
    hide LowLooked;
    assert Above(s, n, x);
  }

  lemma {:induction false} NotGray<N(!new)>(t: Search<N>, s: State<N>, x: N)
    requires WorkOk(t, s) && IndexInjective(s) && s.work != [] && x in s.onStack
    requires x != s.Top().node && s.Idx(x) >= s.Idx(s.Top().node)
    ensures x !in Gray(s.work) && s.Idx(x) > s.Idx(s.Top().node)
  {
    BelowTopNode(t, s);
    assert s.Top().node in s.onStack;
    hide WorkOk;
    assert forall k :: 0 <= k < |s.work| ==> s.work[k].node != x;
  }

  lemma {:induction false} WholeToTop<N(!new)>(t: Search<N>, s: State<N>, x: N)
    requires s.work != [] && WorkOk(t, s) && DownOk(t, s) && Anchored(t, s, x)
    ensures Reaches(t.adj, x, s.Top().node)
  {
    var v := s.Top().node;
    var k :| 0 <= k < |s.work| && s.Idx(s.work[k].node) <= s.Idx(x) && Reaches(t.adj, x, s.work[k].node);
    hide Anchored;
    WorkIncreasing(t, s);
    assert s.Idx(s.work[k].node) <= s.Idx(v);
    ReachesTrans(t.adj, x, s.work[k].node, v);
  }

  lemma {:induction false} WholeConnected<N(!new)>(t: Search<N>, s: State<N>, p: nat, s': State<N>, x: N, y: N)
    requires LeftWhole(t, s, p, s') && WorkOk(t, s) && DownOk(t, s) && UpOk(t, s)
    requires x in s.stack[p..] && y in s.stack[p..]
    ensures Reaches(t.adj, x, y)
  {
    hide Anchored, Reaches, Returned;
    var v := s.Top().node;
    WholeToTop(t, s, x);
    assert s.work[|s.work| - 1].node == v;
    ReachesTrans(t.adj, x, v, y);
  }

  /** Taking in the new component keeps the set of finished nodes closed. */
  lemma {:induction false} WholeKeepsClosed<N(!new)>(t: Search<N>, s: State<N>, p: nat, s': State<N>)
    requires Valid(t) && LeftWhole(t, s, p, s') && LookedOk(t, s) && LowComplete(t, s) && IndexInjective(s)
    requires s.index.Keys == s.onStack + Elements(s.result) && WorkOk(t, s)
    requires Closed(t.adj, Elements(s.result)) && p <= |s.stack|
    ensures Closed(t.adj, Elements(s.result) + (set x | x in s.stack[p..]))
  {
    hide LookedOk, LowComplete, WorkOk, LeftWhole, IndexInjective, Elements, Valid;
    var all := Elements(s.result) + (set x | x in s.stack[p..]);
    forall x, y | x in all && y in Succ(t.adj, x) ensures y in all {
      if x in s.stack[p..] {
        WholeClosed(t, s, p, s', x, y);
      }
    }
  }

  lemma {:induction false} WholeMaximal<N(!new)>(t: Search<N>, s: State<N>, p: nat, x: N, y: N)
    requires p <= |s.stack|
    requires Closed(t.adj, Elements(s.result) + (set z | z in s.stack[p..])) && Closed(t.adj, Elements(s.result))
    requires x in s.stack[p..] && x !in Elements(s.result) && Connected(t.adj, x, y)
    ensures y in s.stack[p..]
  {
    ClosedReach(t.adj, Elements(s.result) + (set z | z in s.stack[p..]), x, y);
    if y in Elements(s.result) {
      ClosedReach(t.adj, Elements(s.result), y, x);
    }
  }

  lemma {:induction false} WholeDistinct<N(!new)>(s: State<N>, p: nat)
    requires StackOrder(s) && p < |s.stack|
    ensures forall i, j :: 0 <= i < j < |s.stack| - p ==> Reverse(s.stack[p..])[i] != Reverse(s.stack[p..])[j]
  {
    var top := s.stack[p..];
    forall i, j | 0 <= i < j < |top| ensures Reverse(top)[i] != Reverse(top)[j] {
      assert s.Idx(top[|top| - 1 - j]) < s.Idx(top[|top| - 1 - i]);
    }
  }

  lemma {:induction false} WholeScc<N(!new)>(t: Search<N>, s: State<N>, p: nat, s': State<N>)
    requires LeftWhole(t, s, p, s') && StackOk(s) && WorkOk(t, s) && DownOk(t, s) && UpOk(t, s)
    requires Closed(t.adj, Elements(s.result) + (set z | z in s.stack[p..])) && Closed(t.adj, Elements(s.result))
    ensures IsScc(t.adj, Reverse(s.stack[p..]))
  {
    hide StackOk, StackSets, DownOk, UpOk, WorkOk, Elements, Connected, Closed, LeftWhole;
    NewComponentNotEmpty(t, s, p, s');
    var top := s.stack[p..];
    StackParts(s);
    NewComponentApart(t, s, p, s');
    WholeDistinct(s, p);
    forall x, y | x in Reverse(top) ensures y in Reverse(top) <==> Connected(t.adj, x, y) {
      ReverseElements(top, x);
      ReverseElements(top, y);
      if y in top {
        BothWays(t, s, p, s', x, y);
      }
      if Connected(t.adj, x, y) {
        WholeMaximal(t, s, p, x, y);
      }
    }
  }

  lemma {:induction false} NewComponentNotEmpty<N(!new)>(t: Search<N>, s: State<N>, p: nat, s': State<N>)
    requires LeftWhole(t, s, p, s')
    ensures p < |s.stack| && Reverse(s.stack[p..]) != []
  {
  }

  lemma {:induction false} BothWays<N(!new)>(t: Search<N>, s: State<N>, p: nat, s': State<N>, x: N, y: N)
    requires LeftWhole(t, s, p, s') && WorkOk(t, s) && DownOk(t, s) && UpOk(t, s)
    requires x in s.stack[p..] && y in s.stack[p..]
    ensures Connected(t.adj, x, y)
  {
    hide Reaches, WorkOk, DownOk, UpOk, LeftWhole;
    WholeConnected(t, s, p, s', x, y);
    WholeConnected(t, s, p, s', y, x);
  }

  lemma {:induction false} ElementsAppend<N(!new)>(comps: seq<seq<N>>, comp: seq<N>)
    ensures Elements(comps + [comp]) == Elements(comps) + (set x | x in comp)
  {
    forall x ensures x in Elements(comps + [comp]) <==> x in Elements(comps) || x in comp {
      if x in Elements(comps) {
        var c :| c in comps && x in c;
        assert c in comps + [comp];
      }
      assert comp in comps + [comp];
    }
  }

  lemma {:induction false} ResultAppend<N(!new)>(adj: map<N, set<N>>, result: seq<seq<N>>, comp: seq<N>)
    requires ResultOk(adj, result) && IsScc(adj, comp)
    requires Closed(adj, Elements(result) + (set x | x in comp))
    requires forall x :: x in comp ==> x !in Elements(result)
    ensures ResultOk(adj, result + [comp])
  {
    hide IsScc, Closed;
    var result' := result + [comp];
    ElementsAppend(result, comp);
    assert result'[..|result'|] == result';
    forall i | 0 <= i <= |result'| ensures Closed(adj, Elements(result'[..i])) {
      if i < |result'| {
        assert result'[..i] == result[..i];
      }
    }
  }

  lemma {:induction false} StackBelow<N(!new)>(s: State<N>, p: nat, x: N)
    requires StackOrder(s) && p < |s.stack|
    ensures x in s.stack[..p] <==> x in s.onStack && s.Idx(x) < s.Idx(s.stack[p])
  {
    hide Elements;
    if x in s.onStack {
      var i :| 0 <= i < |s.stack| && s.stack[i] == x;
      assert i < p ==> s.stack[..p][i] == x;
    }
  }

  lemma {:induction false} WholeElements<N(!new)>(t: Search<N>, s: State<N>, p: nat, s': State<N>, x: N)
    requires LeftWhole(t, s, p, s')
    ensures x in Elements(s'.result) <==>
      x in Elements(s.result) || (x in s.onStack && s.Idx(x) >= s.Idx(s.Top().node))
  {
    hide Returned, Elements;
    var top := s.stack[p..];
    ElementsAppend(s.result, Reverse(top));
    ReverseElements(top, x);
  }

  lemma {:induction false} WholeSets<N(!new)>(t: Search<N>, s: State<N>, p: nat, s': State<N>)
    requires LeftWhole(t, s, p, s') && StackSets(s) && s'.low.Keys == s.low.Keys
    ensures StackSets(s')
  {
    hide Elements;
    WholeIndex(t, s, p, s');
    forall x ensures x in Elements(s'.result) <==>
      x in Elements(s.result) || (x in s.onStack && s.Idx(x) >= s.Idx(s.Top().node))
    {
      WholeElements(t, s, p, s', x);
    }
    assert forall x :: x in s'.onStack <==> x in s.onStack && s.Idx(x) < s.Idx(s.Top().node);
    hide LeftWhole;
    assert s'.index.Keys == s'.onStack + Elements(s'.result);
  }

  lemma {:induction false} BelowOrder<N(!new)>(s: State<N>, p: nat, s': State<N>)
    requires StackOrder(s) && p < |s.stack| && s'.stack == s.stack[..p] && s'.index == s.index && s'.counter ==
      s.counter
    requires forall x :: x in s'.onStack <==> x in s.onStack && s.Idx(x) < s.Idx(s.stack[p])
    ensures StackOrder(s')
  {
    assert forall x :: s'.Idx(x) == s.Idx(x);
    forall x ensures x in s'.stack <==> x in s'.onStack {
      StackBelow(s, p, x);
    }
  }

  lemma {:induction false} WholeOrder<N(!new)>(t: Search<N>, s: State<N>, p: nat, s': State<N>)
    requires LeftWhole(t, s, p, s') && StackOk(s)
    ensures StackOrder(s')
  {
    hide StackSets, StackOrder, Returned;
    WholeIndex(t, s, p, s');
    BelowOrder(s, p, s');
  }

  lemma {:induction false} WholeStack<N(!new)>(t: Search<N>, s: State<N>, p: nat, s': State<N>)
    requires LeftWhole(t, s, p, s') && StackOk(s) && s'.low.Keys == s.low.Keys
    ensures StackOk(s')
  {
    hide LeftWhole, StackOrder, StackSets;
    WholeSets(t, s, p, s');
    WholeOrder(t, s, p, s');
  }

  lemma {:induction false} WholeIndex<N(!new)>(t: Search<N>, s: State<N>, p: nat, s': State<N>)
    requires LeftWhole(t, s, p, s')
    ensures s'.index == s.index && s'.counter == s.counter && s'.work == s.work[..|s.work| - 1]
    ensures forall x :: s'.Idx(x) == s.Idx(x)
  {
  }

  /** What is left of the stack is empty exactly when the work stack is. */
  lemma {:induction false} WholeBase<N(!new)>(t: Search<N>, s: State<N>, p: nat, s': State<N>)
    requires LeftWhole(t, s, p, s') && StackOk(s) && WorkOk(t, s)
    ensures WorkBase(s')
  {
    hide Returned, StackSets, WorkFrames;
    WholeIndex(t, s, p, s');
    assert p > 0 ==> s.Idx(s.stack[0]) < s.Idx(s.stack[p]);
    assert s.work[0].node == s.stack[0];
    assert |s.work| > 1 ==> s.Idx(s.work[0].node) < s.Idx(s.work[|s.work| - 1].node);
  }

  lemma {:induction false} WholeWork<N(!new)>(t: Search<N>, s: State<N>, p: nat, s': State<N>)
    requires LeftWhole(t, s, p, s') && StackOk(s) && WorkOk(t, s)
    ensures WorkOk(t, s')
  {
    WholeBase(t, s, p, s');
    WholeIndex(t, s, p, s');
    FramesKept(t, s, s');
    BelowTopNode(t, s);
    hide StackOk, WorkBase, Returned;
  }

  /** The frames under the top one are of nodes numbered before its node. */
  lemma {:induction false} BelowTopNode<N(!new)>(t: Search<N>, s: State<N>)
    requires WorkOk(t, s) && s.work != []
    ensures forall k :: 0 <= k < |s.work| - 1 ==> s.Idx(s.work[k].node) < s.Idx(s.Top().node)
  {
  }

  lemma {:induction false} WholeAnchored<N(!new)>(t: Search<N>, s: State<N>, p: nat, s': State<N>, x: N)
    requires LeftWhole(t, s, p, s') && Anchored(t, s, x) && s.Idx(x) < s.Idx(s.Top().node)
    ensures Anchored(t, s', x)
  {
    hide Reaches;
    var k :| 0 <= k < |s.work| && s.Idx(s.work[k].node) <= s.Idx(x) && Reaches(t.adj, x, s.work[k].node);
    assert s'.work[k] == s.work[k];
  }

  lemma {:induction false} WholeUp<N(!new)>(t: Search<N>, s: State<N>, p: nat, s': State<N>)
    requires LeftWhole(t, s, p, s') && UpOk(t, s)
    ensures UpOk(t, s')
  {
    hide Anchored, Returned;
    forall x | x in s'.onStack ensures Anchored(t, s', x) {
      WholeAnchored(t, s, p, s', x);
    }
  }

  lemma {:induction false} WholeLowSame<N(!new)>(t: Search<N>, s: State<N>, p: nat, s': State<N>, k: nat)
    requires LeftWhole(t, s, p, s') && Increasing(s) && k < |s'.work|
    requires forall j :: 0 <= j < |s.work| ==> s.Low(s.work[j].node) <= s.Idx(s.work[j].node)
    ensures s'.work[k] == s.work[k] && s.Idx(s.work[k].node) < s.Idx(s.Top().node)
    ensures s'.Low(s'.work[k].node) == s.Low(s.work[k].node)
  {
    assert s.work[|s.work| - 1] == s.Top();
  }

  lemma {:induction false} WholeLowSound<N(!new)>(t: Search<N>, s: State<N>, p: nat, s': State<N>)
    requires LeftWhole(t, s, p, s') && LowSound(t, s) && WorkOk(t, s)
    ensures LowSound(t, s')
  {
    WholeIndex(t, s, p, s');
    WorkIncreasing(t, s);
    hide Reaches, WorkOk, Increasing, Returned;
    forall k: nat | k < |s'.work|
      ensures s'.Low(s'.work[k].node) <= s'.Idx(s'.work[k].node)
      ensures LowWitness(t, s', s'.work[k].node, s'.Low(s'.work[k].node))
    {
      WholeLowSame(t, s, p, s', k);
      var x := s.work[k].node;
      var u :| u in s.onStack && s.Idx(u) == s.Low(x) && Reaches(t.adj, x, u);
      assert u in s'.onStack && s'.Idx(u) == s'.Low(x);
    }
  }

  lemma {:induction false} WholeAbove<N(!new)>(t: Search<N>, s: State<N>, p: nat, s': State<N>, k: nat, x: N)
    requires LeftWhole(t, s, p, s') && LowSound(t, s) && Increasing(s) && Above(s', k, x)
    ensures Above(s, k, x)
  {
    hide LowWitness, Reaches;
    WholeIndex(t, s, p, s');
    WholeLowSame(t, s, p, s', k);
    if k + 1 < |s'.work| {
      WholeLowSame(t, s, p, s', k + 1);
    }
  }

  lemma {:induction false} WholeLowAbove<N(!new)>(t: Search<N>, s: State<N>, p: nat, s': State<N>)
    requires LeftWhole(t, s, p, s') && LowAbove(t, s) && LowSound(t, s) && Increasing(s)
    ensures LowAbove(t, s')
  {
    hide LowSound, Increasing, Returned, Above;
    WholeIndex(t, s, p, s');
    forall k: nat, x, y | Above(s', k, x) && y in Succ(t.adj, x) && y in s'.onStack
      ensures k < |s'.work| && s'.Low(s'.work[k].node) <= s'.Idx(y)
    {
      WholeAbove(t, s, p, s', k, x);
      AboveInWork(s', k, x);
      LowsSound(t, s);
      WholeLowSame(t, s, p, s', k);
    }
  }

  lemma {:induction false} LowsSound<N(!new)>(t: Search<N>, s: State<N>)
    requires LowSound(t, s)
    ensures forall j :: 0 <= j < |s.work| ==> s.Low(s.work[j].node) <= s.Idx(s.work[j].node)
  {
    hide LowWitness;
  }

  lemma {:induction false} WholeLowLooked<N(!new)>(t: Search<N>, s: State<N>, p: nat, s': State<N>)
    requires LeftWhole(t, s, p, s') && LowLooked(t, s) && LowSound(t, s) && Increasing(s)
    ensures LowLooked(t, s')
  {
    hide LowSound, Increasing, Returned;
    WholeIndex(t, s, p, s');
    LowsSound(t, s);
    forall k: nat, y | k < |s'.work| && y in t.Looked(s'.work[k]) && y in s'.onStack
      ensures s'.Low(s'.work[k].node) <= s'.Idx(y)
    {
      WholeLowSame(t, s, p, s', k);
    }
  }

  lemma {:induction false} WholeLowComplete<N(!new)>(t: Search<N>, s: State<N>, p: nat, s': State<N>)
    requires LeftWhole(t, s, p, s') && LowComplete(t, s) && LowSound(t, s) && Increasing(s)
    ensures LowComplete(t, s')
  {
    hide LeftWhole, LowAbove, LowLooked, LowSound, Increasing;
    WholeLowAbove(t, s, p, s');
    WholeLowLooked(t, s, p, s');
  }

  lemma {:induction false} AboveInWork<N(!new)>(s: State<N>, k: nat, x: N)
    requires Above(s, k, x)
    ensures k < |s.work|
  {
  }

  lemma {:induction false} WholeResult<N(!new)>(t: Search<N>, s: State<N>, p: nat, s': State<N>)
    requires LeftWhole(t, s, p, s') && StackOk(s) && WorkOk(t, s) && LookedOk(t, s) && Valid(t)
    requires DownOk(t, s) && UpOk(t, s) && LowComplete(t, s) && ResultOk(t.adj, s.result)
    ensures ResultOk(t.adj, s'.result)
  {
    hide StackOk, StackSets, WorkOk, LookedOk, DownOk, UpOk, LowComplete, IsScc, Closed, IndexInjective, LeftWhole,
      Valid, Elements, ResultOk, Reverse;
    NewComponentNotEmpty(t, s, p, s');
    var comp := Reverse(s.stack[p..]);
    StackInjective(s);
    StackParts(s);
    NewComponentApart(t, s, p, s');
    ResultClosed(t.adj, s.result);
    WholeKeepsClosed(t, s, p, s');
    WholeScc(t, s, p, s');
    ResultAppend(t.adj, s.result, comp);
  }

  lemma {:induction false} StackParts<N(!new)>(s: State<N>)
    requires StackOk(s)
    ensures StackOrder(s) && StackSets(s) && s.index.Keys == s.onStack + Elements(s.result)
  {
    hide Elements;
  }

  lemma {:induction false} ResultClosed<N(!new)>(adj: map<N, set<N>>, result: seq<seq<N>>)
    requires ResultOk(adj, result)
    ensures Closed(adj, Elements(result))
  {
    assert result[..|result|] == result;
    hide Closed, Elements;
  }

  lemma {:induction false} NewComponentApart<N(!new)>(t: Search<N>, s: State<N>, p: nat, s': State<N>)
    requires LeftWhole(t, s, p, s') && StackSets(s)
    ensures s'.result == s.result + [Reverse(s.stack[p..])]
    ensures p <= |s.stack| && (set x | x in Reverse(s.stack[p..])) == (set x | x in s.stack[p..])
    ensures forall x :: x in Reverse(s.stack[p..]) ==> x !in Elements(s.result)
  {
    hide Elements, Returned;
    var top := s.stack[p..];
    forall x ensures x in Reverse(top) <==> x in top { ReverseElements(top, x); }
    assert forall x :: x in top ==> x in s.onStack;
  }

  lemma {:induction false} WholeKeeps<N(!new)>(t: Search<N>, roots: set<N>, s: State<N>, p: nat)
    requires Inv(t, roots, s) && Finished(t, s) && s.Low(s.Top().node) == s.Idx(s.Top().node)
    requires p < |s.stack| && s.stack[p] == s.Top().node
    ensures Inv(t, roots, Return(Take(s, p)))
  {
    hide StackOk, WorkOk, LookedOk, DownOk, UpOk, LowSound, LowComplete, ResultOk;
    var s' := Return(Take(s, p));
    WholeShape(t, s, p);
    if |s.work| > 1 {
      BelowTop(t, s);
    }
    WholeStack(t, s, p, s');
    WholeWork(t, s, p, s');
    WholeIndex(t, s, p, s');
    ReturnLooked(t, s, s');
    ReturnDown(t, s, s');
    WorkIncreasing(t, s);
    WholeUp(t, s, p, s');
    WholeLowSound(t, s, p, s');
    WholeLowComplete(t, s, p, s');
    WholeResult(t, s, p, s');
  }

  // ---------------------------------------------------------------- the search

  /**
   What the search promises: its lists are exactly the strongly connected components of what the
   roots reach, no node is in two of them, and every edge leads into the same list or an earlier one.
   */
  ghost predicate IsDecomposition<N(!new)>(adj: map<N, set<N>>, roots: set<N>, result: seq<seq<N>>) {
    && (forall x :: x in Elements(result) <==> FromRoot(adj, roots, x))
    && (forall i :: 0 <= i < |result| ==> IsScc(adj, result[i]))
    && (forall i, j, x :: 0 <= i < j < |result| && x in result[i] ==> x !in result[j])
    && (forall i, x, w :: 0 <= i < |result| && x in result[i] && w in Succ(adj, x) ==>
          w in Elements(result[..i + 1]))
  }

  /** Every node that can ever be met. */
  ghost function Universe<N>(adj: map<N, set<N>>, nodes: seq<N>): set<N> {
    (set x | x in nodes) + (set v, w | v in adj && w in adj[v] :: w)
  }

  lemma {:induction false} InitialInv<N(!new)>(t: Search<N>, roots: set<N>)
    requires Valid(t)
    ensures Inv(t, roots, State(map[], map[], {}, [], [], [], 0))
  {
  }

  lemma {:induction false} InvFacts<N(!new)>(t: Search<N>, roots: set<N>, s: State<N>)
    requires Inv(t, roots, s) && s.work != []
    ensures s.Top().node in s.low && s.Top().node in s.index
    ensures s.Top().pos <= |t.Next(s.Top().node)|
    ensures exists p :: 0 <= p < |s.stack| && s.stack[p] == s.Top().node
    ensures forall x :: x in s.onStack ==> x in s.index
    ensures |s.work| > 1 ==> s.work[|s.work| - 2].node in s.low
  {
    hide LookedOk, DownOk, UpOk, LowSound, LowComplete, ResultOk, FromRoot, Elements;
    assert s.work[|s.work| - 1].node in s.stack;
  }

  lemma {:induction false} InvStackDistinct<N(!new)>(t: Search<N>, roots: set<N>, s: State<N>, p: nat, q: nat)
    requires Inv(t, roots, s) && p < q < |s.stack|
    ensures s.stack[p] != s.stack[q]
  {
    hide WorkOk, LookedOk, DownOk, UpOk, LowSound, LowComplete, ResultOk, FromRoot, Elements;
  }

  lemma {:induction false} AllMet<N(!new)>(t: Search<N>, roots: set<N>, s: State<N>)
    requires Inv(t, roots, s) && s.work == [] && roots <= s.index.Keys
    ensures IsDecomposition(t.adj, roots, s.result)
  {
    hide LookedOk, DownOk, UpOk, LowSound, LowComplete, IsScc, Reaches;
    assert s.onStack == {};
    assert s.result[..|s.result|] == s.result;
    forall x | FromRoot(t.adj, roots, x) ensures x in Elements(s.result) {
      var r :| r in roots && Reaches(t.adj, r, x);
      ClosedReach(t.adj, Elements(s.result), r, x);
    }
    forall i, x, w | 0 <= i < |s.result| && x in s.result[i] && w in Succ(t.adj, x)
      ensures w in Elements(s.result[..i + 1])
    {
      assert s.result[i] in s.result[..i + 1];
      assert x in Elements(s.result[..i + 1]);
    }
  }

  /** Popping down to the position of v collects the stack from there upwards. */
  lemma {:induction false} PopOne<N>(stack: seq<N>, n: nat)
    requires 0 < n <= |stack|
    ensures Reverse(stack[n..]) + [stack[n - 1]] == Reverse(stack[n - 1..])
  {
  }

  /** The inner loop that empties the stack down to v. */
  method PopComponent<N(==)>(stack0: seq<N>, onStack0: set<N>, v: N, ghost p: nat)
    returns (stack: seq<N>, onStack: set<N>, comp: seq<N>)
    requires p < |stack0| && stack0[p] == v
    requires forall q :: p < q < |stack0| ==> stack0[q] != v
    ensures stack == stack0[..p]
    ensures comp == Reverse(stack0[p..])
    ensures onStack == onStack0 - (set x | x in comp)
  {
    stack, onStack, comp := stack0, onStack0, [];
    var done := false;
    while !done
      invariant p <= |stack| <= |stack0| && stack == stack0[..|stack|]
      invariant done <==> |stack| == p
      invariant comp == Reverse(stack0[|stack|..])
      invariant onStack == onStack0 - (set x | x in comp)
      decreases |stack|
    {
      var w := stack[|stack| - 1];
      PopOne(stack0, |stack|);
      stack := stack[..|stack| - 1];
      onStack := onStack - {w};
      comp := comp + [w];
      done := w == v;
    }
  }

  /** Runs the top node's iterator until it yields a new node, which is pushed, or is used up. */
  method Scan<N(==, !new)>(t: Search<N>, ghost roots: set<N>, ghost all: set<N>, s0: State<N>)
    returns (s: State<N>, pushed: bool)
    requires Inv(t, roots, s0) && s0.work != [] && s0.index.Keys <= all
    requires Covers(t.adj, all)
    ensures Inv(t, roots, s) && s0.index.Keys <= s.index.Keys <= all
    ensures if pushed then s.index.Keys != s0.index.Keys
            else s.index.Keys == s0.index.Keys && |s.work| == |s0.work| && Finished(t, s)
  {
    hide Inv, Valid, Covers;
    s := s0;
    pushed := false;
    var v := s.Top().node;
    var it := t.Next(v);
    InvFacts(t, roots, s);
    while s.Top().pos < |it|
      invariant Inv(t, roots, s) && s.index.Keys == s0.index.Keys && |s.work| == |s0.work|
      invariant s.Top().node == v && s.Top().pos <= |it|
      decreases |it| - s.Top().pos
    {
      var w := it[s.Top().pos];
      InvFacts(t, roots, s);
      if w !in s.index {
        NextCovered(t, roots, all, s, w);
        PushKeeps(t, roots, s, w);
        s, pushed := Push(s, w), true;
        return;
      }
      AdvanceKeeps(t, roots, s, w);
      s := Advance(s, w);
    }
  }

  ghost predicate Covers<N(!new)>(adj: map<N, set<N>>, all: set<N>) {
    forall v, w :: w in Succ(adj, v) ==> w in all
  }

  lemma {:induction false} UniverseCovers<N(!new)>(adj: map<N, set<N>>, nodes: seq<N>)
    ensures Covers(adj, Universe(adj, nodes))
    ensures forall i :: 0 <= i < |nodes| ==> nodes[i] in Universe(adj, nodes)
  {
  }

  lemma {:induction false} NextCovered<N(!new)>(t: Search<N>, roots: set<N>, all: set<N>, s: State<N>, w: N)
    requires Inv(t, roots, s) && AtNext(t, s, w) && Covers(t.adj, all)
    ensures w in all
  {
    hide StackOk, WorkOk, LookedOk, DownOk, UpOk, LowSound, LowComplete, ResultOk, FromRoots;
    assert w in Succ(t.adj, s.Top().node);
  }

  /** Leaves a finished node, first splitting off its component if the node is its own lowlink. */
  method Leave<N(==, !new)>(t: Search<N>, ghost roots: set<N>, s0: State<N>) returns (s: State<N>)
    requires Inv(t, roots, s0) && Finished(t, s0)
    ensures Inv(t, roots, s) && s.index == s0.index && |s.work| == |s0.work| - 1
  {
    hide Inv, Valid;
    s := s0;
    var v := s.Top().node;
    InvFacts(t, roots, s);
    if s.low[v] == s.index[v] {
      ghost var p :| 0 <= p < |s.stack| && s.stack[p] == v;
      forall q | p < q < |s.stack| ensures s.stack[q] != v {
        InvStackDistinct(t, roots, s, p, q);
      }
      var stack, onStack, comp := PopComponent(s.stack, s.onStack, v, p);
      WholeKeeps(t, roots, s, p);
      s := s.(stack := stack, onStack := onStack, result := s.result + [comp]);
    } else {
      InsideKeeps(t, roots, s);
    }
    s := Return(s);
  }

  method Sccs<N(==, !new)>(nodes: seq<N>, adj: map<N, set<N>>, order: set<N> -> seq<N>)
    returns (result: seq<seq<N>>)
    requires Enumerates(order)
    ensures IsDecomposition(adj, (set x | x in nodes), result)
  {
    hide Inv, IsDecomposition, Valid, Enumerates, Finished, Succ, Covers, Universe;
    var t := Search(adj, order);
    var s: State<N> := State(map[], map[], {}, [], [], [], 0);
    ghost var roots := set x | x in nodes;
    ghost var all := Universe(adj, nodes);
    OrderValid(t);
    UniverseCovers(adj, nodes);
    InitialInv(t, roots);

    for i := 0 to |nodes|
      invariant Inv(t, roots, s) && s.work == [] && s.index.Keys <= all
      invariant forall j :: 0 <= j < i ==> nodes[j] in s.index
    {
      if nodes[i] in s.index {
        continue;
      }
      PushKeeps(t, roots, s, nodes[i]);
      s := Push(s, nodes[i]);
      ghost var met := s.index.Keys;
      while s.work != []
        invariant Inv(t, roots, s) && met <= s.index.Keys <= all
        decreases |all - s.index.Keys|, |s.work|
      {
        ghost var before := s;
        var pushed;
        s, pushed := Scan(t, roots, all, s);
        if pushed {
          SmallerRest(all, before.index.Keys, s.index.Keys);
          continue;
        }
        s := Leave(t, roots, s);
      }
    }
    AllMet(t, roots, s);
    result := s.result;
  }

  lemma {:induction false} SmallerRest<N>(all: set<N>, a: set<N>, b: set<N>)
    requires a < b <= all
    ensures |all - b| < |all - a|
  {
    var x :| x in b && x !in a;
    assert all - b <= (all - a) - {x};
    SubsetSize(all - b, (all - a) - {x});
  }

  lemma {:induction false} OrderValid<N(!new)>(t: Search<N>)
    requires Enumerates(t.order)
    ensures Valid(t)
  {
  }
}
