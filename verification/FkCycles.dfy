/**
 The circular foreign-key report of backend/app/spec/fk_cycles.py: from the rows of a snapshot to the
 list of findings, and what an empty list of circular dependencies means for loading the tables.
 */
module FkCycles {
  import opened Graphs
  import opened Lists
  import opened Orders
  import opened Tarjan

  datatype Relation = Relation(oid: int, schemaName: string, relationName: string)

  datatype FkEdge = FkEdge(childOid: int, parentOid: int)

  datatype Snapshot = Snapshot(relations: seq<Relation>, fkEdges: seq<FkEdge>)

  datatype Category = CircularDependency | SelfReference

  datatype Item = Item(category: Category, tables: seq<string>)

  datatype Report = Report(items: seq<Item>, circularDependencies: nat, selfReferences: nat, total: nat)

  function QName(rel: Relation): string {
    rel.schemaName + "." + rel.relationName
  }

  /** A later row with the same oid replaces an earlier one. */
  function RelByOid(relations: seq<Relation>): map<int, Relation> {
    if relations == [] then map[]
    else
      var last := relations[|relations| - 1];
      RelByOid(relations[..|relations| - 1])[last.oid := last]
  }

  /** The foreign keys between known tables, as pairs of a referencing and a referenced table. */
  function Refs(byOid: map<int, Relation>, edges: seq<FkEdge>): set<(string, string)> {
    if edges == [] then {}
    else
      var e := edges[|edges| - 1];
      var rest := Refs(byOid, edges[..|edges| - 1]);
      if e.childOid in byOid && e.parentOid in byOid
      then rest + {(QName(byOid[e.childOid]), QName(byOid[e.parentOid]))} else rest
  }

  /** The row of a relation that counts: the last one with its oid. */
  ghost predicate Counts(relations: seq<Relation>, i: nat, oid: int) {
    i < |relations| && relations[i].oid == oid && forall j :: i < j < |relations| ==> relations[j].oid != oid
  }

  /** Some edge leads from a table of the one name to a table of the other. */
  ghost predicate Refers(s: Snapshot, child: string, parent: string) {
    exists e, i: nat, j: nat :: e in s.fkEdges && Leads(s.relations, e, i, child, j, parent)
  }

  /** The edge leads from the one row, with its name, to the other. */
  ghost predicate Leads(relations: seq<Relation>, e: FkEdge, i: nat, child: string, j: nat, parent: string) {
    && Counts(relations, i, e.childOid) && child == relations[i].schemaName + "." + relations[i].relationName
    && Counts(relations, j, e.parentOid) && parent == relations[j].schemaName + "." + relations[j].relationName
  }

  function References(s: Snapshot): set<(string, string)> {
    Refs(RelByOid(s.relations), s.fkEdges)
  }

  lemma {:induction false} RelByOidCounts(relations: seq<Relation>, oid: int) returns (i: nat)
    ensures oid in RelByOid(relations) ==> Counts(relations, i, oid) && relations[i] == RelByOid(relations)[oid]
    ensures oid !in RelByOid(relations) ==> forall k: nat :: !Counts(relations, k, oid)
  {
    i := 0;
    if relations != [] {
      var n := |relations| - 1;
      if relations[n].oid == oid {
        i := n;
      } else {
        i := RelByOidCounts(relations[..n], oid);
        assert forall k: nat :: Counts(relations, k, oid) ==> Counts(relations[..n], k, oid);
      }
    }
  }

  lemma {:induction false} RefsIff(byOid: map<int, Relation>, edges: seq<FkEdge>, child: string, parent: string)
    ensures (child, parent) in Refs(byOid, edges) <==>
      exists e :: e in edges && e.childOid in byOid && e.parentOid in byOid
        && child == QName(byOid[e.childOid]) && parent == QName(byOid[e.parentOid])
  {
    hide QName;
    if edges != [] {
      var n := |edges| - 1;
      RefsIff(byOid, edges[..n], child, parent);
      assert edges == edges[..n] + [edges[n]];
    }
  }

  /** The references are those of the edges whose two ends are known, with the names of the rows that count. */
  lemma {:induction false} ReferencesIff(s: Snapshot, child: string, parent: string)
    ensures (child, parent) in References(s) <==> Refers(s, child, parent)
  {
    hide Refs, RelByOid, Counts, QName, Leads;
    var byOid := RelByOid(s.relations);
    RefsIff(byOid, s.fkEdges, child, parent);
    if (child, parent) in References(s) {
      var e :| e in s.fkEdges && e.childOid in byOid && e.parentOid in byOid
        && child == QName(byOid[e.childOid]) && parent == QName(byOid[e.parentOid]);
      LeadsIff(s.relations, e, child, parent);
    }
    if Refers(s, child, parent) {
      var e, i: nat, j: nat :| e in s.fkEdges && Leads(s.relations, e, i, child, j, parent);
      LeadsIff(s.relations, e, child, parent);
    }
  }

  lemma {:induction false} LeadsIff(relations: seq<Relation>, e: FkEdge, child: string, parent: string)
    ensures var byOid := RelByOid(relations);
      (exists i: nat, j: nat :: Leads(relations, e, i, child, j, parent)) <==>
      e.childOid in byOid && e.parentOid in byOid
      && child == QName(byOid[e.childOid]) && parent == QName(byOid[e.parentOid])
  {
    hide RelByOid;
    var byOid := RelByOid(relations);
    var i := RelByOidCounts(relations, e.childOid);
    var j := RelByOidCounts(relations, e.parentOid);
    if e.childOid in byOid && e.parentOid in byOid
      && child == QName(byOid[e.childOid]) && parent == QName(byOid[e.parentOid])
    {
      assert Leads(relations, e, i, child, j, parent);
    }
    if i': nat, j': nat :| Leads(relations, e, i', child, j', parent) {
      assert i == i' && j == j';
    }
  }

  /** Up to the first dot of a name is its schema, unless the schema has dots. */
  lemma {:induction false} FirstDot(a: string, b: string, c: string, d: string)
    requires '.' !in a && '.' !in c && a + "." + b == c + "." + d
    ensures a == c && b == d
  {
    var t := a + "." + b;
    assert t[|a|] == '.' && t[|c|] == '.';
    assert forall k :: 0 <= k < |a| ==> t[k] == a[k] && a[k] != '.';
    assert forall k :: 0 <= k < |c| ==> t[k] == c[k] && c[k] != '.';
    assert |a| == |c|;
    assert t[..|a|] == a && t[..|c|] == c && t[|a| + 1..] == b && t[|c| + 1..] == d;
  }

  /** With schemas without dots the names tell relations apart. */
  lemma {:induction false} NamesApart(x: Relation, y: Relation)
    requires '.' !in x.schemaName && '.' !in y.schemaName
    ensures QName(x) == QName(y) <==> x.schemaName == y.schemaName && x.relationName == y.relationName
  {
    if QName(x) == QName(y) {
      FirstDot(x.schemaName, x.relationName, y.schemaName, y.relationName);
    }
  }

  /** With dots in schemas they do not: two tables become one. */
  lemma {:induction false} DottedSchemasClash()
    ensures QName(Relation(1, "a.b", "c")) == QName(Relation(2, "a", "b.c"))
  {
    assert "a.b" + "." + "c" == "a" + "." + "b.c";
  }

  ghost function Tables(refs: set<(string, string)>): set<string> {
    (set r | r in refs :: r.0) + (set r | r in refs :: r.1)
  }

  /**
   An order in which the tables can be loaded without deferring a constraint: it lists each table of
   a foreign key once, and each comes after every other table that it references.
   */
  ghost predicate LoadOrder(refs: set<(string, string)>, order: seq<string>) {
    && (forall i, j :: 0 <= i < j < |order| ==> order[i] != order[j])
    && (forall x :: x in order <==> x in Tables(refs))
    && (forall i, r :: 0 <= i < |order| && r in refs && r.0 == order[i] && r.1 != r.0 ==> r.1 in order[..i])
  }

  /** The references between different tables, as a dictionary from a table to those it references. */
  ghost function Graph(refs: set<(string, string)>): map<string, set<string>> {
    map x | x in Children(refs) :: Parents(refs, x)
  }

  ghost function Children(refs: set<(string, string)>): set<string> {
    set r | r in refs && r.0 != r.1 :: r.0
  }

  ghost function Parents(refs: set<(string, string)>, x: string): set<string> {
    set r | r in refs && r.0 == x && r.1 != x :: r.1
  }

  lemma {:induction false} GraphSucc(refs: set<(string, string)>, x: string, y: string)
    ensures y in Succ(Graph(refs), x) <==> (x, y) in refs && x != y
  {
    if (x, y) in refs && x != y {
      assert x in Children(refs) && y in Parents(refs, x);
    }
  }

  lemma {:induction false} ReachableTables(refs: set<(string, string)>, x: string)
    ensures FromRoot(Graph(refs), Tables(refs), x) <==> x in Tables(refs)
  {
    var g := Graph(refs);
    if x in Tables(refs) {
      ReachesSelf(g, x);
    }
    if FromRoot(g, Tables(refs), x) {
      var r :| r in Tables(refs) && Reaches(g, r, x);
      forall a, b | b in Succ(g, a) ensures b in Tables(refs) {
        GraphSucc(refs, a, b);
      }
      ClosedReach(g, Tables(refs), r, x);
    }
  }

  // ---------------------------------------------------------------- circular groups and load orders

  /** The single elements of lists of length one. */
  ghost function Firsts(comps: seq<seq<string>>): seq<string>
    requires forall i :: 0 <= i < |comps| ==> |comps[i]| == 1
  {
    seq(|comps|, i requires 0 <= i < |comps| => comps[i][0])
  }

  lemma {:induction false} FirstsElements(comps: seq<seq<string>>, n: nat, x: string)
    requires (forall i :: 0 <= i < |comps| ==> |comps[i]| == 1) && n <= |comps|
    ensures x in Elements(comps[..n]) <==> x in Firsts(comps)[..n]
  {
    var order := Firsts(comps);
    if x in Elements(comps[..n]) {
      var i :| 0 <= i < n && x in comps[i];
      assert order[..n][i] == x;
    }
    if x in order[..n] {
      var i :| 0 <= i < n && order[i] == x;
      assert comps[..n][i] == comps[i] && x in comps[i];
    }
  }

  lemma {:induction false} FirstsDistinct(comps: seq<seq<string>>)
    requires forall i :: 0 <= i < |comps| ==> |comps[i]| == 1
    requires forall i, j :: 0 <= i < j < |comps| ==> forall x :: x in comps[i] ==> x !in comps[j]
    ensures Distinct(Firsts(comps))
  {
    var order := Firsts(comps);
    forall i, j | 0 <= i < j < |order| ensures order[i] != order[j] {
      assert order[i] in comps[i] && order[j] in comps[j];
    }
  }

  lemma {:induction false} FirstsLoad(refs: set<(string, string)>, comps: seq<seq<string>>, i: nat, r: (string, string))
    requires IsDecomposition(Graph(refs), Tables(refs), comps)
    requires (forall i :: 0 <= i < |comps| ==> |comps[i]| == 1) && i < |comps|
    requires r in refs && r.0 == Firsts(comps)[i] && r.1 != r.0
    ensures r.1 in Firsts(comps)[..i]
  {
    hide Reaches, Graph, Tables, FromRoot, IsScc;
    GraphSucc(refs, r.0, r.1);
    assert r.0 in comps[i];
    assert r.1 in Elements(comps[..i + 1]);
    FirstsElements(comps, i + 1, r.1);
    assert Firsts(comps)[..i + 1] == Firsts(comps)[..i] + [r.0];
  }

  lemma {:induction false} SingletonsGiveOrder(refs: set<(string, string)>, comps: seq<seq<string>>)
    returns (order: seq<string>)
    requires IsDecomposition(Graph(refs), Tables(refs), comps)
    requires forall i :: 0 <= i < |comps| ==> |comps[i]| < 2
    ensures LoadOrder(refs, order)
  {
    hide Reaches, Graph, Tables, FromRoot, IsScc;
    assert forall i :: 0 <= i < |comps| ==> |comps[i]| == 1 by { NotEmpty(refs, comps); }
    order := Firsts(comps);
    FirstsDistinct(comps);
    forall x ensures x in order <==> x in Tables(refs) {
      FirstsElements(comps, |comps|, x);
      assert comps[..|comps|] == comps && order[..|comps|] == order;
      ReachableTables(refs, x);
    }
    forall i, r | 0 <= i < |order| && r in refs && r.0 == order[i] && r.1 != r.0 ensures r.1 in order[..i] {
      FirstsLoad(refs, comps, i, r);
    }
  }

  lemma {:induction false} NotEmpty(refs: set<(string, string)>, comps: seq<seq<string>>)
    requires IsDecomposition(Graph(refs), Tables(refs), comps)
    ensures forall i :: 0 <= i < |comps| ==> |comps[i]| > 0
  {
    hide Reaches, Graph, Tables, FromRoot;
  }

  lemma {:induction false} OrderGivesSingletons(refs: set<(string, string)>, comps: seq<seq<string>>,
    order: seq<string>)
    requires IsDecomposition(Graph(refs), Tables(refs), comps) && LoadOrder(refs, order)
    ensures forall i :: 0 <= i < |comps| ==> |comps[i]| < 2
  {
    hide Reaches, Graph, Tables, FromRoot;
    var g := Graph(refs);
    forall i, w | 0 <= i < |order| && w in Succ(g, order[i]) && w != order[i] ensures w in order[..i] {
      GraphSucc(refs, order[i], w);
    }
    forall i | 0 <= i < |comps| ensures |comps[i]| < 2 {
      if |comps[i]| >= 2 {
        var x, y := comps[i][0], comps[i][1];
        assert comps[i] in comps && x in comps[i];
        ReachableTables(refs, x);
        OrderedIsAcyclic(g, order, x, y);
      }
    }
  }

  /** All components are single tables exactly when the tables have a load order. */
  lemma {:induction false} LoadOrderIff(refs: set<(string, string)>, comps: seq<seq<string>>)
    requires IsDecomposition(Graph(refs), Tables(refs), comps)
    ensures (forall i :: 0 <= i < |comps| ==> |comps[i]| < 2) <==> exists order :: LoadOrder(refs, order)
  {
    hide IsDecomposition, LoadOrder;
    if forall i :: 0 <= i < |comps| ==> |comps[i]| < 2 {
      var order := SingletonsGiveOrder(refs, comps);
    }
    if order :| LoadOrder(refs, order) {
      OrderGivesSingletons(refs, comps, order);
    }
  }

  // ---------------------------------------------------------------- the report

  /** The tables of a circular group, in order: a strongly connected component of two tables or more. */
  ghost predicate CircularGroup(refs: set<(string, string)>, tables: seq<string>) {
    && |tables| >= 2 && Sorted(StringLe, tables)
    && IsScc(Graph(refs), tables)
    && forall x :: x in tables ==> x in Tables(refs)
  }

  function Rank(c: Category): int {
    if c == CircularDependency then 0 else 1
  }

  predicate ItemLe(a: Item, b: Item) {
    Rank(a.category) < Rank(b.category) || (a.category == b.category && TupleLe(a.tables, b.tables))
  }

  /** Circular groups come first, and each kind in the order of its tables. */
  ghost predicate InOrder(items: seq<Item>) {
    forall i, j :: 0 <= i < j < |items| ==>
      || (items[i].category == CircularDependency && items[j].category == SelfReference)
      || (items[i].category == items[j].category && TupleLe(items[i].tables, items[j].tables))
  }

  lemma {:induction false} SortedInOrder(items: seq<Item>)
    requires Sorted(ItemLe, items)
    ensures InOrder(items)
  {
    hide TupleLe;
    forall i, j | 0 <= i < j < |items| ensures ItemLe(items[i], items[j]) {
    }
  }

  function Count(items: seq<Item>, c: Category): nat {
    if items == [] then 0 else (if items[0].category == c then 1 else 0) + Count(items[1..], c)
  }

  lemma {:induction false} CountAppend(items: seq<Item>, x: Item, c: Category)
    ensures Count(items + [x], c) == Count(items, c) + (if x.category == c then 1 else 0)
  {
    if items != [] {
      assert (items + [x])[1..] == items[1..] + [x];
      CountAppend(items[1..], x, c);
    }
  }

  lemma {:induction false} ItemOrder()
    ensures TotalOrder(ItemLe)
  {
    TupleOrder();
    hide TupleLe;
  }

  /** What the finished list of findings says about the references. */
  ghost predicate Findings(refs: set<(string, string)>, items: seq<Item>) {
    && Distinct(items)
    && (forall ts :: Item(CircularDependency, ts) in items <==> CircularGroup(refs, ts))
    && (forall ts :: Item(SelfReference, ts) in items <==> |ts| == 1 && (ts[0], ts[0]) in refs)
  }

  lemma {:induction false} CountZero(items: seq<Item>, c: Category)
    ensures Count(items, c) == 0 <==> forall ts :: Item(c, ts) !in items
  {
    if items != [] {
      CountZero(items[1..], c);
      assert items == [items[0]] + items[1..];
      assert items[0] == Item(items[0].category, items[0].tables);
      forall ts ensures Item(c, ts) in items <==> Item(c, ts) == items[0] || Item(c, ts) in items[1..] {
      }
    }
  }

  /** The components found so far, each as a sorted group, if they have two tables or more. */
  ghost predicate GroupsOf(comps: seq<seq<string>>, items: seq<Item>) {
    && Distinct(items)
    && (forall it :: it in items ==> it.category == CircularDependency)
    && (forall ts :: Item(CircularDependency, ts) in items <==>
          exists comp :: comp in comps && |comp| >= 2 && ts == Sort(StringLe, comp))
  }

  lemma {:induction false} SccSorted(g: map<string, set<string>>, comp: seq<string>)
    requires IsScc(g, comp)
    ensures IsScc(g, Sort(StringLe, comp)) && Sorted(StringLe, Sort(StringLe, comp))
    ensures |Sort(StringLe, comp)| == |comp| && forall x :: x in Sort(StringLe, comp) <==> x in comp
  {
    hide Connected, StringLe;
    StringOrder();
    SortSorted(StringLe, comp);
    SortDistinct(StringLe, comp);
    SameElements(Sort(StringLe, comp), comp);
  }

  /** Components that share a member are the same. */
  lemma {:induction false} SccsMeet(g: map<string, set<string>>, ts: seq<string>, comp: seq<string>)
    requires IsScc(g, ts) && IsScc(g, comp) && ts[0] in comp
    ensures Distinct(ts) && Distinct(comp) && forall x :: x in ts <==> x in comp
  {
    hide Connected;
    forall x ensures x in ts <==> x in comp {
    }
  }

  /** A sorted group is the sorted form of the component that holds its first table. */
  lemma {:induction false} GroupIsSortedScc(g: map<string, set<string>>, ts: seq<string>, comp: seq<string>)
    requires IsScc(g, ts) && IsScc(g, comp) && Sorted(StringLe, ts) && ts[0] in comp
    ensures ts == Sort(StringLe, comp) && |ts| == |comp|
  {
    SccsMeet(g, ts, comp);
    SameMultiset(ts, comp);
    SortedGroup(ts, comp);
  }

  lemma {:induction false} SortedGroup(ts: seq<string>, comp: seq<string>)
    requires Sorted(StringLe, ts) && multiset(ts) == multiset(comp)
    ensures ts == Sort(StringLe, comp) && |ts| == |comp|
  {
    hide Sorted;
    StringOrder();
    SortSorted(StringLe, comp);
    assert NoTies(StringLe, ts) by { hide StringLe; }
    hide StringLe;
    SortedUnique(StringLe, ts, Sort(StringLe, comp));
    SameElements(ts, comp);
  }

  lemma {:induction false} GroupsAreCircular(refs: set<(string, string)>, comps: seq<seq<string>>, items: seq<Item>,
    ts: seq<string>)
    requires IsDecomposition(Graph(refs), Tables(refs), comps) && GroupsOf(comps, items)
    ensures Item(CircularDependency, ts) in items <==> CircularGroup(refs, ts)
  {
    hide Graph, Tables, FromRoot, IsScc;
    if Item(CircularDependency, ts) in items {
      var comp :| comp in comps && |comp| >= 2 && ts == Sort(StringLe, comp);
      SccSorted(Graph(refs), comp);
      forall x | x in ts ensures x in Tables(refs) {
        ReachableTables(refs, x);
      }
    }
    if CircularGroup(refs, ts) {
      ReachableTables(refs, ts[0]);
      assert ts[0] in Elements(comps);
      var comp :| comp in comps && ts[0] in comp;
      GroupIsSortedScc(Graph(refs), ts, comp);
    }
  }

  lemma {:induction false} GroupIsNew(g: map<string, set<string>>, comps: seq<seq<string>>, n: nat, items: seq<Item>)
    requires n < |comps| && GroupsOf(comps[..n], items)
    requires forall i :: 0 <= i < |comps| ==> IsScc(g, comps[i])
    requires forall i, j, x :: 0 <= i < j < |comps| && x in comps[i] ==> x !in comps[j]
    ensures Item(CircularDependency, Sort(StringLe, comps[n])) !in items
  {
    var ts := Sort(StringLe, comps[n]);
    SccSorted(g, comps[n]);
    hide Connected, StringLe;
    if comp :| comp in comps[..n] && |comp| >= 2 && ts == Sort(StringLe, comp) {
      var i :| 0 <= i < n && comps[i] == comp;
      SccSorted(g, comps[i]);
      assert ts[0] in comps[i] && ts[0] in comps[n];
    }
  }

  lemma {:induction false} GroupsAppend(comps: seq<seq<string>>, n: nat, items: seq<Item>, it: Item)
    requires n < |comps| && GroupsOf(comps[..n], items)
    requires it == Item(CircularDependency, Sort(StringLe, comps[n])) && it !in items
    ensures |comps[n]| < 2 ==> GroupsOf(comps[..n + 1], items)
    ensures |comps[n]| >= 2 ==> GroupsOf(comps[..n + 1], items + [it])
  {
    hide StringLe, Sort;
    assert comps[..n + 1] == comps[..n] + [comps[n]];
    assert comps[n] in comps[..n + 1];
    forall ts, comp | comp in comps[..n + 1] && |comp| >= 2 && ts == Sort(StringLe, comp)
      ensures Item(CircularDependency, ts) in items + (if |comps[n]| >= 2 then [it] else [])
    {
      if comp in comps[..n] {
        assert Item(CircularDependency, ts) in items;
      }
    }
    forall ts | Item(CircularDependency, ts) in items
      ensures exists comp :: comp in comps[..n + 1] && |comp| >= 2 && ts == Sort(StringLe, comp)
    {
      var comp :| comp in comps[..n] && |comp| >= 2 && ts == Sort(StringLe, comp);
      assert comp in comps[..n + 1];
    }
  }

  ghost predicate GraphBuilt(refs: set<(string, string)>, nodes: set<string>, adj: map<string, set<string>>,
                             selfRefs: set<string>) {
    && nodes == Tables(refs) && adj == Graph(refs)
    && forall t :: t in selfRefs <==> (t, t) in refs
  }

  lemma {:induction false} TablesAdd(refs: set<(string, string)>, c: string, p: string)
    ensures Tables(refs + {(c, p)}) == Tables(refs) + {c, p}
  {
    var refs' := refs + {(c, p)};
    assert (c, p) in refs';
    forall x ensures x in Tables(refs') <==> x in Tables(refs) || x == c || x == p {
      if x in Tables(refs) {
        var r :| r in refs && (r.0 == x || r.1 == x);
        assert r in refs';
      }
    }
  }

  lemma {:induction false} ParentsAdd(refs: set<(string, string)>, c: string, p: string, x: string)
    ensures Parents(refs + {(c, p)}, x) == Parents(refs, x) + if x == c && c != p then {p} else {}
  {
    var refs' := refs + {(c, p)};
    forall y ensures y in Parents(refs', x) <==> y in Parents(refs, x) || (x == c && y == p && c != p) {
      assert y in Parents(refs, x) <==> (x, y) in refs && x != y;
      assert y in Parents(refs', x) <==> (x, y) in refs' && x != y;
    }
  }

  lemma {:induction false} ChildrenAdd(refs: set<(string, string)>, c: string, p: string)
    ensures Children(refs + {(c, p)}) == Children(refs) + if c != p then {c} else {}
  {
    var refs' := refs + {(c, p)};
    assert (c, p) in refs';
    forall x ensures x in Children(refs') <==> x in Children(refs) || (x == c && c != p) {
      if x in Children(refs) {
        var r :| r in refs && r.0 == x && r.0 != r.1;
        assert r in refs';
      }
    }
  }

  lemma {:induction false} NoParents(refs: set<(string, string)>, x: string)
    ensures Succ(Graph(refs), x) == Parents(refs, x)
  {
    if x !in Children(refs) {
      forall y ensures y !in Parents(refs, x) {
        assert y in Parents(refs, x) <==> (x, y) in refs && x != y;
      }
    }
  }

  lemma {:induction false} GraphAdd(refs: set<(string, string)>, c: string, p: string)
    ensures Tables(refs + {(c, p)}) == Tables(refs) + {c, p}
    ensures Graph(refs + {(c, p)}) == if c == p then Graph(refs) else Graph(refs)[c := Succ(Graph(refs), c) + {p}]
  {
    hide Tables, Parents, Children;
    var refs' := refs + {(c, p)};
    TablesAdd(refs, c, p);
    ChildrenAdd(refs, c, p);
    NoParents(refs, c);
    var g, g' := Graph(refs), Graph(refs');
    forall x | x in g' ensures g'[x] == if x == c && c != p then Succ(g, c) + {p} else Parents(refs, x) {
      ParentsAdd(refs, c, p, x);
    }
    if c == p {
      assert g' == g;
    } else {
      assert g' == g[c := Succ(g, c) + {p}];
    }
  }

  /** The loop that resolves the edges of a snapshot. */
  method BuildGraph(byOid: map<int, Relation>, edges: seq<FkEdge>)
    returns (nodes: set<string>, adj: map<string, set<string>>, selfRefs: set<string>)
    ensures GraphBuilt(Refs(byOid, edges), nodes, adj, selfRefs)
  {
    nodes, adj, selfRefs := {}, map[], {};
    for i := 0 to |edges|
      invariant GraphBuilt(Refs(byOid, edges[..i]), nodes, adj, selfRefs)
    {
      assert edges[..i + 1][..i] == edges[..i];
      var e := edges[i];
      if e.childOid !in byOid || e.parentOid !in byOid {
        continue;
      }
      var child, parent := QName(byOid[e.childOid]), QName(byOid[e.parentOid]);
      GraphAdd(Refs(byOid, edges[..i]), child, parent);
      nodes := nodes + {child} + {parent};
      if child == parent {
        selfRefs := selfRefs + {child};
      } else {
        adj := adj[child := Succ(adj, child) + {parent}];
      }
    }
    assert edges[..|edges|] == edges;
  }

  /** The loop that turns components into findings. */
  method CollectGroups(ghost refs: set<(string, string)>, comps: seq<seq<string>>) returns (items: seq<Item>)
    requires IsDecomposition(Graph(refs), Tables(refs), comps)
    ensures GroupsOf(comps, items)
  {
    hide Graph, Tables, FromRoot, IsScc, StringLe;
    items := [];
    for i := 0 to |comps|
      invariant GroupsOf(comps[..i], items)
    {
      GroupIsNew(Graph(refs), comps, i, items);
      GroupsAppend(comps, i, items, Item(CircularDependency, Sort(StringLe, comps[i])));
      if |comps[i]| >= 2 {
        items := items + [Item(CircularDependency, Sort(StringLe, comps[i]))];
      }
    }
    assert comps[..|comps|] == comps;
  }

  /** The loop that adds a finding for every self-reference. */
  method CollectSelfReferences(ghost refs: set<(string, string)>, groups: seq<Item>, selfRefs: set<string>)
    returns (items: seq<Item>)
    requires Distinct(groups) && (forall ts :: Item(SelfReference, ts) !in groups)
    requires forall ts :: Item(CircularDependency, ts) in groups <==> CircularGroup(refs, ts)
    requires forall t :: t in selfRefs <==> (t, t) in refs
    ensures Findings(refs, items) && Count(items, SelfReference) == |selfRefs|
  {
    hide CircularGroup, StringLe, Findings, SelfItems, Count, SortedStrings;
    items := groups;
    assert Count(items, SelfReference) == 0 by { CountZero(items, SelfReference); }
    var tables := SortedStrings(selfRefs);
    SortedStringsSorted(selfRefs);
    assert groups + SelfItems([]) == groups by { NoSelfItems(); }
    for i := 0 to |tables|
      invariant items == groups + SelfItems(tables[..i]) && Count(items, SelfReference) == i
    {
      CountAppend(items, Item(SelfReference, [tables[i]]), SelfReference);
      assert tables[..i + 1] == tables[..i] + [tables[i]];
      SelfItemsAppend(groups, tables[..i], tables[i]);
      items := items + [Item(SelfReference, [tables[i]])];
    }
    assert tables[..|tables|] == tables;
    SelfFindings(refs, groups, tables);
  }

  lemma {:induction false} GroupFindings(refs: set<(string, string)>, comps: seq<seq<string>>, groups: seq<Item>)
    requires IsDecomposition(Graph(refs), Tables(refs), comps) && GroupsOf(comps, groups)
    ensures Distinct(groups) && (forall ts :: Item(SelfReference, ts) !in groups)
    ensures forall ts :: Item(CircularDependency, ts) in groups <==> CircularGroup(refs, ts)
  {
    hide IsDecomposition, CircularGroup;
    assert forall ts :: Item(SelfReference, ts).category == SelfReference;
    forall ts ensures Item(CircularDependency, ts) in groups <==> CircularGroup(refs, ts) {
      GroupsAreCircular(refs, comps, groups, ts);
    }
  }

  ghost function SelfItems(tables: seq<string>): seq<Item> {
    seq(|tables|, i requires 0 <= i < |tables| => Item(SelfReference, [tables[i]]))
  }

  lemma {:induction false} NoSelfItems()
    ensures SelfItems([]) == []
  {
  }

  lemma {:induction false} SelfItemsAppend(groups: seq<Item>, tables: seq<string>, t: string)
    ensures groups + SelfItems(tables + [t]) == groups + SelfItems(tables) + [Item(SelfReference, [t])]
  {
  }

  lemma {:induction false} SelfFindings(refs: set<(string, string)>, groups: seq<Item>, tables: seq<string>)
    requires Distinct(groups) && (forall ts :: Item(SelfReference, ts) !in groups)
    requires forall ts :: Item(CircularDependency, ts) in groups <==> CircularGroup(refs, ts)
    requires Distinct(tables) && forall t :: t in tables <==> (t, t) in refs
    ensures Findings(refs, groups + SelfItems(tables))
  {
    hide CircularGroup;
    var items, selves := groups + SelfItems(tables), SelfItems(tables);
    forall ts ensures Item(SelfReference, ts) in selves <==> |ts| == 1 && (ts[0], ts[0]) in refs {
      if |ts| == 1 && (ts[0], ts[0]) in refs {
        var i :| 0 <= i < |tables| && tables[i] == ts[0];
        assert ts == [tables[i]] && selves[i] == Item(SelfReference, ts);
      }
      if Item(SelfReference, ts) in selves {
        var i :| 0 <= i < |tables| && selves[i] == Item(SelfReference, ts);
        assert ts == [tables[i]] && ts[0] == tables[i] && tables[i] in tables;
      }
    }
    forall it | it in selves ensures it.category == SelfReference {
    }
    forall i, j | 0 <= i < j < |items| ensures items[i] != items[j] {
      if |groups| <= i {
        assert items[i].tables[0] == tables[i - |groups|] && items[j].tables[0] == tables[j - |groups|];
      } else if |groups| <= j {
        assert items[j] == Item(SelfReference, [tables[j - |groups|]]);
        assert items[i] in groups;
      }
    }
  }

  /** The order of the findings does not matter for what they say. */
  lemma {:induction false} FindingsSorted(refs: set<(string, string)>, items: seq<Item>)
    requires Findings(refs, items)
    ensures Findings(refs, Sort(ItemLe, items)) && Sorted(ItemLe, Sort(ItemLe, items))
    ensures |Sort(ItemLe, items)| == |items|
    ensures forall c :: Count(Sort(ItemLe, items), c) == Count(items, c)
  {
    hide CircularGroup, ItemLe;
    ItemOrder();
    SortSorted(ItemLe, items);
    SortDistinct(ItemLe, items);
    SameElements(Sort(ItemLe, items), items);
    forall c ensures Count(Sort(ItemLe, items), c) == Count(items, c) {
      SortCount(items, c);
    }
  }

  lemma {:induction false} CountIsCountIf(s: seq<Item>, c: Category)
    ensures Count(s, c) == CountIf((it: Item) => it.category == c, s)
  {
    if s != [] {
      CountIsCountIf(s[1..], c);
    }
  }

  lemma {:induction false} SortCount(s: seq<Item>, c: Category)
    ensures Count(Sort(ItemLe, s), c) == Count(s, c)
  {
    hide ItemLe, Count, Sort;
    CountIsCountIf(s, c);
    CountIsCountIf(Sort(ItemLe, s), c);
    SortCountIf(ItemLe, (it: Item) => it.category == c, s);
  }

  /** A circular group is there exactly when no load order is. */
  lemma {:induction false} NoGroupIff(refs: set<(string, string)>, comps: seq<seq<string>>)
    requires IsDecomposition(Graph(refs), Tables(refs), comps)
    ensures (forall ts :: !CircularGroup(refs, ts)) <==> exists order :: LoadOrder(refs, order)
  {
    LoadOrderIff(refs, comps);
    hide Graph, Tables, FromRoot, IsScc, LoadOrder, StringLe;
    if i :| 0 <= i < |comps| && |comps[i]| >= 2 {
      SccSorted(Graph(refs), comps[i]);
      var ts := Sort(StringLe, comps[i]);
      forall x | x in ts ensures x in Tables(refs) {
        assert x in comps[i] && comps[i] in comps;
        ReachableTables(refs, x);
      }
      assert CircularGroup(refs, ts);
    } else if ts :| CircularGroup(refs, ts) {
      ReachableTables(refs, ts[0]);
      assert ts[0] in Elements(comps);
      var comp :| comp in comps && ts[0] in comp;
      GroupIsSortedScc(Graph(refs), ts, comp);
    }
  }

  ghost predicate HasLoadOrder(refs: set<(string, string)>) {
    exists order :: LoadOrder(refs, order)
  }

  /** The tables with a foreign key to themselves. */
  ghost function SelfReferences(refs: set<(string, string)>): set<string> {
    set r | r in refs && r.0 == r.1 :: r.0
  }

  lemma {:induction false} NoCircularIff(refs: set<(string, string)>, comps: seq<seq<string>>, items: seq<Item>)
    requires IsDecomposition(Graph(refs), Tables(refs), comps) && Findings(refs, items)
    ensures Count(items, CircularDependency) == 0 <==> HasLoadOrder(refs)
  {
    NoGroupIff(refs, comps);
    hide CircularGroup, IsDecomposition, LoadOrder;
    CountZero(items, CircularDependency);
  }

  lemma {:induction false} SelfReferencesFound(refs: set<(string, string)>, selfRefs: set<string>)
    requires forall t :: t in selfRefs <==> (t, t) in refs
    ensures selfRefs == SelfReferences(refs)
  {
    forall t | t in selfRefs ensures t in SelfReferences(refs) {
      assert (t, t) in refs && (t, t).0 == t;
    }
  }

  /** The report, over the references as `Refers` reads them off the rows. */
  method DetectFkCycles(snapshot: Snapshot) returns (report: Report)
    ensures forall child, parent :: (child, parent) in References(snapshot) <==> Refers(snapshot, child, parent)
    ensures Findings(References(snapshot), report.items) && InOrder(report.items)
    ensures report.circularDependencies == 0 <==> HasLoadOrder(References(snapshot))
    ensures report.circularDependencies == Count(report.items, CircularDependency)
    ensures report.selfReferences == |SelfReferences(References(snapshot))|
    ensures report.total == |report.items| == report.circularDependencies + report.selfReferences
  {
    hide *;
    ghost var refs := References(snapshot);
    var nodes, adj, selfRefs := BuildGraph(RelByOid(snapshot.relations), snapshot.fkEdges);
    GraphFacts(snapshot, nodes, adj, selfRefs);
    SortedEnumerates();
    var sorted := SortedStrings(nodes);
    assert (set x | x in sorted) == nodes;
    var comps := Sccs(sorted, adj, SortedStrings);
    var groups := CollectGroups(refs, comps);
    GroupFindings(refs, comps, groups);
    var items := CollectSelfReferences(refs, groups, selfRefs);
    FindingsSorted(refs, items);
    NoCircularIff(refs, comps, items);
    SelfReferencesFound(refs, selfRefs);
    CountSplit(items);
    items := Sort(ItemLe, items);
    SortedInOrder(items);
    report := Report(items, Count(items, CircularDependency), |selfRefs|, |items|);
    AllReferences(snapshot);
  }

  lemma {:induction false} AllReferences(s: Snapshot)
    ensures forall child, parent :: (child, parent) in References(s) <==> Refers(s, child, parent)
  {
    hide References, Refers;
    forall child, parent ensures (child, parent) in References(s) <==> Refers(s, child, parent) {
      ReferencesIff(s, child, parent);
    }
  }

  /** Two tables that reference each other, and nothing else, are one circular group without a load order. */
  lemma {:induction false} TwoTables(refs: set<(string, string)>, a: string, b: string)
    requires refs == {(a, b), (b, a)} && a != b && StringLe(a, b)
    ensures CircularGroup(refs, [a, b]) && !HasLoadOrder(refs)
  {
    hide StringLe;
    var g := Graph(refs);
    GraphSucc(refs, a, b);
    GraphSucc(refs, b, a);
    ReachesEdge(g, a, b);
    ReachesEdge(g, b, a);
    ReachesSelf(g, a);
    ReachesSelf(g, b);
    forall x, y | x in {a, b} && Reaches(g, x, y) ensures y in {a, b} {
      forall u, v | v in Succ(g, u) ensures v in {a, b} {
        GraphSucc(refs, u, v);
      }
      ClosedReach(g, {a, b}, x, y);
    }
    assert (a, b) in refs && (b, a) in refs;
    if order :| LoadOrder(refs, order) {
      assert a in Tables(refs) && b in Tables(refs);
      var i :| 0 <= i < |order| && order[i] == a;
      var j :| 0 <= j < i && order[..i][j] == b;
      assert a in order[..j];
    }
  }

  lemma {:induction false} ReadPair(x: Relation, y: Relation)
    requires x.oid != y.oid
    ensures References(Snapshot([x, y], [FkEdge(x.oid, y.oid), FkEdge(y.oid, x.oid)])) ==
      {(QName(x), QName(y)), (QName(y), QName(x))}
  {
    hide QName;
    var byOid := map[x.oid := x, y.oid := y];
    assert [x, y][..1] == [x];
    assert RelByOid([x]) == map[x.oid := x];
    assert RelByOid([x, y]) == byOid;
    var there, back := FkEdge(x.oid, y.oid), FkEdge(y.oid, x.oid);
    assert [there, back][..1] == [there];
    assert Refs(byOid, [there]) == {(QName(x), QName(y))};
  }

  lemma {:induction false} OrdersAndCustomers()
    ensures var refs := References(Snapshot(
        [Relation(1, "public", "orders"), Relation(2, "public", "customers")], [FkEdge(1, 2), FkEdge(2, 1)]));
      CircularGroup(refs, ["public.customers", "public.orders"]) && !HasLoadOrder(refs)
  {
    hide CircularGroup, HasLoadOrder, StringLe, QName, References;
    var a, b := "public.customers", "public.orders";
    var x, y := Relation(1, "public", "orders"), Relation(2, "public", "customers");
    assert x.oid == 1 && y.oid == 2;
    ReadPair(x, y);
    TheirNames();
    var refs := {(b, a), (a, b)};
    TwoTables(refs, a, b);
  }

  lemma {:induction false} TheirNames()
    ensures QName(Relation(1, "public", "orders")) == "public.orders"
    ensures QName(Relation(2, "public", "customers")) == "public.customers"
    ensures StringLe("public.customers", "public.orders") && "public.customers" != "public.orders"
  {
    hide StringLe;
    var a, b := "public.customers", "public.orders";
    assert "public" + "." + "orders" == b && "public" + "." + "customers" == a;
    assert a[..7] == b[..7] && a[7] == 'c' && b[7] == 'o';
    StringLeIff(a, b);
  }

  lemma {:induction false} SortedEnumerates()
    ensures Enumerates(SortedStrings)
  {
  }

  lemma {:induction false} GraphFacts(snapshot: Snapshot, nodes: set<string>, adj: map<string, set<string>>,
    selfRefs: set<string>)
    requires GraphBuilt(Refs(RelByOid(snapshot.relations), snapshot.fkEdges), nodes, adj, selfRefs)
    ensures nodes == Tables(References(snapshot)) && adj == Graph(References(snapshot))
    ensures forall t :: t in selfRefs <==> (t, t) in References(snapshot)
  {
  }

  lemma {:induction false} CountSplit(items: seq<Item>)
    ensures |items| == Count(items, CircularDependency) + Count(items, SelfReference)
  {
    if items != [] {
      CountSplit(items[1..]);
    }
  }
}
