/**
 What backend/app/diff/schema_diff.py promises of its index and its diff: renumbered oids and reordered
 rows make no difference, so the same schema read twice has no changes.
 */
module SchemaDiff {
  import opened Dicts
  import opened Orders
  import opened Snapshots
  import opened SchemaIndex

  // ---------------------------------------------------------------- renumbering oids

  function Rename(f: int -> int, rows: Rows): Rows {
    Rows(Map((r: RelationRow) => r.(oid := f(r.oid)), rows.relations),
         Map((r: ColumnRow) => r.(oid := f(r.oid)), rows.columns),
         Map((r: PkRow) => r.(oid := f(r.oid)), rows.pks),
         Map((r: FkRow) => r.(childOid := f(r.childOid), parentOid := f(r.parentOid)), rows.fks))
  }

  ghost function Oids(rows: Rows): set<int> {
    (set r | r in rows.relations :: r.oid) + (set r | r in rows.columns :: r.oid) + (set r | r in rows.pks :: r.oid)
    + (set r | r in rows.fks :: r.childOid) + (set r | r in rows.fks :: r.parentOid)
  }

  ghost predicate InjectiveOn(f: int -> int, s: set<int>) {
    forall x, y :: x in s && y in s && f(x) == f(y) ==> x == y
  }

  lemma {:induction false} LookupRenamed(f: int -> int, rels: seq<RelationRow>, s: set<int>, o: int)
    requires InjectiveOn(f, s) && o in s && forall r :: r in rels ==> r.oid in s
    ensures var renamed := Map((r: RelationRow) => r.(oid := f(r.oid)), rels);
      && (f(o) in OidToTable(renamed) <==> o in OidToTable(rels))
      && (o in OidToTable(rels) ==> OidToTable(renamed)[f(o)] == OidToTable(rels)[o])
  {
    if rels != [] {
      var g := (r: RelationRow) => r.(oid := f(r.oid));
      var init := rels[..|rels| - 1];
      LookupRenamed(f, init, s, o);
      assert Map(g, rels)[..|rels| - 1] == Map(g, init);
      assert rels[|rels| - 1] in rels;
    }
  }

  /** Two ways to look names up that agree under a renumbering. */
  ghost predicate Agree(f: int -> int, s: set<int>, a: map<int, TableKey>, b: map<int, TableKey>) {
    forall o :: o in s ==> (f(o) in b <==> o in a) && (o in a ==> b[f(o)] == a[o])
  }

  lemma {:induction false} LookupsAgree(f: int -> int, rows: Rows)
    requires InjectiveOn(f, Oids(rows))
    ensures Agree(f, Oids(rows), OidToTable(rows.relations), OidToTable(Rename(f, rows).relations))
  {
    hide OidToTable, InjectiveOn;
    assert forall r :: r in rows.relations ==> r.oid in Oids(rows);
    forall o | o in Oids(rows)
      ensures f(o) in OidToTable(Rename(f, rows).relations) <==> o in OidToTable(rows.relations)
      ensures o in OidToTable(rows.relations) ==>
        OidToTable(Rename(f, rows).relations)[f(o)] == OidToTable(rows.relations)[o]
    {
      LookupRenamed(f, rows.relations, Oids(rows), o);
    }
  }

  lemma {:induction false} ColumnsRenamed(f: int -> int, rows: Rows, s: set<int>, a: map<int, TableKey>,
    b: map<int, TableKey>)
    requires Agree(f, s, a, b) && forall r :: r in rows.columns ==> r.oid in s
    ensures Map(r => NameColumn(b, r), Rename(f, rows).columns) == Map(r => NameColumn(a, r), rows.columns)
  {
    forall i | 0 <= i < |rows.columns|
      ensures NameColumn(b, Rename(f, rows).columns[i]) == NameColumn(a, rows.columns[i])
    {
      assert rows.columns[i] in rows.columns;
    }
  }

  lemma {:induction false} PksRenamed(f: int -> int, rows: Rows, s: set<int>, a: map<int, TableKey>,
    b: map<int, TableKey>)
    requires Agree(f, s, a, b) && forall r :: r in rows.pks ==> r.oid in s
    ensures Map(r => NamePk(b, r), Rename(f, rows).pks) == Map(r => NamePk(a, r), rows.pks)
  {
    forall i | 0 <= i < |rows.pks| ensures NamePk(b, Rename(f, rows).pks[i]) == NamePk(a, rows.pks[i]) {
      assert rows.pks[i] in rows.pks;
    }
  }

  lemma {:induction false} EdgesRenamed(f: int -> int, rows: Rows, s: set<int>, a: map<int, TableKey>,
    b: map<int, TableKey>)
    requires Agree(f, s, a, b) && forall r :: r in rows.fks ==> r.childOid in s && r.parentOid in s
    ensures Map(r => NameEdge(b, r), Rename(f, rows).fks) == Map(r => NameEdge(a, r), rows.fks)
  {
    forall i | 0 <= i < |rows.fks| ensures NameEdge(b, Rename(f, rows).fks[i]) == NameEdge(a, rows.fks[i]) {
      assert rows.fks[i] in rows.fks;
    }
  }

  /** Renumbering the relations leaves the resolved rows, and so the index, as they were. */
  lemma {:induction false} RenamingIsInvisible(f: int -> int, rows: Rows)
    requires InjectiveOn(f, Oids(rows))
    ensures Resolve(Rename(f, rows)) == Resolve(rows)
  {
    hide OidToTable, Agree, InjectiveOn, NameColumn, NamePk, NameEdge;
    var s, rows' := Oids(rows), Rename(f, rows);
    var a, b := OidToTable(rows.relations), OidToTable(rows'.relations);
    LookupsAgree(f, rows);
    assert Map(NameRelation, rows'.relations) == Map(NameRelation, rows.relations);
    ColumnsRenamed(f, rows, s, a, b);
    PksRenamed(f, rows, s, a, b);
    EdgesRenamed(f, rows, s, a, b);
  }

  // ---------------------------------------------------------------- reordering rows

  function Flat<A, B>(h: A -> seq<B>, s: seq<A>): seq<B> {
    if s == [] then [] else Flat(h, s[..|s| - 1]) + h(s[|s| - 1])
  }

  lemma {:induction false} FlatConcat<A, B>(h: A -> seq<B>, a: seq<A>, b: seq<A>)
    ensures Flat(h, a + b) == Flat(h, a) + Flat(h, b)
    decreases |b|
  {
    if b == [] {
      assert a + b == a;
    } else {
      var init := b[..|b| - 1];
      assert (a + b)[..|a + b| - 1] == a + init;
      FlatConcat(h, a, init);
    }
  }

  lemma {:induction false} FlatOne<A, B>(h: A -> seq<B>, x: A)
    ensures Flat(h, [x]) == h(x)
  {
    assert [x][..0] == [];
    assert Flat(h, [x]) == Flat(h, [x][..0]) + h(x);
  }

  lemma {:induction false} SplitMultiset<A>(left: seq<A>, x: A, right: seq<A>)
    ensures multiset(left + right) == multiset(left + [x] + right) - multiset{x}
  {
    assert multiset(left + [x] + right) == multiset(left + [x]) + multiset(right);
    assert multiset(left + right) == multiset(left) + multiset(right);
  }

  /** The last element of one list, found in a reordering of it. */
  lemma {:induction false} FindLast<A>(a: seq<A>, b: seq<A>) returns (left: seq<A>, right: seq<A>)
    requires multiset(a) == multiset(b) && a != []
    ensures b == left + [a[|a| - 1]] + right && multiset(a[..|a| - 1]) == multiset(left + right)
  {
    SameElements(a, b);
    var init, x := a[..|a| - 1], a[|a| - 1];
    assert x in b;
    var j :| 0 <= j < |b| && b[j] == x;
    left, right := b[..j], b[j + 1..];
    assert b == left + [x] + right;
    assert a == init + [x] + [] && init + [] == init;
    SplitMultiset(left, x, right);
    SplitMultiset(init, x, []);
  }

  /** Reordering the rows only reorders what they contribute. */
  lemma {:induction false} FlatReordered<A, B>(h: A -> seq<B>, a: seq<A>, b: seq<A>)
    requires multiset(a) == multiset(b)
    ensures multiset(Flat(h, a)) == multiset(Flat(h, b))
    decreases |a|
  {
    if a == [] {
      SameElements(a, b);
    } else {
      var x := a[|a| - 1];
      var left, right := FindLast(a, b);
      FlatReordered(h, a[..|a| - 1], left + right);
      FlatConcat(h, left, right);
      FlatConcat(h, left + [x], right);
      FlatConcat(h, left, [x]);
      FlatOne(h, x);
    }
  }

  ghost predicate Reordered(a: Rows, b: Rows) {
    && multiset(a.relations) == multiset(b.relations) && multiset(a.columns) == multiset(b.columns)
    && multiset(a.pks) == multiset(b.pks) && multiset(a.fks) == multiset(b.fks)
  }

  ghost predicate ReorderedNamed(a: Named, b: Named) {
    && multiset(a.relations) == multiset(b.relations) && multiset(a.columns) == multiset(b.columns)
    && multiset(a.pks) == multiset(b.pks) && multiset(a.edges) == multiset(b.edges)
  }

  lemma {:induction false} MapReordered<A, B>(f: A -> B, a: seq<A>, b: seq<A>)
    requires multiset(a) == multiset(b)
    ensures multiset(Map(f, a)) == multiset(Map(f, b))
  {
    FlatReordered(x => [f(x)], a, b);
    MapIsFlat(f, a);
    MapIsFlat(f, b);
  }

  lemma {:induction false} MapIsFlat<A, B>(f: A -> B, a: seq<A>)
    ensures Map(f, a) == Flat(x => [f(x)], a)
  {
    if a != [] {
      MapIsFlat(f, a[..|a| - 1]);
      assert Map(f, a) == Map(f, a[..|a| - 1]) + [f(a[|a| - 1])];
    }
  }

  // ---- what the index holds, row order aside

  ghost predicate Maps<K(!new), V(!new)>(m: map<K, V>, k: K, v: V) {
    k in m && m[k] == v
  }

  lemma {:induction false} SameMaps<K(!new), V(!new)>(a: map<K, V>, b: map<K, V>)
    requires forall k, v :: Maps(a, k, v) <==> Maps(b, k, v)
    ensures a == b
  {
    forall k ensures k in a <==> k in b {
      if k in a { assert Maps(a, k, a[k]); }
      if k in b { assert Maps(b, k, b[k]); }
    }
    forall k | k in a ensures a[k] == b[k] {
      assert Maps(a, k, a[k]);
    }
  }

  ghost predicate UniqueRelations(rels: seq<(TableKey, Option<string>)>) {
    forall a, b :: a in rels && b in rels && a.0 == b.0 ==> a == b
  }

  ghost predicate UniqueColumns(cols: seq<Option<NamedColumn>>) {
    forall a, b | a in cols && b in cols && a.Some? && b.Some?
      && a.value.table == b.value.table && a.value.name == b.value.name :: a == b
  }

  ghost predicate UniqueOrdinals(pks: seq<Option<NamedPk>>) {
    && (forall a :: a in pks && a.Some? ==> a.value.ordinal.Some?)
    && (forall a, b | a in pks && b in pks && a.Some? && b.Some?
          && a.value.table == b.value.table && a.value.ordinal == b.value.ordinal :: a == b)
  }

  ghost predicate UniqueParts(edges: seq<Option<NamedEdge>>) {
    forall a, b | a in edges && b in edges && a.Some? && b.Some?
      && a.value.group == b.value.group && a.value.part.ordinal == b.value.part.ordinal :: a == b
  }

  ghost predicate UniqueSignatures(groups: map<Group, seq<Part>>) {
    forall g, h | g in groups && h in groups && Signature(g, groups[g]) == Signature(h, groups[h]) :: g == h
  }

  /** Names, ordinals and foreign-key signatures are unique. */
  ghost predicate UniqueNames(n: Named) {
    && UniqueRelations(n.relations) && UniqueColumns(n.columns) && UniqueOrdinals(n.pks)
    && UniqueParts(n.edges) && UniqueSignatures(Groups(n.edges).m)
  }

  lemma {:induction false} CommentsMeaning(rels: seq<(TableKey, Option<string>)>, k: TableKey, c: Option<string>)
    requires UniqueRelations(rels)
    ensures Maps(Comments(rels).m, k, c) <==> (k, c) in rels
  {
    if rels != [] {
      var init, last := rels[..|rels| - 1], rels[|rels| - 1];
      assert rels == init + [last];
      CommentsMeaning(init, k, c);
      if k == last.0 && (k, c) in rels {
        assert (k, c) == last;
      }
    }
  }

  lemma {:induction false} ColumnsMeaning(k: TableKey, cols: seq<Option<NamedColumn>>, name: string, col: Column)
    requires UniqueColumns(cols)
    ensures Maps(ColumnsOf(k, cols).m, name, col) <==> Some(NamedColumn(k, name, col)) in cols
  {
    if cols != [] {
      var init, last := cols[..|cols| - 1], cols[|cols| - 1];
      assert cols == init + [last];
      ColumnsMeaning(k, init, name, col);
      if last.Some? && last.value.table == k && last.value.name == name && Some(NamedColumn(k, name, col)) in cols {
        assert Some(NamedColumn(k, name, col)) == last;
      }
    }
  }

  function KeyPartFor(k: TableKey, r: Option<NamedPk>): seq<KeyPart> {
    if r.Some? && r.value.table == k && r.value.ordinal.Some?
    then [KeyPart(r.value.ordinal.value, r.value.name)] else []
  }

  lemma {:induction false} KeyPartsFlat(k: TableKey, pks: seq<Option<NamedPk>>)
    requires forall a :: a in pks && a.Some? ==> a.value.ordinal.Some?
    ensures KeyParts(k, pks) == Flat(r => KeyPartFor(k, r), pks)
  {
    if pks != [] {
      KeyPartsFlat(k, pks[..|pks| - 1]);
      assert pks[|pks| - 1] in pks;
    }
  }

  lemma {:induction false} FlatFrom<A, B>(h: A -> seq<B>, s: seq<A>, y: B)
    requires y in Flat(h, s)
    ensures exists x :: x in s && y in h(x)
  {
    var init, last := s[..|s| - 1], s[|s| - 1];
    if y in Flat(h, init) {
      FlatFrom(h, init, y);
      var x :| x in init && y in h(x);
      assert x in s;
    } else {
      assert last in s && y in h(last);
    }
  }

  lemma {:induction false} KeyPartsNoTies(k: TableKey, a: seq<Option<NamedPk>>)
    requires UniqueOrdinals(a)
    ensures NoTies(KeyPartLe, KeyParts(k, a))
  {
    var h := r => KeyPartFor(k, r);
    KeyPartsFlat(k, a);
    var parts := KeyParts(k, a);
    forall x, y | x in parts && y in parts && KeyPartLe(x, y) && KeyPartLe(y, x) ensures x == y {
      FlatFrom(h, a, x);
      FlatFrom(h, a, y);
      var p :| p in a && x in h(p);
      var q :| q in a && y in h(q);
    }
  }

  lemma {:induction false} PrimaryKeyReordered(k: TableKey, a: seq<Option<NamedPk>>, b: seq<Option<NamedPk>>)
    requires multiset(a) == multiset(b) && UniqueOrdinals(a)
    ensures PrimaryKey(k, a) == PrimaryKey(k, b)
  {
    var h := r => KeyPartFor(k, r);
    SameElements(a, b);
    KeyPartsFlat(k, a);
    KeyPartsFlat(k, b);
    FlatReordered(h, a, b);
    KeyPartsNoTies(k, a);
    hide KeyParts, UniqueOrdinals, NoTies;
    SortedTogether(KeyPartLe, KeyParts(k, a), KeyParts(k, b));
  }

  /** Lists with the same elements and no ties sort to the same list. */
  lemma {:induction false} SortedTogether<T(!new)>(le: (T, T) -> bool, a: seq<T>, b: seq<T>)
    requires TotalPreorder(le) && multiset(a) == multiset(b) && NoTies(le, a)
    ensures Sort(le, a) == Sort(le, b)
  {
    SortSorted(le, a);
    SortSorted(le, b);
    SameElements(Sort(le, a), a);
    SortedUnique(le, Sort(le, a), Sort(le, b));
  }

  function PartFor(g: Group, e: Option<NamedEdge>): seq<Part> {
    if e.Some? && e.value.group == g then [e.value.part] else []
  }

  lemma {:induction false} GroupsFlat(edges: seq<Option<NamedEdge>>, g: Group)
    ensures g in Groups(edges).m <==> Flat(e => PartFor(g, e), edges) != []
    ensures g in Groups(edges).m ==> Groups(edges).m[g] == Flat(e => PartFor(g, e), edges)
  {
    if edges != [] {
      GroupsFlat(edges[..|edges| - 1], g);
    }
  }

  lemma {:induction false} PartsNoTies(a: seq<Option<NamedEdge>>, g: Group)
    requires UniqueParts(a)
    ensures NoTies(PartLe, Flat(e => PartFor(g, e), a))
  {
    var h := e => PartFor(g, e);
    var parts := Flat(h, a);
    forall x, y | x in parts && y in parts && PartLe(x, y) && PartLe(y, x) ensures x == y {
      FlatFrom(h, a, x);
      FlatFrom(h, a, y);
      var p :| p in a && x in h(p);
      var q :| q in a && y in h(q);
    }
  }

  lemma {:induction false} GroupsReordered(a: seq<Option<NamedEdge>>, b: seq<Option<NamedEdge>>, g: Group)
    requires multiset(a) == multiset(b) && UniqueParts(a)
    ensures g in Groups(a).m <==> g in Groups(b).m
    ensures g in Groups(a).m ==> Signature(g, Groups(a).m[g]) == Signature(g, Groups(b).m[g])
  {
    var h := e => PartFor(g, e);
    GroupsFlat(a, g);
    GroupsFlat(b, g);
    FlatReordered(h, a, b);
    SameElements(Flat(h, a), Flat(h, b));
    PartsNoTies(a, g);
    hide Groups, UniqueParts, NoTies, Flat;
    if g in Groups(a).m {
      SortedTogether(PartLe, Groups(a).m[g], Groups(b).m[g]);
    }
  }

  /** With one signature per group, each foreign key of the index comes from one group. */
  lemma {:induction false} ForeignKeysMeaning(groups: Dict<Group, seq<Part>>, gs: seq<Group>, f: FkSignature,
    n: Option<string>)
    requires (forall g :: g in gs ==> g in groups.m) && UniqueSignatures(groups.m)
    ensures Maps(ForeignKeys(groups, gs).m, f, n) <==>
            exists g :: g in gs && Signature(g, groups.m[g]) == f && ConstraintName(g) == n
  {
    hide Signature, ConstraintName;
    if gs != [] {
      var init, last := gs[..|gs| - 1], gs[|gs| - 1];
      assert gs == init + [last];
      ForeignKeysMeaning(groups, init, f, n);
    }
  }

  ghost predicate SameTable(a: Table, b: Table) {
    a.comment == b.comment && a.columns.m == b.columns.m && a.pk == b.pk
  }

  /** The same index, but for the order in which its dictionaries list their entries. */
  ghost predicate SameIndex(a: Index, b: Index) {
    && a.tables.m.Keys == b.tables.m.Keys
    && (forall k :: k in a.tables.m ==> SameTable(a.tables.m[k], b.tables.m[k]))
    && a.fks.m == b.fks.m
  }

  lemma {:induction false} CommentsReordered(a: seq<(TableKey, Option<string>)>, b: seq<(TableKey, Option<string>)>)
    requires multiset(a) == multiset(b) && UniqueRelations(a)
    ensures Comments(a).m == Comments(b).m
  {
    SameElements(a, b);
    forall k, c ensures Maps(Comments(a).m, k, c) <==> Maps(Comments(b).m, k, c) {
      CommentsMeaning(a, k, c);
      CommentsMeaning(b, k, c);
    }
    SameMaps(Comments(a).m, Comments(b).m);
  }

  lemma {:induction false} ColumnsReordered(k: TableKey, a: seq<Option<NamedColumn>>, b: seq<Option<NamedColumn>>)
    requires multiset(a) == multiset(b) && UniqueColumns(a)
    ensures ColumnsOf(k, a).m == ColumnsOf(k, b).m
  {
    SameElements(a, b);
    forall x, c ensures Maps(ColumnsOf(k, a).m, x, c) <==> Maps(ColumnsOf(k, b).m, x, c) {
      ColumnsMeaning(k, a, x, c);
      ColumnsMeaning(k, b, x, c);
    }
    SameMaps(ColumnsOf(k, a).m, ColumnsOf(k, b).m);
  }

  /** Two groupings with the same groups and signatures give the same foreign keys. */
  lemma {:induction false} SameForeignKeys(ga: Dict<Group, seq<Part>>, gb: Dict<Group, seq<Part>>)
    requires ga.Valid() && gb.Valid() && UniqueSignatures(ga.m) && ga.m.Keys == gb.m.Keys
    requires forall g :: g in ga.m ==> Signature(g, ga.m[g]) == Signature(g, gb.m[g])
    ensures ForeignKeys(ga, ga.keys).m == ForeignKeys(gb, gb.keys).m
  {
    assert forall g :: g in ga.keys <==> g in ga.m;
    assert forall g :: g in gb.keys <==> g in gb.m;
    hide Signature, ConstraintName;
    forall f, n ensures Maps(ForeignKeys(ga, ga.keys).m, f, n) <==> Maps(ForeignKeys(gb, gb.keys).m, f, n) {
      ForeignKeysMeaning(ga, ga.keys, f, n);
      ForeignKeysMeaning(gb, gb.keys, f, n);
      hide ForeignKeys, Maps;
    }
    SameMaps(ForeignKeys(ga, ga.keys).m, ForeignKeys(gb, gb.keys).m);
  }

  lemma {:induction false} ForeignKeysReordered(a: seq<Option<NamedEdge>>, b: seq<Option<NamedEdge>>)
    requires multiset(a) == multiset(b) && UniqueParts(a) && UniqueSignatures(Groups(a).m)
    ensures Groups(a).Valid() && Groups(b).Valid()
    ensures ForeignKeys(Groups(a), Groups(a).keys).m == ForeignKeys(Groups(b), Groups(b).keys).m
  {
    GroupsValid(a);
    GroupsValid(b);
    hide Groups, Signature, ForeignKeys, UniqueParts, UniqueSignatures;
    forall g ensures g in Groups(a).m <==> g in Groups(b).m
      ensures g in Groups(a).m ==> Signature(g, Groups(a).m[g]) == Signature(g, Groups(b).m[g])
    {
      GroupsReordered(a, b, g);
    }
    SameForeignKeys(Groups(a), Groups(b));
  }

  /** Reordering the resolved rows does not change the index. */
  lemma {:induction false} ReorderingIsInvisible(a: Named, b: Named)
    requires ReorderedNamed(a, b) && UniqueNames(a)
    ensures SameIndex(IndexOf(a), IndexOf(b))
  {
    CommentsReordered(a.relations, b.relations);
    ForeignKeysReordered(a.edges, b.edges);
    hide Comments, ColumnsOf, PrimaryKey, ForeignKeys, Groups, UniqueColumns, UniqueOrdinals;
    forall k ensures ColumnsOf(k, a.columns).m == ColumnsOf(k, b.columns).m {
      ColumnsReordered(k, a.columns, b.columns);
    }
    forall k ensures PrimaryKey(k, a.pks) == PrimaryKey(k, b.pks) {
      PrimaryKeyReordered(k, a.pks, b.pks);
    }
  }

  // ---- from rows to resolved rows

  ghost predicate UniqueOids(rows: Rows) {
    forall a, b :: a in rows.relations && b in rows.relations && a.oid == b.oid ==> a == b
  }

  lemma {:induction false} OidsMeaning(rels: seq<RelationRow>, o: int, k: TableKey)
    requires forall a, b :: a in rels && b in rels && a.oid == b.oid ==> a == b
    ensures Maps(OidToTable(rels), o, k) <==> exists r :: r in rels && r.oid == o && r.key == k
  {
    if rels != [] {
      var init, last := rels[..|rels| - 1], rels[|rels| - 1];
      assert rels == init + [last];
      OidsMeaning(init, o, k);
    }
  }

  lemma {:induction false} ResolveReordered(a: Rows, b: Rows)
    requires Reordered(a, b) && UniqueOids(a)
    ensures ReorderedNamed(Resolve(a), Resolve(b))
  {
    var byOid := OidToTable(a.relations);
    SameElements(a.relations, b.relations);
    forall o, k ensures Maps(byOid, o, k) <==> Maps(OidToTable(b.relations), o, k) {
      OidsMeaning(a.relations, o, k);
      OidsMeaning(b.relations, o, k);
    }
    SameMaps(byOid, OidToTable(b.relations));
    MapReordered(NameRelation, a.relations, b.relations);
    MapReordered(r => NameColumn(byOid, r), a.columns, b.columns);
    MapReordered(r => NamePk(byOid, r), a.pks, b.pks);
    MapReordered(r => NameEdge(byOid, r), a.fks, b.fks);
  }

  /** A second introspection of the same schema: new oids, and the rows in any order. */
  ghost predicate Reintrospected(f: int -> int, first: Rows, second: Rows) {
    InjectiveOn(f, Oids(first)) && Reordered(Rename(f, first), second)
  }

  lemma {:induction false} ReintrospectionSameIndex(f: int -> int, first: Rows, second: Rows)
    requires Reintrospected(f, first, second) && UniqueOids(first) && UniqueNames(Resolve(first))
    ensures SameIndex(IndexOf(Resolve(first)), IndexOf(Resolve(second)))
  {
    hide UniqueNames, OidToTable, IndexOf;
    RenamingIsInvisible(f, first);
    RenameKeepsUniqueOids(f, first);
    ResolveReordered(Rename(f, first), second);
    ReorderingIsInvisible(Resolve(first), Resolve(second));
  }

  lemma {:induction false} RenamedRelation(f: int -> int, rows: Rows, a: RelationRow) returns (r: RelationRow)
    requires a in Rename(f, rows).relations
    ensures r in rows.relations && a == r.(oid := f(r.oid)) && r.oid in Oids(rows)
  {
    var rels' := Rename(f, rows).relations;
    var i :| 0 <= i < |rels'| && rels'[i] == a;
    r := rows.relations[i];
  }

  lemma {:induction false} RenameKeepsUniqueOids(f: int -> int, rows: Rows)
    requires InjectiveOn(f, Oids(rows)) && UniqueOids(rows)
    ensures UniqueOids(Rename(f, rows))
  {
    hide Rename, Oids;
    var rels' := Rename(f, rows).relations;
    forall a, b | a in rels' && b in rels' && a.oid == b.oid ensures a == b {
      var r := RenamedRelation(f, rows, a);
      var q := RenamedRelation(f, rows, b);
    }
  }

  // ---------------------------------------------------------------- no difference

  /** The same tables, columns, primary keys, comments and foreign keys; constraint names aside. */
  ghost predicate NoDifference(b: Index, t: Index) {
    && b.tables.m.Keys == t.tables.m.Keys
    && (forall k :: k in b.tables.m ==> SameTable(b.tables.m[k], t.tables.m[k]))
    && b.fks.m.Keys == t.fks.m.Keys
  }

  /** A schema read twice has no changes. */
  lemma {:induction false} ReintrospectionHasNoChanges(f: int -> int, first: Rows, second: Rows)
    requires Reintrospected(f, first, second) && UniqueOids(first) && UniqueNames(Resolve(first))
    ensures NoDifference(IndexOf(Resolve(first)), IndexOf(Resolve(second)))
  {
    ReintrospectionSameIndex(f, first, second);
    hide IndexOf, Resolve, UniqueNames;
  }
}
