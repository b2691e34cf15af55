/**
 Building the name-keyed index from the rows of a snapshot, backend/app/diff/schema_diff.py.

 The rows refer to relations by oid, and oids change with every introspection. The specification first
 resolves the oids to names (`Resolve`) and then builds the index from the resolved rows (`IndexOf`).
 */
module SchemaIndex {
  import opened Dicts
  import opened Orders
  import opened Snapshots

  datatype RelationRow = RelationRow(oid: int, key: TableKey, comment: Option<string>)

  datatype ColumnRow = ColumnRow(oid: int, name: Option<string>, column: Column)

  datatype PkRow = PkRow(oid: int, name: Option<string>, ordinal: Option<int>)

  datatype FkRow = FkRow(
    childOid: int, parentOid: int, constraint: string, ordinal: Option<int>, childColumn: string, parentColumn: string)

  datatype Rows = Rows(relations: seq<RelationRow>, columns: seq<ColumnRow>, pks: seq<PkRow>, fks: seq<FkRow>)

  /** The group that an edge of a foreign key belongs to. */
  datatype Group = Group(child: TableKey, parent: TableKey, constraint: string)

  datatype Part = Part(ordinal: int, childColumn: string, parentColumn: string)

  datatype KeyPart = KeyPart(ordinal: int, name: string)

  /** Rows whose oids have been looked up; None for a row that the source skips. */
  datatype NamedColumn = NamedColumn(table: TableKey, name: string, column: Column)

  datatype NamedPk = NamedPk(table: TableKey, name: string, ordinal: Option<int>)

  datatype NamedEdge = NamedEdge(group: Group, part: Part)

  datatype Named = Named(
    relations: seq<(TableKey, Option<string>)>,
    columns: seq<Option<NamedColumn>>,
    pks: seq<Option<NamedPk>>,
    edges: seq<Option<NamedEdge>>)

  function EmptyDict<K, V>(): Dict<K, V> {
    Dict([], map[])
  }

  // ---------------------------------------------------------------- resolving oids

  function OidToTable(rels: seq<RelationRow>): map<int, TableKey> {
    if rels == [] then map[]
    else
      var last := rels[|rels| - 1];
      OidToTable(rels[..|rels| - 1])[last.oid := last.key]
  }

  function NameRelation(r: RelationRow): (TableKey, Option<string>) {
    (r.key, r.comment)
  }

  function NameColumn(byOid: map<int, TableKey>, r: ColumnRow): Option<NamedColumn> {
    if r.oid in byOid && r.name.Some? then Some(NamedColumn(byOid[r.oid], r.name.value, r.column)) else None
  }

  function NamePk(byOid: map<int, TableKey>, r: PkRow): Option<NamedPk> {
    if r.oid in byOid && r.name.Some? then Some(NamedPk(byOid[r.oid], r.name.value, r.ordinal)) else None
  }

  function NameEdge(byOid: map<int, TableKey>, r: FkRow): Option<NamedEdge> {
    if r.childOid in byOid && r.parentOid in byOid then
      Some(NamedEdge(Group(byOid[r.childOid], byOid[r.parentOid], r.constraint),
                     Part(if r.ordinal.Some? then r.ordinal.value else 0, r.childColumn, r.parentColumn)))
    else None
  }

  function Map<A, B>(f: A -> B, s: seq<A>): (r: seq<B>)
    ensures |r| == |s| && forall i :: 0 <= i < |s| ==> r[i] == f(s[i])
  {
    seq(|s|, i requires 0 <= i < |s| => f(s[i]))
  }

  function Resolve(rows: Rows): Named {
    var byOid := OidToTable(rows.relations);
    Named(Map(NameRelation, rows.relations),
          Map(r => NameColumn(byOid, r), rows.columns),
          Map(r => NamePk(byOid, r), rows.pks),
          Map(r => NameEdge(byOid, r), rows.fks))
  }

  // ---------------------------------------------------------------- building the index

  /** The tables with their comments; a later row with the same name replaces an earlier one. */
  function Comments(rels: seq<(TableKey, Option<string>)>): Dict<TableKey, Option<string>> {
    if rels == [] then EmptyDict()
    else
      var last := rels[|rels| - 1];
      Comments(rels[..|rels| - 1]).Put(last.0, last.1)
  }

  function ColumnsOf(k: TableKey, cols: seq<Option<NamedColumn>>): Dict<string, Column> {
    if cols == [] then EmptyDict()
    else
      var last, rest := cols[|cols| - 1], ColumnsOf(k, cols[..|cols| - 1]);
      if last.Some? && last.value.table == k then rest.Put(last.value.name, last.value.column) else rest
  }

  /** The parts of a table's primary key in row order; a part without an ordinal gets its position. */
  function KeyParts(k: TableKey, pks: seq<Option<NamedPk>>): seq<KeyPart> {
    if pks == [] then []
    else
      var last, rest := pks[|pks| - 1], KeyParts(k, pks[..|pks| - 1]);
      if last.Some? && last.value.table == k
      then rest + [KeyPart(if last.value.ordinal.Some? then last.value.ordinal.value else |rest|, last.value.name)]
      else rest
  }

  predicate KeyPartLe(a: KeyPart, b: KeyPart) {
    a.ordinal <= b.ordinal
  }

  predicate PartLe(a: Part, b: Part) {
    a.ordinal <= b.ordinal
  }

  function NamesInOrder(parts: seq<KeyPart>): seq<string> {
    Map((p: KeyPart) => p.name, Sort(KeyPartLe, parts))
  }

  function PrimaryKey(k: TableKey, pks: seq<Option<NamedPk>>): seq<string> {
    NamesInOrder(KeyParts(k, pks))
  }

  function Groups(edges: seq<Option<NamedEdge>>): Dict<Group, seq<Part>> {
    if edges == [] then EmptyDict()
    else
      var last, rest := edges[|edges| - 1], Groups(edges[..|edges| - 1]);
      if last.None? then rest
      else
        var g := last.value.group;
        rest.Put(g, (if g in rest.m then rest.m[g] else []) + [last.value.part])
  }

  function Signature(g: Group, parts: seq<Part>): FkSignature {
    var sorted := Sort(PartLe, parts);
    FkSignature(g.child, Map((p: Part) => p.childColumn, sorted), g.parent, Map((p: Part) => p.parentColumn, sorted))
  }

  function ConstraintName(g: Group): Option<string> {
    if g.constraint == "" then None else Some(g.constraint)
  }

  function ForeignKeys(groups: Dict<Group, seq<Part>>, gs: seq<Group>): Dict<FkSignature, Option<string>>
    requires forall g :: g in gs ==> g in groups.m
  {
    if gs == [] then EmptyDict()
    else
      var g := gs[|gs| - 1];
      ForeignKeys(groups, gs[..|gs| - 1]).Put(Signature(g, groups.m[g]), ConstraintName(g))
  }

  lemma {:induction false} PutValid<K, V>(d: Dict<K, V>, k: K, v: V)
    requires d.Valid()
    ensures d.Put(k, v).Valid()
  {
  }

  lemma {:induction false} GroupsValid(edges: seq<Option<NamedEdge>>)
    ensures Groups(edges).Valid()
  {
    if edges != [] {
      GroupsValid(edges[..|edges| - 1]);
    }
  }

  function IndexOf(n: Named): Index {
    var comments, groups := Comments(n.relations), Groups(n.edges);
    GroupsValid(n.edges);
    Index(Dict(comments.keys,
               map k | k in comments.m :: Table(comments.m[k], ColumnsOf(k, n.columns), PrimaryKey(k, n.pks))),
          ForeignKeys(groups, groups.keys))
  }

  // ---------------------------------------------------------------- the loops of the source

  /** The tables with nothing but their comments. */
  ghost predicate BareTables(comments: Dict<TableKey, Option<string>>, tables: Dict<TableKey, Table>) {
    && tables.keys == comments.keys && tables.m.Keys == comments.m.Keys
    && forall k :: k in comments.m ==> tables.m[k] == Table(comments.m[k], EmptyDict(), [])
  }

  method ReadRelations(rels: seq<RelationRow>)
    returns (byOid: map<int, TableKey>, tables: Dict<TableKey, Table>)
    ensures byOid == OidToTable(rels)
    ensures BareTables(Comments(Map(NameRelation, rels)), tables)
  {
    byOid, tables := map[], EmptyDict();
    ghost var named := Map(NameRelation, rels);
    for i := 0 to |rels|
      invariant byOid == OidToTable(rels[..i])
      invariant BareTables(Comments(named[..i]), tables)
    {
      assert rels[..i + 1][..i] == rels[..i] && named[..i + 1][..i] == named[..i];
      var rel := rels[i];
      byOid := byOid[rel.oid := rel.key];
      tables := tables.Put(rel.key, Table(rel.comment, EmptyDict(), []));
    }
    assert rels[..|rels|] == rels && named[..|rels|] == named;
  }

  /** Each table filled with the columns that the given rows put there. */
  ghost predicate FilledColumns(start: Dict<TableKey, Table>, tables: Dict<TableKey, Table>,
    cols: seq<Option<NamedColumn>>) {
    && tables.keys == start.keys && tables.m.Keys == start.m.Keys
    && forall k :: k in start.m ==> tables.m[k] == start.m[k].(columns := ColumnsOf(k, cols))
  }

  method ReadColumns(byOid: map<int, TableKey>, start: Dict<TableKey, Table>, rows: seq<ColumnRow>)
    returns (tables: Dict<TableKey, Table>)
    requires byOid.Values <= start.m.Keys
    requires forall k :: k in start.m ==> start.m[k].columns == EmptyDict()
    ensures FilledColumns(start, tables, Map(r => NameColumn(byOid, r), rows))
  {
    tables := start;
    ghost var named := Map(r => NameColumn(byOid, r), rows);
    for i := 0 to |rows|
      invariant FilledColumns(start, tables, named[..i])
    {
      assert named[..i + 1][..i] == named[..i];
      var col := rows[i];
      if col.oid !in byOid {
        continue;
      }
      var k := byOid[col.oid];
      if col.name.None? {
        continue;
      }
      var t := tables.m[k];
      tables := Dict(tables.keys, tables.m[k := t.(columns := t.columns.Put(col.name.value, col.column))]);
    }
    assert named[..|rows|] == named;
  }

  /** The parts of the primary keys read so far; a table without any has no entry. */
  ghost predicate KeysRead(parts: Dict<TableKey, seq<KeyPart>>, pks: seq<Option<NamedPk>>, tables: set<TableKey>) {
    && parts.Valid() && parts.m.Keys <= tables
    && forall k :: k in tables ==> KeyParts(k, pks) == if k in parts.m then parts.m[k] else []
  }

  method ReadPrimaryKeys(byOid: map<int, TableKey>, tables: set<TableKey>, rows: seq<PkRow>)
    returns (parts: Dict<TableKey, seq<KeyPart>>)
    requires byOid.Values <= tables
    ensures KeysRead(parts, Map(r => NamePk(byOid, r), rows), tables)
  {
    parts := EmptyDict();
    ghost var named := Map(r => NamePk(byOid, r), rows);
    for i := 0 to |rows|
      invariant KeysRead(parts, named[..i], tables)
    {
      assert named[..i + 1][..i] == named[..i];
      var pk := rows[i];
      if pk.oid !in byOid || pk.name.None? {
        continue;
      }
      var k := byOid[pk.oid];
      var sofar := if k in parts.m then parts.m[k] else [];
      var ordinal := if pk.ordinal.Some? then pk.ordinal.value else |sofar|;
      PutValid(parts, k, sofar + [KeyPart(ordinal, pk.name.value)]);
      parts := parts.Put(k, sofar + [KeyPart(ordinal, pk.name.value)]);
    }
    assert named[..|rows|] == named;
  }

  /** Each table with the primary key read for it, for the tables of ks. */
  ghost predicate FilledKeys(start: Dict<TableKey, Table>, tables: Dict<TableKey, Table>,
                             parts: map<TableKey, seq<KeyPart>>, ks: set<TableKey>)
    requires ks <= parts.Keys
  {
    && tables.keys == start.keys && tables.m.Keys == start.m.Keys
    && (forall k :: k in start.m && k in ks ==> tables.m[k] == start.m[k].(pk := NamesInOrder(parts[k])))
    && (forall k :: k in start.m && k !in ks ==> tables.m[k] == start.m[k])
  }

  lemma {:induction false} NoKeysSet(start: Dict<TableKey, Table>, parts: map<TableKey, seq<KeyPart>>)
    ensures FilledKeys(start, start, parts, {})
  {
    hide NamesInOrder;
  }

  lemma {:induction false} OneKeySet(start: Dict<TableKey, Table>, tables: Dict<TableKey, Table>,
    parts: map<TableKey, seq<KeyPart>>, done: set<TableKey>, k: TableKey)
    requires done <= parts.Keys <= start.m.Keys && FilledKeys(start, tables, parts, done) && k in parts && k !in done
    ensures k in tables.m
    ensures FilledKeys(start, Dict(tables.keys, tables.m[k := tables.m[k].(pk := NamesInOrder(parts[k]))]), parts,
      done + {k})
  {
    hide NamesInOrder;
  }

  method SetPrimaryKeys(start: Dict<TableKey, Table>, parts: Dict<TableKey, seq<KeyPart>>)
    returns (tables: Dict<TableKey, Table>)
    requires parts.Valid() && parts.m.Keys <= start.m.Keys
    ensures FilledKeys(start, tables, parts.m, parts.m.Keys)
  {
    hide NamesInOrder, FilledKeys;
    tables := start;
    ghost var done: set<TableKey> := {};
    NoKeysSet(start, parts.m);
    for i := 0 to |parts.keys|
      invariant done == set j | 0 <= j < i :: parts.keys[j]
      invariant done <= parts.m.Keys && FilledKeys(start, tables, parts.m, done)
    {
      var k := parts.keys[i];
      assert k in parts.m;
      OneKeySet(start, tables, parts.m, done, k);
      tables := Dict(tables.keys, tables.m[k := tables.m[k].(pk := NamesInOrder(parts.m[k]))]);
      done := done + {k};
    }
    assert done == parts.m.Keys;
  }

  method ReadForeignKeys(byOid: map<int, TableKey>, rows: seq<FkRow>) returns (groups: Dict<Group, seq<Part>>)
    ensures groups == Groups(Map(r => NameEdge(byOid, r), rows))
  {
    groups := EmptyDict();
    ghost var named := Map(r => NameEdge(byOid, r), rows);
    for i := 0 to |rows|
      invariant groups == Groups(named[..i])
    {
      assert named[..i + 1][..i] == named[..i];
      var edge := rows[i];
      if edge.childOid !in byOid || edge.parentOid !in byOid {
        continue;
      }
      var g := Group(byOid[edge.childOid], byOid[edge.parentOid], edge.constraint);
      var ordinal := if edge.ordinal.Some? then edge.ordinal.value else 0;
      groups := groups.Put(g, (if g in groups.m then groups.m[g] else [])
                              + [Part(ordinal, edge.childColumn, edge.parentColumn)]);
    }
    assert named[..|rows|] == named;
  }

  lemma {:induction false} ForeignKeysSnoc(groups: Dict<Group, seq<Part>>, gs: seq<Group>, g: Group)
    requires g in groups.m && forall x :: x in gs ==> x in groups.m
    ensures forall x :: x in gs + [g] ==> x in groups.m
    ensures ForeignKeys(groups, gs + [g]) == ForeignKeys(groups, gs).Put(Signature(g, groups.m[g]), ConstraintName(g))
  {
    hide Signature, ConstraintName;
    assert (gs + [g])[..|gs|] == gs;
  }

  lemma {:induction false} ForeignKeysStep(groups: Dict<Group, seq<Part>>, i: int)
    requires groups.Valid() && 0 <= i < |groups.keys|
    ensures groups.keys[i] in groups.m
    ensures forall g :: g in groups.keys[..i + 1] ==> g in groups.m
    ensures ForeignKeys(groups, groups.keys[..i + 1]) ==
      ForeignKeys(groups, groups.keys[..i]).Put(
        Signature(groups.keys[i], groups.m[groups.keys[i]]), ConstraintName(groups.keys[i]))
  {
    hide Signature, ConstraintName, ForeignKeys;
    assert groups.keys[i] in groups.keys;
    assert forall g :: g in groups.keys[..i] ==> g in groups.keys;
    ForeignKeysSnoc(groups, groups.keys[..i], groups.keys[i]);
    assert groups.keys[..i] + [groups.keys[i]] == groups.keys[..i + 1];
  }

  method SignForeignKeys(groups: Dict<Group, seq<Part>>) returns (fks: Dict<FkSignature, Option<string>>)
    requires groups.Valid()
    ensures fks == ForeignKeys(groups, groups.keys)
  {
    fks := EmptyDict();
    assert fks == ForeignKeys(groups, groups.keys[..0]);
    hide ForeignKeys, Signature, ConstraintName;
    for i := 0 to |groups.keys|
      invariant fks == ForeignKeys(groups, groups.keys[..i])
    {
      ForeignKeysStep(groups, i);
      var g := groups.keys[i];
      fks := fks.Put(Signature(g, groups.m[g]), ConstraintName(g));
    }
    assert groups.keys[..|groups.keys|] == groups.keys;
  }

  lemma {:induction false} OidsLead(rels: seq<RelationRow>)
    ensures OidToTable(rels).Values <= Comments(Map(NameRelation, rels)).m.Keys
  {
    if rels != [] {
      var named := Map(NameRelation, rels);
      var init := rels[..|rels| - 1];
      OidsLead(init);
      assert named[..|rels| - 1] == Map(NameRelation, init);
      forall k | k in OidToTable(rels).Values ensures k in Comments(named).m {
        if k != rels[|rels| - 1].key {
          assert k in OidToTable(init).Values;
        }
      }
    }
  }

  method IndexSnapshot(rows: Rows) returns (ix: Index)
    ensures ix == IndexOf(Resolve(rows))
  {
    hide OidToTable, Comments, ColumnsOf, KeyParts, Groups, ForeignKeys, NamesInOrder;
    var byOid, tables := ReadRelations(rows.relations);
    OidsLead(rows.relations);
    tables := ReadColumns(byOid, tables, rows.columns);
    var parts := ReadPrimaryKeys(byOid, tables.m.Keys, rows.pks);
    tables := SetPrimaryKeys(tables, parts);
    var groups := ReadForeignKeys(byOid, rows.fks);
    GroupsValid(Resolve(rows).edges);
    var fks := SignForeignKeys(groups);
    ix := Index(tables, fks);
    NoNames();
    SameTables(rows, tables);
  }

  /** The tables of the specification, filled step by step. */
  lemma {:induction false} SameTables(rows: Rows, tables: Dict<TableKey, Table>)
    requires var n := Resolve(rows); var comments := Comments(n.relations);
      && tables.keys == comments.keys && tables.m.Keys == comments.m.Keys
      && forall k :: k in comments.m ==>
        tables.m[k] == Table(comments.m[k], ColumnsOf(k, n.columns), PrimaryKey(k, n.pks))
    ensures tables == IndexOf(Resolve(rows)).tables
  {
    hide Resolve, Comments, ColumnsOf, PrimaryKey, ForeignKeys, Groups;
    assert tables.m == IndexOf(Resolve(rows)).tables.m;
  }

  lemma {:induction false} NoNames()
    ensures NamesInOrder([]) == []
  {
  }
}
