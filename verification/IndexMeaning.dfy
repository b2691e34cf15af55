/**
 What the index of backend/app/diff/schema_diff.py holds, said of the rows of the snapshot alone: which row each
 table, column, key column and foreign key comes from, and in which order.
 */
module IndexMeaning {
  import opened Dicts
  import opened Lists
  import opened Orders
  import opened SchemaIndex
  import opened Snapshots

  // ---------------------------------------------------------------- oids

  /** The i-th row is the last relation row with the oid. */
  ghost predicate LastWithOid(rels: seq<RelationRow>, i: nat, oid: int) {
    i < |rels| && rels[i].oid == oid && forall j :: i < j < |rels| ==> rels[j].oid != oid
  }

  /** The oid stands for the table of the last relation row with it. */
  ghost predicate Names(rels: seq<RelationRow>, oid: int, k: TableKey) {
    exists i: nat :: LastWithOid(rels, i, oid) && rels[i].key == k
  }

  lemma {:induction false} NamesIff(rels: seq<RelationRow>, oid: int, k: TableKey)
    ensures Names(rels, oid, k) <==> oid in OidToTable(rels) && OidToTable(rels)[oid] == k
  {
    if rels != [] {
      var n := |rels| - 1;
      NamesIff(rels[..n], oid, k);
      if rels[n].oid == oid {
        assert LastWithOid(rels, n, oid);
      } else {
        forall i: nat ensures LastWithOid(rels, i, oid) <==> LastWithOid(rels[..n], i, oid) {
        }
      }
    }
  }

  // ---------------------------------------------------------------- tables

  /** The i-th row is the last one for the table, and has the comment. */
  ghost predicate GivesComment(rels: seq<RelationRow>, i: nat, k: TableKey, c: Option<string>) {
    && i < |rels| && rels[i].key == k && rels[i].comment == c
    && forall j :: i < j < |rels| ==> rels[j].key != k
  }

  lemma {:induction false} CommentFrom(rels: seq<RelationRow>, k: TableKey, c: Option<string>)
    ensures var m := Comments(Map(NameRelation, rels)).m;
      k in m && m[k] == c <==> exists i: nat :: GivesComment(rels, i, k, c)
  {
    if rels != [] {
      var n := |rels| - 1;
      CommentFrom(rels[..n], k, c);
      assert Map(NameRelation, rels)[..n] == Map(NameRelation, rels[..n]);
      if rels[n].key == k {
        assert GivesComment(rels, n, k, rels[n].comment);
      } else {
        forall i: nat ensures GivesComment(rels, i, k, c) <==> GivesComment(rels[..n], i, k, c) {
        }
      }
    }
  }

  /** The tables are those of the relation rows, each with the comment of its last row. */
  lemma {:induction false} TablesFromRows(rows: Rows, k: TableKey, c: Option<string>)
    ensures var tables := IndexOf(Resolve(rows)).tables.m;
      k in tables && tables[k].comment == c <==> exists i: nat :: GivesComment(rows.relations, i, k, c)
  {
    CommentFrom(rows.relations, k, c);
    hide Comments, ColumnsOf, PrimaryKey, ForeignKeys, GivesComment;
  }

  // ---------------------------------------------------------------- columns

  /** The row is one for column c of table k. */
  ghost predicate IsColumnRow(rels: seq<RelationRow>, row: ColumnRow, k: TableKey, c: string) {
    row.name == Some(c) && Names(rels, row.oid, k)
  }

  /** The i-th row is the last one for column c of table k, and says what the column is. */
  ghost predicate Describes(rels: seq<RelationRow>, cols: seq<ColumnRow>, i: nat, k: TableKey, c: string,
                            column: Column) {
    && i < |cols| && IsColumnRow(rels, cols[i], k, c) && cols[i].column == column
    && forall j :: i < j < |cols| ==> !IsColumnRow(rels, cols[j], k, c)
  }

  lemma {:induction false} NamedColumnIff(rels: seq<RelationRow>, row: ColumnRow, k: TableKey, c: string)
    ensures IsColumnRow(rels, row, k, c) <==> NameColumn(OidToTable(rels), row) == Some(NamedColumn(k, c, row.column))
  {
    NamesIff(rels, row.oid, k);
    hide OidToTable, Names;
  }

  lemma {:induction false} ColumnFrom(rels: seq<RelationRow>, cols: seq<ColumnRow>, k: TableKey, c: string,
                                      column: Column)
    ensures var m := ColumnsOf(k, Map(r => NameColumn(OidToTable(rels), r), cols)).m;
      c in m && m[c] == column <==> exists i: nat :: Describes(rels, cols, i, k, c, column)
  {
    hide OidToTable, IsColumnRow;
    if cols != [] {
      var n := |cols| - 1;
      var last := cols[n];
      ColumnFrom(rels, cols[..n], k, c, column);
      assert Map(r => NameColumn(OidToTable(rels), r), cols)[..n] ==
        Map(r => NameColumn(OidToTable(rels), r), cols[..n]);
      NamedColumnIff(rels, last, k, c);
      if IsColumnRow(rels, last, k, c) {
        assert Describes(rels, cols, n, k, c, last.column);
      } else {
        forall i: nat ensures Describes(rels, cols, i, k, c, column) <==> Describes(rels, cols[..n], i, k, c, column) {
        }
      }
    }
  }

  /** The columns of a table are those of its column rows, each as its last row has it. */
  lemma {:induction false} ColumnsFromRows(rows: Rows, k: TableKey, c: string, column: Column)
    requires k in IndexOf(Resolve(rows)).tables.m
    ensures var columns := IndexOf(Resolve(rows)).tables.m[k].columns.m;
      c in columns && columns[c] == column <==>
      exists i: nat :: Describes(rows.relations, rows.columns, i, k, c, column)
  {
    ColumnFrom(rows.relations, rows.columns, k, c, column);
    hide Comments, ColumnsOf, PrimaryKey, ForeignKeys, Describes, OidToTable;
  }

  // ---------------------------------------------------------------- primary keys

  ghost predicate Ascending(at: seq<nat>) {
    forall i, j :: 0 <= i < j < |at| ==> at[i] < at[j]
  }

  /** The row is one for the primary key of the table. */
  ghost predicate IsKeyRow(rels: seq<RelationRow>, row: PkRow, k: TableKey) {
    row.name.Some? && Names(rels, row.oid, k)
  }

  /** The places of the table's key rows, in the order of the rows. */
  ghost predicate KeyRows(rels: seq<RelationRow>, pks: seq<PkRow>, k: TableKey, at: seq<nat>) {
    && Ascending(at) && (forall i :: 0 <= i < |at| ==> at[i] < |pks|)
    && forall i :: 0 <= i < |pks| ==> (i in at <==> IsKeyRow(rels, pks[i], k))
  }

  /** The ordinal of the m-th key row: as it stands there, or else the number of key rows before it. */
  function Ordinal(pks: seq<PkRow>, at: seq<nat>, m: nat): int
    requires m < |at| && at[m] < |pks|
  {
    if pks[at[m]].ordinal.Some? then pks[at[m]].ordinal.value else m
  }

  /** The names are those of the key rows, each once, in ascending ordinals, and with equal ones as the rows come. */
  ghost predicate InKeyOrder(pks: seq<PkRow>, at: seq<nat>, places: seq<nat>, names: seq<string>)
    requires forall i :: 0 <= i < |at| ==> at[i] < |pks|
  {
    && Positions(|at|, places) && |names| == |at|
    && (forall i :: 0 <= i < |names| ==> Some(names[i]) == pks[at[places[i]]].name)
    && forall i, j :: 0 <= i < j < |names| ==>
      || Ordinal(pks, at, places[i]) < Ordinal(pks, at, places[j])
      || (Ordinal(pks, at, places[i]) == Ordinal(pks, at, places[j]) && places[i] < places[j])
  }

  lemma {:induction false} NamedKeyIff(rels: seq<RelationRow>, row: PkRow, k: TableKey)
    ensures var n := NamePk(OidToTable(rels), row); IsKeyRow(rels, row, k) <==> n.Some? && n.value.table == k
    ensures IsKeyRow(rels, row, k) ==> NamePk(OidToTable(rels), row).value == NamedPk(k, row.name.value, row.ordinal)
  {
    NamesIff(rels, row.oid, k);
    hide OidToTable, Names;
  }

  function NamedPks(rels: seq<RelationRow>, pks: seq<PkRow>): (r: seq<Option<NamedPk>>)
    ensures |r| == |pks|
  {
    Map(r => NamePk(OidToTable(rels), r), pks)
  }

  lemma {:induction false} NamedPksInit(rels: seq<RelationRow>, pks: seq<PkRow>)
    requires pks != []
    ensures NamedPks(rels, pks)[..|pks| - 1] == NamedPks(rels, pks[..|pks| - 1])
    ensures NamedPks(rels, pks)[|pks| - 1] == NamePk(OidToTable(rels), pks[|pks| - 1])
  {
    hide NamePk, OidToTable;
  }

  /** The key parts are read off the key rows. */
  ghost predicate PartsRead(pks: seq<PkRow>, at: seq<nat>, parts: seq<KeyPart>) {
    && |parts| == |at|
    && (forall m :: 0 <= m < |at| ==> at[m] < |pks| && pks[at[m]].name.Some?)
    && forall m :: 0 <= m < |at| ==> parts[m] == KeyPart(Ordinal(pks, at, m), pks[at[m]].name.value)
  }

  lemma {:induction false} PartsReadMore(pks: seq<PkRow>, at: seq<nat>, parts: seq<KeyPart>)
    requires pks != [] && PartsRead(pks[..|pks| - 1], at, parts)
    ensures PartsRead(pks, at, parts)
    ensures pks[|pks| - 1].name.Some? ==>
      PartsRead(pks, at + [|pks| - 1], parts + [KeyPart(
        if pks[|pks| - 1].ordinal.Some? then pks[|pks| - 1].ordinal.value else |parts|, pks[|pks| - 1].name.value)])
  {
  }

  lemma {:induction false} KeyRowsSkip(rels: seq<RelationRow>, pks: seq<PkRow>, k: TableKey, at: seq<nat>)
    requires pks != [] && KeyRows(rels, pks[..|pks| - 1], k, at) && !IsKeyRow(rels, pks[|pks| - 1], k)
    ensures KeyRows(rels, pks, k, at)
  {
    hide IsKeyRow;
  }

  lemma {:induction false} KeyRowsAdd(rels: seq<RelationRow>, pks: seq<PkRow>, k: TableKey, at: seq<nat>)
    requires pks != [] && KeyRows(rels, pks[..|pks| - 1], k, at) && IsKeyRow(rels, pks[|pks| - 1], k)
    ensures KeyRows(rels, pks, k, at + [|pks| - 1])
  {
    hide IsKeyRow;
    var all := at + [|pks| - 1];
    assert forall i :: i in all <==> i in at || i == |pks| - 1;
  }

  lemma {:induction false} PartsFromRows(rels: seq<RelationRow>, pks: seq<PkRow>, k: TableKey) returns (at: seq<nat>)
    ensures KeyRows(rels, pks, k, at) && PartsRead(pks, at, KeyParts(k, NamedPks(rels, pks)))
  {
    hide IsKeyRow, NamePk, NamedPks, OidToTable, PartsRead, KeyRows;
    if pks == [] {
      at := [];
      NoParts(rels, k);
    } else {
      var n := |pks| - 1;
      at := PartsFromRows(rels, pks[..n], k);
      NamedPksInit(rels, pks);
      NamedKeyIff(rels, pks[n], k);
      var parts := KeyParts(k, NamedPks(rels, pks[..n]));
      PartsReadMore(pks, at, parts);
      if IsKeyRow(rels, pks[n], k) {
        assert pks[n].name.Some? by { KeyRowHasName(rels, pks[n], k); }
        assert KeyParts(k, NamedPks(rels, pks)) ==
          parts + [KeyPart(if pks[n].ordinal.Some? then pks[n].ordinal.value else |parts|, pks[n].name.value)];
        KeyRowsAdd(rels, pks, k, at);
        at := at + [n];
      } else {
        assert KeyParts(k, NamedPks(rels, pks)) == parts;
        KeyRowsSkip(rels, pks, k, at);
      }
    }
  }

  lemma {:induction false} KeyRowHasName(rels: seq<RelationRow>, row: PkRow, k: TableKey)
    requires IsKeyRow(rels, row, k)
    ensures row.name.Some?
  {
  }

  lemma {:induction false} NoParts(rels: seq<RelationRow>, k: TableKey)
    ensures KeyRows(rels, [], k, []) && PartsRead([], [], KeyParts(k, NamedPks(rels, [])))
  {
  }

  /** The primary key of a table, for any rows. */
  lemma {:induction false} KeyFromRows(rows: Rows, k: TableKey) returns (at: seq<nat>, places: seq<nat>)
    requires k in IndexOf(Resolve(rows)).tables.m
    ensures KeyRows(rows.relations, rows.pks, k, at)
    ensures InKeyOrder(rows.pks, at, places, IndexOf(Resolve(rows)).tables.m[k].pk)
  {
    at := PartsFromRows(rows.relations, rows.pks, k);
    var parts := KeyParts(k, NamedPks(rows.relations, rows.pks));
    places := Places(KeyPartLe, parts);
    SortArranges(KeyPartLe, parts);
    ArrangedNames(rows.pks, at, parts, places);
    assert IndexOf(Resolve(rows)).tables.m[k].pk == NamesInOrder(parts) by {
      hide KeyParts, Comments, ColumnsOf, ForeignKeys, NamesInOrder, OidToTable;
    }
  }

  lemma {:induction false} ArrangedNames(pks: seq<PkRow>, at: seq<nat>, parts: seq<KeyPart>, places: seq<nat>)
    requires PartsRead(pks, at, parts) && Arranges(KeyPartLe, parts, places, Sort(KeyPartLe, parts))
    ensures InKeyOrder(pks, at, places, NamesInOrder(parts))
  {
    hide Sort, Distinct;
    var sorted := Sort(KeyPartLe, parts);
    forall i, j | 0 <= i < j < |sorted| ensures
      || Ordinal(pks, at, places[i]) < Ordinal(pks, at, places[j])
      || (Ordinal(pks, at, places[i]) == Ordinal(pks, at, places[j]) && places[i] < places[j])
    {
      assert SortsBefore(KeyPartLe, parts, places[i], places[j]);
      assert parts[places[i]].ordinal == Ordinal(pks, at, places[i]);
    }
  }

  /** With ordinals on all key rows, all different, the key lists the rows' names in ascending ordinals. */
  lemma {:induction false} KeyAscends(rows: Rows, k: TableKey, i: nat, j: nat) returns (a: nat, b: nat)
    requires k in IndexOf(Resolve(rows)).tables.m && i < j < |IndexOf(Resolve(rows)).tables.m[k].pk|
    requires forall r :: 0 <= r < |rows.pks| && IsKeyRow(rows.relations, rows.pks[r], k) ==> rows.pks[r].ordinal.Some?
    requires forall r, q | 0 <= r < q < |rows.pks| ::
      IsKeyRow(rows.relations, rows.pks[r], k) && IsKeyRow(rows.relations, rows.pks[q], k) ==>
      rows.pks[r].ordinal != rows.pks[q].ordinal
    ensures a < |rows.pks| && IsKeyRow(rows.relations, rows.pks[a], k)
    ensures b < |rows.pks| && IsKeyRow(rows.relations, rows.pks[b], k)
    ensures rows.pks[a].name == Some(IndexOf(Resolve(rows)).tables.m[k].pk[i])
    ensures rows.pks[b].name == Some(IndexOf(Resolve(rows)).tables.m[k].pk[j])
    ensures rows.pks[a].ordinal.value < rows.pks[b].ordinal.value
  {
    var at, places := KeyFromRows(rows, k);
    hide IndexOf, Resolve, IsKeyRow;
    a, b := at[places[i]], at[places[j]];
    assert a in at && b in at;
  }

  // ---------------------------------------------------------------- foreign keys

  /** The row is an edge of the foreign key with these tables and this name. */
  ghost predicate IsEdgeRow(rels: seq<RelationRow>, row: FkRow, g: Group) {
    row.constraint == g.constraint && Names(rels, row.childOid, g.child) && Names(rels, row.parentOid, g.parent)
  }

  ghost predicate EdgeRows(rels: seq<RelationRow>, fks: seq<FkRow>, g: Group, at: seq<nat>) {
    && Ascending(at) && (forall i :: 0 <= i < |at| ==> at[i] < |fks|)
    && forall i :: 0 <= i < |fks| ==> (i in at <==> IsEdgeRow(rels, fks[i], g))
  }

  function EdgeOrdinal(row: FkRow): int {
    if row.ordinal.Some? then row.ordinal.value else 0
  }

  /** Each edge row gives one pair of columns, in ascending ordinals, and with equal ones as the rows come. */
  ghost predicate InEdgeOrder(fks: seq<FkRow>, at: seq<nat>, places: seq<nat>, f: FkSignature)
    requires forall i :: 0 <= i < |at| ==> at[i] < |fks|
  {
    && Positions(|at|, places) && |f.childColumns| == |at| == |f.parentColumns|
    && (forall i :: 0 <= i < |at| ==>
          f.childColumns[i] == fks[at[places[i]]].childColumn && f.parentColumns[i] == fks[at[places[i]]].parentColumn)
    && forall i, j :: 0 <= i < j < |at| ==>
      || EdgeOrdinal(fks[at[places[i]]]) < EdgeOrdinal(fks[at[places[j]]])
      || (EdgeOrdinal(fks[at[places[i]]]) == EdgeOrdinal(fks[at[places[j]]]) && places[i] < places[j])
  }

  /** The edge rows of the group, there is one, make up this foreign key. */
  ghost predicate IsForeignKey(rows: Rows, g: Group, at: seq<nat>, places: seq<nat>, f: FkSignature) {
    && at != [] && EdgeRows(rows.relations, rows.fks, g, at) && InEdgeOrder(rows.fks, at, places, f)
    && f.child == g.child && f.parent == g.parent
  }

  function NamedEdges(rels: seq<RelationRow>, fks: seq<FkRow>): (r: seq<Option<NamedEdge>>)
    ensures |r| == |fks|
  {
    Map(r => NameEdge(OidToTable(rels), r), fks)
  }

  lemma {:induction false} NamedEdgesInit(rels: seq<RelationRow>, fks: seq<FkRow>)
    requires fks != []
    ensures NamedEdges(rels, fks)[..|fks| - 1] == NamedEdges(rels, fks[..|fks| - 1])
    ensures NamedEdges(rels, fks)[|fks| - 1] == NameEdge(OidToTable(rels), fks[|fks| - 1])
  {
    hide NameEdge, OidToTable;
  }

  lemma {:induction false} NamedEdgeIff(rels: seq<RelationRow>, row: FkRow, g: Group)
    ensures var n := NameEdge(OidToTable(rels), row); IsEdgeRow(rels, row, g) <==> n.Some? && n.value.group == g
    ensures IsEdgeRow(rels, row, g) ==>
      NameEdge(OidToTable(rels), row).value.part == Part(EdgeOrdinal(row), row.childColumn, row.parentColumn)
  {
    NamesIff(rels, row.childOid, g.child);
    NamesIff(rels, row.parentOid, g.parent);
    hide OidToTable, Names;
  }

  /** The parts of a group are read off its edge rows. */
  ghost predicate EdgesRead(fks: seq<FkRow>, at: seq<nat>, parts: seq<Part>) {
    && |parts| == |at| && (forall m :: 0 <= m < |at| ==> at[m] < |fks|)
    && forall m :: 0 <= m < |at| ==>
      parts[m] == Part(EdgeOrdinal(fks[at[m]]), fks[at[m]].childColumn, fks[at[m]].parentColumn)
  }

  lemma {:induction false} EdgesReadMore(fks: seq<FkRow>, at: seq<nat>, parts: seq<Part>)
    requires fks != [] && EdgesRead(fks[..|fks| - 1], at, parts)
    ensures EdgesRead(fks, at, parts)
    ensures var row := fks[|fks| - 1];
      EdgesRead(fks, at + [|fks| - 1], parts + [Part(EdgeOrdinal(row), row.childColumn, row.parentColumn)])
  {
  }

  lemma {:induction false} EdgeRowsSkip(rels: seq<RelationRow>, fks: seq<FkRow>, g: Group, at: seq<nat>)
    requires fks != [] && EdgeRows(rels, fks[..|fks| - 1], g, at) && !IsEdgeRow(rels, fks[|fks| - 1], g)
    ensures EdgeRows(rels, fks, g, at)
  {
    hide IsEdgeRow;
  }

  lemma {:induction false} EdgeRowsAdd(rels: seq<RelationRow>, fks: seq<FkRow>, g: Group, at: seq<nat>)
    requires fks != [] && EdgeRows(rels, fks[..|fks| - 1], g, at) && IsEdgeRow(rels, fks[|fks| - 1], g)
    ensures EdgeRows(rels, fks, g, at + [|fks| - 1])
  {
    hide IsEdgeRow;
    var all := at + [|fks| - 1];
    assert forall i :: i in all <==> i in at || i == |fks| - 1;
  }

  function PartsOf(groups: map<Group, seq<Part>>, g: Group): seq<Part> {
    if g in groups then groups[g] else []
  }

  lemma {:induction false} NoEdges(rels: seq<RelationRow>, g: Group)
    ensures EdgeRows(rels, [], g, []) && EdgesRead([], [], PartsOf(Groups(NamedEdges(rels, [])).m, g))
  {
  }

  lemma {:induction false} GroupStep(edges: seq<Option<NamedEdge>>, g: Group)
    requires edges != []
    ensures var last, rest := edges[|edges| - 1], Groups(edges[..|edges| - 1]);
      && PartsOf(Groups(edges).m, g) ==
        PartsOf(rest.m, g) + (if last.Some? && last.value.group == g then [last.value.part] else [])
      && (g in Groups(edges).m <==> g in rest.m || (last.Some? && last.value.group == g))
  {
  }

  lemma {:induction false} EdgesFromRows(rels: seq<RelationRow>, fks: seq<FkRow>, g: Group) returns (at: seq<nat>)
    ensures EdgeRows(rels, fks, g, at) && EdgesRead(fks, at, PartsOf(Groups(NamedEdges(rels, fks)).m, g))
    ensures g in Groups(NamedEdges(rels, fks)).m <==> at != []
  {
    hide IsEdgeRow, NameEdge, NamedEdges, OidToTable, EdgesRead, EdgeRows, Groups, PartsOf;
    if fks == [] {
      at := [];
      NoEdges(rels, g);
      NoGroups(rels);
    } else {
      var n := |fks| - 1;
      at := EdgesFromRows(rels, fks[..n], g);
      NamedEdgesInit(rels, fks);
      NamedEdgeIff(rels, fks[n], g);
      GroupStep(NamedEdges(rels, fks), g);
      EdgesReadMore(fks, at, PartsOf(Groups(NamedEdges(rels, fks[..n])).m, g));
      if IsEdgeRow(rels, fks[n], g) {
        EdgeRowsAdd(rels, fks, g, at);
        at := at + [n];
      } else {
        EdgeRowsSkip(rels, fks, g, at);
        assert PartsOf(Groups(NamedEdges(rels, fks)).m, g) == PartsOf(Groups(NamedEdges(rels, fks[..n])).m, g);
      }
    }
  }

  lemma {:induction false} NoGroups(rels: seq<RelationRow>)
    ensures Groups(NamedEdges(rels, [])) == EmptyDict()
  {
  }

  /** There is one list of edge rows, and one order of them. */
  lemma {:induction false} EdgeRowsOnce(rels: seq<RelationRow>, fks: seq<FkRow>, g: Group, at: seq<nat>, to: seq<nat>)
    requires EdgeRows(rels, fks, g, at) && EdgeRows(rels, fks, g, to)
    ensures at == to
  {
    hide IsEdgeRow;
    var le := (a: nat, b: nat) => a <= b;
    assert Distinct(at) && Distinct(to);
    forall i ensures i in at <==> i in to {
      if i in at || i in to {
        assert i < |fks|;
      }
    }
    SameMultiset(at, to);
    SortedUnique(le, at, to);
  }

  lemma {:induction false} ArrangedColumns(fks: seq<FkRow>, g: Group, at: seq<nat>, parts: seq<Part>, places: seq<nat>)
    requires EdgesRead(fks, at, parts) && Arranges(PartLe, parts, places, Sort(PartLe, parts))
    ensures InEdgeOrder(fks, at, places, Signature(g, parts))
  {
    hide Sort, Distinct;
    var sorted := Sort(PartLe, parts);
    forall i, j | 0 <= i < j < |sorted| ensures
      || EdgeOrdinal(fks[at[places[i]]]) < EdgeOrdinal(fks[at[places[j]]])
      || (EdgeOrdinal(fks[at[places[i]]]) == EdgeOrdinal(fks[at[places[j]]]) && places[i] < places[j])
    {
      assert SortsBefore(PartLe, parts, places[i], places[j]);
      assert parts[places[i]].ordinal == EdgeOrdinal(fks[at[places[i]]]);
    }
  }

  lemma {:induction false} ColumnsArranged(fks: seq<FkRow>, g: Group, at: seq<nat>, parts: seq<Part>, places: seq<nat>,
    f: FkSignature)
    requires EdgesRead(fks, at, parts) && InEdgeOrder(fks, at, places, f)
    requires f.child == g.child && f.parent == g.parent
    ensures f == Signature(g, parts)
  {
    hide Sort;
    var sorted := seq(|parts|, i requires 0 <= i < |parts| && |places| == |parts| && places[i] < |parts| =>
      parts[places[i]]);
    assert Arranges(PartLe, parts, places, sorted) by { hide Distinct; }
    SortArranges(PartLe, parts);
    ArrangedOnce(PartLe, parts, places, sorted, Places(PartLe, parts), Sort(PartLe, parts));
    hide Arranges;
    var s := Signature(g, parts);
    assert f.childColumns == s.childColumns;
    assert f.parentColumns == s.parentColumns;
  }

  /** The signature of a group of edges is the foreign key that its rows make up. */
  lemma {:induction false} SignatureIff(rows: Rows, g: Group, f: FkSignature)
    ensures var groups := Groups(Resolve(rows).edges).m;
      (g in groups && f == Signature(g, groups[g])) <==> exists at, places :: IsForeignKey(rows, g, at, places, f)
  {
    var groups := Groups(NamedEdges(rows.relations, rows.fks)).m;
    assert Resolve(rows).edges == NamedEdges(rows.relations, rows.fks) by { hide OidToTable, NameEdge; }
    var at := EdgesFromRows(rows.relations, rows.fks, g);
    hide Groups, Resolve, NamedEdges, EdgeRows, EdgesRead, InEdgeOrder, Arranges;
    if g in groups && f == Signature(g, groups[g]) {
      var places := Places(PartLe, groups[g]);
      SortArranges(PartLe, groups[g]);
      ArrangedColumns(rows.fks, g, at, groups[g], places);
      EdgeRowsIn(rows.relations, rows.fks, g, at);
      assert IsForeignKey(rows, g, at, places, f) by { SignatureEnds(g, groups[g]); }
    }
    if to, places :| IsForeignKey(rows, g, to, places, f) {
      EdgeRowsOnce(rows.relations, rows.fks, g, at, to);
      ColumnsArranged(rows.fks, g, at, groups[g], places, f);
    }
  }

  lemma {:induction false} EdgeRowsIn(rels: seq<RelationRow>, fks: seq<FkRow>, g: Group, at: seq<nat>)
    requires EdgeRows(rels, fks, g, at)
    ensures forall i :: 0 <= i < |at| ==> at[i] < |fks|
  {
  }

  lemma {:induction false} SignatureEnds(g: Group, parts: seq<Part>)
    ensures Signature(g, parts).child == g.child && Signature(g, parts).parent == g.parent
  {
  }

  /** The last of the groups that make up a foreign key names it. */
  ghost predicate Named(groups: Dict<Group, seq<Part>>, gs: seq<Group>, i: nat, f: FkSignature, name: Option<string>)
    requires forall g :: g in gs ==> g in groups.m
  {
    && i < |gs| && Signature(gs[i], groups.m[gs[i]]) == f && name == ConstraintName(gs[i])
    && forall j :: i < j < |gs| ==> Signature(gs[j], groups.m[gs[j]]) != f
  }

  lemma {:induction false} NoForeignKeys(groups: Dict<Group, seq<Part>>)
    ensures ForeignKeys(groups, []).m == map[]
  {
  }

  lemma {:induction false} ForeignKeysStep(groups: Dict<Group, seq<Part>>, gs: seq<Group>)
    requires gs != [] && forall g :: g in gs ==> g in groups.m
    ensures var last := gs[|gs| - 1];
      ForeignKeys(groups, gs).m ==
        ForeignKeys(groups, gs[..|gs| - 1]).m[Signature(last, groups.m[last]) := ConstraintName(last)]
  {
    hide Signature, ConstraintName;
  }

  lemma {:induction false} NameOfGroup(groups: Dict<Group, seq<Part>>, gs: seq<Group>, f: FkSignature,
                                       name: Option<string>)
    requires forall g :: g in gs ==> g in groups.m
    ensures var fks := ForeignKeys(groups, gs).m;
      f in fks && fks[f] == name <==> exists i: nat :: Named(groups, gs, i, f, name)
  {
    hide Signature, ConstraintName, ForeignKeys;
    if gs == [] {
      NoForeignKeys(groups);
    } else {
      var n := |gs| - 1;
      ForeignKeysStep(groups, gs);
      NameOfGroup(groups, gs[..n], f, name);
      if Signature(gs[n], groups.m[gs[n]]) == f {
        assert Named(groups, gs, n, f, ConstraintName(gs[n]));
      } else {
        forall i: nat ensures Named(groups, gs, i, f, name) <==> Named(groups, gs[..n], i, f, name) {
        }
      }
    }
  }

  ghost predicate MakesUp(rows: Rows, g: Group, f: FkSignature) {
    exists at, places :: IsForeignKey(rows, g, at, places, f)
  }

  /** The first edge row of the group. */
  ghost predicate FirstRow(rels: seq<RelationRow>, fks: seq<FkRow>, g: Group, r: nat) {
    r < |fks| && IsEdgeRow(rels, fks[r], g) && forall q :: 0 <= q < r ==> !IsEdgeRow(rels, fks[q], g)
  }

  lemma {:induction false} KeysStep(edges: seq<Option<NamedEdge>>)
    requires edges != []
    ensures var last, rest := edges[|edges| - 1], Groups(edges[..|edges| - 1]);
      Groups(edges).keys ==
        if last.None? || last.value.group in rest.m then rest.keys else rest.keys + [last.value.group]
  {
  }

  /** A group of the first n rows has its first row there. */
  lemma {:induction false} FirstRowBefore(rels: seq<RelationRow>, fks: seq<FkRow>, g: Group, r: nat)
    requires fks != [] && FirstRow(rels, fks, g, r) && g in Groups(NamedEdges(rels, fks[..|fks| - 1])).m
    ensures FirstRow(rels, fks[..|fks| - 1], g, r)
  {
    var init := fks[..|fks| - 1];
    var at := EdgesFromRows(rels, init, g);
    hide IsEdgeRow, EdgesRead, Groups, NamedEdges;
    assert at[0] in at;
    assert IsEdgeRow(rels, fks[at[0]], g);
  }

  /** A group that is new has its first row at the end. */
  lemma {:induction false} FirstRowLast(rels: seq<RelationRow>, fks: seq<FkRow>, g: Group, r: nat)
    requires fks != [] && FirstRow(rels, fks, g, r) && g !in Groups(NamedEdges(rels, fks[..|fks| - 1])).m
    ensures r == |fks| - 1
  {
    var init := fks[..|fks| - 1];
    var at := EdgesFromRows(rels, init, g);
    hide IsEdgeRow, EdgesRead, Groups, NamedEdges;
    assert r < |init| ==> r in at;
  }

  /** The groups come in the order of their first rows. */
  lemma {:induction false} GroupsByFirstRow(rels: seq<RelationRow>, fks: seq<FkRow>, i: nat, j: nat, r: nat, q: nat)
    requires i < j < |Groups(NamedEdges(rels, fks)).keys|
    requires FirstRow(rels, fks, Groups(NamedEdges(rels, fks)).keys[i], r)
    requires FirstRow(rels, fks, Groups(NamedEdges(rels, fks)).keys[j], q)
    ensures r < q
  {
    hide Groups, NamedEdges, FirstRow, NameEdge;
    assert fks != [] by { NoGroups(rels); }
    var n := |fks| - 1;
    var edges, rest := NamedEdges(rels, fks), Groups(NamedEdges(rels, fks[..n]));
    NamedEdgesInit(rels, fks);
    KeysStep(edges);
    GroupsValid(NamedEdges(rels, fks[..n]));
    var g, h := Groups(edges).keys[i], Groups(edges).keys[j];
    assert rest.keys[i] == g && g in rest.keys;
    FirstRowBefore(rels, fks, g, r);
    if j < |rest.keys| {
      assert h in rest.keys;
      FirstRowBefore(rels, fks, h, q);
      GroupsByFirstRow(rels, fks[..n], i, j, r, q);
    } else {
      FirstRowLast(rels, fks, h, q);
      FirstRowIn(rels, fks[..n], g, r);
    }
  }

  lemma {:induction false} FirstRowIn(rels: seq<RelationRow>, fks: seq<FkRow>, g: Group, r: nat)
    requires FirstRow(rels, fks, g, r)
    ensures r < |fks|
  {
  }

  lemma {:induction false} FirstRowOf(rows: Rows, g: Group, f: FkSignature) returns (r: nat)
    requires MakesUp(rows, g, f)
    ensures FirstRow(rows.relations, rows.fks, g, r)
  {
    hide InEdgeOrder, IsEdgeRow;
    var at, places :| IsForeignKey(rows, g, at, places, f);
    r := at[0];
    assert at[0] in at;
    forall q | 0 <= q < r ensures !IsEdgeRow(rows.relations, rows.fks[q], g) {
      assert q !in at;
    }
  }

  /** Of the groups that make up the foreign key the one that starts last gives it its name. */
  ghost predicate GivesName(rows: Rows, g: Group, r: nat, f: FkSignature, name: Option<string>) {
    && MakesUp(rows, g, f) && FirstRow(rows.relations, rows.fks, g, r)
    && name == (if g.constraint == "" then None else Some(g.constraint))
    && forall h, q: nat :: MakesUp(rows, h, f) && FirstRow(rows.relations, rows.fks, h, q) ==> q <= r
  }

  /** The foreign keys are those that the edge rows of a group make up. */
  lemma {:induction false} ForeignKeysFromRows(rows: Rows, f: FkSignature, name: Option<string>)
    ensures var fks := IndexOf(Resolve(rows)).fks.m;
      f in fks && fks[f] == name <==> exists g, r: nat :: GivesName(rows, g, r, f, name)
  {
    var edges := Resolve(rows).edges;
    var groups := Groups(edges);
    GroupsValid(edges);
    assert edges == NamedEdges(rows.relations, rows.fks) by { hide OidToTable, NameEdge; }
    assert IndexOf(Resolve(rows)).fks == ForeignKeys(groups, groups.keys) by {
      hide Resolve, Comments, ColumnsOf, PrimaryKey, Groups, ForeignKeys;
    }
    hide Resolve, IndexOf, Groups, NamedEdges, ForeignKeys, Signature, MakesUp, FirstRow, Named;
    NameOfGroup(groups, groups.keys, f, name);
    if i: nat :| Named(groups, groups.keys, i, f, name) {
      NameIsLast(rows, groups, i, f, name);
    }
    if g, r: nat :| GivesName(rows, g, r, f, name) {
      LastIsName(rows, groups, g, r, f, name);
    }
  }

  lemma {:induction false} GroupIff(rows: Rows, g: Group, f: FkSignature)
    ensures var groups := Groups(Resolve(rows).edges);
      MakesUp(rows, g, f) <==> g in groups.keys && g in groups.m && f == Signature(g, groups.m[g])
  {
    SignatureIff(rows, g, f);
    GroupsValid(Resolve(rows).edges);
    hide Resolve, Groups, Signature, IsForeignKey;
  }

  lemma {:induction false} NameIsLast(rows: Rows, groups: Dict<Group, seq<Part>>, i: nat, f: FkSignature,
    name: Option<string>)
    requires groups == Groups(NamedEdges(rows.relations, rows.fks)) && groups == Groups(Resolve(rows).edges)
    requires groups.Valid() && Named(groups, groups.keys, i, f, name)
    ensures exists g, r: nat :: GivesName(rows, g, r, f, name)
  {
    hide Resolve, Groups, NamedEdges, Signature, MakesUp, FirstRow;
    var g := groups.keys[i];
    GroupIff(rows, g, f);
    var r := FirstRowOf(rows, g, f);
    forall h, q: nat | MakesUp(rows, h, f) && FirstRow(rows.relations, rows.fks, h, q) ensures q <= r {
      GroupIff(rows, h, f);
      var j: nat :| j < |groups.keys| && groups.keys[j] == h;
      if j == i {
        FirstRowOnce(rows.relations, rows.fks, g, r, q);
      } else {
        GroupsByFirstRow(rows.relations, rows.fks, j, i, q, r);
      }
    }
    assert GivesName(rows, g, r, f, name);
  }

  lemma {:induction false} FirstRowOnce(rels: seq<RelationRow>, fks: seq<FkRow>, g: Group, r: nat, q: nat)
    requires FirstRow(rels, fks, g, r) && FirstRow(rels, fks, g, q)
    ensures r == q
  {
    hide IsEdgeRow;
  }

  lemma {:induction false} LastIsName(rows: Rows, groups: Dict<Group, seq<Part>>, g: Group, r: nat, f: FkSignature,
    name: Option<string>)
    requires groups == Groups(NamedEdges(rows.relations, rows.fks)) && groups == Groups(Resolve(rows).edges)
    requires groups.Valid() && GivesName(rows, g, r, f, name)
    ensures exists i: nat :: Named(groups, groups.keys, i, f, name)
  {
    hide Resolve, Groups, NamedEdges, Signature, MakesUp, FirstRow;
    GroupIff(rows, g, f);
    var i: nat :| i < |groups.keys| && groups.keys[i] == g;
    forall j | i < j < |groups.keys| ensures Signature(groups.keys[j], groups.m[groups.keys[j]]) != f {
      var h := groups.keys[j];
      if Signature(h, groups.m[h]) == f {
        GroupIff(rows, h, f);
        var q := FirstRowOf(rows, h, f);
        GroupsByFirstRow(rows.relations, rows.fks, i, j, r, q);
      }
    }
    assert Named(groups, groups.keys, i, f, name);
  }

  // ---------------------------------------------------------------- the order of tables and columns

  /** The names, each where it comes first. */
  function Seen<K(==)>(names: seq<Option<K>>): seq<K> {
    if names == [] then []
    else
      var last, rest := names[|names| - 1], Seen(names[..|names| - 1]);
      if last.None? || last.value in rest then rest else rest + [last.value]
  }

  ghost predicate FirstAt<K>(names: seq<Option<K>>, k: K, r: nat) {
    r < |names| && names[r] == Some(k) && forall q :: 0 <= q < r ==> names[q] != Some(k)
  }

  lemma {:induction false} SeenIff<K>(names: seq<Option<K>>, k: K)
    ensures k in Seen(names) <==> exists r :: FirstAt(names, k, r)
  {
    if names != [] {
      var n := |names| - 1;
      SeenIff(names[..n], k);
      forall r: nat ensures FirstAt(names, k, r) <==>
        FirstAt(names[..n], k, r) || (r == n && names[n] == Some(k) && k !in Seen(names[..n]))
      {
        if r == n && names[n] == Some(k) && k !in Seen(names[..n]) {
          NotSeen(names[..n], k);
        }
      }
      if names[n] == Some(k) && k !in Seen(names[..n]) {
        assert FirstAt(names, k, n);
      }
    }
  }

  lemma {:induction false} NotSeen<K>(names: seq<Option<K>>, k: K)
    ensures k !in Seen(names) ==> Some(k) !in names
  {
    if names != [] {
      NotSeen(names[..|names| - 1], k);
      assert names == names[..|names| - 1] + [names[|names| - 1]];
    }
  }

  lemma {:induction false} SeenInOrder<K>(names: seq<Option<K>>, i: nat, j: nat, r: nat, q: nat)
    requires i < j < |Seen(names)| && FirstAt(names, Seen(names)[i], r) && FirstAt(names, Seen(names)[j], q)
    ensures r < q
  {
    var n := |names| - 1;
    var rest := Seen(names[..n]);
    var x, y := Seen(names)[i], Seen(names)[j];
    assert x == rest[i] && x in rest;
    SeenIff(names[..n], x);
    var first :| FirstAt(names[..n], x, first);
    assert first == r;
    if j < |rest| {
      assert y == rest[j] && y in rest;
      SeenIff(names[..n], y);
      var next :| FirstAt(names[..n], y, next);
      assert next == q;
      SeenInOrder(names[..n], i, j, r, q);
    } else {
      NotSeen(names[..n], y);
      forall m | 0 <= m < n ensures names[m] != Some(y) {
        assert names[..n][m] == names[m];
      }
    }
  }

  function TableNames(rels: seq<RelationRow>): seq<Option<TableKey>> {
    Map((r: RelationRow) => Some(r.key), rels)
  }

  lemma {:induction false} TablesSeen(rels: seq<RelationRow>)
    ensures var comments := Comments(Map(NameRelation, rels));
      comments.keys == Seen(TableNames(rels)) && forall k :: k in comments.m <==> k in comments.keys
  {
    if rels != [] {
      var n := |rels| - 1;
      TablesSeen(rels[..n]);
      assert Map(NameRelation, rels)[..n] == Map(NameRelation, rels[..n]);
      assert TableNames(rels)[..n] == TableNames(rels[..n]);
    }
  }

  /** The i-th row is the first one for the table. */
  ghost predicate FirstTableRow(rels: seq<RelationRow>, k: TableKey, i: nat) {
    i < |rels| && rels[i].key == k && forall j :: 0 <= j < i ==> rels[j].key != k
  }

  /** The tables of the index come in the order of their first rows. */
  lemma {:induction false} TablesByFirstRow(rows: Rows, i: nat, j: nat, r: nat, q: nat)
    requires i < j < |IndexOf(Resolve(rows)).tables.keys|
    requires FirstTableRow(rows.relations, IndexOf(Resolve(rows)).tables.keys[i], r)
    requires FirstTableRow(rows.relations, IndexOf(Resolve(rows)).tables.keys[j], q)
    ensures r < q
  {
    hide Comments, ColumnsOf, PrimaryKey, ForeignKeys, Seen;
    TablesSeen(rows.relations);
    SeenInOrder(TableNames(rows.relations), i, j, r, q);
  }

  function ColumnNames(rels: seq<RelationRow>, cols: seq<ColumnRow>, k: TableKey): seq<Option<string>> {
    Map(r => NameIn(NameColumn(OidToTable(rels), r), k), cols)
  }

  function NameIn(c: Option<NamedColumn>, k: TableKey): Option<string> {
    if c.Some? && c.value.table == k then Some(c.value.name) else None
  }

  lemma {:induction false} ColumnsSeen(rels: seq<RelationRow>, cols: seq<ColumnRow>, k: TableKey)
    ensures var columns := ColumnsOf(k, Map(r => NameColumn(OidToTable(rels), r), cols));
      columns.keys == Seen(ColumnNames(rels, cols, k)) && forall c :: c in columns.m <==> c in columns.keys
  {
    hide OidToTable, NameColumn;
    if cols != [] {
      var n := |cols| - 1;
      ColumnsSeen(rels, cols[..n], k);
      assert Map(r => NameColumn(OidToTable(rels), r), cols)[..n] ==
        Map(r => NameColumn(OidToTable(rels), r), cols[..n]);
      assert ColumnNames(rels, cols, k)[..n] == ColumnNames(rels, cols[..n], k);
    }
  }

  /** The i-th row is the first one for the column. */
  ghost predicate FirstColumnRow(rels: seq<RelationRow>, cols: seq<ColumnRow>, k: TableKey, c: string, i: nat) {
    i < |cols| && IsColumnRow(rels, cols[i], k, c) && forall j :: 0 <= j < i ==> !IsColumnRow(rels, cols[j], k, c)
  }

  lemma {:induction false} FirstIsFirst(rels: seq<RelationRow>, cols: seq<ColumnRow>, k: TableKey, c: string, i: nat)
    requires FirstColumnRow(rels, cols, k, c, i)
    ensures FirstAt(ColumnNames(rels, cols, k), c, i)
  {
    hide OidToTable, NameColumn, IsColumnRow;
    forall j | 0 <= j < |cols| ensures IsColumnRow(rels, cols[j], k, c) <==> ColumnNames(rels, cols, k)[j] == Some(c) {
      NamedColumnIff(rels, cols[j], k, c);
      NamedFrom(OidToTable(rels), cols[j]);
    }
  }

  lemma {:induction false} NamedFrom(byOid: map<int, TableKey>, row: ColumnRow)
    ensures NameColumn(byOid, row).Some? ==> NameColumn(byOid, row).value.column == row.column
  {
  }

  /** The columns of a table come in the order of their first rows. */
  lemma {:induction false} ColumnsByFirstRow(rows: Rows, k: TableKey, i: nat, j: nat, r: nat, q: nat)
    requires k in IndexOf(Resolve(rows)).tables.m
    requires i < j < |IndexOf(Resolve(rows)).tables.m[k].columns.keys|
    requires var keys := IndexOf(Resolve(rows)).tables.m[k].columns.keys;
      && FirstColumnRow(rows.relations, rows.columns, k, keys[i], r)
      && FirstColumnRow(rows.relations, rows.columns, k, keys[j], q)
    ensures r < q
  {
    hide Comments, ColumnsOf, PrimaryKey, ForeignKeys, Seen, FirstColumnRow, FirstAt, OidToTable, NameColumn,
      ColumnNames;
    var keys := IndexOf(Resolve(rows)).tables.m[k].columns.keys;
    ColumnsSeen(rows.relations, rows.columns, k);
    assert Resolve(rows).columns == Map(c => NameColumn(OidToTable(rows.relations), c), rows.columns);
    FirstIsFirst(rows.relations, rows.columns, k, keys[i], r);
    FirstIsFirst(rows.relations, rows.columns, k, keys[j], q);
    SeenInOrder(ColumnNames(rows.relations, rows.columns, k), i, j, r, q);
  }
}
