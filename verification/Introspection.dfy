/**
 From the rows of a snapshot to its migration: what the index built from rows satisfies, and that a schema
 read twice needs no migration.
 */
module Introspection {
  import opened Dicts
  import opened Orders
  import opened Snapshots
  import opened SchemaIndex
  import opened SchemaDiff
  import opened SnapshotDiffs
  import opened Migration
  import opened MigrationSafety
  import MigrationTheorem

  // ---------------------------------------------------------------- dictionaries list their keys

  lemma {:induction false} CommentsValid(rels: seq<(TableKey, Option<string>)>)
    ensures Comments(rels).Valid()
  {
    if rels != [] {
      CommentsValid(rels[..|rels| - 1]);
    }
  }

  lemma {:induction false} ColumnsValid(k: TableKey, cols: seq<Option<NamedColumn>>)
    ensures ColumnsOf(k, cols).Valid()
  {
    if cols != [] {
      ColumnsValid(k, cols[..|cols| - 1]);
    }
  }

  lemma {:induction false} ForeignKeysValid(groups: Dict<Group, seq<Part>>, gs: seq<Group>)
    requires forall g :: g in gs ==> g in groups.m
    ensures ForeignKeys(groups, gs).Valid()
  {
    hide Signature, ConstraintName;
    if gs != [] {
      var init, g := gs[..|gs| - 1], gs[|gs| - 1];
      ForeignKeysValid(groups, init);
      PutValid(ForeignKeys(groups, init), Signature(g, groups.m[g]), ConstraintName(g));
    }
  }

  /** Whatever the rows, the index built from them lists its keys. */
  lemma {:induction false} IndexListed(n: Named)
    ensures Listed(IndexOf(n))
  {
    hide Comments, ColumnsOf, PrimaryKey, Groups, ForeignKeys;
    CommentsValid(n.relations);
    GroupsValid(n.edges);
    ForeignKeysValid(Groups(n.edges), Groups(n.edges).keys);
    forall k ensures ColumnsOf(k, n.columns).Valid() {
      ColumnsValid(k, n.columns);
    }
  }

  // ---------------------------------------------------------------- rows of a real database

  ghost predicate HasColumn(n: Named, k: TableKey, c: string) {
    exists col :: Some(NamedColumn(k, c, col)) in n.columns
  }

  ghost predicate HasNotNull(n: Named, k: TableKey, c: string) {
    exists col :: Some(NamedColumn(k, c, col)) in n.columns && col.notNull
  }

  /** Key columns and the ends of foreign keys are columns, and a constraint name is used once per table. */
  ghost predicate SoundRows(n: Named) {
    && UniqueNames(n)
    && (forall p :: p in n.pks && p.Some? ==> HasNotNull(n, p.value.table, p.value.name))
    && (forall e :: e in n.edges && e.Some? ==>
          && HasColumn(n, e.value.group.child, e.value.part.childColumn)
          && HasColumn(n, e.value.group.parent, e.value.part.parentColumn))
    && (forall e, f | e in n.edges && f in n.edges && e.Some? && f.Some? && e.value.group.constraint != ""
          && e.value.group.child == f.value.group.child && e.value.group.constraint == f.value.group.constraint
          :: e.value.group == f.value.group)
  }

  lemma {:induction false} ColumnThere(n: Named, k: TableKey, c: string)
    requires UniqueColumns(n.columns)
    ensures HasColumn(n, k, c) ==> c in ColumnsOf(k, n.columns).m
    ensures HasNotNull(n, k, c) ==> c in ColumnsOf(k, n.columns).m && ColumnsOf(k, n.columns).m[c].notNull
  {
    hide ColumnsOf, UniqueColumns;
    if col :| Some(NamedColumn(k, c, col)) in n.columns {
      ColumnsMeaning(k, n.columns, c, col);
    }
    if col :| Some(NamedColumn(k, c, col)) in n.columns && col.notNull {
      ColumnsMeaning(k, n.columns, c, col);
    }
  }

  lemma {:induction false} NamesAreParts(parts: seq<KeyPart>, c: string)
    requires c in NamesInOrder(parts)
    ensures exists p :: p in parts && p.name == c
  {
    var sorted := Sort(KeyPartLe, parts);
    SameElements(sorted, parts);
    var i :| 0 <= i < |sorted| && NamesInOrder(parts)[i] == c;
    assert sorted[i] in parts;
  }

  lemma {:induction false} KeyPartsFrom(k: TableKey, pks: seq<Option<NamedPk>>, part: KeyPart)
    requires part in KeyParts(k, pks)
    ensures exists p :: p in pks && p.Some? && p.value.table == k && p.value.name == part.name
  {
    var init, last := pks[..|pks| - 1], pks[|pks| - 1];
    assert last in pks && forall p :: p in init ==> p in pks;
    if part in KeyParts(k, init) {
      KeyPartsFrom(k, init, part);
    } else {
      assert last.Some? && last.value.table == k && last.value.name == part.name;
    }
  }

  lemma {:induction false} KeyColumnsThere(n: Named, k: TableKey, c: string)
    requires SoundRows(n) && c in PrimaryKey(k, n.pks)
    ensures c in ColumnsOf(k, n.columns).m && ColumnsOf(k, n.columns).m[c].notNull
  {
    NamesAreParts(KeyParts(k, n.pks), c);
    var part :| part in KeyParts(k, n.pks) && part.name == c;
    KeyPartsFrom(k, n.pks, part);
    hide ColumnsOf, KeyParts, NamesInOrder;
    ColumnThere(n, k, c);
  }

  lemma {:induction false} PartsFrom(edges: seq<Option<NamedEdge>>, g: Group, part: Part)
    requires g in Groups(edges).m && part in Groups(edges).m[g]
    ensures Some(NamedEdge(g, part)) in edges
  {
    GroupsFlat(edges, g);
    FlatFrom(e => PartFor(g, e), edges, part);
  }

  lemma {:induction false} GroupNotEmpty(edges: seq<Option<NamedEdge>>, g: Group)
    requires g in Groups(edges).m
    ensures Groups(edges).m[g] != []
  {
    GroupsFlat(edges, g);
  }

  lemma {:induction false} SignatureShape(g: Group, parts: seq<Part>)
    ensures var f, sorted := Signature(g, parts), Sort(PartLe, parts);
      && f.child == g.child && f.parent == g.parent
      && f.childColumns == Map((p: Part) => p.childColumn, sorted)
      && f.parentColumns == Map((p: Part) => p.parentColumn, sorted)
  {
  }

  /** Each column pair of a signature is a part of its group. */
  lemma {:induction false} SignaturePart(g: Group, parts: seq<Part>, i: nat) returns (p: Part)
    requires i < |Signature(g, parts).childColumns|
    ensures |Signature(g, parts).childColumns| == |Signature(g, parts).parentColumns|
    ensures p in parts && p.childColumn == Signature(g, parts).childColumns[i]
    ensures p.parentColumn == Signature(g, parts).parentColumns[i]
  {
    hide Signature, Sort;
    SignatureShape(g, parts);
    p := Sort(PartLe, parts)[i];
    SameElements(Sort(PartLe, parts), parts);
  }

  /** The group that a foreign key of the index comes from. */
  lemma {:induction false} ForeignKeyGroup(n: Named, f: FkSignature) returns (g: Group)
    requires UniqueNames(n) && f in IndexOf(n).fks.m
    ensures g in Groups(n.edges).m && Signature(g, Groups(n.edges).m[g]) == f
    ensures ConstraintName(g) == IndexOf(n).fks.m[f]
  {
    var groups := Groups(n.edges);
    GroupsValid(n.edges);
    hide Groups, Signature, ConstraintName, UniqueColumns, UniqueOrdinals, UniqueParts, UniqueRelations, ForeignKeys,
      Comments, ColumnsOf, PrimaryKey;
    assert forall h :: h in groups.keys <==> h in groups.m;
    ForeignKeysMeaning(groups, groups.keys, f, IndexOf(n).fks.m[f]);
    assert Maps(ForeignKeys(groups, groups.keys).m, f, IndexOf(n).fks.m[f]);
    g :| g in groups.keys && Signature(g, groups.m[g]) == f && ConstraintName(g) == IndexOf(n).fks.m[f];
  }

  /** The tables that resolved rows speak of. */
  ghost predicate TablesKnown(n: Named) {
    && (forall e :: e in n.edges && e.Some? ==>
          e.value.group.child in Comments(n.relations).m && e.value.group.parent in Comments(n.relations).m)
  }

  lemma {:induction false} ResolvedTablesKnown(rows: Rows)
    ensures TablesKnown(Resolve(rows))
  {
    var byOid, n := OidToTable(rows.relations), Resolve(rows);
    OidsLead(rows.relations);
    hide OidToTable, Comments;
    forall e | e in n.edges && e.Some?
      ensures e.value.group.child in Comments(n.relations).m && e.value.group.parent in Comments(n.relations).m
    {
      var i :| 0 <= i < |n.edges| && n.edges[i] == e;
      assert e == NameEdge(byOid, rows.fks[i]);
      assert e.value.group.child in byOid.Values && e.value.group.parent in byOid.Values;
    }
  }

  lemma {:induction false} SoundForeignKey(n: Named, f: FkSignature)
    requires SoundRows(n) && TablesKnown(n) && f in IndexOf(n).fks.m
    ensures WellFormedFk(IndexOf(n).tables.m, f)
  {
    var g := ForeignKeyGroup(n, f);
    var parts := Groups(n.edges).m[g];
    GroupNotEmpty(n.edges, g);
    PartsFrom(n.edges, g, parts[0]);
    SignatureShape(g, parts);
    SignatureEnds(n, g, f);
    EndsKnown(n, Some(NamedEdge(g, parts[0])));
    hide Groups, Signature, Comments, ColumnsOf, PrimaryKey, ForeignKeys, UniqueNames, SoundRows, TablesKnown;
  }

  lemma {:induction false} EndsKnown(n: Named, e: Option<NamedEdge>)
    requires TablesKnown(n) && e in n.edges && e.Some?
    ensures e.value.group.child in IndexOf(n).tables.m && e.value.group.parent in IndexOf(n).tables.m
  {
    hide Comments, ForeignKeys;
  }

  lemma {:induction false} SignatureEnds(n: Named, g: Group, f: FkSignature)
    requires SoundRows(n) && g in Groups(n.edges).m && f == Signature(g, Groups(n.edges).m[g])
    ensures |f.childColumns| == |f.parentColumns|
    ensures forall i :: 0 <= i < |f.childColumns| ==> f.childColumns[i] in ColumnsOf(g.child, n.columns).m
    ensures forall i :: 0 <= i < |f.childColumns| ==> f.parentColumns[i] in ColumnsOf(g.parent, n.columns).m
  {
    hide Groups, Signature, ColumnsOf, SoundRows;
    var parts := Groups(n.edges).m[g];
    SignatureShape(g, parts);
    forall i | 0 <= i < |f.childColumns|
      ensures f.childColumns[i] in ColumnsOf(g.child, n.columns).m
      ensures f.parentColumns[i] in ColumnsOf(g.parent, n.columns).m
    {
      var p := SignaturePart(g, parts, i);
      PartsFrom(n.edges, g, p);
      EndsThere(n, g, p);
    }
  }

  lemma {:induction false} EndsThere(n: Named, g: Group, p: Part)
    requires SoundRows(n) && Some(NamedEdge(g, p)) in n.edges
    ensures p.childColumn in ColumnsOf(g.child, n.columns).m
    ensures p.parentColumn in ColumnsOf(g.parent, n.columns).m
  {
    hide ColumnsOf, UniqueColumns;
    var e := Some(NamedEdge(g, p));
    assert HasColumn(n, e.value.group.child, e.value.part.childColumn);
    ColumnThere(n, g.child, p.childColumn);
    ColumnThere(n, g.parent, p.parentColumn);
  }

  lemma {:induction false} OneName(n: Named, f: FkSignature, g: FkSignature)
    requires SoundRows(n) && f in IndexOf(n).fks.m && g in IndexOf(n).fks.m
    requires f.child == g.child && IndexOf(n).fks.m[f].Some? && IndexOf(n).fks.m[f] == IndexOf(n).fks.m[g]
    ensures f == g
  {
    var a := ForeignKeyGroup(n, f);
    var b := ForeignKeyGroup(n, g);
    var groups := Groups(n.edges).m;
    GroupNotEmpty(n.edges, a);
    GroupNotEmpty(n.edges, b);
    PartsFrom(n.edges, a, groups[a][0]);
    PartsFrom(n.edges, b, groups[b][0]);
    hide Groups, UniqueNames, IndexOf;
    var d, e := Some(NamedEdge(a, groups[a][0])), Some(NamedEdge(b, groups[b][0]));
    assert d.value.group == e.value.group;
  }

  /** The index of a real database's rows is what the theorems on migrations ask for. */
  lemma {:induction false} IndexWellFormed(rows: Rows)
    requires SoundRows(Resolve(rows))
    ensures WellFormed(IndexOf(Resolve(rows)))
  {
    var n := Resolve(rows);
    var ix := IndexOf(n);
    IndexListed(n);
    ResolvedTablesKnown(rows);
    hide SoundRows, Comments, ColumnsOf, PrimaryKey, ForeignKeys, Groups, TablesKnown, Resolve, WellFormedFk;
    forall k | k in ix.tables.m ensures WellFormedTable(ix.tables.m[k]) {
      forall c | c in ix.tables.m[k].pk ensures c in ix.tables.m[k].columns.m && ix.tables.m[k].columns.m[c].notNull {
        KeyColumnsThere(n, k, c);
      }
    }
    forall f | f in ix.fks.m ensures WellFormedFk(ix.tables.m, f) {
      SoundForeignKey(n, f);
    }
    forall f, g | f in ix.fks.m && g in ix.fks.m && f.child == g.child && ix.fks.m[f].Some?
        && ix.fks.m[f] == ix.fks.m[g]
      ensures f == g
    {
      OneName(n, f, g);
    }
  }

  // ---------------------------------------------------------------- no difference, no migration

  lemma {:induction false} NoColumnStatements(d: Dialect, k: TableKey, bt: Table, tt: Table, cs: seq<string>)
    requires bt.columns.m == tt.columns.m && forall c :: c in cs ==> c in tt.columns.m
    ensures AddColumns(d, k, bt, tt, cs) == [] && DropColumns(k, tt, cs) == [] && ChangeColumns(d, k, bt, tt, cs) == []
  {
    if cs != [] {
      NoColumnStatements(d, k, bt, tt, cs[1..]);
    }
  }

  lemma {:induction false} NoTableStatements(d: Dialect, k: TableKey, bt: Table, tt: Table)
    requires bt.columns.Valid() && tt.columns.Valid() && SameTable(bt, tt)
    ensures AlterTable(d, k, bt, tt) == [] && AlterTableRisks(k, bt, tt) == []
  {
    hide AddColumns, DropColumns, ChangeColumns, Flat;
    NoColumnStatements(d, k, bt, tt, tt.columns.keys);
    NoColumnStatements(d, k, bt, tt, bt.columns.keys);
    FlatEmpty(c => AddColumnRisk(k, bt, tt, c), tt.columns.keys);
    FlatEmpty(c => DropColumnRisk(k, tt, c), bt.columns.keys);
    FlatEmpty(c => ChangeColumnRisk(k, bt, tt, c), tt.columns.keys);
  }

  /** In any dialect, what does not differ needs no statement and carries no risk. */
  lemma {:induction false} NoDifferenceNoMigration(d: Dialect, b: Index, t: Index)
    requires Listed(b) && Listed(t) && NoDifference(b, t)
    ensures MigrationStmts(d, b, t) == [] && Risks(b, t) == []
  {
    NoStatements(d, b, t);
    NoRisks(d, b, t);
  }

  lemma {:induction false} NoStatements(d: Dialect, b: Index, t: Index)
    requires Listed(b) && Listed(t) && NoDifference(b, t)
    ensures MigrationStmts(d, b, t) == []
  {
    hide DropFks, DropTables, CreateSchemas, CreateTables, AlterTables, AddFks, SameTable, AlterTable, MigrationStmts,
      MissingSchemas, SortedStrings;
    MigrationParts(d, b, t);
    DropFksEmpty(b, t, b.fks.keys);
    DropTablesEmpty(t, b.tables.keys);
    NoMissingSchemas(b, t);
    CreateTablesEmpty(d, b, t, t.tables.keys);
    AlterTablesEmpty(d, b, t, t.tables.keys);
    AddFksEmpty(b, t, t.fks.keys);
    forall k | k in t.tables.m && k in b.tables.m ensures AlterTable(d, k, b.tables.m[k], t.tables.m[k]) == [] {
      NoTableStatements(d, k, b.tables.m[k], t.tables.m[k]);
    }
  }

  lemma {:induction false} NoRisks(d: Dialect, b: Index, t: Index)
    requires Listed(b) && Listed(t) && NoDifference(b, t)
    ensures Risks(b, t) == []
  {
    hide Flat, SameTable, AlterTableRisks;
    FlatEmpty(k => DropTableRisk(t, k), b.tables.keys);
    FlatEmpty(k => CreateTableRisk(b, k), t.tables.keys);
    FlatEmpty(k => SurvivorRisks(b, t, k), t.tables.keys);
    FlatEmpty(f => AddFkRisk(b, f), t.fks.keys);
    FlatEmpty(f => DropFkRisk(t, f), b.fks.keys);
    forall k | k in t.tables.m && k in b.tables.m ensures SurvivorRisks(b, t, k) == [] {
      NoTableStatements(d, k, b.tables.m[k], t.tables.m[k]);
    }
  }

  /** From rows to scripts: a schema read twice has no changes, an empty migration and no risks, in any dialect. */
  lemma {:induction false} ReintrospectionNeedsNothing(d: Dialect, f: int -> int, first: Rows, second: Rows)
    requires Reintrospected(f, first, second) && UniqueOids(first) && UniqueNames(Resolve(first))
    ensures var b, t := IndexOf(Resolve(first)), IndexOf(Resolve(second));
      && Listed(b) && Listed(t) && NoDifference(b, t) && MigrationStmts(d, b, t) == [] && Risks(b, t) == []
  {
    IndexListed(Resolve(first));
    IndexListed(Resolve(second));
    ReintrospectionHasNoChanges(f, first, second);
    hide IndexOf, Resolve, UniqueNames, Listed, NoDifference, MigrationStmts, Risks;
    NoDifferenceNoMigration(d, IndexOf(Resolve(first)), IndexOf(Resolve(second)));
  }

  /** The same from the program's own methods, one after the other. */
  method CompareReadings(d: Dialect, first: Rows, second: Rows, ghost f: int -> int)
    returns (diff: SnapshotDiff, script: Script, report: SafetyReport)
    requires Reintrospected(f, first, second) && UniqueOids(first) && UniqueNames(Resolve(first))
    ensures !diff.summary.hasChanges && script.NoSchemaChanges? && report.items == []
    ensures !report.hasDestructive && !report.hasBlocking
  {
    ReintrospectionNeedsNothing(d, f, first, second);
    assert KeysValid(IndexOf(Resolve(first))) && KeysValid(IndexOf(Resolve(second)));
    hide IndexOf, Resolve, UniqueNames, NoDifference, MigrationStmts, Risks, DiffOf;
    var b := IndexSnapshot(first);
    var t := IndexSnapshot(second);
    diff := DiffSnapshots(b, t);
    script := SnapshotDiffToMigration(d, b, t);
    report := AnalyzeMigrationSafety(b, t);
  }

  /** The main theorem on migrations, from rows: nothing more is asked of the two snapshots. */
  lemma {:induction false} RowsReachTarget(d: Dialect, base: Rows, target: Rows, schemas: set<string>)
    requires SoundRows(Resolve(base)) && SoundRows(Resolve(target))
    requires SchemaNames(IndexOf(Resolve(base))) <= schemas
    ensures var b, t := IndexOf(Resolve(base)), IndexOf(Resolve(target));
      && Listed(b) && Listed(t)
      && var end := Run(MigrationTheorem.Start(d, b, schemas), MigrationStmts(d, b, t));
         (end.Some? && MigrationTheorem.HoldsTarget(d, t, end.value)) <==> MigrationTheorem.Applicable(b, t, schemas)
  {
    IndexWellFormed(base);
    IndexWellFormed(target);
    hide *;
    MigrationTheorem.MigrationReachesTarget(d, IndexOf(Resolve(base)), IndexOf(Resolve(target)), schemas);
  }
}
