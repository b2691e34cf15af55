/**
 Which statements the generator of backend/app/ddl/migration.py writes, each said of the two snapshots alone.
 */
module MigrationStatements {
  import opened Dicts
  import opened Migration
  import opened Orders
  import opened Snapshots

  // ---------------------------------------------------------------- when a statement is due

  /** A foreign key that goes away between tables of the base, and not along with its referencing table alone. */
  ghost predicate GoesAway(base: Index, target: Index, f: FkSignature) {
    && f in base.fks.m && f !in target.fks.m && f.child in base.tables.m && f.parent in base.tables.m
    && (f.child in target.tables.m || f.parent !in target.tables.m)
  }

  ghost predicate Survives(base: Index, target: Index, k: TableKey) {
    k in base.tables.m && k in target.tables.m
  }

  /** A column of a surviving table that is in both snapshots. */
  ghost predicate Stays(base: Index, target: Index, k: TableKey, c: string) {
    Survives(base, target, k) && c in base.tables.m[k].columns.m && c in target.tables.m[k].columns.m
  }

  function RenderedAs(d: Dialect, ix: Index, k: TableKey, c: string): string
    requires k in ix.tables.m && c in ix.tables.m[k].columns.m
  {
    d.render(c, ix.tables.m[k].columns.m[c].dataType)
  }

  /** The definition of a column as the snapshot has it. */
  ghost predicate Defines(d: Dialect, ix: Index, k: TableKey, c: string, def: ColumnDef)
    requires k in ix.tables.m
  {
    && c in ix.tables.m[k].columns.m
    && def.dataType == RenderedAs(d, ix, k, c) && def.notNull == ix.tables.m[k].columns.m[c].notNull
  }

  ghost predicate IsDue(d: Dialect, base: Index, target: Index, s: Stmt) {
    match s
    case DropConstraint(k, n) => exists f :: GoesAway(base, target, f) && f.child == k && base.fks.m[f] == Some(n)
    case ForeignKeyNote(k, cs) =>
      exists f :: GoesAway(base, target, f) && f.child == k && f.childColumns == cs && base.fks.m[f] == None
    case DropTable(k) => k in base.tables.m && k !in target.tables.m
    case CreateSchema(n) =>
      && n != "" && (forall k :: k in base.tables.m ==> k.schemaName != n)
      && exists k :: k in target.tables.m && k !in base.tables.m && k.schemaName == n
    case CreateTable(k, columns, pk) =>
      && k in target.tables.m && k !in base.tables.m && pk == target.tables.m[k].pk
      && columns.Keys == target.tables.m[k].columns.m.Keys
      && forall c :: c in columns ==> Defines(d, target, k, c, columns[c])
    case AddColumn(k, c, def) =>
      Survives(base, target, k) && c !in base.tables.m[k].columns.m && Defines(d, target, k, c, def)
    case DropColumn(k, c) =>
      Survives(base, target, k) && c in base.tables.m[k].columns.m && c !in target.tables.m[k].columns.m
    case AlterType(k, c, ty) =>
      && Stays(base, target, k, c) && RenderedAs(d, base, k, c) != RenderedAs(d, target, k, c)
      && ty == RenderedAs(d, target, k, c)
    case SetNotNull(k, c) =>
      && Stays(base, target, k, c)
      && !base.tables.m[k].columns.m[c].notNull && target.tables.m[k].columns.m[c].notNull
    case DropNotNull(k, c) =>
      && Stays(base, target, k, c)
      && base.tables.m[k].columns.m[c].notNull && !target.tables.m[k].columns.m[c].notNull
    case PrimaryKeyNote(k, pk) =>
      Survives(base, target, k) && base.tables.m[k].pk != target.tables.m[k].pk && pk == target.tables.m[k].pk
    case CommentOn(k, comment) =>
      && d.postgresql && Survives(base, target, k) && base.tables.m[k].comment != target.tables.m[k].comment
      && comment == if target.tables.m[k].comment == Some("") then None else target.tables.m[k].comment
    case AddForeignKey(f, name) =>
      && f in target.fks.m && f !in base.fks.m && name == target.fks.m[f]
      && f.child in target.tables.m && f.parent in target.tables.m
  }

  // ---------------------------------------------------------------- the statements of each phase

  lemma {:induction false} InDropFks(base: Index, target: Index, fs: seq<FkSignature>, s: Stmt)
    requires forall f :: f in fs ==> f in base.fks.m
    ensures s in DropFks(base, target, fs) <==> exists f :: f in fs && s in DropFk(base, target, f)
  {
    hide DropFk;
    if fs != [] {
      InDropFks(base, target, fs[1..], s);
      assert fs == [fs[0]] + fs[1..];
    }
  }

  lemma {:induction false} InDropTables(target: Index, ks: seq<TableKey>, s: Stmt)
    ensures s in DropTables(target, ks) <==> s.DropTable? && s.table in ks && s.table !in target.tables.m
  {
    if ks != [] {
      InDropTables(target, ks[1..], s);
      assert ks == [ks[0]] + ks[1..];
    }
  }

  lemma {:induction false} InCreateSchemas(names: seq<string>, s: Stmt)
    ensures s in CreateSchemas(names) <==> s.CreateSchema? && s.schemaName in names
  {
    if names != [] {
      InCreateSchemas(names[1..], s);
      assert names == [names[0]] + names[1..];
    }
  }

  lemma {:induction false} InCreateTables(d: Dialect, base: Index, target: Index, ks: seq<TableKey>, s: Stmt)
    requires forall k :: k in ks ==> k in target.tables.m
    ensures s in CreateTables(d, base, target, ks) <==>
      exists k :: k in ks && s in CreateTableSql(d, base, k, target.tables.m[k])
  {
    hide CreateTableSql;
    if ks != [] {
      InCreateTables(d, base, target, ks[1..], s);
      assert ks == [ks[0]] + ks[1..];
    }
  }

  lemma {:induction false} InAddColumns(d: Dialect, k: TableKey, bt: Table, tt: Table, cs: seq<string>, s: Stmt)
    requires forall c :: c in cs ==> c in tt.columns.m
    ensures s in AddColumns(d, k, bt, tt, cs) <==> exists c :: c in cs && s in AddColumnSql(d, k, bt, tt, c)
  {
    hide AddColumnSql;
    if cs != [] {
      InAddColumns(d, k, bt, tt, cs[1..], s);
      assert cs == [cs[0]] + cs[1..];
    }
  }

  lemma {:induction false} InDropColumns(k: TableKey, tt: Table, cs: seq<string>, s: Stmt)
    ensures s in DropColumns(k, tt, cs) <==>
      s.DropColumn? && s.table == k && s.column in cs && s.column !in tt.columns.m
  {
    if cs != [] {
      InDropColumns(k, tt, cs[1..], s);
      assert cs == [cs[0]] + cs[1..];
    }
  }

  lemma {:induction false} InChangeColumns(d: Dialect, k: TableKey, bt: Table, tt: Table, cs: seq<string>, s: Stmt)
    requires forall c :: c in cs ==> c in tt.columns.m
    ensures s in ChangeColumns(d, k, bt, tt, cs) <==> exists c :: c in cs && s in ChangeColumnSql(d, k, bt, tt, c)
  {
    hide ChangeColumnSql;
    if cs != [] {
      InChangeColumns(d, k, bt, tt, cs[1..], s);
      assert cs == [cs[0]] + cs[1..];
    }
  }

  lemma {:induction false} InAlterTables(d: Dialect, base: Index, target: Index, ks: seq<TableKey>, s: Stmt)
    requires forall k :: k in ks ==> k in target.tables.m
    requires forall k :: k in ks ==> forall c :: c in target.tables.m[k].columns.keys ==>
      c in target.tables.m[k].columns.m
    ensures s in AlterTables(d, base, target, ks) <==>
      exists k :: k in ks && k in base.tables.m && s in AlterTable(d, k, base.tables.m[k], target.tables.m[k])
  {
    hide AlterTable;
    if ks != [] {
      InAlterTables(d, base, target, ks[1..], s);
      assert ks == [ks[0]] + ks[1..];
    }
  }

  lemma {:induction false} InAddFks(base: Index, target: Index, fs: seq<FkSignature>, s: Stmt)
    requires forall f :: f in fs ==> f in target.fks.m
    ensures s in AddFks(base, target, fs) <==> exists f :: f in fs && s in AddFk(base, target, f)
  {
    hide AddFk;
    if fs != [] {
      InAddFks(base, target, fs[1..], s);
      assert fs == [fs[0]] + fs[1..];
    }
  }

  // ---------------------------------------------------------------- each phase writes what is due

  predicate DropsFk(s: Stmt) {
    s.DropConstraint? || s.ForeignKeyNote?
  }

  predicate Alters(s: Stmt) {
    || s.AddColumn? || s.DropColumn? || s.AlterType? || s.SetNotNull? || s.DropNotNull? || s.PrimaryKeyNote?
    || s.CommentOn?
  }

  lemma {:induction false} FkDropIff(base: Index, target: Index, f: FkSignature, s: Stmt)
    requires f in base.fks.m
    ensures s in DropFk(base, target, f) <==>
      GoesAway(base, target, f) && s == match base.fks.m[f]
        case Some(n) => DropConstraint(f.child, n)
        case None => ForeignKeyNote(f.child, f.childColumns)
  {
  }

  lemma {:induction false} DropFksIff(d: Dialect, base: Index, target: Index, s: Stmt)
    requires base.fks.Valid()
    ensures s in DropFks(base, target, base.fks.keys) <==> DropsFk(s) && IsDue(d, base, target, s)
  {
    InDropFks(base, target, base.fks.keys, s);
    forall f | f in base.fks.m ensures f in base.fks.keys {
    }
    hide DropFks, DropFk, GoesAway;
    forall f | f in base.fks.m ensures s in DropFk(base, target, f) <==>
      (GoesAway(base, target, f) && s == match base.fks.m[f]
        case Some(n) => DropConstraint(f.child, n)
        case None => ForeignKeyNote(f.child, f.childColumns))
    {
      FkDropIff(base, target, f, s);
    }
    forall f | GoesAway(base, target, f) ensures f in base.fks.m {
      GoesFromBase(base, target, f);
    }
  }

  lemma {:induction false} GoesFromBase(base: Index, target: Index, f: FkSignature)
    requires GoesAway(base, target, f)
    ensures f in base.fks.m
  {
  }

  lemma {:induction false} DropTablesIff(d: Dialect, base: Index, target: Index, s: Stmt)
    requires base.tables.Valid()
    ensures s in DropTables(target, base.tables.keys) <==> s.DropTable? && IsDue(d, base, target, s)
  {
    InDropTables(target, base.tables.keys, s);
    hide DropTables;
  }

  lemma {:induction false} CreateSchemasIff(d: Dialect, base: Index, target: Index, s: Stmt)
    ensures s in CreateSchemas(SortedStrings(MissingSchemas(base, target))) <==>
      s.CreateSchema? && IsDue(d, base, target, s)
  {
    InCreateSchemas(SortedStrings(MissingSchemas(base, target)), s);
    hide CreateSchemas, SortedStrings;
  }

  lemma {:induction false} TableIff(d: Dialect, base: Index, target: Index, k: TableKey, s: Stmt)
    requires k in target.tables.m
    ensures s in CreateTableSql(d, base, k, target.tables.m[k]) <==>
      s.CreateTable? && s.table == k && IsDue(d, base, target, s)
  {
    if s.CreateTable? && s.table == k && IsDue(d, base, target, s) {
      assert s.columns == Defs(d, target.tables.m[k]);
    }
  }

  lemma {:induction false} CreateTablesIff(d: Dialect, base: Index, target: Index, s: Stmt)
    requires target.tables.Valid()
    ensures s in CreateTables(d, base, target, target.tables.keys) <==> s.CreateTable? && IsDue(d, base, target, s)
  {
    InCreateTables(d, base, target, target.tables.keys, s);
    hide CreateTables, CreateTableSql, Defines;
    forall k | k in target.tables.m ensures k in target.tables.keys
      && (s in CreateTableSql(d, base, k, target.tables.m[k]) <==>
        s.CreateTable? && s.table == k && IsDue(d, base, target, s))
    {
      TableIff(d, base, target, k, s);
    }
  }

  lemma {:induction false} AddedColumnIff(d: Dialect, base: Index, target: Index, k: TableKey, c: string, s: Stmt)
    requires Survives(base, target, k) && c in target.tables.m[k].columns.m
    ensures s in AddColumnSql(d, k, base.tables.m[k], target.tables.m[k], c) <==>
      s.AddColumn? && s.table == k && s.column == c && IsDue(d, base, target, s)
  {
  }

  lemma {:induction false} ChangedColumnIff(d: Dialect, base: Index, target: Index, k: TableKey, c: string, s: Stmt)
    requires Survives(base, target, k) && c in target.tables.m[k].columns.m
    ensures s in ChangeColumnSql(d, k, base.tables.m[k], target.tables.m[k], c) <==>
      (s.AlterType? || s.SetNotNull? || s.DropNotNull?) && s.table == k && s.column == c && IsDue(d, base, target, s)
  {
  }

  lemma {:induction false} NotesIff(d: Dialect, base: Index, target: Index, k: TableKey, s: Stmt)
    requires Survives(base, target, k)
    ensures s in NotePrimaryKey(k, base.tables.m[k], target.tables.m[k]) <==>
      s.PrimaryKeyNote? && s.table == k && IsDue(d, base, target, s)
    ensures s in ChangeComment(d, k, base.tables.m[k], target.tables.m[k]) <==>
      s.CommentOn? && s.table == k && IsDue(d, base, target, s)
  {
  }

  lemma {:induction false} ColumnsIff(d: Dialect, base: Index, target: Index, k: TableKey, s: Stmt)
    requires Survives(base, target, k)
    requires base.tables.m[k].columns.Valid() && target.tables.m[k].columns.Valid()
    ensures var bt, tt := base.tables.m[k], target.tables.m[k];
      && (s in AddColumns(d, k, bt, tt, tt.columns.keys) <==> s.AddColumn? && s.table == k && IsDue(d, base, target, s))
      && (s in DropColumns(k, tt, bt.columns.keys) <==> s.DropColumn? && s.table == k && IsDue(d, base, target, s))
      && (s in ChangeColumns(d, k, bt, tt, tt.columns.keys) <==>
        (s.AlterType? || s.SetNotNull? || s.DropNotNull?) && s.table == k && IsDue(d, base, target, s))
  {
    hide AddColumns, DropColumns, ChangeColumns, AddColumnSql, ChangeColumnSql;
    var bt, tt := base.tables.m[k], target.tables.m[k];
    InAddColumns(d, k, bt, tt, tt.columns.keys, s);
    InDropColumns(k, tt, bt.columns.keys, s);
    InChangeColumns(d, k, bt, tt, tt.columns.keys, s);
    forall c | c in tt.columns.m ensures c in tt.columns.keys
      && (s in AddColumnSql(d, k, bt, tt, c) <==>
        s.AddColumn? && s.table == k && s.column == c && IsDue(d, base, target, s))
      && (s in ChangeColumnSql(d, k, bt, tt, c) <==>
        (s.AlterType? || s.SetNotNull? || s.DropNotNull?) && s.table == k && s.column == c
        && IsDue(d, base, target, s))
    {
      AddedColumnIff(d, base, target, k, c, s);
      ChangedColumnIff(d, base, target, k, c, s);
    }
  }

  lemma {:induction false} AlterTableIff(d: Dialect, base: Index, target: Index, k: TableKey, s: Stmt)
    requires Survives(base, target, k)
    requires base.tables.m[k].columns.Valid() && target.tables.m[k].columns.Valid()
    ensures s in AlterTable(d, k, base.tables.m[k], target.tables.m[k]) <==>
      Alters(s) && s.table == k && IsDue(d, base, target, s)
  {
    ColumnsIff(d, base, target, k, s);
    NotesIff(d, base, target, k, s);
    hide AddColumns, DropColumns, ChangeColumns, NotePrimaryKey, ChangeComment, IsDue;
  }

  lemma {:induction false} AlteredSurvives(d: Dialect, base: Index, target: Index, s: Stmt)
    requires Alters(s) && IsDue(d, base, target, s)
    ensures Survives(base, target, s.table)
  {
  }

  lemma {:induction false} AlterTablesIff(d: Dialect, base: Index, target: Index, s: Stmt)
    requires Listed(base) && Listed(target)
    ensures s in AlterTables(d, base, target, target.tables.keys) <==> Alters(s) && IsDue(d, base, target, s)
  {
    InAlterTables(d, base, target, target.tables.keys, s);
    hide AlterTables, AlterTable, IsDue;
    forall k | Survives(base, target, k) ensures s in AlterTable(d, k, base.tables.m[k], target.tables.m[k]) <==>
      (Alters(s) && s.table == k && IsDue(d, base, target, s))
    {
      AlterTableIff(d, base, target, k, s);
    }
    if Alters(s) && IsDue(d, base, target, s) {
      AlteredSurvives(d, base, target, s);
      assert s.table in target.tables.keys;
    }
  }

  lemma {:induction false} AddFksIff(d: Dialect, base: Index, target: Index, s: Stmt)
    requires target.fks.Valid()
    ensures s in AddFks(base, target, target.fks.keys) <==> s.AddForeignKey? && IsDue(d, base, target, s)
  {
    InAddFks(base, target, target.fks.keys, s);
    hide AddFks;
    forall f | f in target.fks.m ensures f in target.fks.keys {
    }
  }

  // ---------------------------------------------------------------- the whole migration

  /** A statement is written exactly if it is due. */
  lemma {:induction false} WrittenIff(d: Dialect, base: Index, target: Index, s: Stmt)
    requires Listed(base) && Listed(target)
    ensures s in MigrationStmts(d, base, target) <==> IsDue(d, base, target, s)
  {
    DropFksIff(d, base, target, s);
    DropTablesIff(d, base, target, s);
    CreateSchemasIff(d, base, target, s);
    CreateTablesIff(d, base, target, s);
    AlterTablesIff(d, base, target, s);
    AddFksIff(d, base, target, s);
    hide DropFks, DropTables, CreateSchemas, SortedStrings, MissingSchemas, CreateTables, AlterTables, AddFks, IsDue;
  }
}
