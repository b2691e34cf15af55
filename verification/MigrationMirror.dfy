/**
 Up and down: the migration from target to base, run on the database that the migration from base to target left
 (`direction=down` of backend/app/api/snapshots.py).
 */
module MigrationMirror {
  import opened Dicts
  import opened Orders
  import opened Snapshots
  import opened Migration
  import opened MigrationRuns
  import opened MigrationTheorem

  // ---------------------------------------------------------------- what the way up leaves

  /** A table of the target as the way up leaves it: with the old key, and new tables without a comment. */
  function LeftTable(d: Dialect, base: Index, k: TableKey, t: Table): Table {
    if k in base.tables.m then
      t.(pk := if exists c :: c in base.tables.m[k].pk && c !in t.columns.m then [] else base.tables.m[k].pk,
         comment := if d.postgresql then t.comment else base.tables.m[k].comment)
    else t.(comment := None)
  }

  /** The snapshot of the database after the way up: kept foreign keys have their old names. */
  function LeftIndex(d: Dialect, base: Index, target: Index): Index {
    Index(Dict(target.tables.keys, map k | k in target.tables.m :: LeftTable(d, base, k, target.tables.m[k])),
          Dict(target.fks.keys,
               map f | f in target.fks.m :: if f in base.fks.m then base.fks.m[f] else target.fks.m[f]))
  }

  lemma {:induction false} LeftPk(d: Dialect, base: Index, k: TableKey, t: Table)
    requires k in base.tables.m
    ensures LeftTable(d, base, k, t).pk == KeptKey(base.tables.m[k], t)
  {
  }

  lemma {:induction false} LeftTableWellFormed(d: Dialect, base: Index, target: Index, k: TableKey)
    requires WellFormed(base) && WellFormed(target) && KeysStayNotNull(base, target) && k in target.tables.m
    ensures WellFormedTable(LeftTable(d, base, k, target.tables.m[k]))
  {
    var t := target.tables.m[k];
    assert WellFormedTable(t);
    hide WellFormed;
    if k in base.tables.m {
      LeftPk(d, base, k, t);
      forall c | c in KeptKey(base.tables.m[k], t) ensures c in t.columns.m && t.columns.m[c].notNull {
      }
    }
  }

  lemma {:induction false} LeftNamesUnique(d: Dialect, base: Index, target: Index, f: FkSignature, g: FkSignature)
    requires WellFormed(base) && WellFormed(target) && NamesDoNotClash(base, target)
    requires var fks := LeftIndex(d, base, target).fks.m;
      f in fks && g in fks && f.child == g.child && fks[f].Some? && fks[f] == fks[g]
    ensures f == g
  {
    hide WellFormedTable, WellFormedFk;
  }

  lemma {:induction false} WellFormedIf(ix: Index)
    requires ix.tables.Valid() && ix.fks.Valid()
    requires forall k :: k in ix.tables.m ==> WellFormedTable(ix.tables.m[k])
    requires forall f :: f in ix.fks.m ==> WellFormedFk(ix.tables.m, f)
    requires forall f, g | f in ix.fks.m && g in ix.fks.m && f.child == g.child && ix.fks.m[f].Some?
      && ix.fks.m[f] == ix.fks.m[g] :: f == g
    ensures WellFormed(ix)
  {
    hide WellFormedTable, WellFormedFk;
  }

  lemma {:induction false} LeftFkWellFormed(d: Dialect, base: Index, target: Index, f: FkSignature)
    requires WellFormed(target) && f in target.fks.m
    ensures WellFormedFk(LeftIndex(d, base, target).tables.m, f)
  {
    FkTables(target, f);
    hide WellFormed;
  }

  lemma {:induction false} LeftValid(d: Dialect, base: Index, target: Index)
    requires WellFormed(target)
    ensures LeftIndex(d, base, target).tables.Valid() && LeftIndex(d, base, target).fks.Valid()
  {
    hide WellFormedTable, WellFormedFk, LeftTable;
  }

  lemma {:induction false} LeftWellFormed(d: Dialect, base: Index, target: Index)
    requires WellFormed(base) && WellFormed(target) && KeysStayNotNull(base, target) && NamesDoNotClash(base, target)
    ensures WellFormed(LeftIndex(d, base, target))
  {
    hide WellFormed, WellFormedTable, WellFormedFk, KeysStayNotNull, NamesDoNotClash, LeftTable;
    var left := LeftIndex(d, base, target);
    LeftValid(d, base, target);
    forall k | k in left.tables.m ensures WellFormedTable(left.tables.m[k]) {
      LeftTableWellFormed(d, base, target, k);
    }
    forall f | f in left.fks.m ensures WellFormedFk(left.tables.m, f) {
      LeftFkWellFormed(d, base, target, f);
    }
    forall f, g | f in left.fks.m && g in left.fks.m && f.child == g.child && left.fks.m[f].Some?
        && left.fks.m[f] == left.fks.m[g]
      ensures f == g
    {
      LeftNamesUnique(d, base, target, f, g);
    }
    WellFormedIf(left);
  }

  lemma {:induction false} LeftColumns(d: Dialect, base: Index, target: Index, k: TableKey)
    requires k in target.tables.m
    ensures Existing(d, LeftTable(d, base, k, target.tables.m[k])) ==
      if k in base.tables.m then Altered(d, base.tables.m[k], target.tables.m[k]) else Fresh(d, target.tables.m[k])
  {
    hide Def;
    var t := target.tables.m[k];
    assert Defs(d, LeftTable(d, base, k, t)) == Defs(d, t);
    if k in base.tables.m {
      LeftPk(d, base, k, t);
    }
    hide KeptKey, Defs;
  }

  lemma {:induction false} LeftFkValue(base: Index, target: Index, f: FkSignature)
    requires WellFormed(base) && WellFormed(target) && f in target.fks.m
    ensures var fks := FksLeft(base, target) + NewFks(base, target, target.fks.m.Keys);
      f in fks && fks[f] == if f in base.fks.m then base.fks.m[f] else target.fks.m[f]
  {
    hide WellFormed, FksLeft;
    LeftMeaning(base, target, f);
  }

  lemma {:induction false} LeftFks(d: Dialect, base: Index, target: Index, schemas: set<string>)
    requires WellFormed(base) && WellFormed(target) && SchemaNames(base) <= schemas && Applicable(base, target, schemas)
    ensures FksLeft(base, target) + NewFks(base, target, target.fks.m.Keys) == LeftIndex(d, base, target).fks.m
  {
    hide WellFormed, Applicable, Accepted, FksLeft, NewFks;
    AcceptedIff(base, target, schemas);
    var fks := FksLeft(base, target) + NewFks(base, target, target.fks.m.Keys);
    var left := LeftIndex(d, base, target).fks.m;
    assert fks.Keys == left.Keys;
    forall f | f in left ensures fks[f] == left[f] {
      LeftFkValue(base, target, f);
    }
  }

  lemma {:induction false} LeftTables(d: Dialect, base: Index, target: Index)
    ensures TablesAfter(d, base, target) == Start(d, LeftIndex(d, base, target), {}).tables
  {
    hide Altered, Existing, Fresh, LeftTable;
    var left := LeftIndex(d, base, target);
    var tables, want := TablesAfter(d, base, target), Start(d, left, {}).tables;
    assert tables.Keys == target.tables.m.Keys == want.Keys;
    forall k | k in target.tables.m ensures tables[k] == want[k] {
      LeftColumns(d, base, target, k);
    }
  }

  lemma {:induction false} StartParts(d: Dialect, ix: Index, schemas: set<string>)
    ensures Start(d, ix, schemas) == Db(schemas, Start(d, ix, {}).tables, ix.fks.m)
  {
    hide Existing;
  }

  /** The way up ends in the database of that snapshot. */
  lemma {:induction false} UpLeaves(d: Dialect, base: Index, target: Index, schemas: set<string>)
    requires WellFormed(base) && WellFormed(target) && SchemaNames(base) <= schemas && Applicable(base, target, schemas)
    ensures Listed(base) && Listed(target)
    ensures Run(Start(d, base, schemas), MigrationStmts(d, base, target)) ==
      Some(Start(d, LeftIndex(d, base, target), SchemasAfter(base, target, schemas)))
  {
    hide WellFormed, Run, MigrationStmts, Applicable, Accepted, FksLeft, NewFks, Listed, Start, TablesAfter, LeftIndex,
      SchemasAfter;
    RunMigration(d, base, target, schemas);
    AcceptedIff(base, target, schemas);
    LeftFks(d, base, target, schemas);
    LeftTables(d, base, target);
    StartParts(d, LeftIndex(d, base, target), SchemasAfter(base, target, schemas));
  }

  // ---------------------------------------------------------------- the statements of the way down

  function WithoutNotes(stmts: seq<Stmt>): seq<Stmt> {
    if stmts == [] then []
    else (if stmts[0].PrimaryKeyNote? then [] else [stmts[0]]) + WithoutNotes(stmts[1..])
  }

  lemma {:induction false} NotesDoNothing(db: Db, stmts: seq<Stmt>)
    ensures Run(db, WithoutNotes(stmts)) == Run(db, stmts)
    decreases |stmts|
  {
    if stmts != [] {
      var s, rest := stmts[0], stmts[1..];
      if s.PrimaryKeyNote? {
        NotesDoNothing(db, rest);
        assert [] + WithoutNotes(rest) == WithoutNotes(rest);
      } else {
        var all := [s] + WithoutNotes(rest);
        assert all[1..] == WithoutNotes(rest);
        hide WithoutNotes;
        if Exec(db, s).Some? {
          NotesDoNothing(Exec(db, s).value, rest);
        }
        hide Exec;
      }
    }
  }

  lemma {:induction false} WithoutConcat(a: seq<Stmt>, b: seq<Stmt>)
    ensures WithoutNotes(a + b) == WithoutNotes(a) + WithoutNotes(b)
  {
    if a == [] {
      assert a + b == b;
    } else {
      assert (a + b)[1..] == a[1..] + b;
      WithoutConcat(a[1..], b);
    }
  }

  /** Two snapshots with the same tables and columns, and the same names for foreign keys that are dropped. */
  ghost predicate Twins(d: Dialect, a: Index, b: Index, target: Index) {
    && a.tables.keys == b.tables.keys && a.fks.keys == b.fks.keys
    && a.tables.m.Keys == b.tables.m.Keys && a.fks.m.Keys == b.fks.m.Keys
    && (forall f :: f in a.fks.m && f !in target.fks.m ==> a.fks.m[f] == b.fks.m[f])
    && (forall k :: k in a.tables.m ==> a.tables.m[k].columns == b.tables.m[k].columns)
    && (forall k :: k in a.tables.m && k in target.tables.m && d.postgresql ==>
          a.tables.m[k].comment == b.tables.m[k].comment)
  }

  lemma {:induction false} SameDropFks(d: Dialect, a: Index, b: Index, t: Index, fs: seq<FkSignature>)
    requires Twins(d, a, b, t) && forall f :: f in fs ==> f in a.fks.m
    ensures DropFks(a, t, fs) == DropFks(b, t, fs)
  {
    if fs != [] {
      SameDropFks(d, a, b, t, fs[1..]);
      assert fs[0] in fs;
    }
  }

  lemma {:induction false} SameCreateTables(d: Dialect, a: Index, b: Index, t: Index, ks: seq<TableKey>)
    requires Twins(d, a, b, t) && forall k :: k in ks ==> k in t.tables.m
    ensures CreateTables(d, a, t, ks) == CreateTables(d, b, t, ks)
  {
    hide Defs;
    if ks != [] {
      SameCreateTables(d, a, b, t, ks[1..]);
    }
  }

  lemma {:induction false} SameAddFks(d: Dialect, a: Index, b: Index, t: Index, fs: seq<FkSignature>)
    requires Twins(d, a, b, t) && forall f :: f in fs ==> f in t.fks.m
    ensures AddFks(a, t, fs) == AddFks(b, t, fs)
  {
    if fs != [] {
      SameAddFks(d, a, b, t, fs[1..]);
    }
  }

  lemma {:induction false} SameColumnChanges(d: Dialect, k: TableKey, a: Table, b: Table, t: Table, cs: seq<string>)
    requires a.columns == b.columns && forall c :: c in cs ==> c in t.columns.m
    ensures AddColumns(d, k, a, t, cs) == AddColumns(d, k, b, t, cs)
    ensures ChangeColumns(d, k, a, t, cs) == ChangeColumns(d, k, b, t, cs)
  {
    hide Def, ChangeColumn;
    if cs != [] {
      SameColumnChanges(d, k, a, b, t, cs[1..]);
    }
  }

  lemma {:induction false} OnlyNotes(k: TableKey, a: Table, t: Table)
    ensures WithoutNotes(NotePrimaryKey(k, a, t)) == []
  {
  }

  lemma {:induction false} SameAlterTable(d: Dialect, k: TableKey, a: Table, b: Table, t: Table)
    requires a.columns == b.columns && (d.postgresql ==> a.comment == b.comment) && t.columns.Valid()
    ensures WithoutNotes(AlterTable(d, k, a, t)) == WithoutNotes(AlterTable(d, k, b, t))
  {
    assert ChangeComment(d, k, a, t) == ChangeComment(d, k, b, t);
    hide AddColumns, DropColumns, ChangeColumns, NotePrimaryKey, ChangeComment, WithoutNotes;
    SameColumnChanges(d, k, a, b, t, t.columns.keys);
    AlterWithoutNotes(d, k, a, t);
    AlterWithoutNotes(d, k, b, t);
  }

  lemma {:induction false} AlterWithoutNotes(d: Dialect, k: TableKey, a: Table, t: Table)
    requires t.columns.Valid()
    ensures WithoutNotes(AlterTable(d, k, a, t)) == WithoutNotes(
      AddColumns(d, k, a, t, t.columns.keys) + DropColumns(k, t, a.columns.keys)
      + ChangeColumns(d, k, a, t, t.columns.keys)) + WithoutNotes(ChangeComment(d, k, a, t))
  {
    hide AddColumns, DropColumns, ChangeColumns, NotePrimaryKey, ChangeComment, WithoutNotes;
    var cols := AddColumns(d, k, a, t, t.columns.keys) + DropColumns(k, t, a.columns.keys)
                + ChangeColumns(d, k, a, t, t.columns.keys);
    WithoutConcat(cols + NotePrimaryKey(k, a, t), ChangeComment(d, k, a, t));
    WithoutConcat(cols, NotePrimaryKey(k, a, t));
    OnlyNotes(k, a, t);
  }

  lemma {:induction false} SameAlterTables(d: Dialect, a: Index, b: Index, t: Index, ks: seq<TableKey>)
    requires Twins(d, a, b, t) && Listed(t) && forall k :: k in ks ==> k in t.tables.m
    ensures WithoutNotes(AlterTables(d, a, t, ks)) == WithoutNotes(AlterTables(d, b, t, ks))
  {
    hide AlterTable, WithoutNotes;
    if ks != [] {
      var k, rest := ks[0], ks[1..];
      assert k in ks;
      SameAlterTables(d, a, b, t, rest);
      if k in a.tables.m {
        SameAlterTable(d, k, a.tables.m[k], b.tables.m[k], t.tables.m[k]);
        WithoutConcat(AlterTable(d, k, a.tables.m[k], t.tables.m[k]), AlterTables(d, a, t, rest));
        WithoutConcat(AlterTable(d, k, b.tables.m[k], t.tables.m[k]), AlterTables(d, b, t, rest));
      } else {
        WithoutConcat([], AlterTables(d, a, t, rest));
        WithoutConcat([], AlterTables(d, b, t, rest));
      }
    }
  }

  lemma {:induction false} SameSchemas(d: Dialect, a: Index, b: Index, t: Index)
    requires Twins(d, a, b, t)
    ensures MissingSchemas(a, t) == MissingSchemas(b, t)
  {
    assert SchemaNames(a) == SchemaNames(b);
  }

  /** Twins are migrated by the same statements, notes aside. */
  lemma {:induction false} SameMigration(d: Dialect, a: Index, b: Index, t: Index)
    requires Twins(d, a, b, t) && Listed(a) && Listed(b) && Listed(t)
    ensures WithoutNotes(MigrationStmts(d, a, t)) == WithoutNotes(MigrationStmts(d, b, t))
  {
    TwinLists(d, a, b, t);
    SameSchemas(d, a, b, t);
    hide Twins, Listed, DropFks, DropTables, CreateSchemas, CreateTables, AlterTables, AddFks, MissingSchemas,
      SortedStrings, WithoutNotes, MigrationStmts;
    SplitMigration(d, a, t);
    SplitMigration(d, b, t);
    SameDropFks(d, a, b, t, a.fks.keys);
    SameCreateTables(d, a, b, t, t.tables.keys);
    SameAlterTables(d, a, b, t, t.tables.keys);
    SameAddFks(d, a, b, t, t.fks.keys);
  }

  lemma {:induction false} TwinLists(d: Dialect, a: Index, b: Index, t: Index)
    requires Twins(d, a, b, t) && Listed(a) && Listed(b) && Listed(t)
    ensures a.fks.keys == b.fks.keys && a.tables.keys == b.tables.keys
    ensures forall f :: f in a.fks.keys ==> f in a.fks.m && f in b.fks.m
    ensures forall f :: f in t.fks.keys ==> f in t.fks.m
    ensures forall k :: k in t.tables.keys ==> k in t.tables.m
  {
  }

  lemma {:induction false} SplitMigration(d: Dialect, a: Index, t: Index)
    requires Listed(a) && Listed(t)
    ensures WithoutNotes(MigrationStmts(d, a, t)) ==
      WithoutNotes(DropFks(a, t, a.fks.keys) + DropTables(t, a.tables.keys)
                   + CreateSchemas(SortedStrings(MissingSchemas(a, t))) + CreateTables(d, a, t, t.tables.keys))
      + WithoutNotes(AlterTables(d, a, t, t.tables.keys)) + WithoutNotes(AddFks(a, t, t.fks.keys))
  {
    hide DropFks, DropTables, CreateSchemas, CreateTables, AlterTables, AddFks, MissingSchemas, SortedStrings,
      WithoutNotes;
    var first := DropFks(a, t, a.fks.keys) + DropTables(t, a.tables.keys)
                 + CreateSchemas(SortedStrings(MissingSchemas(a, t))) + CreateTables(d, a, t, t.tables.keys);
    WithoutConcat(first + AlterTables(d, a, t, t.tables.keys), AddFks(a, t, t.fks.keys));
    WithoutConcat(first, AlterTables(d, a, t, t.tables.keys));
  }

  lemma {:induction false} LeftIsTwin(d: Dialect, base: Index, target: Index)
    ensures Twins(d, target, LeftIndex(d, base, target), base)
  {
  }

  /** The way down does to the left database what a migration made for its own snapshot does. */
  lemma {:induction false} DownIsMigration(d: Dialect, base: Index, target: Index, db: Db)
    requires Listed(base) && Listed(target) && Listed(LeftIndex(d, base, target))
    ensures Run(db, MigrationStmts(d, target, base)) == Run(db, MigrationStmts(d, LeftIndex(d, base, target), base))
  {
    hide MigrationStmts, Run, WithoutNotes, Listed, LeftIndex, Twins;
    LeftIsTwin(d, base, target);
    SameMigration(d, target, LeftIndex(d, base, target), base);
    NotesDoNothing(db, MigrationStmts(d, target, base));
    NotesDoNothing(db, MigrationStmts(d, LeftIndex(d, base, target), base));
  }

  // ---------------------------------------------------------------- when the way down is applicable

  lemma {:induction false} SchemasLeft(d: Dialect, base: Index, target: Index, schemas: set<string>)
    requires SchemaNames(base) <= schemas
    ensures SchemaNames(LeftIndex(d, base, target)) <= SchemasAfter(base, target, schemas)
    ensures SchemasNamed(LeftIndex(d, base, target), base, SchemasAfter(base, target, schemas)) <==>
      SchemasNamed(target, base, schemas)
  {
    var left := LeftIndex(d, base, target);
    assert left.tables.m.Keys == target.tables.m.Keys;
    forall k | k in target.tables.m && k.schemaName != "" ensures k.schemaName in SchemasAfter(base, target, schemas) {
      if k !in base.tables.m && k.schemaName !in SchemaNames(base) {
        assert k.schemaName in MissingSchemas(base, target);
      }
    }
    assert "" !in MissingSchemas(base, target);
  }

  lemma {:induction false} UnnamedDown(d: Dialect, base: Index, target: Index)
    ensures UnnamedLeaves(LeftIndex(d, base, target), base) <==> UnnamedLeaves(target, base)
  {
    hide Before;
  }

  lemma {:induction false} KeysDown(d: Dialect, base: Index, target: Index)
    requires WellFormed(base)
    ensures KeysStayNotNull(LeftIndex(d, base, target), base)
  {
    var left := LeftIndex(d, base, target);
    forall k, c | k in left.tables.m && k in base.tables.m && c in KeptKey(left.tables.m[k], base.tables.m[k])
        && c in base.tables.m[k].columns.m
      ensures base.tables.m[k].columns.m[c].notNull
    {
      assert WellFormedTable(base.tables.m[k]);
      assert c in base.tables.m[k].pk;
    }
    hide WellFormed;
  }

  lemma {:induction false} NamesDown(d: Dialect, base: Index, target: Index)
    requires WellFormed(base)
    ensures NamesDoNotClash(LeftIndex(d, base, target), base)
  {
    hide WellFormedTable, WellFormedFk;
  }

  lemma {:induction false} DownApplicable(d: Dialect, base: Index, target: Index, schemas: set<string>)
    requires WellFormed(base) && SchemaNames(base) <= schemas
    ensures Applicable(LeftIndex(d, base, target), base, SchemasAfter(base, target, schemas)) <==>
      UnnamedLeaves(target, base) && SchemasNamed(target, base, schemas)
  {
    hide WellFormed, UnnamedLeaves, SchemasNamed, KeysStayNotNull, NamesDoNotClash, LeftIndex, SchemasAfter;
    SchemasLeft(d, base, target, schemas);
    UnnamedDown(d, base, target);
    KeysDown(d, base, target);
    NamesDown(d, base, target);
  }

  // ---------------------------------------------------------------- a foreign key that stayed behind

  /** An unnamed foreign key goes only with its table, and cannot be added again. */
  lemma {:induction false} StuckFk(db: Db, stmts: seq<Stmt>, f: FkSignature, n: Option<string>)
    requires f in db.fks && db.fks[f].None? && AddForeignKey(f, n) in stmts
    requires DropTable(f.child) !in stmts
    ensures Run(db, stmts).None?
    decreases |stmts|
  {
    var s, rest := stmts[0], stmts[1..];
    assert stmts == [s] + rest;
    if s != AddForeignKey(f, n) && Exec(db, s).Some? {
      KeepsUnnamed(db, s, f);
      hide Exec;
      StuckFk(Exec(db, s).value, rest, f, n);
    } else if s == AddForeignKey(f, n) {
      assert Exec(db, s).None?;
    }
  }

  lemma {:induction false} KeepsUnnamed(db: Db, s: Stmt, f: FkSignature)
    requires f in db.fks && db.fks[f].None? && s != DropTable(f.child) && Exec(db, s).Some?
    ensures f in Exec(db, s).value.fks && Exec(db, s).value.fks[f].None?
  {
    hide HasColumns, InUse, NameTaken, NewTable;
  }

  lemma {:induction false} AddsIt(base: Index, target: Index, fs: seq<FkSignature>, f: FkSignature)
    requires forall g :: g in fs ==> g in target.fks.m
    requires f in fs && f !in base.fks.m && f.child in target.tables.m && f.parent in target.tables.m
    ensures AddForeignKey(f, target.fks.m[f]) in AddFks(base, target, fs)
  {
    if fs[0] == f {
      assert AddFk(base, target, f) == [AddForeignKey(f, target.fks.m[f])];
    } else {
      assert f in fs[1..];
      AddsIt(base, target, fs[1..], f);
    }
  }

  lemma {:induction false} DropsOnlyGone(target: Index, ks: seq<TableKey>, k: TableKey)
    requires k in target.tables.m
    ensures DropTable(k) !in DropTables(target, ks)
  {
    if ks != [] {
      DropsOnlyGone(target, ks[1..], k);
    }
  }

  predicate IsDrop(s: Stmt) {
    s.DropTable?
  }

  predicate NoDrops(stmts: seq<Stmt>) {
    forall s :: s in stmts ==> !IsDrop(s)
  }

  lemma {:induction false} NoDropsInFks(a: Index, t: Index, fs: seq<FkSignature>)
    ensures (forall f :: f in fs ==> f in a.fks.m) ==> NoDrops(DropFks(a, t, fs))
    ensures (forall f :: f in fs ==> f in t.fks.m) ==> NoDrops(AddFks(a, t, fs))
  {
    if fs != [] {
      NoDropsInFks(a, t, fs[1..]);
      assert forall f :: f in fs[1..] ==> f in fs;
      assert fs[0] in fs;
    }
  }

  lemma {:induction false} NoDropsInCreates(d: Dialect, a: Index, t: Index, ks: seq<TableKey>, names: seq<string>)
    requires forall k :: k in ks ==> k in t.tables.m
    ensures NoDrops(CreateTables(d, a, t, ks)) && NoDrops(CreateSchemas(names))
    decreases |ks| + |names|
  {
    hide Defs;
    if ks != [] {
      NoDropsInCreates(d, a, t, ks[1..], names);
    } else if names != [] {
      NoDropsInCreates(d, a, t, ks, names[1..]);
    }
  }

  lemma {:induction false} NoDropsInColumns(d: Dialect, k: TableKey, a: Table, t: Table, cs: seq<string>)
    ensures (forall c :: c in cs ==> c in t.columns.m) ==>
      NoDrops(AddColumns(d, k, a, t, cs)) && NoDrops(ChangeColumns(d, k, a, t, cs))
    ensures NoDrops(DropColumns(k, t, cs))
  {
    hide Def;
    if cs != [] {
      NoDropsInColumns(d, k, a, t, cs[1..]);
      assert forall c :: c in cs[1..] ==> c in cs;
      assert cs[0] in cs;
    }
  }

  lemma {:induction false} NoDropsInAlters(d: Dialect, a: Index, t: Index, ks: seq<TableKey>)
    requires Listed(t) && forall k :: k in ks ==> k in t.tables.m
    ensures NoDrops(AlterTables(d, a, t, ks))
  {
    hide AddColumns, DropColumns, ChangeColumns;
    if ks != [] {
      var k := ks[0];
      NoDropsInAlters(d, a, t, ks[1..]);
      if k in a.tables.m {
        NoDropsInColumns(d, k, a.tables.m[k], t.tables.m[k], t.tables.m[k].columns.keys);
        NoDropsInColumns(d, k, a.tables.m[k], t.tables.m[k], a.tables.m[k].columns.keys);
      }
    }
  }

  /** The way down would add such a foreign key again, and does not drop its table. */
  lemma {:induction false} DownAddsAgain(d: Dialect, base: Index, target: Index, f: FkSignature)
    requires WellFormed(base) && WellFormed(target) && Listed(base) && Listed(target)
    requires f in base.fks.m && f !in target.fks.m
    ensures AddForeignKey(f, base.fks.m[f]) in MigrationStmts(d, target, base)
    ensures DropTable(f.child) !in MigrationStmts(d, target, base)
  {
    FkTables(base, f);
    IsListed(base);
    IsListed(target);
    var names := SortedStrings(MissingSchemas(target, base));
    hide WellFormed, DropFks, DropTables, CreateSchemas, CreateTables, AlterTables, AddFks, SortedStrings,
      MissingSchemas, Listed;
    assert f in Elems(base.fks.keys);
    AddsIt(target, base, base.fks.keys, f);
    DropsOnlyGone(base, target.tables.keys, f.child);
    NoDropsInFks(target, base, target.fks.keys);
    NoDropsInFks(target, base, base.fks.keys);
    NoDropsInCreates(d, target, base, base.tables.keys, names);
    NoDropsInAlters(d, target, base, base.tables.keys);
    assert IsDrop(DropTable(f.child));
  }

  /** When the way up has left a foreign key behind, the way down is refused. */
  lemma {:induction false} LeftoverRefuses(d: Dialect, base: Index, target: Index, schemas: set<string>)
    requires WellFormed(base) && WellFormed(target) && SchemaNames(base) <= schemas
    requires Accepted(base, target, schemas) && !Applicable(base, target, schemas)
    ensures Listed(base) && Listed(target)
    ensures Run(Final(d, base, target, schemas), MigrationStmts(d, target, base)).None?
  {
    IsListed(base);
    IsListed(target);
    AcceptedIff(base, target, schemas);
    hide WellFormed, Accepted, Applicable, FksLeft, NewFks, Listed, MigrationStmts, Run, TablesAfter;
    FksMeaning(base, target);
    var f :| Unnamed(base, target, f) && f.child in target.tables.m;
    LeftMeaning(base, target, f);
    InFinal(d, base, target, schemas, f);
    DownAddsAgain(d, base, target, f);
    StuckFk(Final(d, base, target, schemas), MigrationStmts(d, target, base), f, base.fks.m[f]);
  }

  lemma {:induction false} InFinal(d: Dialect, base: Index, target: Index, schemas: set<string>, f: FkSignature)
    requires f in FksLeft(base, target) && f !in target.fks.m
    ensures f in Final(d, base, target, schemas).fks
    ensures Final(d, base, target, schemas).fks[f] == FksLeft(base, target)[f]
  {
    hide FksLeft, TablesAfter;
  }

  // ---------------------------------------------------------------- there and back

  /** Up, and then down on what is there. */
  ghost function ThereAndBack(d: Dialect, base: Index, target: Index, schemas: set<string>): Option<Db>
    requires Listed(base) && Listed(target)
  {
    Run(Start(d, base, schemas), MigrationStmts(d, base, target) + MigrationStmts(d, target, base))
  }

  /** Up and down can be run one after the other. */
  ghost predicate BothWays(base: Index, target: Index, schemas: set<string>) {
    Applicable(base, target, schemas) && UnnamedLeaves(target, base) && SchemasNamed(target, base, schemas)
  }

  /** The state in which up and down end, if they do. */
  lemma {:induction false} BackIs(d: Dialect, base: Index, target: Index, schemas: set<string>)
    requires WellFormed(base) && WellFormed(target) && SchemaNames(base) <= schemas
    ensures Listed(base) && Listed(target)
    ensures Applicable(base, target, schemas) ==>
      WellFormed(LeftIndex(d, base, target)) && Listed(LeftIndex(d, base, target))
    ensures ThereAndBack(d, base, target, schemas) ==
      if !Applicable(base, target, schemas) then None
      else Run(Start(d, LeftIndex(d, base, target), SchemasAfter(base, target, schemas)),
               MigrationStmts(d, LeftIndex(d, base, target), base))
  {
    RunMigration(d, base, target, schemas);
    var db, up, down := Start(d, base, schemas), MigrationStmts(d, base, target), MigrationStmts(d, target, base);
    hide WellFormed, Run, Accepted, UnnamedLeaves, SchemasNamed, KeysStayNotNull, NamesDoNotClash, LeftIndex, Start,
      Listed, MigrationStmts, Final, SchemasAfter;
    RunThen(db, up, Run(db, up), down);
    if Applicable(base, target, schemas) {
      UpLeaves(d, base, target, schemas);
      LeftWellFormed(d, base, target);
      IsListed(LeftIndex(d, base, target));
      DownIsMigration(d, base, target, Start(d, LeftIndex(d, base, target), SchemasAfter(base, target, schemas)));
    } else if Accepted(base, target, schemas) {
      LeftoverRefuses(d, base, target, schemas);
    }
  }

  /** For all snapshots: up and down give back the base's tables, columns and foreign keys exactly under `BothWays`. */
  lemma {:induction false} ThereAndBackIff(d: Dialect, base: Index, target: Index, schemas: set<string>)
    requires WellFormed(base) && WellFormed(target) && SchemaNames(base) <= schemas
    ensures Listed(base) && Listed(target)
    ensures var end := ThereAndBack(d, base, target, schemas);
      (end.Some? && HoldsTarget(d, base, end.value)) <==> BothWays(base, target, schemas)
  {
    hide WellFormed, Run, Applicable, LeftIndex, Start, Listed, MigrationStmts, SchemasAfter, ThereAndBack, HoldsTarget,
      UnnamedLeaves, SchemasNamed;
    BackIs(d, base, target, schemas);
    if Applicable(base, target, schemas) {
      SchemasLeft(d, base, target, schemas);
      DownApplicable(d, base, target, schemas);
      MigrationReachesTarget(d, LeftIndex(d, base, target), base, SchemasAfter(base, target, schemas));
    }
  }

  // ---------------------------------------------------------------- exact mirrors

  /** The primary key of a surviving table keeps all its columns on the way. */
  ghost predicate KeysKept(base: Index, target: Index) {
    forall k, c :: k in base.tables.m && k in target.tables.m && c in base.tables.m[k].pk ==>
      c in target.tables.m[k].columns.m
  }

  /** Tables that go on the way have no comment. */
  ghost predicate GoneUncommented(base: Index, target: Index) {
    forall k :: k in base.tables.m && k !in target.tables.m ==> Plain(base.tables.m[k].comment).None?
  }

  lemma {:induction false} BackTable(d: Dialect, base: Index, target: Index, k: TableKey)
    requires WellFormed(base) && k in base.tables.m
    ensures k in target.tables.m ==>
      (Altered(d, LeftTable(d, base, k, target.tables.m[k]), base.tables.m[k]) == Existing(d, base.tables.m[k])
       <==> forall c :: c in base.tables.m[k].pk ==> c in target.tables.m[k].columns.m)
    ensures Fresh(d, base.tables.m[k]) == Existing(d, base.tables.m[k]) <==> Plain(base.tables.m[k].comment).None?
  {
    assert WellFormedTable(base.tables.m[k]);
    hide WellFormed, Defs;
    if k in target.tables.m {
      LeftPk(d, base, k, target.tables.m[k]);
    }
  }

  lemma {:induction false} BackTables(d: Dialect, base: Index, target: Index)
    requires WellFormed(base)
    ensures TablesAfter(d, LeftIndex(d, base, target), base) == Start(d, base, {}).tables <==>
      KeysKept(base, target) && GoneUncommented(base, target)
  {
    var left := LeftIndex(d, base, target);
    var tables, want := TablesAfter(d, left, base), Start(d, base, {}).tables;
    FinalColumns(d, left, base);
    hide WellFormed, TablesAfter, LeftIndex, Plain, Existing;
    assert want.Keys == base.tables.m.Keys && tables.Keys == base.tables.m.Keys;
    forall k | k in base.tables.m
      ensures tables[k] == want[k] <==>
        if k in target.tables.m then forall c :: c in base.tables.m[k].pk ==> c in target.tables.m[k].columns.m
        else Plain(base.tables.m[k].comment).None?
    {
      BackTable(d, base, target, k);
      TableAfter(d, base, target, k);
    }
    assert tables == want <==> forall k :: k in base.tables.m ==> tables[k] == want[k];
  }

  lemma {:induction false} TableAfter(d: Dialect, base: Index, target: Index, k: TableKey)
    requires k in base.tables.m
    ensures k in TablesAfter(d, LeftIndex(d, base, target), base)
    ensures TablesAfter(d, LeftIndex(d, base, target), base)[k] ==
      if k in target.tables.m then Altered(d, LeftTable(d, base, k, target.tables.m[k]), base.tables.m[k])
      else Fresh(d, base.tables.m[k])
  {
    hide Existing, Altered, Fresh, LeftTable;
  }

  lemma {:induction false} BackSchemas(d: Dialect, base: Index, target: Index, schemas: set<string>)
    requires SchemaNames(base) <= schemas
    ensures SchemasAfter(LeftIndex(d, base, target), base, SchemasAfter(base, target, schemas)) == schemas <==>
      MissingSchemas(base, target) <= schemas
  {
    assert MissingSchemas(LeftIndex(d, base, target), base) <= SchemaNames(base);
    hide MissingSchemas, LeftIndex;
  }

  lemma {:induction false} BackFks(d: Dialect, base: Index, target: Index, schemas: set<string>)
    requires WellFormed(base) && WellFormed(LeftIndex(d, base, target))
      && SchemaNames(LeftIndex(d, base, target)) <= schemas
    requires Applicable(LeftIndex(d, base, target), base, schemas)
    ensures FksLeft(LeftIndex(d, base, target), base) + NewFks(LeftIndex(d, base, target), base, base.fks.m.Keys)
      == base.fks.m
  {
    hide WellFormed, Applicable, FksLeft, NewFks, LeftIndex;
    LeftFks(d, LeftIndex(d, base, target), base, schemas);
    NamesComeBack(d, base, target);
  }

  lemma {:induction false} NamesComeBack(d: Dialect, base: Index, target: Index)
    ensures LeftIndex(d, LeftIndex(d, base, target), base).fks.m == base.fks.m
  {
    hide LeftTable;
  }

  lemma {:induction false} BackEnds(d: Dialect, base: Index, target: Index, schemas: set<string>)
    requires WellFormed(base) && WellFormed(target) && SchemaNames(base) <= schemas && BothWays(base, target, schemas)
    ensures Listed(base) && Listed(target)
    ensures ThereAndBack(d, base, target, schemas) == Some(Db(
      SchemasAfter(LeftIndex(d, base, target), base, SchemasAfter(base, target, schemas)),
      TablesAfter(d, LeftIndex(d, base, target), base), base.fks.m))
  {
    hide WellFormed, Run, Applicable, Accepted, LeftIndex, Start, Listed, MigrationStmts, SchemasAfter, ThereAndBack,
      UnnamedLeaves, SchemasNamed, TablesAfter, FksLeft, NewFks;
    BackIs(d, base, target, schemas);
    SchemasLeft(d, base, target, schemas);
    DownApplicable(d, base, target, schemas);
    var left, schemas' := LeftIndex(d, base, target), SchemasAfter(base, target, schemas);
    RunMigration(d, left, base, schemas');
    AcceptedIff(left, base, schemas');
    BackFks(d, base, target, schemas');
  }

  /**
   Up and down are exact mirrors, down to keys, comments and names, exactly when beside that no schema had to be
   created, no column of a primary key went on the way, and no table that went had a comment.
   */
  lemma {:induction false} ExactMirrorIff(d: Dialect, base: Index, target: Index, schemas: set<string>)
    requires WellFormed(base) && WellFormed(target) && SchemaNames(base) <= schemas
    ensures Listed(base) && Listed(target)
    ensures ThereAndBack(d, base, target, schemas) == Some(Start(d, base, schemas)) <==>
      && BothWays(base, target, schemas) && MissingSchemas(base, target) <= schemas
      && KeysKept(base, target) && GoneUncommented(base, target)
  {
    ThereAndBackIff(d, base, target, schemas);
    StartHolds(d, base, schemas);
    StartParts(d, base, schemas);
    BackTables(d, base, target);
    BackSchemas(d, base, target, schemas);
    hide WellFormed, BothWays, KeysKept, GoneUncommented, ThereAndBack, MissingSchemas, LeftIndex, SchemasAfter,
      TablesAfter, HoldsTarget, Listed;
    if BothWays(base, target, schemas) {
      BackEnds(d, base, target, schemas);
    }
  }

  lemma {:induction false} StartHolds(d: Dialect, base: Index, schemas: set<string>)
    ensures HoldsTarget(d, base, Start(d, base, schemas))
  {
  }
}
