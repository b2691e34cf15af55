/** What the generated migration does, phase by phase, and exactly when it reaches the target. */
module MigrationRuns {
  import opened Dicts
  import opened Lists
  import opened Snapshots
  import opened Migration
  import opened Orders

  ghost function Elems<T>(s: seq<T>): set<T> {
    set x | x in s
  }

  lemma {:induction false} DistinctTail<T>(s: seq<T>)
    requires Distinct(s) && s != []
    ensures Distinct(s[1..]) && s[0] !in Elems(s[1..]) && Elems(s) == {s[0]} + Elems(s[1..])
  {
    assert forall x :: x in s ==> x == s[0] || x in s[1..];
  }

  lemma {:induction false} RunOne(db: Db, s: Stmt)
    ensures Run(db, [s]) == Exec(db, s)
  {
    assert [s][1..] == [];
    assert Exec(db, s).Some? ==> Run(Exec(db, s).value, []) == Exec(db, s);
  }

  lemma {:induction false} RunNone(db: Db)
    ensures Run(db, []) == Some(db)
  {
  }

  /** Running the head's statements and then the rest's. */
  lemma {:induction false} RunThen(db: Db, head: seq<Stmt>, mid: Option<Db>, rest: seq<Stmt>)
    requires Run(db, head) == mid
    ensures Run(db, head + rest) == if mid.None? then None else Run(mid.value, rest)
  {
    RunConcat(db, head, rest);
  }

  // ---------------------------------------------------------------- dropping foreign keys

  /** The foreign keys for which a DROP CONSTRAINT is written. */
  ghost predicate Dropped(base: Index, target: Index, f: FkSignature) {
    f in base.fks.m && f !in target.fks.m && !Skipped(base, target, f) && base.fks.m[f].Some?
  }

  ghost function WithoutDropped(base: Index, target: Index, fks: FkMap, fs: set<FkSignature>): FkMap {
    map f | f in fks && !(f in fs && Dropped(base, target, f)) :: fks[f]
  }

  ghost predicate FksOf(base: Index, fks: FkMap) {
    forall f :: f in fks ==> f in base.fks.m && fks[f] == base.fks.m[f]
  }

  lemma {:induction false} UniqueName(ix: Index, f: FkSignature, g: FkSignature)
    requires WellFormed(ix) && f in ix.fks.m && g in ix.fks.m
    requires f.child == g.child && ix.fks.m[f].Some? && ix.fks.m[f] == ix.fks.m[g]
    ensures f == g
  {
    hide WellFormedTable, WellFormedFk;
  }

  lemma {:induction false} FkTables(ix: Index, f: FkSignature)
    requires WellFormed(ix) && f in ix.fks.m
    ensures WellFormedFk(ix.tables.m, f) && f.parent in ix.tables.m && f.child in ix.tables.m
  {
    hide WellFormedTable;
  }

  /** Constraint names are unique per table, so DROP CONSTRAINT hits one foreign key. */
  lemma {:induction false} DropsOnlyThat(base: Index, target: Index, fks: FkMap, f: FkSignature)
    requires WellFormed(base) && Dropped(base, target, f) && f in fks && FksOf(base, fks)
    ensures NameTaken(fks, f.child, base.fks.m[f])
    ensures WithoutName(fks, f.child, base.fks.m[f]) == WithoutDropped(base, target, fks, {f})
  {
    hide WellFormed;
    assert HasName(fks, f, f.child, base.fks.m[f]);
    forall g | g in fks ensures HasName(fks, g, f.child, base.fks.m[f]) <==> g == f && Dropped(base, target, g) {
      if HasName(fks, g, f.child, base.fks.m[f]) {
        UniqueName(base, f, g);
      }
    }
  }

  lemma {:induction false} KeepsFk(base: Index, target: Index, fks: FkMap, f: FkSignature)
    requires !Dropped(base, target, f)
    ensures WithoutDropped(base, target, fks, {f}) == fks
  {
    hide Dropped;
  }

  lemma {:induction false} RunDropFk(base: Index, target: Index, db: Db, f: FkSignature)
    requires WellFormed(base) && FksOf(base, db.fks) && f in db.fks && f in base.fks.m
    ensures Run(db, DropFk(base, target, f)) == Some(db.(fks := WithoutDropped(base, target, db.fks, {f})))
  {
    hide WellFormed, WellFormedFk, WithoutDropped, FksOf, NameTaken, WithoutName;
    FkTables(base, f);
    if Dropped(base, target, f) {
      DropsOnlyThat(base, target, db.fks, f);
      RunOne(db, DropConstraint(f.child, base.fks.m[f].value));
    } else {
      KeepsFk(base, target, db.fks, f);
      RunOne(db, ForeignKeyNote(f.child, f.childColumns));
    }
  }

  lemma {:induction false} RunDropFks(base: Index, target: Index, db: Db, fs: seq<FkSignature>)
    requires WellFormed(base) && Distinct(fs) && FksOf(base, db.fks)
    requires forall f :: f in fs ==> f in base.fks.m && f in db.fks
    ensures Run(db, DropFks(base, target, fs)) == Some(db.(fks := WithoutDropped(base, target, db.fks, Elems(fs))))
    decreases |fs|
  {
    hide WellFormed, Exec;
    if fs == [] {
      assert WithoutDropped(base, target, db.fks, Elems(fs)) == db.fks;
    } else {
      DistinctTail(fs);
      RunDropFk(base, target, db, fs[0]);
      var fks' := WithoutDropped(base, target, db.fks, {fs[0]});
      RunThen(db, DropFk(base, target, fs[0]), Some(db.(fks := fks')), DropFks(base, target, fs[1..]));
      RunDropFks(base, target, db.(fks := fks'), fs[1..]);
      assert WithoutDropped(base, target, fks', Elems(fs[1..])) == WithoutDropped(base, target, db.fks, Elems(fs));
    }
  }

  // ---------------------------------------------------------------- dropping tables

  /** When each table's turn comes, no foreign key of another table points at it. */
  ghost predicate DropOrderOk(target: Index, fks: FkMap, ks: seq<TableKey>)
    decreases |ks|
  {
    ks == [] ||
    if ks[0] in target.tables.m then DropOrderOk(target, fks, ks[1..])
    else !ReferencedElsewhere(fks, ks[0]) && DropOrderOk(target, WithoutChildren(fks, {ks[0]}), ks[1..])
  }

  ghost function Removed(target: Index, ks: seq<TableKey>): set<TableKey> {
    Elems(ks) - target.tables.m.Keys
  }

  lemma {:induction false} RunDropTables(target: Index, db: Db, ks: seq<TableKey>)
    requires Distinct(ks)
    ensures Run(db, DropTables(target, ks)) ==
      if !DropOrderOk(target, db.fks, ks) then None
      else Some(db.(tables := db.tables - Removed(target, ks), fks := WithoutChildren(db.fks, Removed(target, ks))))
    decreases |ks|
  {
    hide ReferencedElsewhere;
    if ks == [] {
      assert db.tables - Removed(target, ks) == db.tables;
      assert WithoutChildren(db.fks, Removed(target, ks)) == db.fks;
    } else {
      DistinctTail(ks);
      var k, rest := ks[0], ks[1..];
      if k in target.tables.m {
        RunThen(db, [], Some(db), DropTables(target, rest));
        RunDropTables(target, db, rest);
        assert Removed(target, ks) == Removed(target, rest);
      } else {
        RunOne(db, DropTable(k));
        RunThen(db, [DropTable(k)], Exec(db, DropTable(k)), DropTables(target, rest));
        if !ReferencedElsewhere(db.fks, k) {
          var db' := db.(tables := db.tables - {k}, fks := WithoutChildren(db.fks, {k}));
          RunDropTables(target, db', rest);
          assert Removed(target, ks) == Removed(target, rest) + {k};
          assert db'.tables - Removed(target, rest) == db.tables - Removed(target, ks);
          assert WithoutChildren(db'.fks, Removed(target, rest)) == WithoutChildren(db.fks, Removed(target, ks));
        }
      }
    }
  }

  // ---------------------------------------------------------------- creating schemas and tables

  lemma {:induction false} RunCreateSchemas(db: Db, names: seq<string>)
    ensures Run(db, CreateSchemas(names)) == Some(db.(schemas := db.schemas + set n | n in names))
    decreases |names|
  {
    if names == [] {
      assert db.schemas + (set n | n in names) == db.schemas;
    } else {
      var db' := db.(schemas := db.schemas + {names[0]});
      RunOne(db, CreateSchema(names[0]));
      RunThen(db, [CreateSchema(names[0])], Some(db'), CreateSchemas(names[1..]));
      RunCreateSchemas(db', names[1..]);
      assert names == [names[0]] + names[1..];
      assert db'.schemas + (set n | n in names[1..]) == db.schemas + set n | n in names;
    }
  }

  ghost function Fresh(d: Dialect, t: Table): DbTable {
    DbTable(Defs(d, t), t.pk, None)
  }

  ghost function Created(d: Dialect, base: Index, target: Index, ks: set<TableKey>): map<TableKey, DbTable>
    requires ks <= target.tables.m.Keys
  {
    map k | k in ks && k !in base.tables.m :: Fresh(d, target.tables.m[k])
  }

  ghost predicate SchemasThere(base: Index, schemas: set<string>, ks: set<TableKey>) {
    forall k :: k in ks && k !in base.tables.m ==> k.schemaName in schemas
  }

  lemma {:induction false} CreateNothing(d: Dialect, base: Index, k: TableKey, t: Table)
    requires k in base.tables.m
    ensures CreateTableSql(d, base, k, t) == []
  {
  }

  lemma {:induction false} RunCreateTable(d: Dialect, base: Index, db: Db, k: TableKey, t: Table)
    requires WellFormedTable(t) && k !in db.tables && k !in base.tables.m
    ensures Run(db, CreateTableSql(d, base, k, t)) ==
      if k.schemaName in db.schemas then Some(SetTable(db, k, Fresh(d, t))) else None
  {
    assert NewTable(Defs(d, t), t.pk) == Fresh(d, t);
    RunOne(db, CreateTable(k, Defs(d, t), t.pk));
  }

  lemma {:induction false} CreatedSkip(d: Dialect, base: Index, target: Index, k: TableKey, ks: set<TableKey>)
    requires k in target.tables.m && ks <= target.tables.m.Keys && k in base.tables.m
    ensures Created(d, base, target, {k} + ks) == Created(d, base, target, ks)
  {
    hide Fresh;
  }

  lemma {:induction false} CreatedStep(d: Dialect, base: Index, target: Index, tables: map<TableKey, DbTable>,
    k: TableKey,
    ks: set<TableKey>)
    requires k in target.tables.m && ks <= target.tables.m.Keys && k !in ks && k !in base.tables.m
    ensures tables[k := Fresh(d, target.tables.m[k])] + Created(d, base, target, ks)
         == tables + Created(d, base, target, {k} + ks)
  {
    hide Fresh;
  }

  lemma {:induction false} RunCreateTables(d: Dialect, base: Index, target: Index, db: Db, ks: seq<TableKey>)
    requires Distinct(ks) && Elems(ks) <= target.tables.m.Keys
    requires forall k :: k in target.tables.m ==> WellFormedTable(target.tables.m[k])
    requires forall k :: k in Elems(ks) && k !in base.tables.m ==> k !in db.tables
    ensures Run(db, CreateTables(d, base, target, ks)) ==
      if !SchemasThere(base, db.schemas, Elems(ks)) then None
      else Some(db.(tables := db.tables + Created(d, base, target, Elems(ks))))
    decreases |ks|
  {
    hide Exec, Run, Fresh, WellFormedTable, CreateTableSql;
    if ks == [] {
      assert db.tables + Created(d, base, target, Elems(ks)) == db.tables;
      RunNone(db);
    } else {
      DistinctTail(ks);
      hide Distinct;
      var k, rest := ks[0], ks[1..];
      var t := target.tables.m[k];
      var head := CreateTableSql(d, base, k, t);
      assert CreateTables(d, base, target, ks) == head + CreateTables(d, base, target, rest);
      hide CreateTables, Created;
      if k in base.tables.m {
        RunNone(db);
        assert head == [] by { CreateNothing(d, base, k, t); }
        RunCreateTables(d, base, target, db, rest);
        CreatedSkip(d, base, target, k, Elems(rest));
        RunThen(db, head, Some(db), CreateTables(d, base, target, rest));
      } else {
        RunCreateTable(d, base, db, k, t);
        RunThen(db, head, Run(db, head), CreateTables(d, base, target, rest));
        if k.schemaName in db.schemas {
          var db' := SetTable(db, k, Fresh(d, t));
          RunCreateTables(d, base, target, db', rest);
          CreatedStep(d, base, target, db.tables, k, Elems(rest));
        }
      }
    }
  }

  // ---------------------------------------------------------------- altering a table

  lemma {:induction false} SetTwice(db: Db, k: TableKey, t: DbTable, t': DbTable)
    ensures SetTable(SetTable(db, k, t), k, t') == SetTable(db, k, t')
    ensures SetTable(db, k, t).tables[k] == t && SetTable(db, k, t).fks == db.fks
  {
  }

  ghost function Added(d: Dialect, bt: Table, tt: Table, cs: set<string>): map<string, ColumnDef>
    requires cs <= tt.columns.m.Keys
  {
    map c | c in cs && c !in bt.columns.m :: Def(d, c, tt.columns.m[c])
  }

  lemma {:induction false} AddedStep(d: Dialect, bt: Table, tt: Table, cols: map<string, ColumnDef>, c: string,
    cs: set<string>)
    requires c in tt.columns.m && cs <= tt.columns.m.Keys && c !in cs
    ensures c in bt.columns.m ==> Added(d, bt, tt, {c} + cs) == Added(d, bt, tt, cs)
    ensures c !in bt.columns.m ==>
      cols[c := Def(d, c, tt.columns.m[c])] + Added(d, bt, tt, cs) == cols + Added(d, bt, tt, {c} + cs)
  {
    hide Def;
  }

  lemma {:induction false} RunAddColumns(d: Dialect, k: TableKey, bt: Table, tt: Table, db: Db, t: DbTable,
    cs: seq<string>)
    requires Distinct(cs) && Elems(cs) <= tt.columns.m.Keys
    requires forall c :: c in Elems(cs) && c !in bt.columns.m ==> c !in t.columns
    ensures Run(SetTable(db, k, t), AddColumns(d, k, bt, tt, cs)) ==
      Some(SetTable(db, k, t.(columns := t.columns + Added(d, bt, tt, Elems(cs)))))
    decreases |cs|
  {
    var db' := SetTable(db, k, t);
    hide SetTable;
    if cs == [] {
      assert t.columns + Added(d, bt, tt, Elems(cs)) == t.columns;
      RunNone(db');
    } else {
      DistinctTail(cs);
      var c, rest := cs[0], cs[1..];
      AddedStep(d, bt, tt, t.columns, c, Elems(rest));
      if c in bt.columns.m {
        RunNone(db');
        RunThen(db', [], Some(db'), AddColumns(d, k, bt, tt, rest));
        RunAddColumns(d, k, bt, tt, db, t, rest);
      } else {
        var def := Def(d, c, tt.columns.m[c]);
        var t' := SetColumn(t, c, def);
        SetTwice(db, k, t, t');
        assert k in db'.tables by { InTables(db, k, t); }
        RunOne(db', AddColumn(k, c, def));
        RunThen(db', [AddColumn(k, c, def)], Some(SetTable(db, k, t')), AddColumns(d, k, bt, tt, rest));
        hide Run, Exec, Added;
        RunAddColumns(d, k, bt, tt, db, t', rest);
      }
    }
  }

  lemma {:induction false} InTables(db: Db, k: TableKey, t: DbTable)
    ensures k in SetTable(db, k, t).tables
  {
  }

  ghost function WithoutColumns(t: DbTable, cs: set<string>): DbTable {
    t.(columns := t.columns - cs, pk := if exists c :: c in t.pk && c in cs then [] else t.pk)
  }

  ghost predicate NoneInUse(fks: FkMap, k: TableKey, cs: set<string>) {
    forall c :: c in cs ==> !InUse(fks, k, c)
  }

  lemma {:induction false} WithoutStep(t: DbTable, c: string, cs: set<string>)
    ensures WithoutColumns(WithoutColumn(t, c), cs) == WithoutColumns(t, {c} + cs)
  {
    assert (t.columns - {c}) - cs == t.columns - ({c} + cs);
  }

  lemma {:induction false} RunDropColumns(k: TableKey, tt: Table, db: Db, t: DbTable, cs: seq<string>)
    requires Distinct(cs) && Elems(cs) - tt.columns.m.Keys <= t.columns.Keys
    ensures Run(SetTable(db, k, t), DropColumns(k, tt, cs)) ==
      if !NoneInUse(db.fks, k, Elems(cs) - tt.columns.m.Keys) then None
      else Some(SetTable(db, k, WithoutColumns(t, Elems(cs) - tt.columns.m.Keys)))
    decreases |cs|
  {
    var db' := SetTable(db, k, t);
    InTables(db, k, t);
    hide SetTable, InUse;
    if cs == [] {
      assert t.columns - (Elems(cs) - tt.columns.m.Keys) == t.columns;
      RunNone(db');
    } else {
      DistinctTail(cs);
      var c, rest := cs[0], cs[1..];
      var left := Elems(rest) - tt.columns.m.Keys;
      if c in tt.columns.m {
        assert Elems(cs) - tt.columns.m.Keys == left;
        RunNone(db');
        RunThen(db', [], Some(db'), DropColumns(k, tt, rest));
        RunDropColumns(k, tt, db, t, rest);
      } else {
        assert Elems(cs) - tt.columns.m.Keys == {c} + left;
        var t' := WithoutColumn(t, c);
        SetTwice(db, k, t, t');
        RunOne(db', DropColumn(k, c));
        assert Exec(db', DropColumn(k, c)) == if InUse(db.fks, k, c) then None else Some(SetTable(db, k, t'));
        hide Run, Exec;
        RunThen(db', [DropColumn(k, c)], Run(db', [DropColumn(k, c)]), DropColumns(k, tt, rest));
        RunDropColumns(k, tt, db, t', rest);
        WithoutStep(t, c, left);
      }
    }
  }

  /** DROP NOT NULL meets a column that is still in the primary key. */
  ghost predicate LosesKeyColumn(pk: seq<string>, c: string, was: ColumnDef, to: ColumnDef) {
    was.notNull && !to.notNull && c in pk
  }

  lemma {:induction false} RunChangeColumn(k: TableKey, c: string, was: ColumnDef, to: ColumnDef, db: Db, t: DbTable)
    requires c in t.columns && t.columns[c] == was
    ensures Run(SetTable(db, k, t), ChangeColumn(k, c, was, to)) ==
      if LosesKeyColumn(t.pk, c, was, to) then None else Some(SetTable(db, k, SetColumn(t, c, to)))
  {
    var typed := SetColumn(t, c, was.(dataType := to.dataType));
    var retype := if was.dataType != to.dataType then [AlterType(k, c, to.dataType)] else [];
    var renull := if was.notNull == to.notNull then []
                  else if to.notNull then [SetNotNull(k, c)] else [DropNotNull(k, c)];
    assert ChangeColumn(k, c, was, to) == retype + renull;
    RunRetype(k, c, was, to, db, t);
    RunThen(SetTable(db, k, t), retype, Some(SetTable(db, k, typed)), renull);
    RunRenull(k, c, was.(dataType := to.dataType), to, db, typed);
    assert SetColumn(typed, c, to).columns == SetColumn(t, c, to).columns;
  }

  lemma {:induction false} RunRetype(k: TableKey, c: string, was: ColumnDef, to: ColumnDef, db: Db, t: DbTable)
    requires c in t.columns && t.columns[c] == was
    ensures Run(SetTable(db, k, t), if was.dataType != to.dataType then [AlterType(k, c, to.dataType)] else []) ==
            Some(SetTable(db, k, SetColumn(t, c, was.(dataType := to.dataType))))
  {
    var t' := SetColumn(t, c, was.(dataType := to.dataType));
    SetTwice(db, k, t, t');
    InTables(db, k, t);
    if was.dataType != to.dataType {
      RunOne(SetTable(db, k, t), AlterType(k, c, to.dataType));
    } else {
      assert t'.columns == t.columns;
      RunNone(SetTable(db, k, t));
    }
  }

  lemma {:induction false} RunRenull(k: TableKey, c: string, was: ColumnDef, to: ColumnDef, db: Db, t: DbTable)
    requires c in t.columns && t.columns[c] == was && was.dataType == to.dataType
    ensures Run(SetTable(db, k, t), if was.notNull == to.notNull then []
                                    else if to.notNull then [SetNotNull(k, c)] else [DropNotNull(k, c)]) ==
            if LosesKeyColumn(t.pk, c, was, to) then None else Some(SetTable(db, k, SetColumn(t, c, to)))
  {
    var t' := SetColumn(t, c, to);
    SetTwice(db, k, t, t');
    InTables(db, k, t);
    if was.notNull == to.notNull {
      assert was == to;
      assert t'.columns == t.columns;
      RunNone(SetTable(db, k, t));
    } else if to.notNull {
      assert was.(notNull := true) == to;
      RunOne(SetTable(db, k, t), SetNotNull(k, c));
    } else {
      assert was.(notNull := false) == to;
      RunOne(SetTable(db, k, t), DropNotNull(k, c));
    }
  }

  ghost function Changed(d: Dialect, bt: Table, tt: Table, cs: set<string>): map<string, ColumnDef>
    requires cs <= tt.columns.m.Keys
  {
    map c | c in cs && c in bt.columns.m :: Def(d, c, tt.columns.m[c])
  }

  ghost predicate KeepsKey(bt: Table, tt: Table, pk: seq<string>, cs: set<string>) {
    forall c :: c in cs && c in bt.columns.m && c in tt.columns.m && c in pk && bt.columns.m[c].notNull ==>
      tt.columns.m[c].notNull
  }

  lemma {:induction false} ChangedStep(d: Dialect, bt: Table, tt: Table, cols: map<string, ColumnDef>, c: string,
    cs: set<string>)
    requires c in tt.columns.m && cs <= tt.columns.m.Keys && c !in cs
    ensures c !in bt.columns.m ==> Changed(d, bt, tt, {c} + cs) == Changed(d, bt, tt, cs)
    ensures c in bt.columns.m ==>
      cols[c := Def(d, c, tt.columns.m[c])] + Changed(d, bt, tt, cs) == cols + Changed(d, bt, tt, {c} + cs)
  {
    hide Def;
  }

  lemma {:induction false} RunChangeColumns(d: Dialect, k: TableKey, bt: Table, tt: Table, db: Db, t: DbTable,
    cs: seq<string>)
    requires Distinct(cs) && Elems(cs) <= tt.columns.m.Keys
    requires forall c :: c in Elems(cs) && c in bt.columns.m ==>
      c in t.columns && t.columns[c] == Def(d, c, bt.columns.m[c])
    ensures Run(SetTable(db, k, t), ChangeColumns(d, k, bt, tt, cs)) ==
      if !KeepsKey(bt, tt, t.pk, Elems(cs)) then None
      else Some(SetTable(db, k, t.(columns := t.columns + Changed(d, bt, tt, Elems(cs)))))
    decreases |cs|
  {
    var db' := SetTable(db, k, t);
    hide SetTable, Exec, ChangeColumn;
    if cs == [] {
      assert t.columns + Changed(d, bt, tt, Elems(cs)) == t.columns;
      RunNone(db');
    } else {
      DistinctTail(cs);
      var c, rest := cs[0], cs[1..];
      ChangedStep(d, bt, tt, t.columns, c, Elems(rest));
      hide Run, Changed;
      if c !in bt.columns.m {
        RunNone(db');
        RunThen(db', [], Some(db'), ChangeColumns(d, k, bt, tt, rest));
        RunChangeColumns(d, k, bt, tt, db, t, rest);
      } else {
        var was, to := Def(d, c, bt.columns.m[c]), Def(d, c, tt.columns.m[c]);
        var t' := SetColumn(t, c, to);
        RunChangeColumn(k, c, was, to, db, t);
        RunThen(db', ChangeColumn(k, c, was, to), Run(db', ChangeColumn(k, c, was, to)),
          ChangeColumns(d, k, bt, tt, rest));
        RunChangeColumns(d, k, bt, tt, db, t', rest);
      }
    }
  }

  // ---- the whole of one table

  /** The table as the database holds it before the migration. */
  ghost function Existing(d: Dialect, t: Table): DbTable {
    DbTable(Defs(d, t), t.pk, Plain(t.comment))
  }

  /** The primary key survives only with all its columns, and never changes otherwise. */
  ghost function KeptKey(bt: Table, tt: Table): seq<string> {
    if exists c :: c in bt.pk && c !in tt.columns.m then [] else bt.pk
  }

  /** The table afterwards: the target's columns, the base's primary key, and on PostgreSQL the target's comment. */
  ghost function Altered(d: Dialect, bt: Table, tt: Table): DbTable {
    DbTable(Defs(d, tt), KeptKey(bt, tt), if d.postgresql then Plain(tt.comment) else Plain(bt.comment))
  }

  ghost predicate AlterOk(fks: FkMap, k: TableKey, bt: Table, tt: Table) {
    NoneInUse(fks, k, bt.columns.m.Keys - tt.columns.m.Keys) && KeyStaysNotNull(bt, tt)
  }

  /** No column of the key that is kept becomes nullable. */
  ghost predicate KeyStaysNotNull(bt: Table, tt: Table) {
    forall c :: c in KeptKey(bt, tt) && c in tt.columns.m ==> tt.columns.m[c].notNull
  }

  lemma {:induction false} KeysOf(t: Table)
    requires WellFormedTable(t)
    ensures Distinct(t.columns.keys) && Elems(t.columns.keys) == t.columns.m.Keys
  {
  }

  lemma {:induction false} ColumnsMeet(d: Dialect, bt: Table, tt: Table)
    ensures (Defs(d, bt) + Added(d, bt, tt, tt.columns.m.Keys)) - (bt.columns.m.Keys - tt.columns.m.Keys)
            + Changed(d, bt, tt, tt.columns.m.Keys) == Defs(d, tt)
  {
    hide Def;
  }

  lemma {:induction false} KeptKeyIs(bt: Table, tt: Table, t: DbTable)
    requires WellFormedTable(bt) && t.pk == bt.pk
    ensures WithoutColumns(t, bt.columns.m.Keys - tt.columns.m.Keys).pk == KeptKey(bt, tt)
  {
    assert (exists c :: c in t.pk && c in bt.columns.m.Keys - tt.columns.m.Keys) <==>
      (exists c :: c in bt.pk && c !in tt.columns.m);
  }

  lemma {:induction false} KeepsKeyIs(bt: Table, tt: Table)
    requires WellFormedTable(bt)
    ensures KeepsKey(bt, tt, KeptKey(bt, tt), tt.columns.m.Keys) <==>
            forall c :: c in KeptKey(bt, tt) && c in tt.columns.m ==> tt.columns.m[c].notNull
  {
  }

  ghost function Step1(d: Dialect, bt: Table, tt: Table): DbTable {
    Existing(d, bt).(columns := Defs(d, bt) + Added(d, bt, tt, tt.columns.m.Keys))
  }

  ghost function Step2(d: Dialect, bt: Table, tt: Table): DbTable {
    WithoutColumns(Step1(d, bt, tt), bt.columns.m.Keys - tt.columns.m.Keys)
  }

  ghost function Step3(d: Dialect, bt: Table, tt: Table): DbTable {
    Step2(d, bt, tt).(columns := Defs(d, tt))
  }

  lemma {:induction false} RunNotes(d: Dialect, k: TableKey, bt: Table, tt: Table, db: Db)
    requires WellFormedTable(bt)
    ensures Run(SetTable(db, k, Step3(d, bt, tt)), NotePrimaryKey(k, bt, tt) + ChangeComment(d, k, bt, tt)) ==
      Some(SetTable(db, k, Altered(d, bt, tt)))
  {
    var t, db' := Step3(d, bt, tt), SetTable(db, k, Step3(d, bt, tt));
    KeptKeyIs(bt, tt, Step1(d, bt, tt));
    assert t == DbTable(Defs(d, tt), KeptKey(bt, tt), Plain(bt.comment));
    hide Step3, KeptKey, Defs;
    RunNone(db');
    RunOne(db', PrimaryKeyNote(k, tt.pk));
    RunThen(db', NotePrimaryKey(k, bt, tt), Some(db'), ChangeComment(d, k, bt, tt));
    SetTwice(db, k, t, Altered(d, bt, tt));
    InTables(db, k, t);
    RunOne(db', CommentOn(k, Plain(tt.comment)));
  }

  /** Two runs one after the other, of which the first ends in a known database. */
  lemma {:induction false} RunOnward(db: Db, a: seq<Stmt>, db': Db, b: seq<Stmt>, c: seq<Stmt>)
    requires Run(db, a) == Some(db')
    ensures Run(db, a + b + c) == if Run(db', b).None? then None else Run(Run(db', b).value, c)
  {
    hide Run;
    RunThen(db, a, Some(db'), b);
    RunThen(db, a + b, Run(db, a + b), c);
  }

  lemma {:induction false} AddPhase(d: Dialect, k: TableKey, bt: Table, tt: Table, db: Db)
    requires WellFormedTable(tt)
    ensures Run(SetTable(db, k, Existing(d, bt)), AddColumns(d, k, bt, tt, tt.columns.keys)) ==
      Some(SetTable(db, k, Step1(d, bt, tt)))
  {
    KeysOf(tt);
    hide WellFormedTable, Distinct, Elems, SetTable, Run, Def, AddColumns;
    RunAddColumns(d, k, bt, tt, db, Existing(d, bt), tt.columns.keys);
  }

  lemma {:induction false} DropPhase(d: Dialect, k: TableKey, bt: Table, tt: Table, db: Db)
    requires WellFormedTable(bt)
    ensures Run(SetTable(db, k, Step1(d, bt, tt)), DropColumns(k, tt, bt.columns.keys)) ==
      if !NoneInUse(db.fks, k, bt.columns.m.Keys - tt.columns.m.Keys) then None
      else Some(SetTable(db, k, Step2(d, bt, tt)))
  {
    KeysOf(bt);
    hide WellFormedTable, Distinct, Elems, SetTable, Run, Def, DropColumns, NoneInUse, WithoutColumns;
    RunDropColumns(k, tt, db, Step1(d, bt, tt), bt.columns.keys);
  }

  lemma {:induction false} Step2Facts(d: Dialect, bt: Table, tt: Table)
    requires WellFormedTable(bt)
    ensures Step2(d, bt, tt).pk == KeptKey(bt, tt)
    ensures Step2(d, bt, tt).(columns := Step2(d, bt, tt).columns + Changed(d, bt, tt, tt.columns.m.Keys)) ==
      Step3(d, bt, tt)
    ensures forall c :: c in tt.columns.m && c in bt.columns.m ==>
      c in Step2(d, bt, tt).columns && Step2(d, bt, tt).columns[c] == Def(d, c, bt.columns.m[c])
  {
    KeptKeyIs(bt, tt, Step1(d, bt, tt));
    ColumnsMeet(d, bt, tt);
    hide WellFormedTable, KeptKey, Def;
  }

  lemma {:induction false} ChangePhase(d: Dialect, k: TableKey, bt: Table, tt: Table, db: Db)
    requires WellFormedTable(bt) && WellFormedTable(tt)
    ensures Run(SetTable(db, k, Step2(d, bt, tt)), ChangeColumns(d, k, bt, tt, tt.columns.keys)) ==
      if !KeyStaysNotNull(bt, tt) then None else Some(SetTable(db, k, Step3(d, bt, tt)))
  {
    hide WellFormedTable, Distinct, Elems, SetTable, Run, ChangeColumns, KeptKey, KeepsKey, Step2, Step3, Changed, Def;
    KeysOf(tt);
    Step2Facts(d, bt, tt);
    KeepsKeyIs(bt, tt);
    RunChangeColumns(d, k, bt, tt, db, Step2(d, bt, tt), tt.columns.keys);
  }

  lemma {:induction false} RunAlterColumns(d: Dialect, k: TableKey, bt: Table, tt: Table, db: Db)
    requires WellFormedTable(bt) && WellFormedTable(tt)
    ensures Run(SetTable(db, k, Existing(d, bt)),
                AddColumns(d, k, bt, tt, tt.columns.keys) + DropColumns(k, tt, bt.columns.keys)
                + ChangeColumns(d, k, bt, tt, tt.columns.keys)) ==
      if !AlterOk(db.fks, k, bt, tt) then None else Some(SetTable(db, k, Step3(d, bt, tt)))
  {
    hide Run, SetTable, NoneInUse, KeyStaysNotNull, Existing, Step1, Step2, Step3, AddColumns, DropColumns,
      ChangeColumns;
    assert forall c :: c in tt.columns.keys ==> c in tt.columns.m;
    hide WellFormedTable;
    AddPhase(d, k, bt, tt, db);
    DropPhase(d, k, bt, tt, db);
    ChangePhase(d, k, bt, tt, db);
    RunOnward(SetTable(db, k, Existing(d, bt)), AddColumns(d, k, bt, tt, tt.columns.keys),
      SetTable(db, k, Step1(d, bt, tt)),
              DropColumns(k, tt, bt.columns.keys), ChangeColumns(d, k, bt, tt, tt.columns.keys));
  }

  lemma {:induction false} RunAlterTable(d: Dialect, k: TableKey, bt: Table, tt: Table, db: Db)
    requires WellFormedTable(bt) && WellFormedTable(tt)
    ensures Run(SetTable(db, k, Existing(d, bt)), AlterTable(d, k, bt, tt)) ==
      if !AlterOk(db.fks, k, bt, tt) then None else Some(SetTable(db, k, Altered(d, bt, tt)))
  {
    var cols := AddColumns(d, k, bt, tt, tt.columns.keys) + DropColumns(k, tt, bt.columns.keys)
                + ChangeColumns(d, k, bt, tt, tt.columns.keys);
    var notes := NotePrimaryKey(k, bt, tt) + ChangeComment(d, k, bt, tt);
    assert AlterTable(d, k, bt, tt) == cols + notes;
    hide AlterTable, AlterOk, Step3, Altered, Existing, SetTable, Run;
    RunAlterColumns(d, k, bt, tt, db);
    var db' := SetTable(db, k, Existing(d, bt));
    RunThen(db', cols, Run(db', cols), notes);
    RunNotes(d, k, bt, tt, db);
  }

  // ---------------------------------------------------------------- altering all tables

  ghost function AlteredTables(d: Dialect, base: Index, target: Index, ks: set<TableKey>): map<TableKey, DbTable>
    requires ks <= target.tables.m.Keys
  {
    map k | k in ks && k in base.tables.m :: Altered(d, base.tables.m[k], target.tables.m[k])
  }

  ghost predicate AllAlterOk(fks: FkMap, base: Index, target: Index, ks: set<TableKey>)
    requires ks <= target.tables.m.Keys
  {
    forall k :: k in ks && k in base.tables.m ==> AlterOk(fks, k, base.tables.m[k], target.tables.m[k])
  }

  lemma {:induction false} AlteredStep(d: Dialect, base: Index, target: Index, tables: map<TableKey, DbTable>,
    k: TableKey,
    ks: set<TableKey>)
    requires k in target.tables.m && ks <= target.tables.m.Keys && k !in ks
    ensures k !in base.tables.m ==> AlteredTables(d, base, target, {k} + ks) == AlteredTables(d, base, target, ks)
    ensures k in base.tables.m ==>
      tables[k := Altered(d, base.tables.m[k], target.tables.m[k])] + AlteredTables(d, base, target, ks)
      == tables + AlteredTables(d, base, target, {k} + ks)
  {
    hide Altered;
  }

  lemma {:induction false} SetSame(db: Db, k: TableKey)
    requires k in db.tables
    ensures SetTable(db, k, db.tables[k]) == db
  {
    assert db.tables[k := db.tables[k]] == db.tables;
  }

  lemma {:induction false} RunAlterTables(d: Dialect, base: Index, target: Index, db: Db, ks: seq<TableKey>)
    requires Listed(base) && Listed(target) && Distinct(ks) && Elems(ks) <= target.tables.m.Keys
    requires forall k :: k in base.tables.m ==> WellFormedTable(base.tables.m[k])
    requires forall k :: k in target.tables.m ==> WellFormedTable(target.tables.m[k])
    requires forall k :: k in Elems(ks) && k in base.tables.m ==>
      k in db.tables && db.tables[k] == Existing(d, base.tables.m[k])
    ensures Run(db, AlterTables(d, base, target, ks)) ==
      if !AllAlterOk(db.fks, base, target, Elems(ks)) then None
      else Some(db.(tables := db.tables + AlteredTables(d, base, target, Elems(ks))))
    decreases |ks|
  {
    hide Run, Altered, AlterOk, Existing, WellFormedTable, AlterTable;
    if ks == [] {
      assert db.tables + AlteredTables(d, base, target, Elems(ks)) == db.tables;
      RunNone(db);
    } else {
      DistinctTail(ks);
      var k, rest := ks[0], ks[1..];
      AlteredStep(d, base, target, db.tables, k, Elems(rest));
      hide AlteredTables, Distinct;
      if k !in base.tables.m {
        RunNone(db);
        RunThen(db, [], Some(db), AlterTables(d, base, target, rest));
        RunAlterTables(d, base, target, db, rest);
      } else {
        var bt, tt := base.tables.m[k], target.tables.m[k];
        SetSame(db, k);
        RunAlterTable(d, k, bt, tt, db);
        RunThen(db, AlterTable(d, k, bt, tt), Run(db, AlterTable(d, k, bt, tt)), AlterTables(d, base, target, rest));
        var db' := SetTable(db, k, Altered(d, bt, tt));
        RunAlterTables(d, base, target, db', rest);
      }
    }
  }

  // ---------------------------------------------------------------- adding foreign keys

  ghost function NewFks(base: Index, target: Index, fs: set<FkSignature>): FkMap
    requires fs <= target.fks.m.Keys
  {
    map f | f in fs && f !in base.fks.m :: target.fks.m[f]
  }

  ghost predicate NamesFree(base: Index, target: Index, fks: FkMap, fs: set<FkSignature>)
    requires fs <= target.fks.m.Keys
  {
    forall f :: f in fs && f !in base.fks.m ==> !NameTaken(fks, f.child, target.fks.m[f])
  }

  /** The database has the target's tables and columns. */
  ghost predicate ColumnsThere(d: Dialect, target: Index, tables: map<TableKey, DbTable>) {
    forall k :: k in target.tables.m ==> k in tables && tables[k].columns == Defs(d, target.tables.m[k])
  }

  lemma {:induction false} RunAddFk(d: Dialect, base: Index, target: Index, db: Db, f: FkSignature)
    requires WellFormed(target) && ColumnsThere(d, target, db.tables)
    requires f in target.fks.m && f !in base.fks.m && f !in db.fks
    ensures Run(db, AddFk(base, target, f)) ==
      if NameTaken(db.fks, f.child, target.fks.m[f]) then None
      else Some(db.(fks := db.fks[f := target.fks.m[f]]))
  {
    FkTables(target, f);
    hide WellFormed, NameTaken, Def;
    var s := AddForeignKey(f, target.fks.m[f]);
    assert HasColumns(db, f.child, f.childColumns) && HasColumns(db, f.parent, f.parentColumns);
    hide HasColumns, WellFormedFk, ColumnsThere;
    RunOne(db, s);
  }

  /** Adding a foreign key takes no name that another added one needs. */
  lemma {:induction false} NamesStayFree(base: Index, target: Index, fks: FkMap, f: FkSignature, fs: set<FkSignature>)
    requires WellFormed(target) && f in target.fks.m && fs <= target.fks.m.Keys && f !in fs && f !in fks
    ensures NamesFree(base, target, fks[f := target.fks.m[f]], fs) <==> NamesFree(base, target, fks, fs)
  {
    var fks' := fks[f := target.fks.m[f]];
    forall g | g in fs ensures NameTaken(fks', g.child, target.fks.m[g]) <==> NameTaken(fks, g.child, target.fks.m[g]) {
      NameAfter(target, fks, f, g);
    }
  }

  lemma {:induction false} NameKept(fks: FkMap, f: FkSignature, m: Option<string>, k: TableKey, n: Option<string>)
    requires f !in fks
    ensures NameTaken(fks, k, n) ==> NameTaken(fks[f := m], k, n)
    ensures NameTaken(fks[f := m], k, n) ==> NameTaken(fks, k, n) || HasName(fks[f := m], f, k, n)
  {
    var fks' := fks[f := m];
    if h :| HasName(fks, h, k, n) {
      assert HasName(fks', h, k, n);
    }
    if h :| HasName(fks', h, k, n) {
      assert h != f ==> HasName(fks, h, k, n);
    }
  }

  lemma {:induction false} NameAfter(target: Index, fks: FkMap, f: FkSignature, g: FkSignature)
    requires WellFormed(target) && f in target.fks.m && g in target.fks.m && f != g && f !in fks
    ensures NameTaken(fks[f := target.fks.m[f]], g.child, target.fks.m[g]) <==> NameTaken(fks, g.child, target.fks.m[g])
  {
    hide WellFormed, NameTaken;
    NameKept(fks, f, target.fks.m[f], g.child, target.fks.m[g]);
    if HasName(fks[f := target.fks.m[f]], f, g.child, target.fks.m[g]) {
      UniqueName(target, f, g);
    }
  }

  lemma {:induction false} NewFksStep(base: Index, target: Index, fks: FkMap, f: FkSignature, fs: set<FkSignature>)
    requires f in target.fks.m && fs <= target.fks.m.Keys && f !in fs
    ensures f in base.fks.m ==> NewFks(base, target, {f} + fs) == NewFks(base, target, fs)
    ensures f !in base.fks.m ==>
      fks[f := target.fks.m[f]] + NewFks(base, target, fs) == fks + NewFks(base, target, {f} + fs)
  {
  }

  lemma {:induction false} RunAddFks(d: Dialect, base: Index, target: Index, db: Db, fs: seq<FkSignature>)
    requires WellFormed(target) && ColumnsThere(d, target, db.tables)
    requires Distinct(fs) && Elems(fs) <= target.fks.m.Keys
    requires forall f :: f in Elems(fs) && f !in base.fks.m ==> f !in db.fks
    ensures Run(db, AddFks(base, target, fs)) ==
      if !NamesFree(base, target, db.fks, Elems(fs)) then None
      else Some(db.(fks := db.fks + NewFks(base, target, Elems(fs))))
    decreases |fs|
  {
    hide Run, WellFormed, ColumnsThere, NameTaken;
    if fs == [] {
      assert db.fks + NewFks(base, target, Elems(fs)) == db.fks;
      RunNone(db);
    } else {
      DistinctTail(fs);
      var f, rest := fs[0], fs[1..];
      NewFksStep(base, target, db.fks, f, Elems(rest));
      hide NewFks, Distinct;
      if f in base.fks.m {
        RunNone(db);
        RunThen(db, [], Some(db), AddFks(base, target, rest));
        RunAddFks(d, base, target, db, rest);
      } else {
        RunAddFk(d, base, target, db, f);
        RunThen(db, AddFk(base, target, f), Run(db, AddFk(base, target, f)), AddFks(base, target, rest));
        NamesStayFree(base, target, db.fks, f, Elems(rest));
        RunAddFks(d, base, target, db.(fks := db.fks[f := target.fks.m[f]]), rest);
      }
    }
  }
}
