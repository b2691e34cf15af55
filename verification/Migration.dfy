/**
 The migration generator of backend/app/ddl/migration.py, and what running its output does.

 A statement is kept as data instead of text. `Exec` says what a statement does to a database, and
 when the database refuses it.
 */
module Migration {
  import opened Dicts
  import opened Orders
  import opened Snapshots

  datatype ColumnDef = ColumnDef(dataType: string, notNull: bool)

  datatype Stmt =
    | DropConstraint(table: TableKey, constraint: string)
    | DropTable(table: TableKey)
    | CreateSchema(schemaName: string)
    | CreateTable(table: TableKey, columns: map<string, ColumnDef>, pk: seq<string>)
    | AddColumn(table: TableKey, column: string, def: ColumnDef)
    | DropColumn(table: TableKey, column: string)
    | AlterType(table: TableKey, column: string, dataType: string)
    | SetNotNull(table: TableKey, column: string)
    | DropNotNull(table: TableKey, column: string)
    | CommentOn(table: TableKey, comment: Option<string>)
    | AddForeignKey(fk: FkSignature, name: Option<string>)
    | PrimaryKeyNote(table: TableKey, pk: seq<string>)
    | ForeignKeyNote(table: TableKey, childColumns: seq<string>)

  // ---------------------------------------------------------------- a database

  datatype DbTable = DbTable(columns: map<string, ColumnDef>, pk: seq<string>, comment: Option<string>)

  type FkMap = map<FkSignature, Option<string>>

  datatype Db = Db(schemas: set<string>, tables: map<TableKey, DbTable>, fks: FkMap)

  ghost predicate Uses(f: FkSignature, k: TableKey, c: string) {
    (f.child == k && c in f.childColumns) || (f.parent == k && c in f.parentColumns)
  }

  ghost predicate InUse(fks: FkMap, k: TableKey, c: string) {
    exists f :: f in fks && Uses(f, k, c)
  }

  ghost predicate ReferencedElsewhere(fks: FkMap, k: TableKey) {
    exists f :: f in fks && f.parent == k && f.child != k
  }

  ghost predicate HasName(fks: FkMap, f: FkSignature, k: TableKey, n: Option<string>) {
    f in fks && f.child == k && n.Some? && fks[f] == n
  }

  ghost predicate NameTaken(fks: FkMap, k: TableKey, n: Option<string>) {
    exists f :: HasName(fks, f, k, n)
  }

  ghost function WithoutName(fks: FkMap, k: TableKey, n: Option<string>): FkMap {
    map f | f in fks && !HasName(fks, f, k, n) :: fks[f]
  }

  ghost function WithoutChildren(fks: FkMap, ks: set<TableKey>): FkMap {
    map f | f in fks && f.child !in ks :: fks[f]
  }

  ghost predicate HasColumns(db: Db, k: TableKey, cs: seq<string>) {
    k in db.tables && forall c :: c in cs ==> c in db.tables[k].columns
  }

  ghost function SetTable(db: Db, k: TableKey, t: DbTable): Db {
    db.(tables := db.tables[k := t])
  }

  ghost function SetColumn(t: DbTable, c: string, def: ColumnDef): DbTable {
    t.(columns := t.columns[c := def])
  }

  /** A primary key goes with any of its columns. */
  ghost function WithoutColumn(t: DbTable, c: string): DbTable {
    t.(columns := t.columns - {c}, pk := if c in t.pk then [] else t.pk)
  }

  /** A new table; the columns of its primary key become NOT NULL. */
  ghost function NewTable(cols: map<string, ColumnDef>, pk: seq<string>): DbTable {
    DbTable(map c | c in cols :: ColumnDef(cols[c].dataType, cols[c].notNull || c in pk), pk, None)
  }

  /** One statement; None means that the database refuses it. */
  ghost function Exec(db: Db, s: Stmt): Option<Db> {
    match s
    case DropConstraint(k, n) =>
      if NameTaken(db.fks, k, Some(n)) then Some(db.(fks := WithoutName(db.fks, k, Some(n)))) else None
    case DropTable(k) =>
      if ReferencedElsewhere(db.fks, k) then None
      else Some(db.(tables := db.tables - {k}, fks := WithoutChildren(db.fks, {k})))
    case CreateSchema(n) => Some(db.(schemas := db.schemas + {n}))
    case CreateTable(k, cols, pk) =>
      if k in db.tables || k.schemaName !in db.schemas || exists c :: c in pk && c !in cols then None
      else Some(SetTable(db, k, NewTable(cols, pk)))
    case AddColumn(k, c, def) =>
      if k !in db.tables || c in db.tables[k].columns then None
      else Some(SetTable(db, k, SetColumn(db.tables[k], c, def)))
    case DropColumn(k, c) =>
      // stricter than PostgreSQL, which drops a foreign key along with a column on its referencing side
      if !HasColumns(db, k, [c]) || InUse(db.fks, k, c) then None
      else Some(SetTable(db, k, WithoutColumn(db.tables[k], c)))
    case AlterType(k, c, ty) =>
      if !HasColumns(db, k, [c]) then None
      else Some(SetTable(db, k, SetColumn(db.tables[k], c, db.tables[k].columns[c].(dataType := ty))))
    case SetNotNull(k, c) =>
      if !HasColumns(db, k, [c]) then None
      else Some(SetTable(db, k, SetColumn(db.tables[k], c, db.tables[k].columns[c].(notNull := true))))
    case DropNotNull(k, c) =>
      // refused while the column is part of the primary key
      if !HasColumns(db, k, [c]) || c in db.tables[k].pk then None
      else Some(SetTable(db, k, SetColumn(db.tables[k], c, db.tables[k].columns[c].(notNull := false))))
    case CommentOn(k, text) =>
      if k !in db.tables then None else Some(SetTable(db, k, db.tables[k].(comment := text)))
    case AddForeignKey(f, n) =>
      if !HasColumns(db, f.child, f.childColumns) || !HasColumns(db, f.parent, f.parentColumns)
         || |f.childColumns| != |f.parentColumns| || f in db.fks || NameTaken(db.fks, f.child, n)
      then None else Some(db.(fks := db.fks[f := n]))
    case PrimaryKeyNote(_, _) => Some(db)
    case ForeignKeyNote(_, _) => Some(db)
  }

  ghost function Run(db: Db, stmts: seq<Stmt>): Option<Db>
    decreases |stmts|
  {
    if stmts == [] then Some(db)
    else
      var next := Exec(db, stmts[0]);
      if next.None? then None else Run(next.value, stmts[1..])
  }

  lemma {:induction false} RunConcat(db: Db, a: seq<Stmt>, b: seq<Stmt>)
    ensures Run(db, a + b) == (if Run(db, a).None? then None else Run(Run(db, a).value, b))
    decreases |a|
  {
    if a == [] {
      assert a + b == b;
    } else {
      assert (a + b)[1..] == a[1..] + b;
      var next := Exec(db, a[0]);
      if next.Some? {
        RunConcat(next.value, a[1..], b);
      }
    }
  }

  // ---------------------------------------------------------------- the statements

  /** Python's truth of a comment: an empty one counts as none. */
  function Plain(comment: Option<string>): Option<string> {
    if comment == Some("") then None else comment
  }

  /** How column types are rendered for the target, and whether the target is PostgreSQL. */
  datatype Dialect = Dialect(render: (string, Option<string>) -> string, postgresql: bool)

  function Def(d: Dialect, name: string, col: Column): ColumnDef {
    ColumnDef(d.render(name, col.dataType), col.notNull)
  }

  function Defs(d: Dialect, t: Table): map<string, ColumnDef> {
    map c | c in t.columns.m :: Def(d, c, t.columns.m[c])
  }

  /** A foreign key of the base that goes away with its referencing table. */
  predicate Skipped(base: Index, target: Index, f: FkSignature) {
    f.child in base.tables.m && f.child !in target.tables.m
    && !(f.parent in base.tables.m && f.parent !in target.tables.m)
  }

  function DropFkSql(tables: map<TableKey, Table>, f: FkSignature, name: Option<string>): seq<Stmt> {
    if f.child !in tables || f.parent !in tables then []
    else if name.Some? then [DropConstraint(f.child, name.value)]
    else [ForeignKeyNote(f.child, f.childColumns)]
  }

  function AddFkSql(tables: map<TableKey, Table>, f: FkSignature, name: Option<string>): seq<Stmt> {
    if f.child !in tables || f.parent !in tables then [] else [AddForeignKey(f, name)]
  }

  function DropFk(base: Index, target: Index, f: FkSignature): seq<Stmt>
    requires f in base.fks.m
  {
    if f in target.fks.m || Skipped(base, target, f) then []
    else DropFkSql(base.tables.m, f, base.fks.m[f])
  }

  function DropFks(base: Index, target: Index, fs: seq<FkSignature>): seq<Stmt>
    requires forall f :: f in fs ==> f in base.fks.m
  {
    if fs == [] then [] else DropFk(base, target, fs[0]) + DropFks(base, target, fs[1..])
  }

  function DropTables(target: Index, ks: seq<TableKey>): seq<Stmt> {
    if ks == [] then []
    else (if ks[0] in target.tables.m then [] else [DropTable(ks[0])]) + DropTables(target, ks[1..])
  }

  function CreateSchemas(names: seq<string>): seq<Stmt> {
    if names == [] then [] else [CreateSchema(names[0])] + CreateSchemas(names[1..])
  }

  function SchemaNames(ix: Index): set<string> {
    set k | k in ix.tables.m && k.schemaName != "" :: k.schemaName
  }

  function MissingSchemas(base: Index, target: Index): set<string> {
    set k | k in target.tables.m && k !in base.tables.m && k.schemaName != "" && k.schemaName !in SchemaNames(base)
      :: k.schemaName
  }

  function CreateTableSql(d: Dialect, base: Index, k: TableKey, t: Table): seq<Stmt> {
    if k in base.tables.m then [] else [CreateTable(k, Defs(d, t), t.pk)]
  }

  function CreateTables(d: Dialect, base: Index, target: Index, ks: seq<TableKey>): seq<Stmt>
    requires forall k :: k in ks ==> k in target.tables.m
  {
    if ks == [] then []
    else CreateTableSql(d, base, ks[0], target.tables.m[ks[0]]) + CreateTables(d, base, target, ks[1..])
  }

  function AddColumnSql(d: Dialect, k: TableKey, bt: Table, tt: Table, c: string): seq<Stmt>
    requires c in tt.columns.m
  {
    if c in bt.columns.m then [] else [AddColumn(k, c, Def(d, c, tt.columns.m[c]))]
  }

  function AddColumns(d: Dialect, k: TableKey, bt: Table, tt: Table, cs: seq<string>): seq<Stmt>
    requires forall c :: c in cs ==> c in tt.columns.m
  {
    if cs == [] then [] else AddColumnSql(d, k, bt, tt, cs[0]) + AddColumns(d, k, bt, tt, cs[1..])
  }

  function DropColumns(k: TableKey, tt: Table, cs: seq<string>): seq<Stmt> {
    if cs == [] then []
    else (if cs[0] in tt.columns.m then [] else [DropColumn(k, cs[0])]) + DropColumns(k, tt, cs[1..])
  }

  function ChangeColumn(k: TableKey, c: string, bt: ColumnDef, tt: ColumnDef): seq<Stmt> {
    (if bt.dataType != tt.dataType then [AlterType(k, c, tt.dataType)] else [])
    + (if bt.notNull == tt.notNull then []
       else if tt.notNull then [SetNotNull(k, c)] else [DropNotNull(k, c)])
  }

  function ChangeColumnSql(d: Dialect, k: TableKey, bt: Table, tt: Table, c: string): seq<Stmt>
    requires c in tt.columns.m
  {
    if c !in bt.columns.m then []
    else ChangeColumn(k, c, Def(d, c, bt.columns.m[c]), Def(d, c, tt.columns.m[c]))
  }

  function ChangeColumns(d: Dialect, k: TableKey, bt: Table, tt: Table, cs: seq<string>): seq<Stmt>
    requires forall c :: c in cs ==> c in tt.columns.m
  {
    if cs == [] then [] else ChangeColumnSql(d, k, bt, tt, cs[0]) + ChangeColumns(d, k, bt, tt, cs[1..])
  }

  function NotePrimaryKey(k: TableKey, bt: Table, tt: Table): seq<Stmt> {
    if bt.pk == tt.pk then [] else [PrimaryKeyNote(k, tt.pk)]
  }

  function ChangeComment(d: Dialect, k: TableKey, bt: Table, tt: Table): seq<Stmt> {
    if bt.comment == tt.comment || !d.postgresql then [] else [CommentOn(k, Plain(tt.comment))]
  }

  function AlterTable(d: Dialect, k: TableKey, bt: Table, tt: Table): seq<Stmt>
    requires forall c :: c in tt.columns.keys ==> c in tt.columns.m
  {
    AddColumns(d, k, bt, tt, tt.columns.keys) + DropColumns(k, tt, bt.columns.keys)
    + ChangeColumns(d, k, bt, tt, tt.columns.keys)
    + NotePrimaryKey(k, bt, tt) + ChangeComment(d, k, bt, tt)
  }

  function AlterTables(d: Dialect, base: Index, target: Index, ks: seq<TableKey>): seq<Stmt>
    requires forall k :: k in ks ==> k in target.tables.m
    requires forall k :: k in ks ==> forall c :: c in target.tables.m[k].columns.keys ==>
      c in target.tables.m[k].columns.m
  {
    if ks == [] then []
    else
      (if ks[0] !in base.tables.m then []
       else AlterTable(d, ks[0], base.tables.m[ks[0]], target.tables.m[ks[0]]))
      + AlterTables(d, base, target, ks[1..])
  }

  function AddFk(base: Index, target: Index, f: FkSignature): seq<Stmt>
    requires f in target.fks.m
  {
    if f in base.fks.m then [] else AddFkSql(target.tables.m, f, target.fks.m[f])
  }

  function AddFks(base: Index, target: Index, fs: seq<FkSignature>): seq<Stmt>
    requires forall f :: f in fs ==> f in target.fks.m
  {
    if fs == [] then [] else AddFk(base, target, fs[0]) + AddFks(base, target, fs[1..])
  }

  /** The whole migration, in the order in which the source appends to it. */
  function MigrationStmts(d: Dialect, base: Index, target: Index): seq<Stmt>
    requires Listed(base) && Listed(target)
  {
    DropFks(base, target, base.fks.keys) + DropTables(target, base.tables.keys)
    + CreateSchemas(SortedStrings(MissingSchemas(base, target)))
    + CreateTables(d, base, target, target.tables.keys)
    + AlterTables(d, base, target, target.tables.keys)
    + AddFks(base, target, target.fks.keys)
  }

  /** The dictionaries of an index list their own keys. */
  ghost predicate Listed(ix: Index) {
    && ix.tables.Valid() && ix.fks.Valid()
    && forall k :: k in ix.tables.m ==> ix.tables.m[k].columns.Valid()
  }

  // ---------------------------------------------------------------- the loops that write them

  lemma {:induction false} Split<T>(s: seq<T>, i: nat)
    requires i < |s|
    ensures s[i..] != [] && s[i..][0] == s[i] && s[i..][1..] == s[i + 1..]
  {
  }

  lemma {:induction false} Append(a: seq<Stmt>, b: seq<Stmt>, c: seq<Stmt>)
    ensures a + (b + c) == (a + b) + c
  {
  }

  lemma {:induction false} AddColumnsAt(d: Dialect, k: TableKey, bt: Table, tt: Table, acc: seq<Stmt>,
    names: seq<string>, i: nat)
    requires i < |names| && forall c :: c in names ==> c in tt.columns.m
    ensures acc + AddColumns(d, k, bt, tt, names[i..]) ==
      (acc + AddColumnSql(d, k, bt, tt, names[i])) + AddColumns(d, k, bt, tt, names[i + 1..])
  {
    hide AddColumnSql;
    Split(names, i);
    Append(acc, AddColumnSql(d, k, bt, tt, names[i]), AddColumns(d, k, bt, tt, names[i + 1..]));
  }

  method WriteAddColumns(d: Dialect, k: TableKey, bt: Table, tt: Table, names: seq<string>) returns (stmts: seq<Stmt>)
    requires forall c :: c in names ==> c in tt.columns.m
    ensures stmts == AddColumns(d, k, bt, tt, names)
  {
    hide Def, AddColumns;
    stmts := [];
    assert names[0..] == names;
    for i := 0 to |names|
      invariant stmts + AddColumns(d, k, bt, tt, names[i..]) == AddColumns(d, k, bt, tt, names)
    {
      AddColumnsAt(d, k, bt, tt, stmts, names, i);
      if names[i] !in bt.columns.m {
        stmts := stmts + [AddColumn(k, names[i], Def(d, names[i], tt.columns.m[names[i]]))];
      }
    }
    assert names[|names|..] == [];
    assert AddColumns(d, k, bt, tt, names[|names|..]) == [] by { NoColumns(d, k, bt, tt); }
  }

  lemma {:induction false} NoColumns(d: Dialect, k: TableKey, bt: Table, tt: Table)
    ensures AddColumns(d, k, bt, tt, []) == [] && ChangeColumns(d, k, bt, tt, []) == []
  {
  }

  lemma {:induction false} DropColumnsAt(k: TableKey, tt: Table, stmts: seq<Stmt>, names: seq<string>, i: nat)
    requires i < |names|
    ensures stmts + DropColumns(k, tt, names[i..]) ==
      (if names[i] in tt.columns.m then stmts else stmts + [DropColumn(k, names[i])])
        + DropColumns(k, tt, names[i + 1..])
  {
    Split(names, i);
  }

  method WriteDropColumns(k: TableKey, tt: Table, names: seq<string>) returns (stmts: seq<Stmt>)
    ensures stmts == DropColumns(k, tt, names)
  {
    hide DropColumns;
    stmts := [];
    assert names[0..] == names;
    for i := 0 to |names|
      invariant stmts + DropColumns(k, tt, names[i..]) == DropColumns(k, tt, names)
    {
      DropColumnsAt(k, tt, stmts, names, i);
      if names[i] !in tt.columns.m {
        stmts := stmts + [DropColumn(k, names[i])];
      }
    }
    assert names[|names|..] == [];
    assert DropColumns(k, tt, []) == [] by { NothingDropped(k, tt); }
  }

  lemma {:induction false} NothingDropped(k: TableKey, tt: Table)
    ensures DropColumns(k, tt, []) == []
  {
  }

  lemma {:induction false} ChangeColumnsAt(d: Dialect, k: TableKey, bt: Table, tt: Table, acc: seq<Stmt>,
    names: seq<string>, i: nat)
    requires i < |names| && forall c :: c in names ==> c in tt.columns.m
    ensures acc + ChangeColumns(d, k, bt, tt, names[i..]) ==
      (acc + ChangeColumnSql(d, k, bt, tt, names[i])) + ChangeColumns(d, k, bt, tt, names[i + 1..])
  {
    hide ChangeColumnSql;
    Split(names, i);
    Append(acc, ChangeColumnSql(d, k, bt, tt, names[i]), ChangeColumns(d, k, bt, tt, names[i + 1..]));
  }

  method WriteChangeColumns(d: Dialect, k: TableKey, bt: Table, tt: Table, names: seq<string>)
    returns (stmts: seq<Stmt>)
    requires forall c :: c in names ==> c in tt.columns.m
    ensures stmts == ChangeColumns(d, k, bt, tt, names)
  {
    hide Def, ChangeColumns;
    stmts := [];
    assert names[0..] == names;
    for i := 0 to |names|
      invariant stmts + ChangeColumns(d, k, bt, tt, names[i..]) == ChangeColumns(d, k, bt, tt, names)
    {
      ChangeColumnsAt(d, k, bt, tt, stmts, names, i);
      if names[i] !in bt.columns.m {
        continue;
      }
      var was, to := Def(d, names[i], bt.columns.m[names[i]]), Def(d, names[i], tt.columns.m[names[i]]);
      var change := [];
      if was.dataType != to.dataType {
        change := [AlterType(k, names[i], to.dataType)];
      }
      if was.notNull != to.notNull {
        change := change + [if to.notNull then SetNotNull(k, names[i]) else DropNotNull(k, names[i])];
      }
      assert change == ChangeColumn(k, names[i], was, to);
      stmts := stmts + change;
    }
    assert names[|names|..] == [];
    assert ChangeColumns(d, k, bt, tt, names[|names|..]) == [] by { NoColumns(d, k, bt, tt); }
  }

  method WriteAlterTable(d: Dialect, k: TableKey, bt: Table, tt: Table) returns (stmts: seq<Stmt>)
    requires bt.columns.Valid() && tt.columns.Valid()
    ensures stmts == AlterTable(d, k, bt, tt)
  {
    hide AddColumns, DropColumns, ChangeColumns;
    var adds := WriteAddColumns(d, k, bt, tt, tt.columns.keys);
    var drops := WriteDropColumns(k, tt, bt.columns.keys);
    var changes := WriteChangeColumns(d, k, bt, tt, tt.columns.keys);
    stmts := adds + drops + changes;
    if bt.pk != tt.pk {
      stmts := stmts + [PrimaryKeyNote(k, tt.pk)];
    }
    if bt.comment != tt.comment && d.postgresql {
      stmts := stmts + [CommentOn(k, Plain(tt.comment))];
    }
  }

  method WriteDropFks(base: Index, target: Index, fs: seq<FkSignature>) returns (stmts: seq<Stmt>)
    requires forall f :: f in fs ==> f in base.fks.m
    ensures stmts == DropFks(base, target, fs)
  {
    hide Skipped, DropFkSql;
    stmts := [];
    assert fs[0..] == fs;
    for i := 0 to |fs|
      invariant stmts + DropFks(base, target, fs[i..]) == DropFks(base, target, fs)
    {
      Split(fs, i);
      if fs[i] in target.fks.m || Skipped(base, target, fs[i]) {
        continue;
      }
      Append(stmts, DropFk(base, target, fs[i]), DropFks(base, target, fs[i + 1..]));
      stmts := stmts + DropFkSql(base.tables.m, fs[i], base.fks.m[fs[i]]);
    }
  }

  lemma {:induction false} DropTablesAt(target: Index, stmts: seq<Stmt>, ks: seq<TableKey>, i: nat)
    requires i < |ks|
    ensures stmts + DropTables(target, ks[i..]) ==
      stmts + (if ks[i] in target.tables.m then [] else [DropTable(ks[i])]) + DropTables(target, ks[i + 1..])
  {
    Split(ks, i);
  }

  lemma {:induction false} NoTableDropped(target: Index)
    ensures DropTables(target, []) == []
  {
  }

  method WriteDropTables(target: Index, ks: seq<TableKey>) returns (stmts: seq<Stmt>)
    ensures stmts == DropTables(target, ks)
  {
    hide DropTables;
    stmts := [];
    assert ks[0..] == ks;
    for i := 0 to |ks|
      invariant stmts + DropTables(target, ks[i..]) == DropTables(target, ks)
    {
      DropTablesAt(target, stmts, ks, i);
      if ks[i] !in target.tables.m {
        stmts := stmts + [DropTable(ks[i])];
      }
    }
    assert ks[|ks|..] == [];
    assert DropTables(target, []) == [] by { NoTableDropped(target); }
  }

  method WriteCreateTables(d: Dialect, base: Index, target: Index, ks: seq<TableKey>) returns (stmts: seq<Stmt>)
    requires forall k :: k in ks ==> k in target.tables.m
    ensures stmts == CreateTables(d, base, target, ks)
  {
    hide CreateTableSql;
    stmts := [];
    assert ks[0..] == ks;
    for i := 0 to |ks|
      invariant stmts + CreateTables(d, base, target, ks[i..]) == CreateTables(d, base, target, ks)
    {
      Split(ks, i);
      var create := CreateTableSql(d, base, ks[i], target.tables.m[ks[i]]);
      Append(stmts, create, CreateTables(d, base, target, ks[i + 1..]));
      stmts := stmts + create;
    }
  }

  method WriteAlterTables(d: Dialect, base: Index, target: Index, ks: seq<TableKey>) returns (stmts: seq<Stmt>)
    requires Listed(base) && Listed(target) && forall k :: k in ks ==> k in target.tables.m
    ensures stmts == AlterTables(d, base, target, ks)
  {
    hide AlterTable;
    stmts := [];
    assert ks[0..] == ks;
    for i := 0 to |ks|
      invariant stmts + AlterTables(d, base, target, ks[i..]) == AlterTables(d, base, target, ks)
    {
      Split(ks, i);
      if ks[i] in base.tables.m {
        var alter := WriteAlterTable(d, ks[i], base.tables.m[ks[i]], target.tables.m[ks[i]]);
        Append(stmts, alter, AlterTables(d, base, target, ks[i + 1..]));
        stmts := stmts + alter;
      }
    }
  }

  method WriteAddFks(base: Index, target: Index, fs: seq<FkSignature>) returns (stmts: seq<Stmt>)
    requires forall f :: f in fs ==> f in target.fks.m
    ensures stmts == AddFks(base, target, fs)
  {
    hide AddFkSql;
    stmts := [];
    assert fs[0..] == fs;
    for i := 0 to |fs|
      invariant stmts + AddFks(base, target, fs[i..]) == AddFks(base, target, fs)
    {
      Split(fs, i);
      if fs[i] !in base.fks.m {
        Append(stmts, AddFk(base, target, fs[i]), AddFks(base, target, fs[i + 1..]));
        stmts := stmts + AddFkSql(target.tables.m, fs[i], target.fks.m[fs[i]]);
      }
    }
  }

  /** The generator's result: a script, or the marker that nothing changed. */
  datatype Script = NoSchemaChanges | Script(stmts: seq<Stmt>)

  method SnapshotDiffToMigration(d: Dialect, base: Index, target: Index) returns (script: Script)
    requires Listed(base) && Listed(target)
    ensures MigrationStmts(d, base, target) == (if script.NoSchemaChanges? then [] else script.stmts)
    ensures script.NoSchemaChanges? <==> MigrationStmts(d, base, target) == []
  {
    hide DropFks, DropTables, CreateSchemas, CreateTables, AlterTables, AddFks, SortedStrings, MissingSchemas;
    var dropFks := WriteDropFks(base, target, base.fks.keys);
    var dropTables := WriteDropTables(target, base.tables.keys);
    var schemas := CreateSchemas(SortedStrings(MissingSchemas(base, target)));
    var creates := WriteCreateTables(d, base, target, target.tables.keys);
    var alters := WriteAlterTables(d, base, target, target.tables.keys);
    var addFks := WriteAddFks(base, target, target.fks.keys);
    var stmts := dropFks + dropTables + schemas + creates + alters + addFks;
    script := if stmts == [] then NoSchemaChanges else Script(stmts);
  }
}
