/**
 The order in which the generator of backend/app/ddl/migration.py writes its statements. Together with what is due
 (MigrationStatements) it says that nothing is written twice.
 */
module MigrationOrder {
  import opened Dicts
  import opened Migration
  import opened MigrationStatements
  import opened Orders
  import opened Snapshots
  import opened Text

  // ---------------------------------------------------------------- what comes before what

  /** Foreign keys go first, then tables; schemas come, then tables, changes, and foreign keys last. */
  function Phase(s: Stmt): nat {
    if DropsFk(s) then 0 else if s.DropTable? then 1 else if s.CreateSchema? then 2
    else if s.CreateTable? then 3 else if s.AddForeignKey? then 5 else 4
  }

  /** In a surviving table columns come, then go, then change; the notes on key and comment are last. */
  function Step(s: Stmt): nat {
    if s.AddColumn? then 0 else if s.DropColumn? then 1
    else if s.PrimaryKeyNote? then 3 else if s.CommentOn? then 4 else 2
  }

  /** The one key is listed before the other. */
  ghost predicate Earlier<K(!new)>(keys: seq<K>, a: K, b: K) {
    exists p, q :: 0 <= p < q < |keys| && keys[p] == a && keys[q] == b
  }

  /** What is written for a foreign key that goes away. */
  ghost predicate DropsIt(base: Index, target: Index, f: FkSignature, s: Stmt) {
    && GoesAway(base, target, f)
    && s == match base.fks.m[f]
      case Some(n) => DropConstraint(f.child, n)
      case None => ForeignKeyNote(f.child, f.childColumns)
  }

  /** Foreign keys as the base lists them. */
  ghost predicate FkBefore(base: Index, target: Index, s: Stmt, t: Stmt) {
    exists f, g :: Earlier(base.fks.keys, f, g) && DropsIt(base, target, f, s) && DropsIt(base, target, g, t)
  }

  /**
   In a surviving table: new columns as the target lists them, then dropped ones as the base does, then changed
   ones as the target does, the type before nullability; then the notes on key and comment.
   */
  ghost predicate ChangeBefore(bt: Table, tt: Table, s: Stmt, t: Stmt) {
    || Step(s) < Step(t)
    || (s.AddColumn? && t.AddColumn? && Earlier(tt.columns.keys, s.column, t.column))
    || (s.DropColumn? && t.DropColumn? && Earlier(bt.columns.keys, s.column, t.column))
    || (ChangesColumn(s) && ChangesColumn(t) && Earlier(tt.columns.keys, s.column, t.column))
    || (s.AlterType? && (t.SetNotNull? || t.DropNotNull?) && s.column == t.column)
  }

  predicate ChangesColumn(s: Stmt) {
    s.AlterType? || s.SetNotNull? || s.DropNotNull?
  }

  /** Changed tables as the target lists them. */
  ghost predicate AlterBefore(base: Index, target: Index, s: Stmt, t: Stmt) {
    && Alters(s) && Alters(t) && Survives(base, target, s.table) && Survives(base, target, t.table)
    && if s.table == t.table then ChangeBefore(base.tables.m[s.table], target.tables.m[s.table], s, t)
       else Earlier(target.tables.keys, s.table, t.table)
  }

  ghost predicate ComesBefore(base: Index, target: Index, s: Stmt, t: Stmt) {
    || Phase(s) < Phase(t)
    || (DropsFk(s) && DropsFk(t) && FkBefore(base, target, s, t))
    || (s.DropTable? && t.DropTable? && Earlier(base.tables.keys, s.table, t.table))
    || (s.CreateSchema? && t.CreateSchema? && s != t && StringLe(s.schemaName, t.schemaName))
    || (s.CreateTable? && t.CreateTable? && Earlier(target.tables.keys, s.table, t.table))
    || AlterBefore(base, target, s, t)
    || (s.AddForeignKey? && t.AddForeignKey? && Earlier(target.fks.keys, s.fk, t.fk))
  }

  ghost predicate Ordered(before: (Stmt, Stmt) -> bool, stmts: seq<Stmt>) {
    forall i, j :: 0 <= i < j < |stmts| ==> before(stmts[i], stmts[j])
  }

  // ---------------------------------------------------------------- lists that are joined

  lemma {:induction false} Joined(before: (Stmt, Stmt) -> bool, a: seq<Stmt>, b: seq<Stmt>)
    requires Ordered(before, a) && Ordered(before, b) && forall s, t :: s in a && t in b ==> before(s, t)
    ensures Ordered(before, a + b)
  {
  }

  function Parts<A>(part: A -> seq<Stmt>, keys: seq<A>): seq<Stmt> {
    if keys == [] then [] else part(keys[0]) + Parts(part, keys[1..])
  }

  lemma {:induction false} InParts<A(!new)>(part: A -> seq<Stmt>, keys: seq<A>, s: Stmt)
    ensures s in Parts(part, keys) <==> exists k :: k in keys && s in part(k)
  {
    if keys != [] {
      InParts(part, keys[1..], s);
      assert keys == [keys[0]] + keys[1..];
    }
  }

  lemma {:induction false} EarlierBehind<K(!new)>(keys: seq<K>, a: K, b: K)
    requires keys != [] && Earlier(keys[1..], a, b)
    ensures Earlier(keys, a, b)
  {
    var p, q :| 0 <= p < q < |keys[1..]| && keys[1..][p] == a && keys[1..][q] == b;
    assert keys[p + 1] == a && keys[q + 1] == b;
  }

  lemma {:induction false} EarlierFirst<K(!new)>(keys: seq<K>, b: K)
    requires keys != [] && b in keys[1..]
    ensures Earlier(keys, keys[0], b)
  {
    var q :| 0 <= q < |keys[1..]| && keys[1..][q] == b;
    assert keys[q + 1] == b;
  }

  /** Parts that are in order, and whose order is that of the keys. */
  lemma {:induction false} PartsOrdered<A(!new)>(before: (Stmt, Stmt) -> bool, part: A -> seq<Stmt>, keys: seq<A>)
    requires forall k :: k in keys ==> Ordered(before, part(k))
    requires forall k, l, s, t :: Earlier(keys, k, l) && s in part(k) && t in part(l) ==> before(s, t)
    ensures Ordered(before, Parts(part, keys))
  {
    hide Earlier, Ordered;
    if keys == [] {
      NoneOrdered(before);
    } else {
      forall k, l, s, t | Earlier(keys[1..], k, l) && s in part(k) && t in part(l) ensures before(s, t) {
        EarlierBehind(keys, k, l);
      }
      PartsOrdered(before, part, keys[1..]);
      forall s, t | s in part(keys[0]) && t in Parts(part, keys[1..]) ensures before(s, t) {
        InParts(part, keys[1..], t);
        var l :| l in keys[1..] && t in part(l);
        EarlierFirst(keys, l);
      }
      Joined(before, part(keys[0]), Parts(part, keys[1..]));
    }
  }

  lemma {:induction false} NoneOrdered(before: (Stmt, Stmt) -> bool)
    ensures Ordered(before, [])
  {
  }

  lemma {:induction false} OneOrdered(before: (Stmt, Stmt) -> bool, stmts: seq<Stmt>)
    requires |stmts| <= 1
    ensures Ordered(before, stmts)
  {
  }

  // ---------------------------------------------------------------- foreign keys, tables and schemas

  function DropOf(base: Index, target: Index): FkSignature -> seq<Stmt> {
    f => if f in base.fks.m then DropFk(base, target, f) else []
  }

  function AddOf(base: Index, target: Index): FkSignature -> seq<Stmt> {
    f => if f in target.fks.m then AddFk(base, target, f) else []
  }

  function TableDropOf(target: Index): TableKey -> seq<Stmt> {
    k => if k in target.tables.m then [] else [DropTable(k)]
  }

  function CreateOf(d: Dialect, base: Index, target: Index): TableKey -> seq<Stmt> {
    k => if k in target.tables.m then CreateTableSql(d, base, k, target.tables.m[k]) else []
  }

  lemma {:induction false} DropFksParts(base: Index, target: Index, fs: seq<FkSignature>)
    requires forall f :: f in fs ==> f in base.fks.m
    ensures DropFks(base, target, fs) == Parts(DropOf(base, target), fs)
  {
    hide DropFk;
    if fs != [] {
      DropFksParts(base, target, fs[1..]);
    }
  }

  lemma {:induction false} AddFksParts(base: Index, target: Index, fs: seq<FkSignature>)
    requires forall f :: f in fs ==> f in target.fks.m
    ensures AddFks(base, target, fs) == Parts(AddOf(base, target), fs)
  {
    hide AddFk;
    if fs != [] {
      AddFksParts(base, target, fs[1..]);
    }
  }

  lemma {:induction false} DropTablesParts(target: Index, ks: seq<TableKey>)
    ensures DropTables(target, ks) == Parts(TableDropOf(target), ks)
  {
    if ks != [] {
      DropTablesParts(target, ks[1..]);
    }
  }

  lemma {:induction false} CreateTablesParts(d: Dialect, base: Index, target: Index, ks: seq<TableKey>)
    requires forall k :: k in ks ==> k in target.tables.m
    ensures CreateTables(d, base, target, ks) == Parts(CreateOf(d, base, target), ks)
  {
    hide CreateTableSql;
    if ks != [] {
      CreateTablesParts(d, base, target, ks[1..]);
    }
  }

  lemma {:induction false} CreateSchemasParts(names: seq<string>)
    ensures CreateSchemas(names) == Parts(n => [CreateSchema(n)], names)
  {
    if names != [] {
      CreateSchemasParts(names[1..]);
    }
  }

  lemma {:induction false} OneDropped(base: Index, target: Index, f: FkSignature)
    ensures |DropOf(base, target)(f)| <= 1
    ensures forall s :: s in DropOf(base, target)(f) ==> DropsFk(s) && DropsIt(base, target, f, s)
  {
  }

  lemma {:induction false} DropFksOrdered(base: Index, target: Index)
    requires base.fks.Valid()
    ensures Ordered((s, t) => ComesBefore(base, target, s, t), DropFks(base, target, base.fks.keys))
  {
    hide Earlier, DropsIt, AlterBefore, Ordered, Parts, DropOf;
    var before := (s, t) => ComesBefore(base, target, s, t);
    DropFksParts(base, target, base.fks.keys);
    forall f ensures Ordered(before, DropOf(base, target)(f))
      && forall s :: s in DropOf(base, target)(f) ==> DropsFk(s) && DropsIt(base, target, f, s)
    {
      OneDropped(base, target, f);
      OneOrdered(before, DropOf(base, target)(f));
    }
    PartsOrdered(before, DropOf(base, target), base.fks.keys);
  }

  lemma {:induction false} DropTablesOrdered(base: Index, target: Index)
    ensures Ordered((s, t) => ComesBefore(base, target, s, t), DropTables(target, base.tables.keys))
  {
    hide Earlier, FkBefore, AlterBefore, Ordered, Parts;
    var before := (s, t) => ComesBefore(base, target, s, t);
    DropTablesParts(target, base.tables.keys);
    forall k | k in base.tables.keys ensures Ordered(before, TableDropOf(target)(k)) {
      OneOrdered(before, TableDropOf(target)(k));
    }
    PartsOrdered(before, TableDropOf(target), base.tables.keys);
  }

  lemma {:induction false} CreateSchemasOrdered(base: Index, target: Index, names: set<string>)
    ensures Ordered((s, t) => ComesBefore(base, target, s, t), CreateSchemas(SortedStrings(names)))
  {
    hide FkBefore, AlterBefore, Ordered, Parts, StringLe, SortedStrings;
    var before := (s, t) => ComesBefore(base, target, s, t);
    var part := n => [CreateSchema(n)];
    var sorted := SortedStrings(names);
    SortedStringsSorted(names);
    CreateSchemasParts(sorted);
    forall n | n in sorted ensures Ordered(before, part(n)) {
      OneOrdered(before, part(n));
    }
    forall a, b | Earlier(sorted, a, b) ensures a != b && StringLe(a, b) {
    }
    hide Earlier;
    PartsOrdered(before, part, sorted);
  }

  lemma {:induction false} OneCreated(d: Dialect, base: Index, target: Index, k: TableKey)
    ensures |CreateOf(d, base, target)(k)| <= 1
    ensures forall s :: s in CreateOf(d, base, target)(k) ==> s.CreateTable? && s.table == k
  {
  }

  lemma {:induction false} CreateTablesOrdered(d: Dialect, base: Index, target: Index)
    requires target.tables.Valid()
    ensures Ordered((s, t) => ComesBefore(base, target, s, t), CreateTables(d, base, target, target.tables.keys))
  {
    hide Earlier, FkBefore, AlterBefore, Ordered, Parts, CreateOf;
    var before := (s, t) => ComesBefore(base, target, s, t);
    CreateTablesParts(d, base, target, target.tables.keys);
    forall k ensures Ordered(before, CreateOf(d, base, target)(k))
      && forall s :: s in CreateOf(d, base, target)(k) ==> s.CreateTable? && s.table == k
    {
      OneCreated(d, base, target, k);
      OneOrdered(before, CreateOf(d, base, target)(k));
    }
    PartsOrdered(before, CreateOf(d, base, target), target.tables.keys);
  }

  lemma {:induction false} OneAdded(base: Index, target: Index, f: FkSignature)
    ensures |AddOf(base, target)(f)| <= 1
    ensures forall s :: s in AddOf(base, target)(f) ==> s.AddForeignKey? && s.fk == f
  {
  }

  lemma {:induction false} AddFksOrdered(base: Index, target: Index)
    requires target.fks.Valid()
    ensures Ordered((s, t) => ComesBefore(base, target, s, t), AddFks(base, target, target.fks.keys))
  {
    hide Earlier, FkBefore, AlterBefore, Ordered, Parts, AddOf;
    var before := (s, t) => ComesBefore(base, target, s, t);
    AddFksParts(base, target, target.fks.keys);
    forall f ensures Ordered(before, AddOf(base, target)(f))
      && forall s :: s in AddOf(base, target)(f) ==> s.AddForeignKey? && s.fk == f
    {
      OneAdded(base, target, f);
      OneOrdered(before, AddOf(base, target)(f));
    }
    PartsOrdered(before, AddOf(base, target), target.fks.keys);
  }

  // ---------------------------------------------------------------- one surviving table

  function AddColumnOf(d: Dialect, k: TableKey, bt: Table, tt: Table): string -> seq<Stmt> {
    c => if c in tt.columns.m then AddColumnSql(d, k, bt, tt, c) else []
  }

  function DropColumnOf(k: TableKey, tt: Table): string -> seq<Stmt> {
    c => if c in tt.columns.m then [] else [DropColumn(k, c)]
  }

  function ChangeColumnOf(d: Dialect, k: TableKey, bt: Table, tt: Table): string -> seq<Stmt> {
    c => if c in tt.columns.m then ChangeColumnSql(d, k, bt, tt, c) else []
  }

  lemma {:induction false} AddColumnsParts(d: Dialect, k: TableKey, bt: Table, tt: Table, cs: seq<string>)
    requires forall c :: c in cs ==> c in tt.columns.m
    ensures AddColumns(d, k, bt, tt, cs) == Parts(AddColumnOf(d, k, bt, tt), cs)
  {
    hide AddColumnSql;
    if cs != [] {
      AddColumnsParts(d, k, bt, tt, cs[1..]);
    }
  }

  lemma {:induction false} DropColumnsParts(k: TableKey, tt: Table, cs: seq<string>)
    ensures DropColumns(k, tt, cs) == Parts(DropColumnOf(k, tt), cs)
  {
    if cs != [] {
      DropColumnsParts(k, tt, cs[1..]);
    }
  }

  lemma {:induction false} ChangeColumnsParts(d: Dialect, k: TableKey, bt: Table, tt: Table, cs: seq<string>)
    requires forall c :: c in cs ==> c in tt.columns.m
    ensures ChangeColumns(d, k, bt, tt, cs) == Parts(ChangeColumnOf(d, k, bt, tt), cs)
  {
    hide ChangeColumnSql;
    if cs != [] {
      ChangeColumnsParts(d, k, bt, tt, cs[1..]);
    }
  }

  lemma {:induction false} AddOrdered(d: Dialect, k: TableKey, bt: Table, tt: Table, c: string)
    ensures Ordered((s, t) => ChangeBefore(bt, tt, s, t), AddColumnOf(d, k, bt, tt)(c))
    ensures forall s :: s in AddColumnOf(d, k, bt, tt)(c) ==> s.AddColumn? && s.table == k && s.column == c
  {
    hide Earlier;
  }

  lemma {:induction false} AddColumnsOrdered(d: Dialect, k: TableKey, bt: Table, tt: Table)
    requires tt.columns.Valid()
    ensures Ordered((s, t) => ChangeBefore(bt, tt, s, t), AddColumns(d, k, bt, tt, tt.columns.keys))
    ensures forall s :: s in AddColumns(d, k, bt, tt, tt.columns.keys) ==> s.AddColumn? && s.table == k
  {
    hide Earlier, Ordered, Parts, AddColumnOf;
    var before := (s, t) => ChangeBefore(bt, tt, s, t);
    AddColumnsParts(d, k, bt, tt, tt.columns.keys);
    forall c ensures Ordered(before, AddColumnOf(d, k, bt, tt)(c))
      && forall s :: s in AddColumnOf(d, k, bt, tt)(c) ==> s.AddColumn? && s.table == k && s.column == c
    {
      AddOrdered(d, k, bt, tt, c);
    }
    PartsOrdered(before, AddColumnOf(d, k, bt, tt), tt.columns.keys);
    forall s | s in AddColumns(d, k, bt, tt, tt.columns.keys) ensures s.AddColumn? && s.table == k {
      InParts(AddColumnOf(d, k, bt, tt), tt.columns.keys, s);
    }
  }

  lemma {:induction false} DropColumnsOrdered(k: TableKey, bt: Table, tt: Table)
    ensures Ordered((s, t) => ChangeBefore(bt, tt, s, t), DropColumns(k, tt, bt.columns.keys))
    ensures forall s :: s in DropColumns(k, tt, bt.columns.keys) ==> s.DropColumn? && s.table == k
  {
    hide Earlier, Ordered, Parts;
    var before := (s, t) => ChangeBefore(bt, tt, s, t);
    DropColumnsParts(k, tt, bt.columns.keys);
    forall c | c in bt.columns.keys ensures Ordered(before, DropColumnOf(k, tt)(c)) {
      OneOrdered(before, DropColumnOf(k, tt)(c));
    }
    PartsOrdered(before, DropColumnOf(k, tt), bt.columns.keys);
    forall s | s in DropColumns(k, tt, bt.columns.keys) ensures s.DropColumn? && s.table == k {
      InParts(DropColumnOf(k, tt), bt.columns.keys, s);
    }
  }

  lemma {:induction false} TwoOrdered(d: Dialect, k: TableKey, bt: Table, tt: Table, c: string)
    ensures Ordered((s, t) => ChangeBefore(bt, tt, s, t), ChangeColumnOf(d, k, bt, tt)(c))
    ensures forall s :: s in ChangeColumnOf(d, k, bt, tt)(c) ==> ChangesColumn(s) && s.table == k && s.column == c
  {
    hide Earlier;
  }

  lemma {:induction false} ChangeColumnsOrdered(d: Dialect, k: TableKey, bt: Table, tt: Table)
    requires tt.columns.Valid()
    ensures Ordered((s, t) => ChangeBefore(bt, tt, s, t), ChangeColumns(d, k, bt, tt, tt.columns.keys))
    ensures forall s :: s in ChangeColumns(d, k, bt, tt, tt.columns.keys) ==> ChangesColumn(s) && s.table == k
  {
    hide Earlier, Ordered, Parts, ChangeColumnOf;
    var before := (s, t) => ChangeBefore(bt, tt, s, t);
    ChangeColumnsParts(d, k, bt, tt, tt.columns.keys);
    forall c ensures Ordered(before, ChangeColumnOf(d, k, bt, tt)(c))
      && forall s :: s in ChangeColumnOf(d, k, bt, tt)(c) ==> ChangesColumn(s) && s.table == k && s.column == c
    {
      TwoOrdered(d, k, bt, tt, c);
    }
    PartsOrdered(before, ChangeColumnOf(d, k, bt, tt), tt.columns.keys);
    forall s | s in ChangeColumns(d, k, bt, tt, tt.columns.keys) ensures ChangesColumn(s) && s.table == k {
      InParts(ChangeColumnOf(d, k, bt, tt), tt.columns.keys, s);
    }
  }

  lemma {:induction false} AlterTableOrdered(d: Dialect, k: TableKey, bt: Table, tt: Table)
    requires tt.columns.Valid()
    ensures Ordered((s, t) => ChangeBefore(bt, tt, s, t), AlterTable(d, k, bt, tt))
    ensures forall s :: s in AlterTable(d, k, bt, tt) ==> Alters(s) && s.table == k
  {
    hide Ordered, Earlier, AddColumns, DropColumns, ChangeColumns;
    var before := (s, t) => ChangeBefore(bt, tt, s, t);
    AddColumnsOrdered(d, k, bt, tt);
    DropColumnsOrdered(k, bt, tt);
    ChangeColumnsOrdered(d, k, bt, tt);
    OneOrdered(before, NotePrimaryKey(k, bt, tt));
    OneOrdered(before, ChangeComment(d, k, bt, tt));
    var adds, drops := AddColumns(d, k, bt, tt, tt.columns.keys), DropColumns(k, tt, bt.columns.keys);
    var changes := ChangeColumns(d, k, bt, tt, tt.columns.keys);
    Joined(before, adds, drops);
    Joined(before, adds + drops, changes);
    Joined(before, adds + drops + changes, NotePrimaryKey(k, bt, tt));
    Joined(before, adds + drops + changes + NotePrimaryKey(k, bt, tt), ChangeComment(d, k, bt, tt));
  }

  // ---------------------------------------------------------------- the whole migration

  ghost function AlterOf(d: Dialect, base: Index, target: Index): TableKey -> seq<Stmt>
    requires Listed(target)
  {
    k => if Survives(base, target, k) then AlterTable(d, k, base.tables.m[k], target.tables.m[k]) else []
  }

  lemma {:induction false} AlterTablesParts(d: Dialect, base: Index, target: Index, ks: seq<TableKey>)
    requires Listed(target) && forall k :: k in ks ==> k in target.tables.m
    ensures AlterTables(d, base, target, ks) == Parts(AlterOf(d, base, target), ks)
  {
    hide AlterTable;
    if ks != [] {
      AlterTablesParts(d, base, target, ks[1..]);
    }
  }

  lemma {:induction false} AlterOrdered(d: Dialect, base: Index, target: Index, k: TableKey)
    requires Listed(target)
    ensures Ordered((s, t) => ComesBefore(base, target, s, t), AlterOf(d, base, target)(k))
    ensures forall s :: s in AlterOf(d, base, target)(k) ==> Alters(s) && s.table == k && Survives(base, target, k)
  {
    hide AlterTable, ChangeBefore, FkBefore, Earlier;
    if Survives(base, target, k) {
      AlterTableOrdered(d, k, base.tables.m[k], target.tables.m[k]);
    }
  }

  lemma {:induction false} AlterTablesOrdered(d: Dialect, base: Index, target: Index)
    requires Listed(target)
    ensures Ordered((s, t) => ComesBefore(base, target, s, t), AlterTables(d, base, target, target.tables.keys))
  {
    hide AlterOf, Ordered, ChangeBefore, FkBefore, Parts;
    var before := (s, t) => ComesBefore(base, target, s, t);
    AlterTablesParts(d, base, target, target.tables.keys);
    forall k ensures Ordered(before, AlterOf(d, base, target)(k))
      && forall s :: s in AlterOf(d, base, target)(k) ==> Alters(s) && s.table == k && Survives(base, target, k)
    {
      AlterOrdered(d, base, target, k);
    }
    forall k, l | Earlier(target.tables.keys, k, l) ensures k != l {
    }
    hide Earlier;
    PartsOrdered(before, AlterOf(d, base, target), target.tables.keys);
  }

  lemma {:induction false} Phases(d: Dialect, base: Index, target: Index)
    requires Listed(base) && Listed(target)
    ensures forall s ::
      && (s in DropFks(base, target, base.fks.keys) ==> Phase(s) == 0)
      && (s in DropTables(target, base.tables.keys) ==> Phase(s) == 1)
      && (s in CreateSchemas(SortedStrings(MissingSchemas(base, target))) ==> Phase(s) == 2)
      && (s in CreateTables(d, base, target, target.tables.keys) ==> Phase(s) == 3)
      && (s in AlterTables(d, base, target, target.tables.keys) ==> Phase(s) == 4)
      && (s in AddFks(base, target, target.fks.keys) ==> Phase(s) == 5)
  {
    hide DropFks, DropTables, CreateSchemas, SortedStrings, MissingSchemas, CreateTables, AlterTables, AddFks, IsDue;
    forall s {:trigger Phase(s)}
      ensures s in DropFks(base, target, base.fks.keys) ==> Phase(s) == 0
      ensures s in DropTables(target, base.tables.keys) ==> Phase(s) == 1
      ensures s in CreateSchemas(SortedStrings(MissingSchemas(base, target))) ==> Phase(s) == 2
      ensures s in CreateTables(d, base, target, target.tables.keys) ==> Phase(s) == 3
      ensures s in AlterTables(d, base, target, target.tables.keys) ==> Phase(s) == 4
      ensures s in AddFks(base, target, target.fks.keys) ==> Phase(s) == 5
    {
      DropFksIff(d, base, target, s);
      DropTablesIff(d, base, target, s);
      CreateSchemasIff(d, base, target, s);
      CreateTablesIff(d, base, target, s);
      AlterTablesIff(d, base, target, s);
      AddFksIff(d, base, target, s);
    }
  }

  lemma {:induction false} NextPhase(base: Index, target: Index, written: seq<Stmt>, next: seq<Stmt>, p: nat)
    requires Ordered((s, t) => ComesBefore(base, target, s, t), written)
    requires Ordered((s, t) => ComesBefore(base, target, s, t), next)
    requires (forall s :: s in written ==> Phase(s) < p) && forall s :: s in next ==> Phase(s) == p
    ensures Ordered((s, t) => ComesBefore(base, target, s, t), written + next)
    ensures forall s :: s in written + next ==> Phase(s) < p + 1
  {
    hide FkBefore, AlterBefore, Earlier, StringLe, Phase;
  }

  /** Of two statements of a migration the first comes before the second, in the order said above. */
  lemma {:induction false} WrittenInThisOrder(d: Dialect, base: Index, target: Index)
    requires Listed(base) && Listed(target)
    ensures Ordered((s, t) => ComesBefore(base, target, s, t), MigrationStmts(d, base, target))
  {
    hide DropFks, DropTables, CreateSchemas, SortedStrings, MissingSchemas, CreateTables, AlterTables, AddFks, IsDue,
      Ordered, ComesBefore;
    var drops, tables := DropFks(base, target, base.fks.keys), DropTables(target, base.tables.keys);
    var schemas := CreateSchemas(SortedStrings(MissingSchemas(base, target)));
    var creates := CreateTables(d, base, target, target.tables.keys);
    var alters, adds := AlterTables(d, base, target, target.tables.keys), AddFks(base, target, target.fks.keys);
    Phases(d, base, target);
    DropFksOrdered(base, target);
    DropTablesOrdered(base, target);
    CreateSchemasOrdered(base, target, MissingSchemas(base, target));
    CreateTablesOrdered(d, base, target);
    AlterTablesOrdered(d, base, target);
    AddFksOrdered(base, target);
    NextPhase(base, target, drops, tables, 1);
    NextPhase(base, target, drops + tables, schemas, 2);
    NextPhase(base, target, drops + tables + schemas, creates, 3);
    NextPhase(base, target, drops + tables + schemas + creates, alters, 4);
    NextPhase(base, target, drops + tables + schemas + creates + alters, adds, 5);
  }

  /** A statement is written once, but for two foreign keys whose removal reads alike. */
  lemma {:induction false} WrittenOnce(d: Dialect, base: Index, target: Index, i: nat, j: nat)
    requires Listed(base) && Listed(target) && i < j < |MigrationStmts(d, base, target)|
    requires MigrationStmts(d, base, target)[i] == MigrationStmts(d, base, target)[j]
    ensures FkBefore(base, target, MigrationStmts(d, base, target)[i], MigrationStmts(d, base, target)[j])
  {
    hide MigrationStmts, FkBefore, IsDue, StringLe;
    WrittenInThisOrder(d, base, target);
  }
}
