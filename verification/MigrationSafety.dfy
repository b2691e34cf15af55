/**
 The risk report of backend/app/ddl/migration_safety.py, and how the diff, the migration and the report
 of one pair of snapshots agree.
 */
module MigrationSafety {
  import opened Dicts
  import opened Orders
  import opened Snapshots
  import opened SchemaDiff
  import opened Migration
  import opened Text

  datatype Severity = Safe | Warning | Destructive

  datatype Category =
    | TableDropped | TableCreated | ColumnAdded | ColumnDropped | ColumnRetyped
    | NotNullSet | NotNullDropped | PrimaryKeyChanged | ForeignKeyAdded | ForeignKeyDropped

  datatype Subject =
    | OfTable(table: TableKey)
    | OfColumn(table: TableKey, column: string)
    | OfForeignKey(fk: FkSignature)

  datatype Risk = Risk(category: Category, severity: Severity, subject: Subject)

  /** A missing type counts as an empty one. */
  function TypeText(c: Column): string {
    if c.dataType.Some? then c.dataType.value else ""
  }

  function DropTableRisk(t: Index, k: TableKey): seq<Risk> {
    if k in t.tables.m then [] else [Risk(TableDropped, Destructive, OfTable(k))]
  }

  function CreateTableRisk(b: Index, k: TableKey): seq<Risk> {
    if k in b.tables.m then [] else [Risk(TableCreated, Safe, OfTable(k))]
  }

  function AddColumnRisk(k: TableKey, bt: Table, tt: Table, c: string): seq<Risk> {
    if c in bt.columns.m || c !in tt.columns.m then []
    else [Risk(ColumnAdded, if tt.columns.m[c].notNull then Warning else Safe, OfColumn(k, c))]
  }

  function DropColumnRisk(k: TableKey, tt: Table, c: string): seq<Risk> {
    if c in tt.columns.m then [] else [Risk(ColumnDropped, Destructive, OfColumn(k, c))]
  }

  function ChangeColumnRisk(k: TableKey, bt: Table, tt: Table, c: string): seq<Risk> {
    if c !in bt.columns.m || c !in tt.columns.m then []
    else
      var was, to := bt.columns.m[c], tt.columns.m[c];
      (if TypeText(was) != TypeText(to) then [Risk(ColumnRetyped, Warning, OfColumn(k, c))] else [])
      + (if !was.notNull && to.notNull then [Risk(NotNullSet, Warning, OfColumn(k, c))] else [])
      + (if was.notNull && !to.notNull then [Risk(NotNullDropped, Safe, OfColumn(k, c))] else [])
  }

  function PrimaryKeyRisk(k: TableKey, bt: Table, tt: Table): seq<Risk> {
    if bt.pk == tt.pk then [] else [Risk(PrimaryKeyChanged, Destructive, OfTable(k))]
  }

  function AlterTableRisks(k: TableKey, bt: Table, tt: Table): seq<Risk> {
    Flat(c => AddColumnRisk(k, bt, tt, c), tt.columns.keys)
    + Flat(c => DropColumnRisk(k, tt, c), bt.columns.keys)
    + Flat(c => ChangeColumnRisk(k, bt, tt, c), tt.columns.keys)
    + PrimaryKeyRisk(k, bt, tt)
  }

  function SurvivorRisks(b: Index, t: Index, k: TableKey): seq<Risk> {
    if k in b.tables.m && k in t.tables.m then AlterTableRisks(k, b.tables.m[k], t.tables.m[k]) else []
  }

  function AddFkRisk(b: Index, f: FkSignature): seq<Risk> {
    if f in b.fks.m then [] else [Risk(ForeignKeyAdded, Warning, OfForeignKey(f))]
  }

  function DropFkRisk(t: Index, f: FkSignature): seq<Risk> {
    if f in t.fks.m then [] else [Risk(ForeignKeyDropped, Safe, OfForeignKey(f))]
  }

  /** All findings, in the order in which the source appends them. */
  function Risks(b: Index, t: Index): seq<Risk> {
    Flat(k => DropTableRisk(t, k), b.tables.keys)
    + Flat(k => CreateTableRisk(b, k), t.tables.keys)
    + Flat(k => SurvivorRisks(b, t, k), t.tables.keys)
    + Flat(f => AddFkRisk(b, f), t.fks.keys)
    + Flat(f => DropFkRisk(t, f), b.fks.keys)
  }

  // ---------------------------------------------------------------- the loops

  lemma {:induction false} FlatStep<A, B>(h: A -> seq<B>, s: seq<A>, i: nat)
    requires i < |s|
    ensures Flat(h, s[..i + 1]) == Flat(h, s[..i]) + h(s[i])
  {
    assert s[..i + 1][..i] == s[..i];
  }

  method Collect<A>(h: A -> seq<Risk>, s: seq<A>) returns (items: seq<Risk>)
    ensures items == Flat(h, s)
  {
    items := [];
    for i := 0 to |s|
      invariant items == Flat(h, s[..i])
    {
      FlatStep(h, s, i);
      items := items + h(s[i]);
    }
    assert s[..|s|] == s;
  }

  function CountSeverity(items: seq<Risk>, sev: Severity): nat {
    if items == [] then 0 else CountSeverity(items[1..], sev) + (if items[0].severity == sev then 1 else 0)
  }

  lemma {:induction false} SeverityFound(items: seq<Risk>, sev: Severity)
    ensures CountSeverity(items, sev) > 0 <==> exists r :: r in items && r.severity == sev
  {
    if items != [] {
      SeverityFound(items[1..], sev);
      assert items == [items[0]] + items[1..];
      assert items[0] in items;
    }
  }

  lemma {:induction false} SeveritiesTotal(items: seq<Risk>)
    ensures |items| == CountSeverity(items, Safe) + CountSeverity(items, Warning) + CountSeverity(items, Destructive)
  {
    if items != [] {
      SeveritiesTotal(items[1..]);
    }
  }

  // ---------------------------------------------------------------- the order of the report

  /** The text that names what a finding is about. */
  function TargetText(s: Subject): string {
    match s
    case OfTable(k) => TableText(k)
    case OfColumn(k, c) => TableText(k) + "." + c
    case OfForeignKey(f) => TableText(f.child) + "(" + Join(f.childColumns, ", ") + ") -> " + TableText(f.parent)
  }

  function Rank(sev: Severity): nat {
    match sev
    case Destructive => 0
    case Warning => 1
    case Safe => 2
  }

  /** The most severe findings come first, and among these what they are about counts. */
  predicate RiskLe(a: Risk, b: Risk) {
    Rank(a.severity) < Rank(b.severity)
    || (a.severity == b.severity && StringLe(TargetText(a.subject), TargetText(b.subject)))
  }

  lemma {:induction false} RiskOrder()
    ensures TotalPreorder(RiskLe)
  {
    StringOrder();
    hide StringLe, TargetText;
  }

  lemma {:induction false} SeverityIsCountIf(s: seq<Risk>, sev: Severity)
    ensures CountSeverity(s, sev) == CountIf((r: Risk) => r.severity == sev, s)
  {
    if s != [] {
      SeverityIsCountIf(s[1..], sev);
    }
  }

  lemma {:induction false} SortSeverity(s: seq<Risk>, sev: Severity)
    ensures CountSeverity(Sort(RiskLe, s), sev) == CountSeverity(s, sev)
  {
    hide RiskLe, CountSeverity, Sort;
    SeverityIsCountIf(s, sev);
    SeverityIsCountIf(Sort(RiskLe, s), sev);
    SortCountIf(RiskLe, (r: Risk) => r.severity == sev, s);
  }

  /** What the sorted report says of its findings in any order. */
  lemma {:induction false} SortedReport(items: seq<Risk>)
    ensures var sorted := Sort(RiskLe, items);
      && Sorted(RiskLe, sorted) && |sorted| == |items| && (forall r :: r in sorted <==> r in items)
      && (forall sev :: CountSeverity(sorted, sev) == CountSeverity(items, sev))
  {
    hide RiskLe;
    RiskOrder();
    SortSorted(RiskLe, items);
    SameElements(Sort(RiskLe, items), items);
    forall sev ensures CountSeverity(Sort(RiskLe, items), sev) == CountSeverity(items, sev) {
      SortSeverity(items, sev);
    }
  }

  /** The findings in the order in which the source appends them. */
  method CollectRisks(b: Index, t: Index) returns (items: seq<Risk>)
    ensures items == Risks(b, t)
  {
    var dropped := Collect(k => DropTableRisk(t, k), b.tables.keys);
    var created := Collect(k => CreateTableRisk(b, k), t.tables.keys);
    var altered := [];
    for i := 0 to |t.tables.keys|
      invariant altered == Flat(k => SurvivorRisks(b, t, k), t.tables.keys[..i])
    {
      var k := t.tables.keys[i];
      FlatStep(k => SurvivorRisks(b, t, k), t.tables.keys, i);
      if k in b.tables.m && k in t.tables.m {
        var bt, tt := b.tables.m[k], t.tables.m[k];
        var adds := Collect(c => AddColumnRisk(k, bt, tt, c), tt.columns.keys);
        var drops := Collect(c => DropColumnRisk(k, tt, c), bt.columns.keys);
        var changes := Collect(c => ChangeColumnRisk(k, bt, tt, c), tt.columns.keys);
        altered := altered + (adds + drops + changes + PrimaryKeyRisk(k, bt, tt));
      }
    }
    assert t.tables.keys[..|t.tables.keys|] == t.tables.keys;
    var addFks := Collect(f => AddFkRisk(b, f), t.fks.keys);
    var dropFks := Collect(f => DropFkRisk(t, f), b.fks.keys);
    items := dropped + created + altered + addFks + dropFks;
  }

  datatype SafetyReport = SafetyReport(
    items: seq<Risk>, safe: nat, warning: nat, destructive: nat, total: nat, hasDestructive: bool, hasBlocking: bool)

  method AnalyzeMigrationSafety(b: Index, t: Index) returns (report: SafetyReport)
    ensures report.items == Sort(RiskLe, Risks(b, t)) && Sorted(RiskLe, report.items)
    ensures report.safe == CountSeverity(Risks(b, t), Safe)
    ensures report.warning == CountSeverity(Risks(b, t), Warning)
    ensures report.destructive == CountSeverity(Risks(b, t), Destructive)
    ensures report.total == |Risks(b, t)| == report.safe + report.warning + report.destructive
    ensures report.hasDestructive <==> exists r :: r in Risks(b, t) && r.severity == Destructive
    ensures report.hasDestructive <==> report.destructive > 0
    ensures report.hasBlocking <==> exists r :: r in Risks(b, t) && r.severity != Safe
    ensures report.hasBlocking <==> report.warning + report.destructive > 0
  {
    hide Risks, Sort, Sorted, RiskLe, CountSeverity;
    var items := CollectRisks(b, t);
    SortedReport(items);
    items := Sort(RiskLe, items);
    SeveritiesTotal(items);
    SeverityFound(items, Destructive);
    SeverityFound(items, Warning);
    report := SafetyReport(items, CountSeverity(items, Safe), CountSeverity(items, Warning),
      CountSeverity(items, Destructive),
      |items|, exists r :: r in items && r.severity == Destructive,
      exists r :: r in items && (r.severity == Warning || r.severity == Destructive));
  }

  // ---------------------------------------------------------------- empty lists

  lemma {:induction false} FlatEmpty<A, B>(h: A -> seq<B>, s: seq<A>)
    ensures Flat(h, s) == [] <==> forall x :: x in s ==> h(x) == []
  {
    if s != [] {
      var init, last := s[..|s| - 1], s[|s| - 1];
      FlatEmpty(h, init);
      assert s == init + [last];
    }
  }

  lemma {:induction false} FlatHead<A, B>(h: A -> seq<B>, s: seq<A>)
    requires s != []
    ensures Flat(h, s) == h(s[0]) + Flat(h, s[1..])
  {
    assert s == [s[0]] + s[1..];
    FlatConcat(h, [s[0]], s[1..]);
    FlatOne(h, s[0]);
  }

  /** Every column type is text, and the dialect renders it unchanged: PostgreSQL on both sides. */
  ghost predicate PlainTypes(d: Dialect, ix: Index) {
    && d.postgresql && (forall c, ty :: d.render(c, Some(ty)) == ty)
    && forall k, c :: k in ix.tables.m && c in ix.tables.m[k].columns.m ==> ix.tables.m[k].columns.m[c].dataType.Some?
  }

  lemma {:induction false} DropFksEmpty(b: Index, t: Index, fs: seq<FkSignature>)
    requires forall f :: f in fs ==> f in b.fks.m
    ensures DropFks(b, t, fs) == [] <==> forall f :: f in fs ==> DropFk(b, t, f) == []
  {
    if fs != [] { DropFksEmpty(b, t, fs[1..]); assert fs == [fs[0]] + fs[1..]; }
  }

  lemma {:induction false} DropTablesEmpty(t: Index, ks: seq<TableKey>)
    ensures DropTables(t, ks) == [] <==> forall k :: k in ks ==> k in t.tables.m
  {
    if ks != [] { DropTablesEmpty(t, ks[1..]); assert ks == [ks[0]] + ks[1..]; }
  }

  lemma {:induction false} CreateTablesEmpty(d: Dialect, b: Index, t: Index, ks: seq<TableKey>)
    requires forall k :: k in ks ==> k in t.tables.m
    ensures CreateTables(d, b, t, ks) == [] <==> forall k :: k in ks ==> k in b.tables.m
  {
    if ks != [] { CreateTablesEmpty(d, b, t, ks[1..]); assert ks == [ks[0]] + ks[1..]; }
  }

  lemma {:induction false} AddColumnsEmpty(d: Dialect, k: TableKey, bt: Table, tt: Table, cs: seq<string>)
    requires forall c :: c in cs ==> c in tt.columns.m
    ensures AddColumns(d, k, bt, tt, cs) == [] <==> forall c :: c in cs ==> c in bt.columns.m
  {
    if cs != [] { AddColumnsEmpty(d, k, bt, tt, cs[1..]); assert cs == [cs[0]] + cs[1..]; }
  }

  lemma {:induction false} DropColumnsEmpty(k: TableKey, tt: Table, cs: seq<string>)
    ensures DropColumns(k, tt, cs) == [] <==> forall c :: c in cs ==> c in tt.columns.m
  {
    if cs != [] { DropColumnsEmpty(k, tt, cs[1..]); assert cs == [cs[0]] + cs[1..]; }
  }

  lemma {:induction false} ChangeColumnsEmpty(d: Dialect, k: TableKey, bt: Table, tt: Table, cs: seq<string>)
    requires forall c :: c in cs ==> c in tt.columns.m
    ensures ChangeColumns(d, k, bt, tt, cs) == [] <==>
      forall c :: c in cs && c in bt.columns.m ==> Def(d, c, bt.columns.m[c]) == Def(d, c, tt.columns.m[c])
  {
    if cs != [] {
      ChangeColumnsEmpty(d, k, bt, tt, cs[1..]);
      assert cs == [cs[0]] + cs[1..];
      assert ChangeColumnSql(d, k, bt, tt, cs[0]) == [] <==>
        (cs[0] in bt.columns.m ==> Def(d, cs[0], bt.columns.m[cs[0]]) == Def(d, cs[0], tt.columns.m[cs[0]]));
      hide Def, ChangeColumnSql;
    }
  }

  lemma {:induction false} AlterTablesEmpty(d: Dialect, b: Index, t: Index, ks: seq<TableKey>)
    requires Listed(b) && Listed(t) && forall k :: k in ks ==> k in t.tables.m
    ensures AlterTables(d, b, t, ks) == [] <==>
      forall k :: k in ks && k in b.tables.m ==> AlterTable(d, k, b.tables.m[k], t.tables.m[k]) == []
  {
    if ks != [] { AlterTablesEmpty(d, b, t, ks[1..]); assert ks == [ks[0]] + ks[1..]; }
  }

  lemma {:induction false} AddFksEmpty(b: Index, t: Index, fs: seq<FkSignature>)
    requires forall f :: f in fs ==> f in t.fks.m
    ensures AddFks(b, t, fs) == [] <==> forall f :: f in fs ==> AddFk(b, t, f) == []
  {
    if fs != [] { AddFksEmpty(b, t, fs[1..]); assert fs == [fs[0]] + fs[1..]; }
  }

  // ---------------------------------------------------------------- diff and migration agree

  lemma {:induction false} SameColumns(d: Dialect, bt: map<string, Column>, tt: map<string, Column>)
    requires forall c, ty :: d.render(c, Some(ty)) == ty
    requires forall c :: c in bt ==> bt[c].dataType.Some?
    requires forall c :: c in tt ==> tt[c].dataType.Some?
    ensures bt == tt <==>
      bt.Keys == tt.Keys && forall c :: c in bt && c in tt ==> Def(d, c, bt[c]) == Def(d, c, tt[c])
  {
    forall c | c in bt && c in tt ensures Def(d, c, bt[c]) == Def(d, c, tt[c]) <==> bt[c] == tt[c] {
      assert bt[c].dataType == Some(bt[c].dataType.value) && tt[c].dataType == Some(tt[c].dataType.value);
    }
  }

  lemma {:induction false} AlterTableParts(d: Dialect, k: TableKey, bt: Table, tt: Table)
    requires d.postgresql && bt.columns.Valid() && tt.columns.Valid()
    ensures AlterTable(d, k, bt, tt) == [] <==>
      && AddColumns(d, k, bt, tt, tt.columns.keys) == [] && DropColumns(k, tt, bt.columns.keys) == []
      && ChangeColumns(d, k, bt, tt, tt.columns.keys) == []
      && bt.pk == tt.pk && bt.comment == tt.comment
  {
    hide AddColumns, DropColumns, ChangeColumns;
  }

  lemma {:induction false} AlterTableEmpty(d: Dialect, k: TableKey, bt: Table, tt: Table)
    requires d.postgresql && bt.columns.Valid() && tt.columns.Valid()
    requires forall c, ty :: d.render(c, Some(ty)) == ty
    requires forall c :: c in bt.columns.m ==> bt.columns.m[c].dataType.Some?
    requires forall c :: c in tt.columns.m ==> tt.columns.m[c].dataType.Some?
    ensures AlterTable(d, k, bt, tt) == [] <==> SameTable(bt, tt)
  {
    hide AlterTable, AddColumns, DropColumns, ChangeColumns, Def;
    AlterTableParts(d, k, bt, tt);
    AddColumnsEmpty(d, k, bt, tt, tt.columns.keys);
    DropColumnsEmpty(k, tt, bt.columns.keys);
    ChangeColumnsEmpty(d, k, bt, tt, tt.columns.keys);
    SameColumns(d, bt.columns.m, tt.columns.m);
    assert forall c :: c in tt.columns.keys <==> c in tt.columns.m;
    assert forall c :: c in bt.columns.keys <==> c in bt.columns.m;
  }

  lemma {:induction false} FkStatements(b: Index, t: Index, f: FkSignature)
    requires WellFormed(b) && WellFormed(t)
    ensures f in b.fks.m && f.child in t.tables.m ==> (DropFk(b, t, f) == [] <==> f in t.fks.m)
    ensures f in b.fks.m && f in t.fks.m ==> DropFk(b, t, f) == []
    ensures f in t.fks.m ==> (AddFk(b, t, f) == [] <==> f in b.fks.m)
  {
    if f in b.fks.m {
      assert WellFormedFk(b.tables.m, f);
    }
    if f in t.fks.m {
      assert WellFormedFk(t.tables.m, f);
    }
    hide WellFormed;
  }

  lemma {:induction false} MigrationParts(d: Dialect, b: Index, t: Index)
    requires Listed(b) && Listed(t)
    ensures MigrationStmts(d, b, t) == [] <==>
      && DropFks(b, t, b.fks.keys) == [] && DropTables(t, b.tables.keys) == []
      && CreateSchemas(SortedStrings(MissingSchemas(b, t))) == []
      && CreateTables(d, b, t, t.tables.keys) == [] && AlterTables(d, b, t, t.tables.keys) == []
      && AddFks(b, t, t.fks.keys) == []
  {
    hide DropFks, DropTables, CreateSchemas, CreateTables, AlterTables, AddFks, MissingSchemas, SortedStrings;
  }

  lemma {:induction false} KeysListed(ix: Index)
    requires WellFormed(ix)
    ensures Listed(ix)
    ensures forall k :: k in ix.tables.keys <==> k in ix.tables.m
    ensures forall f :: f in ix.fks.keys <==> f in ix.fks.m
  {
  }

  lemma {:induction false} NoMissingSchemas(b: Index, t: Index)
    requires t.tables.m.Keys <= b.tables.m.Keys
    ensures CreateSchemas(SortedStrings(MissingSchemas(b, t))) == []
  {
    assert MissingSchemas(b, t) == {};
    assert SortedStrings({}) == [];
  }

  ghost predicate SurvivorsAlike(b: Index, t: Index) {
    forall k :: k in b.tables.m && k in t.tables.m ==> SameTable(b.tables.m[k], t.tables.m[k])
  }

  lemma {:induction false} NoDifferenceParts(b: Index, t: Index)
    ensures NoDifference(b, t) <==>
      && b.tables.m.Keys <= t.tables.m.Keys && t.tables.m.Keys <= b.tables.m.Keys && SurvivorsAlike(b, t)
      && b.fks.m.Keys <= t.fks.m.Keys && t.fks.m.Keys <= b.fks.m.Keys
  {
    hide SameTable;
  }

  lemma {:induction false} SurvivorsSame(d: Dialect, b: Index, t: Index)
    requires WellFormed(b) && WellFormed(t) && PlainTypes(d, b) && PlainTypes(d, t)
    ensures Listed(b) && Listed(t)
    ensures AlterTables(d, b, t, t.tables.keys) == [] <==> SurvivorsAlike(b, t)
  {
    KeysListed(b);
    KeysListed(t);
    hide WellFormed;
    AlterTablesEmpty(d, b, t, t.tables.keys);
    forall k | k in b.tables.m && k in t.tables.m
      ensures AlterTable(d, k, b.tables.m[k], t.tables.m[k]) == [] <==> SameTable(b.tables.m[k], t.tables.m[k])
    {
      AlterTableEmpty(d, k, b.tables.m[k], t.tables.m[k]);
    }
    hide SameTable, AlterTable, AlterTables;
  }

  lemma {:induction false} TablesSame(d: Dialect, b: Index, t: Index)
    requires WellFormed(b) && WellFormed(t)
    ensures Listed(b) && Listed(t)
    ensures DropTables(t, b.tables.keys) == [] <==> b.tables.m.Keys <= t.tables.m.Keys
    ensures CreateTables(d, b, t, t.tables.keys) == [] <==> t.tables.m.Keys <= b.tables.m.Keys
  {
    KeysListed(b);
    KeysListed(t);
    DropTablesEmpty(t, b.tables.keys);
    CreateTablesEmpty(d, b, t, t.tables.keys);
    hide WellFormed, DropTables, CreateTables;
  }

  lemma {:induction false} FksSame(b: Index, t: Index)
    requires WellFormed(b) && WellFormed(t) && b.tables.m.Keys <= t.tables.m.Keys
    ensures Listed(b) && Listed(t)
    ensures DropFks(b, t, b.fks.keys) == [] <==> b.fks.m.Keys <= t.fks.m.Keys
    ensures AddFks(b, t, t.fks.keys) == [] <==> t.fks.m.Keys <= b.fks.m.Keys
  {
    KeysListed(b);
    KeysListed(t);
    DropFksEmpty(b, t, b.fks.keys);
    AddFksEmpty(b, t, t.fks.keys);
    forall f | f in b.fks.m ensures DropFk(b, t, f) == [] <==> f in t.fks.m {
      FkChild(b, f);
      FkStatements(b, t, f);
    }
    forall f | f in t.fks.m ensures AddFk(b, t, f) == [] <==> f in b.fks.m {
      FkStatements(b, t, f);
    }
    hide WellFormed, DropFks, AddFks, DropFk, AddFk;
  }

  /** On PostgreSQL with plain types, the migration is empty exactly when the diff finds no difference. */
  lemma {:induction false} EmptyMigrationIffNoDifference(d: Dialect, b: Index, t: Index)
    requires WellFormed(b) && WellFormed(t) && PlainTypes(d, b) && PlainTypes(d, t)
    ensures Listed(b) && Listed(t)
    ensures MigrationStmts(d, b, t) == [] <==> NoDifference(b, t)
  {
    hide WellFormed, DropFks, DropTables, CreateSchemas, CreateTables, AlterTables, AddFks, SurvivorsAlike,
      NoDifference, MigrationStmts, PlainTypes, MissingSchemas, Listed, SortedStrings;
    TablesSame(d, b, t);
    MigrationParts(d, b, t);
    SurvivorsSame(d, b, t);
    NoDifferenceParts(b, t);
    if b.tables.m.Keys <= t.tables.m.Keys {
      FksSame(b, t);
    }
    if t.tables.m.Keys <= b.tables.m.Keys {
      NoMissingSchemas(b, t);
    }
  }

  lemma {:induction false} FkChild(ix: Index, f: FkSignature)
    requires WellFormed(ix) && f in ix.fks.m
    ensures f.child in ix.tables.m
  {
    assert WellFormedFk(ix.tables.m, f);
  }

  // ---------------------------------------------------------------- the report agrees with both

  /** The same but for table comments. */
  ghost predicate OnlyCommentsDiffer(b: Index, t: Index) {
    && b.tables.m.Keys == t.tables.m.Keys
    && (forall k :: k in b.tables.m && k in t.tables.m ==>
          b.tables.m[k].columns.m == t.tables.m[k].columns.m && b.tables.m[k].pk == t.tables.m[k].pk)
    && b.fks.m.Keys == t.fks.m.Keys
  }

  lemma {:induction false} NoColumnChange(k: TableKey, bt: Table, tt: Table, c: string)
    requires c in bt.columns.m && c in tt.columns.m
    requires bt.columns.m[c].dataType.Some? && tt.columns.m[c].dataType.Some?
    ensures ChangeColumnRisk(k, bt, tt, c) == [] <==> bt.columns.m[c] == tt.columns.m[c]
  {
    var was, to := bt.columns.m[c], tt.columns.m[c];
    assert was.dataType == Some(TypeText(was)) && to.dataType == Some(TypeText(to));
  }

  lemma {:induction false} ColumnRisksEmpty(k: TableKey, bt: Table, tt: Table)
    requires bt.columns.Valid() && tt.columns.Valid()
    ensures Flat(c => AddColumnRisk(k, bt, tt, c), tt.columns.keys) == [] <==> tt.columns.m.Keys <= bt.columns.m.Keys
    ensures Flat(c => DropColumnRisk(k, tt, c), bt.columns.keys) == [] <==> bt.columns.m.Keys <= tt.columns.m.Keys
    ensures Flat(c => ChangeColumnRisk(k, bt, tt, c), tt.columns.keys) == [] <==>
      forall c :: c in tt.columns.m ==> ChangeColumnRisk(k, bt, tt, c) == []
  {
    hide ChangeColumnRisk, Flat;
    FlatEmpty(c => AddColumnRisk(k, bt, tt, c), tt.columns.keys);
    FlatEmpty(c => DropColumnRisk(k, tt, c), bt.columns.keys);
    FlatEmpty(c => ChangeColumnRisk(k, bt, tt, c), tt.columns.keys);
    assert forall c :: c in tt.columns.keys <==> c in tt.columns.m;
    assert forall c :: c in bt.columns.keys <==> c in bt.columns.m;
  }

  lemma {:induction false} AlterRisksEmpty(k: TableKey, bt: Table, tt: Table)
    requires bt.columns.Valid() && tt.columns.Valid()
    requires forall c :: c in bt.columns.m ==> bt.columns.m[c].dataType.Some?
    requires forall c :: c in tt.columns.m ==> tt.columns.m[c].dataType.Some?
    ensures AlterTableRisks(k, bt, tt) == [] <==> bt.columns.m == tt.columns.m && bt.pk == tt.pk
  {
    hide ChangeColumnRisk, Flat;
    ColumnRisksEmpty(k, bt, tt);
    forall c | c in bt.columns.m && c in tt.columns.m
      ensures ChangeColumnRisk(k, bt, tt, c) == [] <==> bt.columns.m[c] == tt.columns.m[c]
    {
      NoColumnChange(k, bt, tt, c);
    }
    if bt.columns.m.Keys == tt.columns.m.Keys
      && (forall c :: c in bt.columns.m ==> bt.columns.m[c] == tt.columns.m[c])
    {
      assert bt.columns.m == tt.columns.m;
    }
  }

  lemma {:induction false} TableRisksEmpty(b: Index, t: Index)
    requires WellFormed(b) && WellFormed(t)
    ensures Flat(k => DropTableRisk(t, k), b.tables.keys) == [] <==> b.tables.m.Keys <= t.tables.m.Keys
    ensures Flat(k => CreateTableRisk(b, k), t.tables.keys) == [] <==> t.tables.m.Keys <= b.tables.m.Keys
    ensures Flat(f => AddFkRisk(b, f), t.fks.keys) == [] <==> t.fks.m.Keys <= b.fks.m.Keys
    ensures Flat(f => DropFkRisk(t, f), b.fks.keys) == [] <==> b.fks.m.Keys <= t.fks.m.Keys
  {
    KeysListed(b);
    KeysListed(t);
    hide WellFormed;
    FlatEmpty(k => DropTableRisk(t, k), b.tables.keys);
    FlatEmpty(k => CreateTableRisk(b, k), t.tables.keys);
    FlatEmpty(f => AddFkRisk(b, f), t.fks.keys);
    FlatEmpty(f => DropFkRisk(t, f), b.fks.keys);
    hide Flat;
  }

  lemma {:induction false} SurvivorRisksEmpty(d: Dialect, b: Index, t: Index)
    requires WellFormed(b) && WellFormed(t) && PlainTypes(d, b) && PlainTypes(d, t)
    ensures Flat(k => SurvivorRisks(b, t, k), t.tables.keys) == [] <==>
      forall k :: k in b.tables.m && k in t.tables.m ==>
        b.tables.m[k].columns.m == t.tables.m[k].columns.m && b.tables.m[k].pk == t.tables.m[k].pk
  {
    KeysListed(b);
    KeysListed(t);
    hide WellFormed;
    FlatEmpty(k => SurvivorRisks(b, t, k), t.tables.keys);
    forall k | k in b.tables.m && k in t.tables.m
      ensures SurvivorRisks(b, t, k) == [] <==>
        b.tables.m[k].columns.m == t.tables.m[k].columns.m && b.tables.m[k].pk == t.tables.m[k].pk
    {
      AlterRisksEmpty(k, b.tables.m[k], t.tables.m[k]);
    }
    assert forall k :: !(k in b.tables.m && k in t.tables.m) ==> SurvivorRisks(b, t, k) == [];
    hide Flat, SurvivorRisks, PlainTypes, Listed;
  }

  /** With plain types the report is empty exactly when only table comments differ. */
  lemma {:induction false} EmptyReportIffOnlyComments(d: Dialect, b: Index, t: Index)
    requires WellFormed(b) && WellFormed(t) && PlainTypes(d, b) && PlainTypes(d, t)
    ensures Risks(b, t) == [] <==> OnlyCommentsDiffer(b, t)
  {
    TableRisksEmpty(b, t);
    SurvivorRisksEmpty(d, b, t);
    hide WellFormed, Flat, SurvivorRisks, PlainTypes;
  }

  // ---------------------------------------------------------------- destructive findings and statements

  predicate IsDestructive(s: Stmt) {
    s.DropTable? || s.DropColumn? || s.PrimaryKeyNote?
  }

  function CountDestructive(stmts: seq<Stmt>): nat {
    if stmts == [] then 0 else CountDestructive(stmts[1..]) + (if IsDestructive(stmts[0]) then 1 else 0)
  }

  lemma {:induction false} CountConcat(a: seq<Stmt>, b: seq<Stmt>)
    ensures CountDestructive(a + b) == CountDestructive(a) + CountDestructive(b)
  {
    if a == [] {
      assert a + b == b;
    } else {
      assert (a + b)[1..] == a[1..] + b;
      CountConcat(a[1..], b);
    }
  }

  lemma {:induction false} SeverityConcat(a: seq<Risk>, b: seq<Risk>, sev: Severity)
    ensures CountSeverity(a + b, sev) == CountSeverity(a, sev) + CountSeverity(b, sev)
  {
    if a == [] {
      assert a + b == b;
    } else {
      assert (a + b)[1..] == a[1..] + b;
      SeverityConcat(a[1..], b, sev);
    }
  }

  lemma {:induction false} CountSix(a: seq<Stmt>, b: seq<Stmt>, c: seq<Stmt>, d: seq<Stmt>, e: seq<Stmt>, f: seq<Stmt>)
    ensures CountDestructive(a + b + c + d + e + f) ==
      CountDestructive(a) + CountDestructive(b) + CountDestructive(c)
      + CountDestructive(d) + CountDestructive(e) + CountDestructive(f)
  {
    hide CountDestructive;
    CountConcat(a, b);
    CountConcat(a + b, c);
    CountConcat(a + b + c, d);
    CountConcat(a + b + c + d, e);
    CountConcat(a + b + c + d + e, f);
  }

  lemma {:induction false} SeverityFive(a: seq<Risk>, b: seq<Risk>, c: seq<Risk>, d: seq<Risk>, e: seq<Risk>,
    sev: Severity)
    ensures CountSeverity(a + b + c + d + e, sev) ==
      CountSeverity(a, sev) + CountSeverity(b, sev) + CountSeverity(c, sev) + CountSeverity(d, sev)
        + CountSeverity(e, sev)
  {
    hide CountSeverity;
    SeverityConcat(a, b, sev);
    SeverityConcat(a + b, c, sev);
    SeverityConcat(a + b + c, d, sev);
    SeverityConcat(a + b + c + d, e, sev);
  }

  /** A list of findings of which none is destructive. */
  lemma {:induction false} NoneDestructive<A>(h: A -> seq<Risk>, s: seq<A>)
    requires forall x :: CountSeverity(h(x), Destructive) == 0
    ensures CountSeverity(Flat(h, s), Destructive) == 0
  {
    if s != [] {
      NoneDestructive(h, s[..|s| - 1]);
      SeverityConcat(Flat(h, s[..|s| - 1]), h(s[|s| - 1]), Destructive);
    }
  }

  lemma {:induction false} CountDropTables(t: Index, ks: seq<TableKey>)
    ensures CountDestructive(DropTables(t, ks)) == CountSeverity(Flat(k => DropTableRisk(t, k), ks), Destructive)
  {
    if ks != [] {
      var h := k => DropTableRisk(t, k);
      CountDropTables(t, ks[1..]);
      FlatHead(h, ks);
      SeverityConcat(h(ks[0]), Flat(h, ks[1..]), Destructive);
      CountConcat(if ks[0] in t.tables.m then [] else [DropTable(ks[0])], DropTables(t, ks[1..]));
    }
  }

  lemma {:induction false} CountDropColumns(k: TableKey, tt: Table, cs: seq<string>)
    ensures CountDestructive(DropColumns(k, tt, cs)) ==
      CountSeverity(Flat(c => DropColumnRisk(k, tt, c), cs), Destructive)
  {
    if cs != [] {
      var h := c => DropColumnRisk(k, tt, c);
      CountDropColumns(k, tt, cs[1..]);
      FlatHead(h, cs);
      SeverityConcat(h(cs[0]), Flat(h, cs[1..]), Destructive);
      CountConcat(if cs[0] in tt.columns.m then [] else [DropColumn(k, cs[0])], DropColumns(k, tt, cs[1..]));
    }
  }

  lemma {:induction false} NoDestructiveAdds(d: Dialect, k: TableKey, bt: Table, tt: Table, cs: seq<string>)
    requires forall c :: c in cs ==> c in tt.columns.m
    ensures CountDestructive(AddColumns(d, k, bt, tt, cs)) == 0
  {
    if cs != [] {
      NoDestructiveAdds(d, k, bt, tt, cs[1..]);
      CountConcat(AddColumnSql(d, k, bt, tt, cs[0]), AddColumns(d, k, bt, tt, cs[1..]));
    }
  }

  lemma {:induction false} NoDestructiveChanges(d: Dialect, k: TableKey, bt: Table, tt: Table, cs: seq<string>)
    requires forall c :: c in cs ==> c in tt.columns.m
    ensures CountDestructive(ChangeColumns(d, k, bt, tt, cs)) == 0
  {
    if cs != [] {
      NoDestructiveChanges(d, k, bt, tt, cs[1..]);
      CountConcat(ChangeColumnSql(d, k, bt, tt, cs[0]), ChangeColumns(d, k, bt, tt, cs[1..]));
    }
  }

  lemma {:induction false} CountNotes(d: Dialect, k: TableKey, bt: Table, tt: Table)
    ensures CountDestructive(NotePrimaryKey(k, bt, tt)) == CountSeverity(PrimaryKeyRisk(k, bt, tt), Destructive)
    ensures CountDestructive(ChangeComment(d, k, bt, tt)) == 0
    ensures CountDestructive([]) == 0 && CountSeverity([], Destructive) == 0
  {
  }

  lemma {:induction false} NoDestructiveColumns(k: TableKey, bt: Table, tt: Table)
    ensures CountSeverity(Flat(c => AddColumnRisk(k, bt, tt, c), tt.columns.keys), Destructive) == 0
    ensures CountSeverity(Flat(c => ChangeColumnRisk(k, bt, tt, c), tt.columns.keys), Destructive) == 0
  {
    forall c ensures CountSeverity(ChangeColumnRisk(k, bt, tt, c), Destructive) == 0 {
      ChangeRisks(k, bt, tt, c);
    }
    NoneDestructive(c => AddColumnRisk(k, bt, tt, c), tt.columns.keys);
    NoneDestructive(c => ChangeColumnRisk(k, bt, tt, c), tt.columns.keys);
  }

  lemma {:induction false} ChangeRisks(k: TableKey, bt: Table, tt: Table, c: string)
    ensures CountSeverity(ChangeColumnRisk(k, bt, tt, c), Destructive) == 0
  {
    if c in bt.columns.m && c in tt.columns.m {
      var was, to := bt.columns.m[c], tt.columns.m[c];
      var r1 := if TypeText(was) != TypeText(to) then [Risk(ColumnRetyped, Warning, OfColumn(k, c))] else [];
      var r2 := if !was.notNull && to.notNull then [Risk(NotNullSet, Warning, OfColumn(k, c))] else [];
      var r3 := if was.notNull && !to.notNull then [Risk(NotNullDropped, Safe, OfColumn(k, c))] else [];
      SeverityConcat(r1, r2, Destructive);
      SeverityConcat(r1 + r2, r3, Destructive);
    }
  }

  lemma {:induction false} CountAlterTable(d: Dialect, k: TableKey, bt: Table, tt: Table)
    requires bt.columns.Valid() && tt.columns.Valid()
    ensures CountDestructive(AlterTable(d, k, bt, tt)) == CountSeverity(AlterTableRisks(k, bt, tt), Destructive)
  {
    var adds, drops := AddColumns(d, k, bt, tt, tt.columns.keys), DropColumns(k, tt, bt.columns.keys);
    var changes := ChangeColumns(d, k, bt, tt, tt.columns.keys);
    var pk, comment := NotePrimaryKey(k, bt, tt), ChangeComment(d, k, bt, tt);
    var ra := Flat(c => AddColumnRisk(k, bt, tt, c), tt.columns.keys);
    var rd := Flat(c => DropColumnRisk(k, tt, c), bt.columns.keys);
    var rc := Flat(c => ChangeColumnRisk(k, bt, tt, c), tt.columns.keys);
    var rp := PrimaryKeyRisk(k, bt, tt);
    assert AlterTableRisks(k, bt, tt) == ra + rd + rc + rp;
    hide AddColumns, DropColumns, ChangeColumns, CountDestructive, CountSeverity, Flat, NotePrimaryKey, ChangeComment,
      PrimaryKeyRisk, AlterTableRisks;
    CountDropColumns(k, tt, bt.columns.keys);
    NoDestructiveAdds(d, k, bt, tt, tt.columns.keys);
    NoDestructiveChanges(d, k, bt, tt, tt.columns.keys);
    NoDestructiveColumns(k, bt, tt);
    CountNotes(d, k, bt, tt);
    CountSix(adds, drops, changes, pk, comment, []);
    assert adds + drops + changes + pk + comment + [] == AlterTable(d, k, bt, tt);
    SeverityFive(ra, rd, rc, rp, [], Destructive);
    assert ra + rd + rc + rp + [] == ra + rd + rc + rp;
  }

  lemma {:induction false} CountAlterTables(d: Dialect, b: Index, t: Index, ks: seq<TableKey>)
    requires Listed(b) && Listed(t) && forall k :: k in ks ==> k in t.tables.m
    ensures CountDestructive(AlterTables(d, b, t, ks)) ==
      CountSeverity(Flat(k => SurvivorRisks(b, t, k), ks), Destructive)
  {
    hide AlterTable, AlterTableRisks;
    if ks != [] {
      var h, k := k => SurvivorRisks(b, t, k), ks[0];
      CountAlterTables(d, b, t, ks[1..]);
      FlatHead(h, ks);
      SeverityConcat(h(k), Flat(h, ks[1..]), Destructive);
      if k in b.tables.m {
        CountAlterTable(d, k, b.tables.m[k], t.tables.m[k]);
        CountConcat(AlterTable(d, k, b.tables.m[k], t.tables.m[k]), AlterTables(d, b, t, ks[1..]));
      } else {
        CountConcat([], AlterTables(d, b, t, ks[1..]));
      }
    }
  }

  lemma {:induction false} FkSqlHarmless(b: Index, t: Index, f: FkSignature)
    ensures f in b.fks.m ==> CountDestructive(DropFk(b, t, f)) == 0
    ensures f in t.fks.m ==> CountDestructive(AddFk(b, t, f)) == 0
  {
  }

  lemma {:induction false} NoDestructiveFkDrops(b: Index, t: Index, fs: seq<FkSignature>)
    requires forall f :: f in fs ==> f in b.fks.m
    ensures CountDestructive(DropFks(b, t, fs)) == 0
  {
    hide DropFk;
    if fs != [] {
      assert fs[0] in fs;
      FkSqlHarmless(b, t, fs[0]);
      NoDestructiveFkDrops(b, t, fs[1..]);
      CountConcat(DropFk(b, t, fs[0]), DropFks(b, t, fs[1..]));
    }
  }

  lemma {:induction false} NoDestructiveFkAdds(b: Index, t: Index, fs: seq<FkSignature>)
    requires forall f :: f in fs ==> f in t.fks.m
    ensures CountDestructive(AddFks(b, t, fs)) == 0
  {
    hide AddFk;
    if fs != [] {
      assert fs[0] in fs;
      FkSqlHarmless(b, t, fs[0]);
      NoDestructiveFkAdds(b, t, fs[1..]);
      CountConcat(AddFk(b, t, fs[0]), AddFks(b, t, fs[1..]));
    }
  }

  lemma {:induction false} NoDestructiveFks(b: Index, t: Index, fs: seq<FkSignature>)
    ensures (forall f :: f in fs ==> f in b.fks.m) ==> CountDestructive(DropFks(b, t, fs)) == 0
    ensures (forall f :: f in fs ==> f in t.fks.m) ==> CountDestructive(AddFks(b, t, fs)) == 0
  {
    hide CountDestructive, DropFks, AddFks;
    if forall f :: f in fs ==> f in b.fks.m {
      NoDestructiveFkDrops(b, t, fs);
    }
    if forall f :: f in fs ==> f in t.fks.m {
      NoDestructiveFkAdds(b, t, fs);
    }
  }

  lemma {:induction false} NoDestructiveCreates(d: Dialect, b: Index, t: Index, ks: seq<TableKey>, names: seq<string>)
    requires forall k :: k in ks ==> k in t.tables.m
    ensures CountDestructive(CreateTables(d, b, t, ks)) == 0 && CountDestructive(CreateSchemas(names)) == 0
    decreases |ks| + |names|
  {
    if ks != [] {
      NoDestructiveCreates(d, b, t, ks[1..], names);
      CountConcat(CreateTableSql(d, b, ks[0], t.tables.m[ks[0]]), CreateTables(d, b, t, ks[1..]));
    } else if names != [] {
      NoDestructiveCreates(d, b, t, ks, names[1..]);
      CountConcat([CreateSchema(names[0])], CreateSchemas(names[1..]));
    }
  }

  lemma {:induction false} NoDestructiveRisks(b: Index, t: Index)
    ensures CountSeverity(Flat(k => CreateTableRisk(b, k), t.tables.keys), Destructive) == 0
    ensures CountSeverity(Flat(f => AddFkRisk(b, f), t.fks.keys), Destructive) == 0
    ensures CountSeverity(Flat(f => DropFkRisk(t, f), b.fks.keys), Destructive) == 0
  {
    NoneDestructive(k => CreateTableRisk(b, k), t.tables.keys);
    NoneDestructive(f => AddFkRisk(b, f), t.fks.keys);
    NoneDestructive(f => DropFkRisk(t, f), b.fks.keys);
  }

  /** The report counts one destructive finding per DROP TABLE, DROP COLUMN and primary-key note written. */
  lemma {:induction false} DestructiveCountsAgree(d: Dialect, b: Index, t: Index)
    requires Listed(b) && Listed(t)
    ensures CountSeverity(Risks(b, t), Destructive) == CountDestructive(MigrationStmts(d, b, t))
  {
    var names := SortedStrings(MissingSchemas(b, t));
    hide AlterTables, AddFks, DropFks, DropTables, CreateTables, CreateSchemas, CountDestructive, CountSeverity, Flat,
      SortedStrings, MissingSchemas;
    CountSix(DropFks(b, t, b.fks.keys), DropTables(t, b.tables.keys), CreateSchemas(names),
             CreateTables(d, b, t, t.tables.keys), AlterTables(d, b, t, t.tables.keys), AddFks(b, t, t.fks.keys));
    NoDestructiveFks(b, t, b.fks.keys);
    NoDestructiveFks(b, t, t.fks.keys);
    NoDestructiveCreates(d, b, t, t.tables.keys, names);
    CountDropTables(t, b.tables.keys);
    CountAlterTables(d, b, t, t.tables.keys);
    NoDestructiveRisks(b, t);
    SeverityFive(Flat(k => DropTableRisk(t, k), b.tables.keys), Flat(k => CreateTableRisk(b, k), t.tables.keys),
                 Flat(k => SurvivorRisks(b, t, k), t.tables.keys), Flat(f => AddFkRisk(b, f), t.fks.keys),
                 Flat(f => DropFkRisk(t, f), b.fks.keys), Destructive);
  }

  /** The report warns of destruction exactly when the migration holds a statement or note that destroys. */
  lemma {:induction false} DestructiveFlagIff(d: Dialect, b: Index, t: Index)
    requires Listed(b) && Listed(t)
    ensures (exists r :: r in Risks(b, t) && r.severity == Destructive) <==>
      exists s :: s in MigrationStmts(d, b, t) && IsDestructive(s)
  {
    hide Risks, MigrationStmts, Listed, CountSeverity, CountDestructive;
    DestructiveCountsAgree(d, b, t);
    SeverityFound(Risks(b, t), Destructive);
    DestructiveFound(MigrationStmts(d, b, t));
  }

  lemma {:induction false} DestructiveFound(stmts: seq<Stmt>)
    ensures CountDestructive(stmts) > 0 <==> exists s :: s in stmts && IsDestructive(s)
  {
    if stmts != [] {
      DestructiveFound(stmts[1..]);
      assert stmts == [stmts[0]] + stmts[1..];
      assert stmts[0] in stmts;
    }
  }
}
