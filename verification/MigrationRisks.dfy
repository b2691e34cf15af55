/**
 What the report of backend/app/ddl/migration_safety.py finds, each finding said of the two snapshots alone, once,
 and in which order.
 */
module MigrationRisks {
  import opened Dicts
  import opened Lists
  import opened Migration
  import opened MigrationSafety
  import opened Orders
  import opened SchemaDiff
  import opened Snapshots
  import opened Text

  // ---------------------------------------------------------------- when a finding is due

  /** A column that both snapshots have. */
  ghost predicate Kept(b: Index, t: Index, k: TableKey, c: string) {
    && k in b.tables.m && k in t.tables.m && c in b.tables.m[k].columns.m && c in t.tables.m[k].columns.m
  }

  function TypeOf(ix: Index, k: TableKey, c: string): string
    requires k in ix.tables.m && c in ix.tables.m[k].columns.m
  {
    match ix.tables.m[k].columns.m[c].dataType
    case Some(text) => text
    case None => ""
  }

  function NotNull(ix: Index, k: TableKey, c: string): bool
    requires k in ix.tables.m && c in ix.tables.m[k].columns.m
  {
    ix.tables.m[k].columns.m[c].notNull
  }

  ghost predicate IsDueRisk(b: Index, t: Index, r: Risk) {
    match r.subject
    case OfTable(k) =>
      || (r == Risk(TableDropped, Destructive, OfTable(k)) && k in b.tables.m && k !in t.tables.m)
      || (r == Risk(TableCreated, Safe, OfTable(k)) && k !in b.tables.m && k in t.tables.m)
      || (r == Risk(PrimaryKeyChanged, Destructive, OfTable(k)) && k in b.tables.m && k in t.tables.m
          && b.tables.m[k].pk != t.tables.m[k].pk)
    case OfColumn(k, c) =>
      || (r == Risk(ColumnAdded, Warning, OfColumn(k, c)) && Comes(b, t, k, c) && NotNull(t, k, c))
      || (r == Risk(ColumnAdded, Safe, OfColumn(k, c)) && Comes(b, t, k, c) && !NotNull(t, k, c))
      || (r == Risk(ColumnDropped, Destructive, OfColumn(k, c)) && Comes(t, b, k, c))
      || (r == Risk(ColumnRetyped, Warning, OfColumn(k, c)) && Kept(b, t, k, c) && TypeOf(b, k, c) != TypeOf(t, k, c))
      || (r == Risk(NotNullSet, Warning, OfColumn(k, c)) && Kept(b, t, k, c) && !NotNull(b, k, c) && NotNull(t, k, c))
      || (r == Risk(NotNullDropped, Safe, OfColumn(k, c)) && Kept(b, t, k, c) && NotNull(b, k, c) && !NotNull(t, k, c))
    case OfForeignKey(f) =>
      || (r == Risk(ForeignKeyAdded, Warning, OfForeignKey(f)) && f !in b.fks.m && f in t.fks.m)
      || (r == Risk(ForeignKeyDropped, Safe, OfForeignKey(f)) && f in b.fks.m && f !in t.fks.m)
  }

  /** A column of a surviving table that only the second snapshot has. */
  ghost predicate Comes(b: Index, t: Index, k: TableKey, c: string) {
    k in b.tables.m && k in t.tables.m && c !in b.tables.m[k].columns.m && c in t.tables.m[k].columns.m
  }

  // ---------------------------------------------------------------- the findings are those

  lemma {:induction false} InFlat<A, B>(h: A -> seq<B>, s: seq<A>, y: B)
    ensures y in Flat(h, s) <==> exists x :: x in s && y in h(x)
  {
    if s != [] {
      var init, last := s[..|s| - 1], s[|s| - 1];
      InFlat(h, init, y);
      assert s == init + [last];
    }
  }

  lemma {:induction false} ColumnRiskIff(b: Index, t: Index, k: TableKey, c: string, r: Risk)
    requires k in b.tables.m && k in t.tables.m
    ensures var bt, tt := b.tables.m[k], t.tables.m[k];
      r in AddColumnRisk(k, bt, tt, c) || (c in bt.columns.m && r in DropColumnRisk(k, tt, c))
      || r in ChangeColumnRisk(k, bt, tt, c) <==>
      r.subject == OfColumn(k, c) && IsDueRisk(b, t, r)
  {
  }

  lemma {:induction false} AlterRiskIff(b: Index, t: Index, k: TableKey, r: Risk)
    requires k in b.tables.m && k in t.tables.m
    requires b.tables.m[k].columns.Valid() && t.tables.m[k].columns.Valid()
    ensures r in AlterTableRisks(k, b.tables.m[k], t.tables.m[k]) <==>
      IsDueRisk(b, t, r) && if r.subject.OfColumn? then r.subject.table == k
                            else r.category == PrimaryKeyChanged && r.subject == OfTable(k)
  {
    var bt, tt := b.tables.m[k], t.tables.m[k];
    InFlat(c => AddColumnRisk(k, bt, tt, c), tt.columns.keys, r);
    InFlat(c => DropColumnRisk(k, tt, c), bt.columns.keys, r);
    InFlat(c => ChangeColumnRisk(k, bt, tt, c), tt.columns.keys, r);
    forall c ensures
      (r in AddColumnRisk(k, bt, tt, c) || (c in bt.columns.m && r in DropColumnRisk(k, tt, c))
       || r in ChangeColumnRisk(k, bt, tt, c)) <==> (r.subject == OfColumn(k, c) && IsDueRisk(b, t, r))
    {
      ColumnRiskIff(b, t, k, c, r);
    }
  }

  lemma {:induction false} SurvivorRiskIff(b: Index, t: Index, r: Risk)
    requires Listed(b) && Listed(t)
    ensures r in Flat(k => SurvivorRisks(b, t, k), t.tables.keys) <==>
      IsDueRisk(b, t, r) && (r.subject.OfColumn? || r.category == PrimaryKeyChanged)
  {
    InFlat(k => SurvivorRisks(b, t, k), t.tables.keys, r);
    hide AlterTableRisks, Flat;
    forall k | k in b.tables.m && k in t.tables.m ensures r in SurvivorRisks(b, t, k) <==>
      (IsDueRisk(b, t, r) && if r.subject.OfColumn? then r.subject.table == k
                             else r.category == PrimaryKeyChanged && r.subject == OfTable(k))
    {
      AlterRiskIff(b, t, k, r);
    }
    if IsDueRisk(b, t, r) && (r.subject.OfColumn? || r.category == PrimaryKeyChanged) {
      assert r.subject.table in t.tables.keys;
    }
  }

  lemma {:induction false} TableRiskIff(b: Index, t: Index, r: Risk)
    requires Listed(b) && Listed(t)
    ensures r in Flat(k => DropTableRisk(t, k), b.tables.keys) <==> IsDueRisk(b, t, r) && r.category == TableDropped
    ensures r in Flat(k => CreateTableRisk(b, k), t.tables.keys) <==> IsDueRisk(b, t, r) && r.category == TableCreated
  {
    InFlat(k => DropTableRisk(t, k), b.tables.keys, r);
    InFlat(k => CreateTableRisk(b, k), t.tables.keys, r);
    hide Flat;
    if IsDueRisk(b, t, r) && r.category == TableDropped {
      assert r.subject.table in b.tables.keys && r in DropTableRisk(t, r.subject.table);
    }
    if IsDueRisk(b, t, r) && r.category == TableCreated {
      assert r.subject.table in t.tables.keys && r in CreateTableRisk(b, r.subject.table);
    }
  }

  lemma {:induction false} FkRiskIff(b: Index, t: Index, r: Risk)
    requires Listed(b) && Listed(t)
    ensures r in Flat(f => AddFkRisk(b, f), t.fks.keys) <==> IsDueRisk(b, t, r) && r.category == ForeignKeyAdded
    ensures r in Flat(f => DropFkRisk(t, f), b.fks.keys) <==> IsDueRisk(b, t, r) && r.category == ForeignKeyDropped
  {
    InFlat(f => AddFkRisk(b, f), t.fks.keys, r);
    InFlat(f => DropFkRisk(t, f), b.fks.keys, r);
    hide Flat;
    if IsDueRisk(b, t, r) && r.category == ForeignKeyAdded {
      assert r.subject.fk in t.fks.keys && r in AddFkRisk(b, r.subject.fk);
    }
    if IsDueRisk(b, t, r) && r.category == ForeignKeyDropped {
      assert r.subject.fk in b.fks.keys && r in DropFkRisk(t, r.subject.fk);
    }
  }

  lemma {:induction false} KindOfRisk(b: Index, t: Index, r: Risk)
    requires IsDueRisk(b, t, r)
    ensures r.subject.OfColumn? || r.category in {PrimaryKeyChanged, TableDropped, TableCreated, ForeignKeyAdded,
      ForeignKeyDropped}
  {
  }

  /** A finding is reported exactly if it is due. */
  lemma {:induction false} RiskIff(b: Index, t: Index, r: Risk)
    requires Listed(b) && Listed(t)
    ensures r in Risks(b, t) <==> IsDueRisk(b, t, r)
  {
    TableRiskIff(b, t, r);
    SurvivorRiskIff(b, t, r);
    FkRiskIff(b, t, r);
    hide Flat, IsDueRisk;
    if IsDueRisk(b, t, r) {
      KindOfRisk(b, t, r);
    }
  }

  // ---------------------------------------------------------------- each once

  lemma {:induction false} FlatOnce<A(!new), B>(h: A -> seq<B>, s: seq<A>)
    requires Distinct(s) && forall x :: x in s ==> Distinct(h(x))
    requires forall x, y, z :: x in s && y in s && x != y && z in h(x) ==> z !in h(y)
    ensures Distinct(Flat(h, s))
  {
    if s != [] {
      var init, last := s[..|s| - 1], s[|s| - 1];
      assert s == init + [last] && last !in init;
      FlatOnce(h, init);
      forall z | z in Flat(h, init) ensures z !in h(last) {
        InFlat(h, init, z);
      }
      JoinOnce(Flat(h, init), h(last));
    }
  }

  lemma {:induction false} JoinOnce<B>(a: seq<B>, b: seq<B>)
    requires Distinct(a) && Distinct(b) && forall z :: z in a ==> z !in b
    ensures Distinct(a + b)
  {
    forall i, j | 0 <= i < j < |a + b| ensures (a + b)[i] != (a + b)[j] {
      if i < |a| <= j {
        assert a[i] in a && (a + b)[j] == b[j - |a|];
      }
    }
  }

  lemma {:induction false} AddsOnce(k: TableKey, bt: Table, tt: Table)
    requires tt.columns.Valid()
    ensures var adds := Flat(c => AddColumnRisk(k, bt, tt, c), tt.columns.keys);
      Distinct(adds) && forall r :: r in adds ==> r.category == ColumnAdded
  {
    var add := c => AddColumnRisk(k, bt, tt, c);
    FlatOnce(add, tt.columns.keys);
    hide Flat;
    forall r: Risk ensures r in Flat(add, tt.columns.keys) ==> r.category == ColumnAdded {
      InFlat(add, tt.columns.keys, r);
    }
  }

  lemma {:induction false} DropsOnce(k: TableKey, bt: Table, tt: Table)
    requires bt.columns.Valid()
    ensures var drops := Flat(c => DropColumnRisk(k, tt, c), bt.columns.keys);
      Distinct(drops) && forall r :: r in drops ==> r.category == ColumnDropped
  {
    var drop := c => DropColumnRisk(k, tt, c);
    FlatOnce(drop, bt.columns.keys);
    hide Flat;
    forall r: Risk ensures r in Flat(drop, bt.columns.keys) ==> r.category == ColumnDropped {
      InFlat(drop, bt.columns.keys, r);
    }
  }

  lemma {:induction false} ChangeOnce(k: TableKey, bt: Table, tt: Table, c: string)
    ensures Distinct(ChangeColumnRisk(k, bt, tt, c))
    ensures forall r :: r in ChangeColumnRisk(k, bt, tt, c) ==>
      r.subject == OfColumn(k, c) && r.category in {ColumnRetyped, NotNullSet, NotNullDropped}
  {
    hide TypeText;
  }

  lemma {:induction false} ChangesOnce(k: TableKey, bt: Table, tt: Table)
    requires tt.columns.Valid()
    ensures var changes := Flat(c => ChangeColumnRisk(k, bt, tt, c), tt.columns.keys);
      Distinct(changes) && forall r :: r in changes ==> r.category in {ColumnRetyped, NotNullSet, NotNullDropped}
  {
    hide Flat, ChangeColumnRisk, TypeText;
    var change := c => ChangeColumnRisk(k, bt, tt, c);
    forall c ensures Distinct(change(c)) && forall r :: r in change(c) ==>
      r.subject == OfColumn(k, c) && r.category in {ColumnRetyped, NotNullSet, NotNullDropped}
    {
      ChangeOnce(k, bt, tt, c);
    }
    FlatOnce(change, tt.columns.keys);
    forall r: Risk
      ensures r in Flat(change, tt.columns.keys) ==> r.category in {ColumnRetyped, NotNullSet, NotNullDropped}
    {
      InFlat(change, tt.columns.keys, r);
    }
  }

  lemma {:induction false} AlterRisksOnce(b: Index, t: Index, k: TableKey)
    requires k in b.tables.m && k in t.tables.m
    requires b.tables.m[k].columns.Valid() && t.tables.m[k].columns.Valid()
    ensures Distinct(AlterTableRisks(k, b.tables.m[k], t.tables.m[k]))
  {
    hide Flat, Distinct, Dict<string, Column>.Valid;
    var bt, tt := b.tables.m[k], t.tables.m[k];
    AddsOnce(k, bt, tt);
    DropsOnce(k, bt, tt);
    ChangesOnce(k, bt, tt);
    var adds := Flat(c => AddColumnRisk(k, bt, tt, c), tt.columns.keys);
    var drops := Flat(c => DropColumnRisk(k, tt, c), bt.columns.keys);
    var changes := Flat(c => ChangeColumnRisk(k, bt, tt, c), tt.columns.keys);
    JoinOnce(adds, drops);
    JoinOnce(adds + drops, changes);
    OneOnce(PrimaryKeyRisk(k, bt, tt));
    JoinOnce(adds + drops + changes, PrimaryKeyRisk(k, bt, tt));
  }

  lemma {:induction false} OneOnce<B>(s: seq<B>)
    requires |s| <= 1
    ensures Distinct(s)
  {
  }

  lemma {:induction false} RiskKinds(b: Index, t: Index, r: Risk)
    requires Listed(b) && Listed(t)
    ensures r in Flat(k => DropTableRisk(t, k), b.tables.keys) ==> r.category == TableDropped && !r.subject.OfColumn?
    ensures r in Flat(k => CreateTableRisk(b, k), t.tables.keys) ==> r.category == TableCreated && !r.subject.OfColumn?
    ensures r in Flat(k => SurvivorRisks(b, t, k), t.tables.keys) ==>
      r.subject.OfColumn? || r.category == PrimaryKeyChanged
    ensures r in Flat(f => AddFkRisk(b, f), t.fks.keys) ==> r.category == ForeignKeyAdded && !r.subject.OfColumn?
    ensures r in Flat(f => DropFkRisk(t, f), b.fks.keys) ==> r.category == ForeignKeyDropped && !r.subject.OfColumn?
  {
    hide Flat, AlterTableRisks, IsDueRisk;
    InFlat(k => DropTableRisk(t, k), b.tables.keys, r);
    InFlat(k => CreateTableRisk(b, k), t.tables.keys, r);
    SurvivorRiskIff(b, t, r);
    InFlat(f => AddFkRisk(b, f), t.fks.keys, r);
    InFlat(f => DropFkRisk(t, f), b.fks.keys, r);
  }

  lemma {:induction false} PartsOnce(b: Index, t: Index)
    requires Listed(b) && Listed(t)
    ensures Distinct(Flat(k => DropTableRisk(t, k), b.tables.keys))
    ensures Distinct(Flat(k => CreateTableRisk(b, k), t.tables.keys))
    ensures Distinct(Flat(k => SurvivorRisks(b, t, k), t.tables.keys))
    ensures Distinct(Flat(f => AddFkRisk(b, f), t.fks.keys))
    ensures Distinct(Flat(f => DropFkRisk(t, f), b.fks.keys))
  {
    hide Flat, SurvivorRisks, IsDueRisk;
    FlatOnce(k => DropTableRisk(t, k), b.tables.keys);
    FlatOnce(k => CreateTableRisk(b, k), t.tables.keys);
    FlatOnce(f => AddFkRisk(b, f), t.fks.keys);
    FlatOnce(f => DropFkRisk(t, f), b.fks.keys);
    SurvivorsOnce(b, t);
  }

  /** No finding is reported twice. */
  lemma {:induction false} RisksOnce(b: Index, t: Index)
    requires Listed(b) && Listed(t)
    ensures Distinct(Risks(b, t))
  {
    hide Flat, SurvivorRisks, DropTableRisk, CreateTableRisk, AddFkRisk, DropFkRisk, Distinct;
    var drops := Flat(k => DropTableRisk(t, k), b.tables.keys);
    var creates := Flat(k => CreateTableRisk(b, k), t.tables.keys);
    var alters := Flat(k => SurvivorRisks(b, t, k), t.tables.keys);
    var adds, gone := Flat(f => AddFkRisk(b, f), t.fks.keys), Flat(f => DropFkRisk(t, f), b.fks.keys);
    PartsOnce(b, t);
    forall r: Risk
      ensures r in drops ==> r.category == TableDropped && !r.subject.OfColumn?
      ensures r in creates ==> r.category == TableCreated && !r.subject.OfColumn?
      ensures r in alters ==> r.subject.OfColumn? || r.category == PrimaryKeyChanged
      ensures r in adds ==> r.category == ForeignKeyAdded && !r.subject.OfColumn?
      ensures r in gone ==> r.category == ForeignKeyDropped && !r.subject.OfColumn?
    {
      RiskKinds(b, t, r);
    }
    JoinOnce(drops, creates);
    JoinOnce(drops + creates, alters);
    JoinOnce(drops + creates + alters, adds);
    JoinOnce(drops + creates + alters + adds, gone);
  }

  lemma {:induction false} SurvivorsOnce(b: Index, t: Index)
    requires Listed(b) && Listed(t)
    ensures Distinct(Flat(k => SurvivorRisks(b, t, k), t.tables.keys))
  {
    var alter := k => SurvivorRisks(b, t, k);
    hide AlterTableRisks, Flat, IsDueRisk;
    forall k | k in t.tables.keys ensures Distinct(alter(k)) {
      if k in b.tables.m {
        AlterRisksOnce(b, t, k);
      }
    }
    forall k, l, r | k in t.tables.keys && l in t.tables.keys && k != l && r in alter(k) ensures r !in alter(l) {
      AlterRiskIff(b, t, k, r);
      if l in b.tables.m {
        AlterRiskIff(b, t, l, r);
      }
    }
    FlatOnce(alter, t.tables.keys);
  }

  // ---------------------------------------------------------------- in which order

  /** What a finding is about, as it is shown and sorted by. */
  lemma {:induction false} TargetIs(k: TableKey, c: string, f: FkSignature)
    ensures TargetText(OfTable(k)) == if k.schemaName == "" then k.relationName else k.schemaName + "." + k.relationName
    ensures TargetText(OfColumn(k, c)) == TargetText(OfTable(k)) + "." + c
    ensures TargetText(OfForeignKey(f)) ==
      TargetText(OfTable(f.child)) + "(" + Join(f.childColumns, ", ") + ") -> " + TargetText(OfTable(f.parent))
  {
  }

  /** Destructive findings come first, then warnings, then safe ones; each kind in the order of what it is about. */
  ghost predicate Reported(items: seq<Risk>) {
    forall i, j :: 0 <= i < j < |items| ==>
      || (items[i].severity == Destructive && items[j].severity != Destructive)
      || (items[i].severity == Warning && items[j].severity == Safe)
      || (items[i].severity == items[j].severity
          && StringLe(TargetText(items[i].subject), TargetText(items[j].subject)))
  }

  /** The report, sorted, holds what is due and nothing else, each finding once. */
  lemma {:induction false} ReportIs(b: Index, t: Index)
    requires Listed(b) && Listed(t)
    ensures var items := Sort(RiskLe, Risks(b, t));
      Reported(items) && Distinct(items) && forall r :: r in items <==> IsDueRisk(b, t, r)
  {
    hide Risks, StringLe, TargetText, IsDueRisk, Sort;
    var items := Sort(RiskLe, Risks(b, t));
    RisksOnce(b, t);
    RiskOrder();
    SortSorted(RiskLe, Risks(b, t));
    SortDistinct(RiskLe, Risks(b, t));
    forall i, j | 0 <= i < j < |items| ensures RiskLe(items[i], items[j]) {
    }
    forall r ensures r in items <==> IsDueRisk(b, t, r) {
      RiskIff(b, t, r);
    }
  }
}
